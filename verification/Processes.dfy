// The memory of all processes together, under allocproc, freeproc, growproc and fork of kernel/proc.c and under exec:
// every page that is not free is a table page of one process, a page of one process, or the kernel's.
module Processes {
  import opened Basics
  import opened Sv39
  import opened Vm
  import opened PagePrice
  import opened UserCopy
  import opened ProgramImage
  import opened Loader = Exec

  datatype Proc = Proc(root: nat, sz: nat, trapframe: nat)

  // The pages of p besides its tables.
  ghost function PagesOf(t: Tables, p: Proc, s: Space): set<nat> {
    if Sized(t, s) then Frames(t, s, 0, Up(p.sz)) + {p.trapframe} else {}
  }

  ghost predicate Owns(t: Tables, d: map<nat, Bytes>, p: Proc, s: Space, trampoline: nat) {
    && ProcSpace(t, d, s, p.sz, Kernel(trampoline, p.trapframe)) && s.root == p.root
    && p.trapframe in d && p.trapframe !in Frames(t, s, 0, Up(p.sz))
  }

  ghost predicate Apart(t: Tables, p: Proc, s: Space, p1: Proc, s1: Space) {
    s.Nodes() !! s1.Nodes() && PagesOf(t, p, s) !! PagesOf(t, p1, s1)
  }

  ghost predicate SomeTable(spaces: map<nat, Space>, page: nat) {
    exists i :: i in spaces && page in spaces[i].Nodes()
  }

  ghost predicate SomePage(t: Tables, procs: map<nat, Proc>, spaces: map<nat, Space>, page: nat)
    requires procs.Keys == spaces.Keys
  {
    exists i :: i in procs && page in PagesOf(t, procs[i], spaces[i])
  }

  // kt and kd are the kernel's own tables and pages.
  datatype Rest = Rest(trampoline: nat, kt: set<nat>, kd: set<nat>)

  ghost predicate AllOwn(t: Tables, d: map<nat, Bytes>, procs: map<nat, Proc>, spaces: map<nat, Space>,
      trampoline: nat) {
    procs.Keys == spaces.Keys && forall i :: i in procs ==> Owns(t, d, procs[i], spaces[i], trampoline)
  }

  ghost predicate AllApart(t: Tables, procs: map<nat, Proc>, spaces: map<nat, Space>, k: Rest)
    requires procs.Keys == spaces.Keys
  {
    && (forall i, j :: i in procs && j in procs && i != j ==> Apart(t, procs[i], spaces[i], procs[j], spaces[j]))
    && (forall i :: i in procs ==> spaces[i].Nodes() !! k.kt && PagesOf(t, procs[i], spaces[i]) !! k.kd)
  }

  ghost predicate AllTaken(t: Tables, d: map<nat, Bytes>, procs: map<nat, Proc>, spaces: map<nat, Space>, k: Rest)
    requires procs.Keys == spaces.Keys
  {
    && k.kt <= t.Keys && k.kd <= d.Keys
    && (forall page :: page in t ==> page in k.kt || SomeTable(spaces, page))
    && (forall page :: page in d ==> page in k.kd || SomePage(t, procs, spaces, page))
  }

  // Every table page and every other page in use has exactly one owner.
  ghost predicate System(t: Tables, d: map<nat, Bytes>, procs: map<nat, Proc>, spaces: map<nat, Space>, k: Rest) {
    AllOwn(t, d, procs, spaces, k.trampoline) && AllApart(t, procs, spaces, k) && AllTaken(t, d, procs, spaces, k)
  }

  // What the process has is as it was.
  ghost predicate Untouched(t: Tables, d: map<nat, Bytes>, t1: Tables, d1: map<nat, Bytes>, p: Proc, s: Space) {
    && Sized(t, s) && Sized(t1, s) && SameMap(t, s, t1, s)
    && forall page :: page in PagesOf(t, p, s) ==> page in d && page in d1 && d1[page] == d[page]
  }

  lemma OwnsStill(t: Tables, d: map<nat, Bytes>, t1: Tables, d1: map<nat, Bytes>, p: Proc, s: Space, trampoline: nat)
    requires Owns(t, d, p, s, trampoline)
    requires forall page :: page in s.Nodes() ==> page in t && page in t1 && t1[page] == t[page]
    requires forall page :: page in PagesOf(t, p, s) ==> page in d && page in d1 && d1[page] == d[page]
    ensures Owns(t1, d1, p, s, trampoline) && PagesOf(t1, p, s) == PagesOf(t, p, s) && Untouched(t, d, t1, d1, p, s)
  {
    hide Lookup, RootOk, MidOk, BottomOk, Separate, Frames, Space.Nodes, KernelPte;
    SameTree(t, t1, s);
    FramesSame(t, s, t1, s, 0, Up(p.sz));
    hide Sized;
    FramesAmong(t, d, s, Up(p.sz));
    assert OwnsRange(t1, s, d1, 0, Up(p.sz));
  }

  lemma FramesAmong(t: Tables, d: map<nat, Bytes>, s: Space, n: nat)
    requires Sized(t, s) && OwnsRange(t, s, d, 0, n)
    ensures forall w: nat :: w < n ==> Lookup(t, s, w).Some? && Lookup(t, s, w).value.ppn in Frames(t, s, 0, n)
  {
    hide Lookup, Sized;
  }

  lemma PagesAmong(t: Tables, d: map<nat, Bytes>, p: Proc, s: Space, trampoline: nat)
    requires Owns(t, d, p, s, trampoline)
    ensures s.Nodes() <= t.Keys && PagesOf(t, p, s) <= d.Keys
  {
    hide Lookup, RootOk, MidOk, BottomOk, Separate, Sized, Frames, Space.Nodes, KernelPte;
    NodesInTables(t, s);
    FramesInData(t, d, s, Up(p.sz));
  }

  // The processes other than i keep their tables and pages.
  ghost predicate OthersSame(t: Tables, d: map<nat, Bytes>, t1: Tables, d1: map<nat, Bytes>, procs: map<nat, Proc>,
      spaces: map<nat, Space>, i: nat, trampoline: nat)
    requires procs.Keys == spaces.Keys
  {
    forall j {:trigger PagesOf(t1, procs[j], spaces[j])} {:trigger PagesOf(t, procs[j], spaces[j])} ::
      j in procs && j != i ==>
      Owns(t1, d1, procs[j], spaces[j], trampoline)
        && PagesOf(t1, procs[j], spaces[j]) == PagesOf(t, procs[j], spaces[j])
  }

  // Every other process has what it had.
  ghost predicate Others(t: Tables, d: map<nat, Bytes>, procs: map<nat, Proc>, spaces: map<nat, Space>, t1: Tables,
      d1: map<nat, Bytes>, i: nat) {
    forall j :: j in procs && j != i ==> j in spaces && Untouched(t, d, t1, d1, procs[j], spaces[j])
  }

  lemma KeepOthers(t: Tables, d: map<nat, Bytes>, procs: map<nat, Proc>, spaces: map<nat, Space>, k: Rest, i: nat,
      t1: Tables, d1: map<nat, Bytes>)
    requires System(t, d, procs, spaces, k)
    requires forall page ::
      page in t && (i in spaces ==> page !in spaces[i].Nodes()) ==> page in t1 && t1[page] == t[page]
    requires forall page ::
      page in d && (i in procs ==> page !in PagesOf(t, procs[i], spaces[i])) ==> page in d1 && d1[page] == d[page]
    ensures OthersSame(t, d, t1, d1, procs, spaces, i, k.trampoline) && Others(t, d, procs, spaces, t1, d1, i)
  {
    hide Owns, PagesOf, Space.Nodes, Untouched, AllTaken;
    forall j | j in procs && j != i
      ensures Owns(t1, d1, procs[j], spaces[j], k.trampoline)
        && PagesOf(t1, procs[j], spaces[j]) == PagesOf(t, procs[j], spaces[j])
      ensures Untouched(t, d, t1, d1, procs[j], spaces[j])
    {
      assert i in procs ==> Apart(t, procs[i], spaces[i], procs[j], spaces[j]);
      PagesAmong(t, d, procs[j], spaces[j], k.trampoline);
      OwnsStill(t, d, t1, d1, procs[j], spaces[j], k.trampoline);
    }
  }

  // A process whose pages have all gone leaves the others as they were.
  lemma Removed(t: Tables, d: map<nat, Bytes>, procs: map<nat, Proc>, spaces: map<nat, Space>, k: Rest, i: nat)
    requires System(t, d, procs, spaces, k) && i in procs
    ensures i in spaces
    ensures System(t - spaces[i].Nodes(), d - PagesOf(t, procs[i], spaces[i]), procs - {i}, spaces - {i}, k)
    ensures Others(t, d, procs, spaces, t - spaces[i].Nodes(), d - PagesOf(t, procs[i], spaces[i]), i)
  {
    hide Owns, PagesOf, Space.Nodes, Others;
    var t1, d1 := t - spaces[i].Nodes(), d - PagesOf(t, procs[i], spaces[i]);
    KeepOthers(t, d, procs, spaces, k, i, t1, d1);
    RemovedApart(t, d, procs, spaces, k, i, t1, d1);
    RemovedTaken(t, d, procs, spaces, k, i, t1, d1);
    hide AllApart, AllTaken, Apart;
  }

  lemma RemovedApart(t: Tables, d: map<nat, Bytes>, procs: map<nat, Proc>, spaces: map<nat, Space>, k: Rest, i: nat,
      t1: Tables, d1: map<nat, Bytes>)
    requires procs.Keys == spaces.Keys && AllApart(t, procs, spaces, k)
      && OthersSame(t, d, t1, d1, procs, spaces, i, k.trampoline)
    ensures AllApart(t1, procs - {i}, spaces - {i}, k)
  {
    hide Owns, PagesOf, Space.Nodes;
    forall j,
        l | j in procs - {i} && l in procs - {i} && j != l ensures Apart(t1, procs[j], spaces[j], procs[l], spaces[l]) {
      assert Apart(t, procs[j], spaces[j], procs[l], spaces[l]);
    }
  }

  lemma RemovedTaken(t: Tables, d: map<nat, Bytes>, procs: map<nat, Proc>, spaces: map<nat, Space>, k: Rest, i: nat,
      t1: Tables, d1: map<nat, Bytes>)
    requires System(t, d, procs, spaces, k) && i in procs && OthersSame(t, d, t1, d1, procs, spaces, i, k.trampoline)
    requires t1 == t - spaces[i].Nodes() && d1 == d - PagesOf(t, procs[i], spaces[i])
    ensures AllTaken(t1, d1, procs - {i}, spaces - {i}, k)
  {
    hide Owns, PagesOf, Space.Nodes;
    assert spaces[i].Nodes() !! k.kt && PagesOf(t, procs[i], spaces[i]) !! k.kd;
    hide Apart;
    RemovedTables(t, spaces, k.kt, i);
    forall page | page in d1 && page !in k.kd ensures SomePage(t1, procs - {i}, spaces - {i}, page) {
      assert SomePage(t, procs, spaces, page);
      var j :| j in procs && page in PagesOf(t, procs[j], spaces[j]);
      assert j in procs - {i};
    }
    hide SomeTable, OthersSame, AllOwn, AllApart;
  }

  lemma RemovedTables(t: Tables, spaces: map<nat, Space>, kt: set<nat>, i: nat)
    requires i in spaces && forall page :: page in t ==> page in kt || SomeTable(spaces, page)
    ensures forall page :: page in t && page !in spaces[i].Nodes() ==> page in kt || SomeTable(spaces - {i}, page)
  {
    hide Space.Nodes;
    forall page | page in t && page !in spaces[i].Nodes() && page !in kt ensures SomeTable(spaces - {i}, page) {
      assert SomeTable(spaces, page);
      var j :| j in spaces && page in spaces[j].Nodes();
      assert j in spaces - {i};
    }
  }

  // So does a new process all of whose pages were free.
  lemma Added(t: Tables, d: map<nat, Bytes>, procs: map<nat, Proc>, spaces: map<nat, Space>, k: Rest, i: nat,
              t1: Tables, d1: map<nat, Bytes>, p: Proc, s: Space)
    requires System(t, d, procs, spaces, k) && i !in procs
    requires TablesApart(t, t1, s) && DataApart(d, d1, PagesOf(t1, p, s)) && Owns(t1, d1, p, s, k.trampoline)
    ensures System(t1, d1, procs[i := p], spaces[i := s], k)
    ensures Others(t, d, procs, spaces, t1, d1, i)
  {
    hide Owns, PagesOf, Space.Nodes, Others;
    KeepOthers(t, d, procs, spaces, k, i, t1, d1);
    AddedApart(t, d, procs, spaces, k, i, t1, d1, p, s);
    AddedTaken(t, d, procs, spaces, k, i, t1, d1, p, s);
    hide AllApart, AllTaken, Apart, TablesApart, DataApart;
  }

  lemma AddedApart(t: Tables, d: map<nat, Bytes>, procs: map<nat, Proc>, spaces: map<nat, Space>, k: Rest, i: nat,
                   t1: Tables, d1: map<nat, Bytes>, p: Proc, s: Space)
    requires System(t, d, procs, spaces, k) && i !in procs && OthersSame(t, d, t1, d1, procs, spaces, i, k.trampoline)
    requires TablesApart(t, t1, s) && DataApart(d, d1, PagesOf(t1, p, s))
    ensures AllApart(t1, procs[i := p], spaces[i := s], k)
  {
    hide Owns, PagesOf, Space.Nodes;
    var procs1, spaces1 := procs[i := p], spaces[i := s];
    forall j | j in procs ensures Apart(t1, procs[j], spaces[j], p, s) {
      PagesAmong(t, d, procs[j], spaces[j], k.trampoline);
    }
    forall j, l | j in procs1 && l in procs1 && j != l ensures Apart(t1, procs1[j], spaces1[j], procs1[l], spaces1[l]) {
      if j != i && l != i {
        assert Apart(t, procs[j], spaces[j], procs[l], spaces[l]);
      }
    }
  }

  lemma AddedTaken(t: Tables, d: map<nat, Bytes>, procs: map<nat, Proc>, spaces: map<nat, Space>, k: Rest, i: nat,
                   t1: Tables, d1: map<nat, Bytes>, p: Proc, s: Space)
    requires System(t, d, procs, spaces, k) && i !in procs && OthersSame(t, d, t1, d1, procs, spaces, i, k.trampoline)
    requires TablesApart(t, t1, s) && DataApart(d, d1, PagesOf(t1, p, s))
    ensures AllTaken(t1, d1, procs[i := p], spaces[i := s], k)
  {
    hide Owns, PagesOf, Space.Nodes, Apart;
    var procs1, spaces1 := procs[i := p], spaces[i := s];
    forall page | page in t1 && page !in k.kt ensures SomeTable(spaces1, page) {
      if page in s.Nodes() {
        assert i in spaces1 && page in spaces1[i].Nodes();
      } else {
        assert SomeTable(spaces, page);
        var j :| j in spaces && page in spaces[j].Nodes();
        assert j in spaces1 && page in spaces1[j].Nodes();
      }
    }
    forall page | page in d1 && page !in k.kd ensures SomePage(t1, procs1, spaces1, page) {
      if page in PagesOf(t1, p, s) {
        assert i in procs1 && page in PagesOf(t1, procs1[i], spaces1[i]);
      } else {
        assert SomePage(t, procs, spaces, page);
        var j :| j in procs && page in PagesOf(t, procs[j], spaces[j]);
        assert j in procs1 && page in PagesOf(t1, procs1[j], spaces1[j]);
      }
    }
  }

  // A change of one process that keeps to its own pages and to free ones.
  lemma Replaced(t: Tables, d: map<nat, Bytes>, procs: map<nat, Proc>, spaces: map<nat, Space>, k: Rest, i: nat,
                 t1: Tables, d1: map<nat, Bytes>, p: Proc, s: Space)
    requires System(t, d, procs, spaces, k) && i in procs && i in spaces
    requires TablesApart(t - spaces[i].Nodes(), t1, s)
    requires DataApart(d - PagesOf(t, procs[i], spaces[i]), d1, PagesOf(t1, p, s)) && Owns(t1, d1, p, s, k.trampoline)
    ensures System(t1, d1, procs[i := p], spaces[i := s], k)
    ensures Others(t, d, procs, spaces, t1, d1, i)
  {
    hide System, Owns, PagesOf, Space.Nodes, TablesApart, DataApart, Untouched;
    var t0, d0 := t - spaces[i].Nodes(), d - PagesOf(t, procs[i], spaces[i]);
    Removed(t, d, procs, spaces, k, i);
    SystemKeys(t, d, procs, spaces, k);
    Added(t0, d0, procs - {i}, spaces - {i}, k, i, t1, d1, p, s);
    assert (procs - {i})[i := p] == procs[i := p] && (spaces - {i})[i := s] == spaces[i := s];
    forall j | j in procs && j != i ensures Untouched(t, d, t1, d1, procs[j], spaces[j]) {
      assert j in procs - {i};
      UntouchedTrans(t, d, t0, d0, t1, d1, procs[j], spaces[j]);
    }
  }

  lemma SystemKeys(t: Tables, d: map<nat, Bytes>, procs: map<nat, Proc>, spaces: map<nat, Space>, k: Rest)
    requires System(t, d, procs, spaces, k)
    ensures procs.Keys == spaces.Keys
  {}

  lemma SystemOwns(t: Tables, d: map<nat, Bytes>, procs: map<nat, Proc>, spaces: map<nat, Space>, k: Rest, i: nat)
    requires System(t, d, procs, spaces, k) && i in procs
    ensures i in spaces && Owns(t, d, procs[i], spaces[i], k.trampoline)
  {}

  lemma UntouchedTrans(t: Tables, d: map<nat, Bytes>, t0: Tables, d0: map<nat, Bytes>, t1: Tables, d1: map<nat, Bytes>,
      p: Proc, s: Space)
    requires Untouched(t, d, t0, d0, p, s) && Untouched(t0, d0, t1, d1, p, s)
    ensures Untouched(t, d, t1, d1, p, s)
  {
    hide Lookup, Sized, Frames;
    assert PagesOf(t0, p, s) == PagesOf(t, p, s) by {
      FramesSame(t, s, t0, s, 0, Up(p.sz));
    }
    assert forall w: nat {:trigger Lookup(t1, s, w)} ::
      Lookup(t1, s, w) == Lookup(t0, s, w) && Lookup(t0, s, w) == Lookup(t, s, w);
  }

  // ----- one process, as Exec sees it

  lemma OwnOf(t: Tables, d: map<nat, Bytes>, p: Proc, s: Space, trampoline: nat)
    requires Owns(t, d, p, s, trampoline)
    ensures Own(t - s.Nodes(), d - Frames(t, s, 0, Up(p.sz)), t, d, s, Up(p.sz))
      && Fixed(t, s, Up(p.sz), Kernel(trampoline, p.trapframe))
    ensures p.trapframe in d - Frames(t, s, 0, Up(p.sz))
    ensures d - Frames(t, s, 0, Up(p.sz)) - {p.trapframe} == d - PagesOf(t, p, s)
  {
    hide Lookup, RootOk, MidOk, BottomOk, Separate, Frames, Space.Nodes, KernelPte;
    PagesAmong(t, d, p, s, trampoline);
    ApartFrom(t, s);
    DataFrom(d, Frames(t, s, 0, Up(p.sz)));
    hide Sized, TablesApart, DataApart;
  }

  lemma OwnsOf(t0: Tables, d0: map<nat, Bytes>, t: Tables, d: map<nat, Bytes>, p: Proc, s: Space, trampoline: nat)
    requires Own(t0, d0, t, d, s, Up(p.sz)) && Fixed(t, s, Up(p.sz), Kernel(trampoline, p.trapframe))
      && s.root == p.root
    requires p.trapframe in d0
    ensures Owns(t, d, p, s, trampoline) && TablesApart(t0, t, s) && DataApart(d0 - {p.trapframe}, d, PagesOf(t, p, s))
  {
    hide Lookup, RootOk, MidOk, BottomOk, Separate, Frames, Space.Nodes, KernelPte, OwnsRange, TablesApart;
  }

  lemma OwnLess(t0: Tables, d0: map<nat, Bytes>, t: Tables, d: map<nat, Bytes>, s: Space, n: nat, page: nat)
    requires Own(t0, d0, t, d, s, n) && page in d0
    ensures Own(t0, d0 - {page}, t, d - {page}, s, n)
  {
    hide Lookup, RootOk, MidOk, BottomOk, Separate, Space.Nodes, TablesApart, Sized;
    FramesAmong(t, d, s, n);
    hide Frames;
  }

  // Without its trapframe page the process is its space.
  lemma ReadyToFree(t: Tables, d: map<nat, Bytes>, p: Proc, s: Space, trampoline: nat)
    requires Owns(t, d, p, s, trampoline)
    ensures Own(t - s.Nodes(), d - PagesOf(t, p, s), t, d - {p.trapframe}, s, Up(p.sz))
    ensures Fixed(t, s, Up(p.sz), Kernel(trampoline, p.trapframe)) && s.root == p.root && p.trapframe in d
  {
    OwnOf(t, d, p, s, trampoline);
    hide Own, Fixed, Lookup, Frames, Space.Nodes;
    OwnLess(t - s.Nodes(), d - Frames(t, s, 0, Up(p.sz)), t, d, s, Up(p.sz), p.trapframe);
  }

  lemma OwnShrunk(t0: Tables, d0: map<nat, Bytes>, t: Tables, d: map<nat, Bytes>, s: Space, n: nat, k: Kernel,
      t1: Tables, d1: map<nat, Bytes>, n1: nat)
    requires Own(t0, d0, t, d, s, n) && Fixed(t, s, n, k) && WellFormed(t1, s) && OnlyGrew(t, s, t1, s) && n1 <= n
    requires Unmapped(t, s, t1, n1, n - n1) && d1 == d - Frames(t, s, n1, n - n1)
    ensures Own(t0, d0, t1, d1, s, n1) && Fixed(t1, s, n1, k)
  {
    hide Lookup, RootOk, MidOk, BottomOk, Separate, Space.Nodes, TablesApart, OnlyGrew, Sized, Frames, Unmapped,
        OwnsRange, Fixed;
    NodesGrown(t0, t, s, t1, s);
    FramesCut(t, s, d, n, t1, n1);
    RangeCut(t, s, d, n, t1, d1, n1);
    FixedCut(t, s, n, t1, n1, k);
    FramesInData(t, d, s, n);
  }

  lemma RangeCut(t: Tables, s: Space, d: map<nat, Bytes>, n: nat, t1: Tables, d1: map<nat, Bytes>, n1: nat)
    requires Sized(t, s) && Sized(t1, s) && OwnsRange(t, s, d, 0, n) && n1 <= n
    requires Unmapped(t, s, t1, n1, n - n1) && d1 == d - Frames(t, s, n1, n - n1)
    ensures OwnsRange(t1, s, d1, 0, n1)
  {
    hide Lookup, Sized;
    FramesCut(t, s, d, n, t1, n1);
    hide Frames;
    assert forall w: nat :: w < n1 ==> Lookup(t1, s, w) == Lookup(t, s, w);
  }

  lemma FixedCut(t: Tables, s: Space, n: nat, t1: Tables, n1: nat, k: Kernel)
    requires Sized(t, s) && Sized(t1, s) && Fixed(t, s, n, k) && n1 <= n < TRAPFRAME && Unmapped(t, s, t1, n1, n - n1)
    ensures Fixed(t1, s, n1, k)
  {
    hide Lookup, Sized;
    assert forall w: nat {:trigger Lookup(t1, s, w)} ::
      w >= n1 ==> Lookup(t1, s, w) == if w < n then None else Lookup(t, s, w);
  }

  lemma FramesCut(t: Tables, s: Space, d: map<nat, Bytes>, n: nat, t1: Tables, n1: nat)
    requires Sized(t, s) && Sized(t1, s) && OwnsRange(t, s, d, 0, n) && n1 <= n && Unmapped(t, s, t1, n1, n - n1)
    ensures Frames(t1, s, 0, n1) == Frames(t, s, 0, n) - Frames(t, s, n1, n - n1)
      && Frames(t, s, n1, n - n1) <= Frames(t, s, 0, n)
    ensures forall w: nat :: w < n1 ==> Lookup(t, s, w).value.ppn !in Frames(t, s, n1, n - n1)
  {
    hide Lookup, Sized;
    forall p | p in Frames(t, s, 0, n) && p !in Frames(t, s, n1, n - n1) ensures p in Frames(t1, s, 0, n1) {
      var w: nat :| w < n && Lookup(t, s, w).Some? && Lookup(t, s, w).value.ppn == p;
      assert Lookup(t1, s, w) == Lookup(t, s, w);
    }
    forall p | p in Frames(t1, s, 0, n1) ensures p in Frames(t, s, 0, n) && p !in Frames(t, s, n1, n - n1) {
      var w: nat :| w < n1 && Lookup(t1, s, w).Some? && Lookup(t1, s, w).value.ppn == p;
      assert Lookup(t1, s, w) == Lookup(t, s, w);
    }
  }

  lemma OwnCopied(t0: Tables, d0: map<nat, Bytes>, t: Tables, d: map<nat, Bytes>, so: Space, s: Space, t1: Tables,
      d1: map<nat, Bytes>, s1: Space, n: nat, k: Kernel)
    requires Own(t0, d0, t, d, s, 0) && Fixed(t, s, 0, k) && Sized(t, so) && WellFormed(t1, s1)
      && OnlyGrew(t, s, t1, s1) && n < TRAPFRAME
    requires Copied(t, so, s, d, t1, s1, d1, n)
    ensures Own(t0, d0, t1, d1, s1, n) && Fixed(t1, s1, n, k)
  {
    hide Lookup, RootOk, MidOk, BottomOk, Separate, Space.Nodes, TablesApart, OnlyGrew, Sized, OwnsRange;
    NodesGrown(t0, t, s, t1, s1);
    assert Frames(t, s, 0, 0) == {};
    FreshFrames(t, so, d, t1, s1, d1, n);
    hide Frames, CopyPage;
  }

  lemma FreshFrames(t: Tables, so: Space, d: map<nat, Bytes>, t1: Tables, s1: Space, d1: map<nat, Bytes>, n: nat)
    requires Sized(t, so) && Sized(t1, s1)
    requires forall w: nat {:trigger Lookup(t1, s1, w)} ::
      w < n ==> CopyPage(Lookup(t, so, w), Lookup(t1, s1, w), d, d1)
    ensures Frames(t1, s1, 0, n) !! d.Keys
  {
    hide Lookup, Sized;
  }

  // The process has changed, within its own pages and free ones.
  ghost predicate Changed(t: Tables, d: map<nat, Bytes>, p: Proc, s: Space, t1: Tables, d1: map<nat, Bytes>, p1: Proc,
      s1: Space, trampoline: nat) {
    && TablesApart(t - s.Nodes(), t1, s1) && DataApart(d - PagesOf(t, p, s), d1, PagesOf(t1, p1, s1))
    && Owns(t1, d1, p1, s1, trampoline)
  }

  // Its first n pages are mapped as they were and hold what they held.
  ghost predicate Keeps(t: Tables, d: map<nat, Bytes>, s: Space, t1: Tables, d1: map<nat, Bytes>, s1: Space, n: nat) {
    && Sized(t, s) && Sized(t1, s1)
    && forall w: nat {:trigger Lookup(t1, s1, w)} :: w < n ==>
         Lookup(t1, s1, w) == Lookup(t, s, w) && Lookup(t, s, w).Some?
         && Lookup(t, s, w).value.ppn in d && Lookup(t, s, w).value.ppn in d1
         && d1[Lookup(t, s, w).value.ppn] == d[Lookup(t, s, w).value.ppn]
  }

  // The child's pages are copies of the parent's first n, with the same permissions, in frames of their own.
  ghost predicate Twin(t: Tables, d: map<nat, Bytes>, so: Space, t1: Tables, d1: map<nat, Bytes>, s1: Space, n: nat) {
    && Sized(t, so) && Sized(t1, s1)
    && forall w: nat {:trigger Lookup(t1, s1, w)} :: w < n ==> CopyPage(Lookup(t, so, w), Lookup(t1, s1, w), d, d1)
  }

  lemma ReadyToGrow(t: Tables, d: map<nat, Bytes>, p: Proc, s: Space, trampoline: nat)
    requires Owns(t, d, p, s, trampoline)
    ensures WellFormed(t, s) && s.root == p.root && OwnsRange(t, s, d, 0, Up(p.sz)) && p.sz < MAXVA
      && PgRoundUp(p.sz) <= MAXVA
    ensures forall w: nat :: Up(p.sz) <= w < TRAPFRAME ==> Lookup(t, s, w) == None
  {
    hide Lookup, RootOk, MidOk, BottomOk, Separate, Sized, Frames, OwnsRange;
    KernelAbove(t, s, Up(p.sz), Kernel(trampoline, p.trapframe));
    UpMonotone(p.sz, p.sz);
    hide Fixed;
  }

  lemma RangeTail(t: Tables, s: Space, d: map<nat, Bytes>, n: nat, m: nat)
    requires Sized(t, s) && OwnsRange(t, s, d, 0, n) && m <= n
    ensures OwnsRange(t, s, d, m, n - m)
  {
    hide Lookup, Sized;
  }

  lemma ProcGrown(t: Tables, d: map<nat, Bytes>, p: Proc, s: Space, trampoline: nat, t1: Tables, d1: map<nat, Bytes>,
      s1: Space, newsz: nat, xperm: Perm)
    requires Owns(t, d, p, s, trampoline) && WellFormed(t1, s1) && s1.root == s.root && OnlyGrew(t, s, t1, s1)
    requires Extended(t, s, d, t1, s1, d1, Up(p.sz), Up(newsz), UserPerm(xperm)) && Up(newsz) < TRAPFRAME
    ensures Changed(t, d, p, s, t1, d1, p.(sz := newsz), s1, trampoline) && Keeps(t, d, s, t1, d1, s1, Up(p.sz))
  {
    var k := Kernel(trampoline, p.trapframe);
    OwnOf(t, d, p, s, trampoline);
    hide Own, Fixed, Owns, Frames, Space.Nodes, PagesOf, OnlyGrew, RootOk, MidOk, BottomOk, Separate, TablesApart,
        DataApart, Up;
    OwnGrown(t - s.Nodes(), d - Frames(t, s, 0, Up(p.sz)), t, d, s, Up(p.sz), t1, d1, s1, Up(newsz), UserPerm(xperm),
        k);
    OwnsOf(t - s.Nodes(), d - Frames(t, s, 0, Up(p.sz)), t1, d1, p.(sz := newsz), s1, trampoline);
    ReadyToGrow(t, d, p, s, trampoline);
    hide Lookup, Sized;
  }

  lemma ProcSame(t: Tables, d: map<nat, Bytes>, p: Proc, s: Space, trampoline: nat, t1: Tables, s1: Space)
    requires Owns(t, d, p, s, trampoline) && WellFormed(t1, s1) && s1.root == s.root && OnlyGrew(t, s, t1, s1)
      && SameMap(t, s, t1, s1)
    ensures Changed(t, d, p, s, t1, d, p, s1, trampoline) && Keeps(t, d, s, t1, d, s1, Up(p.sz))
  {
    var k := Kernel(trampoline, p.trapframe);
    OwnOf(t, d, p, s, trampoline);
    hide Own, Fixed, Owns, Frames, Space.Nodes, PagesOf, OnlyGrew, RootOk, MidOk, BottomOk, Separate, TablesApart,
        DataApart, Up;
    OwnSame(t - s.Nodes(), d - Frames(t, s, 0, Up(p.sz)), t, d, s, Up(p.sz), t1, s1, k);
    OwnsOf(t - s.Nodes(), d - Frames(t, s, 0, Up(p.sz)), t1, d, p, s1, trampoline);
    ReadyToGrow(t, d, p, s, trampoline);
    hide Lookup, Sized;
  }

  lemma ProcShrunk(t: Tables, d: map<nat, Bytes>, p: Proc, s: Space, trampoline: nat, t1: Tables, d1: map<nat, Bytes>,
      newsz: nat)
    requires Owns(t, d, p, s, trampoline) && WellFormed(t1, s) && OnlyGrew(t, s, t1, s) && Up(newsz) <= Up(p.sz)
    requires Unmapped(t, s, t1, Up(newsz), Up(p.sz) - Up(newsz))
      && d1 == d - Frames(t, s, Up(newsz), Up(p.sz) - Up(newsz))
    ensures Changed(t, d, p, s, t1, d1, p.(sz := newsz), s, trampoline) && Keeps(t, d, s, t1, d1, s, Up(newsz))
  {
    var k := Kernel(trampoline, p.trapframe);
    OwnOf(t, d, p, s, trampoline);
    ReadyToGrow(t, d, p, s, trampoline);
    hide Own, Fixed, Owns, Frames, Space.Nodes, PagesOf, OnlyGrew, RootOk, MidOk, BottomOk, Separate, TablesApart,
        DataApart, Up;
    OwnShrunk(t - s.Nodes(), d - Frames(t, s, 0, Up(p.sz)), t, d, s, Up(p.sz), k, t1, d1, Up(newsz));
    OwnsOf(t - s.Nodes(), d - Frames(t, s, 0, Up(p.sz)), t1, d1, p.(sz := newsz), s, trampoline);
    FramesCut(t, s, d, Up(p.sz), t1, Up(newsz));
    hide Lookup, Sized;
  }

  lemma ProcCopied(t: Tables, d: map<nat, Bytes>, p: Proc, s: Space, trampoline: nat, so: Space, t1: Tables,
      d1: map<nat, Bytes>, s1: Space, sz: nat)
    requires Owns(t, d, p, s, trampoline) && p.sz == 0 && Sized(t, so) && WellFormed(t1, s1) && s1.root == s.root
      && OnlyGrew(t, s, t1, s1)
    requires Copied(t, so, s, d, t1, s1, d1, Up(sz)) && Up(sz) < TRAPFRAME
    ensures Changed(t, d, p, s, t1, d1, p.(sz := sz), s1, trampoline) && Twin(t, d, so, t1, d1, s1, Up(sz))
  {
    var k := Kernel(trampoline, p.trapframe);
    assert Up(p.sz) == 0;
    OwnOf(t, d, p, s, trampoline);
    hide Own, Fixed, Owns, Frames, Space.Nodes, PagesOf, OnlyGrew, RootOk, MidOk, BottomOk, Separate, TablesApart,
        DataApart, Up;
    OwnCopied(t - s.Nodes(), d - Frames(t, s, 0, 0), t, d, so, s, t1, d1, s1, Up(sz), k);
    OwnsOf(t - s.Nodes(), d - Frames(t, s, 0, 0), t1, d1, p.(sz := sz), s1, trampoline);
    hide Lookup, Sized;
  }

  lemma ProcReplaced(t: Tables, d: map<nat, Bytes>, p: Proc, s: Space, trampoline: nat, t1: Tables, d1: map<nat, Bytes>,
      p1: Proc, s1: Space, guard: nat)
    requires Owns(t, d, p, s, trampoline) && s1.root == p1.root && p1.trapframe == p.trapframe
    requires Built(t - s.Nodes(), d - Frames(t, s, 0, Up(p.sz)), t1, d1, s1, Up(p1.sz), guard,
        Kernel(trampoline, p.trapframe))
    ensures Changed(t, d, p, s, t1, d1, p1, s1, trampoline)
  {
    OwnOf(t, d, p, s, trampoline);
    hide Own, Fixed, Owns, Frames, Space.Nodes, PagesOf, Lookup, Whole;
    OwnsOf(t - s.Nodes(), d - Frames(t, s, 0, Up(p.sz)), t1, d1, p1, s1, trampoline);
  }

  // ----- the operations

  lemma OthersStill(t: Tables, d: map<nat, Bytes>, procs: map<nat, Proc>, spaces: map<nat, Space>, k: Rest, i: nat)
    requires System(t, d, procs, spaces, k)
    ensures Others(t, d, procs, spaces, t, d, i)
  {
    hide PagesOf, Space.Nodes, Owns;
    KeepOthers(t, d, procs, spaces, k, i, t, d);
  }

  lemma ChangeOk(t: Tables, d: map<nat, Bytes>, procs: map<nat, Proc>, spaces: map<nat, Space>, k: Rest, i: nat,
                 t1: Tables, d1: map<nat, Bytes>, p1: Proc, s1: Space)
    requires System(t, d, procs, spaces, k) && i in procs && i in spaces
    requires Changed(t, d, procs[i], spaces[i], t1, d1, p1, s1, k.trampoline)
    ensures System(t1, d1, procs[i := p1], spaces[i := s1], k) && Others(t, d, procs, spaces, t1, d1, i)
  {
    hide System, Owns, PagesOf, Space.Nodes, TablesApart, DataApart, Others;
    Replaced(t, d, procs, spaces, k, i, t1, d1, p1, s1);
  }

  lemma NoChange(t: Tables, d: map<nat, Bytes>, p: Proc, s: Space, trampoline: nat)
    requires Owns(t, d, p, s, trampoline)
    ensures Changed(t, d, p, s, t, d, p, s, trampoline) && Keeps(t, d, s, t, d, s, Up(p.sz))
  {
    hide RootOk, MidOk, BottomOk, Separate, Lookup, Changed, Keeps, Frames;
    StartWalk(t, s);
    hide Sized, Owns;
    ProcSame(t, d, p, s, trampoline, t, s);
  }

  lemma OthersTrans(t: Tables, d: map<nat, Bytes>, procs: map<nat, Proc>, spaces: map<nat, Space>, t1: Tables,
      d1: map<nat, Bytes>,
                    procs1: map<nat, Proc>, spaces1: map<nat, Space>, t2: Tables, d2: map<nat, Bytes>, i: nat)
    requires Others(t, d, procs, spaces, t1, d1, i) && Others(t1, d1, procs1, spaces1, t2, d2, i)
    requires forall j :: j in procs && j != i ==> j in procs1 && procs1[j] == procs[j]
    requires forall j :: j in spaces && j != i ==> j in spaces1 && spaces1[j] == spaces[j]
    ensures Others(t, d, procs, spaces, t2, d2, i)
  {
    hide Untouched;
    forall j | j in procs && j != i ensures Untouched(t, d, t2, d2, procs[j], spaces[j]) {
      UntouchedTrans(t, d, t1, d1, t2, d2, procs[j], spaces[j]);
    }
  }

  // The parent was the same before the child had its first page.
  lemma TwinSince(t: Tables, d: map<nat, Bytes>, p: Proc, so: Space, trampoline: nat, t1: Tables, d1: map<nat, Bytes>,
                  t2: Tables, d2: map<nat, Bytes>, s2: Space)
    requires Owns(t, d, p, so, trampoline) && Untouched(t, d, t1, d1, p, so) && d.Keys <= d1.Keys
    requires Twin(t1, d1, so, t2, d2, s2, Up(p.sz))
    ensures Twin(t, d, so, t2, d2, s2, Up(p.sz))
  {
    hide Lookup, Sized, RootOk, MidOk, BottomOk, Separate, Up;
    FramesAmong(t, d, so, Up(p.sz));
    hide Frames;
    forall w: nat | w < Up(p.sz) ensures CopyPage(Lookup(t, so, w), Lookup(t2, s2, w), d, d2) {
      assert CopyPage(Lookup(t1, so, w), Lookup(t2, s2, w), d1, d2);
      assert Lookup(t1, so, w) == Lookup(t, so, w);
    }
  }

  // What uvmcopy asks of parent and child.
  lemma ReadyToCopy(t: Tables, d: map<nat, Bytes>, procs: map<nat, Proc>, spaces: map<nat, Space>, k: Rest, i: nat,
      j: nat)
    requires System(t, d, procs, spaces, k) && i in procs && j in procs && i != j && procs[j].sz == 0
    ensures i in spaces && j in spaces && WellFormed(t, spaces[i]) && WellFormed(t, spaces[j])
      && spaces[i].Nodes() !! spaces[j].Nodes()
    ensures spaces[i].root == procs[i].root && spaces[j].root == procs[j].root && Up(procs[i].sz) < TRAPFRAME
    ensures OwnsRange(t, spaces[i], d, 0, Up(procs[i].sz))
    ensures forall w :: 0 <= w < Up(procs[i].sz) ==> Lookup(t, spaces[j], w) == None
  {
    hide AllTaken, PagesOf, Space.Nodes;
    assert Apart(t, procs[i], spaces[i], procs[j], spaces[j]);
    assert Owns(t, d, procs[i], spaces[i], k.trampoline) && Owns(t, d, procs[j], spaces[j], k.trampoline);
    hide Apart, AllApart, Frames, Lookup;
    assert Up(procs[j].sz) == 0;
    KernelAbove(t, spaces[j], 0, Kernel(k.trampoline, procs[j].trapframe));
  }

  // The sum in growproc.
  lemma Wrapped(sz: nat, n: int)
    requires sz < MAXVA && -0x8000_0000 <= n < 0
    ensures (sz + n) % WORD64 == if sz + n >= 0 then sz + n else sz + n + WORD64
    ensures sz + n < 0 ==> (sz + n) % WORD64 >= sz
    ensures sz + n >= 0 ==> Up(sz + n) <= Up(sz)
  {
    assert sz + n < 0 ==> (sz + n + WORD64) % WORD64 == sz + n + WORD64;
  }

  // What it takes to grow from one size to another: the pages and the tables that are not there yet.
  ghost function GrowthCost(s: Space, sz: nat, newsz: nat): int {
    if newsz < sz then 0 else Missing(s, Up(sz), Up(newsz)) + Up(newsz) - Up(sz)
  }

  lemma UpZero()
    ensures Up(0) == 0
  {}

  lemma ChildCost(s: Space, sz: nat)
    requires Filled(s, 0) && Up(sz) <= PAGES
    ensures GrowthCost(s, 0, sz) + Price(0) == Price(Up(sz))
  {
    hide Missing, Filled, Price;
    assert Up(0) == 0;
    PriceStep(s, 0, Up(sz));
  }

  // kalloc fills the page with junk.
  method GetPage(mem: Memory) returns (r: Option<nat>)
    requires mem.Valid()
    modifies mem
    ensures mem.Valid() && mem.All() == old(mem.All()) && mem.tables == old(mem.tables)
    ensures r.None? ==> mem.data == old(mem.data)
    ensures r.Some? ==> r.value !in old(mem.data) && mem.data == old(mem.data)[r.value := seq(PGSIZE, _ => 5)]
    ensures |old(mem.freelist)| == |mem.freelist| + if r.Some? then 1 else 0
    ensures r.None? ==> mem.freelist == []
  {
    r := mem.Kalloc();
    if r.Some? {
      mem.data := mem.data[r.value := seq(PGSIZE, _ => 5)];
    }
  }

  method DropPage(mem: Memory, p: nat)
    requires mem.Valid() && p in mem.data
    modifies mem
    ensures mem.Valid() && mem.All() == old(mem.All()) && mem.tables == old(mem.tables)
      && mem.data == old(mem.data) - {p}
  {
    mem.Kfree(p);
  }

  class Machine {
    const mem: Memory
    const trampoline: nat
    ghost const rest: Rest
    var procs: map<nat, Proc>          // the slots in use
    ghost var spaces: map<nat, Space>

    ghost predicate Valid()
      reads this, mem
    {
      && mem.Valid() && |mem.All()| <= PAGES && rest.trampoline == trampoline
      && System(mem.tables, mem.data, procs, spaces, rest)
    }

    // After kinit: no process, no page taken.
    constructor (lo: nat, hi: nat, trampoline: nat)
      requires lo <= hi <= lo + PAGES
      ensures Valid() && fresh(mem) && procs == map[] && mem.All() == Between(lo, hi)
    {
      BetweenSize(lo, hi);
      mem := new Memory(lo, hi);
      this.trampoline := trampoline;
      rest := Rest(trampoline, {}, {});
      procs, spaces := map[], map[];
    }

    // The page is a table of process i, or one of its other pages.
    ghost predicate Has(i: nat, page: nat)
      reads this, mem
      requires Valid()
    {
      i in procs && (page in spaces[i].Nodes() || page in PagesOf(mem.tables, procs[i], spaces[i]))
    }

    // Every page of memory is free, or the kernel's, or of exactly one process, in one way.
    lemma OneOwner(page: nat)
      requires Valid() && page in mem.All()
      ensures page in Set(mem.freelist) ==> page !in rest.kt + rest.kd && forall i: nat :: !Has(i, page)
      ensures page !in Set(mem.freelist) ==> page in rest.kt + rest.kd || exists i: nat :: Has(i, page)
      ensures forall i: nat, j: nat :: Has(i, page) && Has(j, page) ==> i == j && page !in rest.kt + rest.kd
      ensures forall i: nat ::
        Has(i, page) ==> (page in spaces[i].Nodes() <==> page !in PagesOf(mem.tables, procs[i], spaces[i]))
    {
      hide Owns, PagesOf, Space.Nodes, Distinct, Set;
      forall i: nat | Has(i, page)
        ensures spaces[i].Nodes() <= mem.tables.Keys && PagesOf(mem.tables, procs[i], spaces[i]) <= mem.data.Keys
      {
        assert Owns(mem.tables, mem.data, procs[i], spaces[i], trampoline);
        PagesAmong(mem.tables, mem.data, procs[i], spaces[i], trampoline);
      }
      forall i: nat, j: nat | Has(i, page) && Has(j, page) ensures i == j {
        if i != j {
          OwnersApart(i, j, page);
        }
      }
      if page !in Set(mem.freelist) {
        Taken(page);
      }
    }

    lemma OwnersApart(i: nat, j: nat, page: nat)
      requires Valid() && i != j
      ensures !(Has(i, page) && Has(j, page))
    {
      hide Owns, PagesOf, Space.Nodes, AllTaken;
      if i in procs && j in procs {
        assert Apart(mem.tables, procs[i], spaces[i], procs[j], spaces[j]);
        PagesAmong(mem.tables, mem.data, procs[i], spaces[i], trampoline);
        PagesAmong(mem.tables, mem.data, procs[j], spaces[j], trampoline);
      }
    }

    lemma Taken(page: nat)
      requires Valid() && page in mem.All() && page !in Set(mem.freelist)
      ensures page in rest.kt + rest.kd || exists i: nat :: Has(i, page)
    {
      hide Owns, PagesOf, Space.Nodes, Distinct, Set, AllApart;
      if page in mem.tables && page !in rest.kt {
        assert SomeTable(spaces, page);
        var i :| i in spaces && page in spaces[i].Nodes();
        assert Has(i, page);
      } else if page in mem.data && page !in rest.kd {
        assert SomePage(mem.tables, procs, spaces, page);
        var i :| i in procs && page in PagesOf(mem.tables, procs[i], spaces[i]);
        assert Has(i, page);
      }
    }

    // allocproc for slot i: a trapframe page and a page table, or nothing.
    method Allocproc(i: nat) returns (ok: bool)
      requires Valid() && i !in procs
      modifies this`procs, this`spaces, mem
      ensures Valid() && mem.All() == old(mem.All())
      ensures !ok ==>
        procs == old(procs) && spaces == old(spaces) && mem.tables == old(mem.tables) && mem.data == old(mem.data)
      ensures ok ==>
        i in procs && i in spaces && procs == old(procs)[i := procs[i]] && spaces == old(spaces)[i := spaces[i]]
      ensures ok ==> procs[i].sz == 0
      ensures ok ==>
        mem.tables - spaces[i].Nodes() == old(mem.tables)
          && mem.data - PagesOf(mem.tables, procs[i], spaces[i]) == old(mem.data)
      ensures ok <==> |old(mem.freelist)| >= 1 + Price(0)
      ensures ok ==> Priced(|old(mem.freelist)| - 1, |mem.freelist|, spaces[i], 0)
      ensures Others(old(mem.tables), old(mem.data), old(procs), old(spaces), mem.tables, mem.data, i)
    {
      hide System, Owns, PagesOf, Own, Fixed, Memory.All, Memory.Valid, Lookup, Untouched, Space.Nodes, Frames, Price,
        Priced;
      ghost var t, d := mem.tables, mem.data;
      OthersStill(t, d, procs, spaces, rest, i);
      SystemKeys(t, d, procs, spaces, rest);
      var tf := GetPage(mem);
      if tf.None? {
        return false;
      }
      ghost var d1 := mem.data;
      var root;
      ghost var s;
      root, s := ProcPagetable(mem, Kernel(trampoline, tf.value));
      if root.None? {
        DropPage(mem, tf.value);
        assert mem.data == d;
        return false;
      }
      var p := Proc(root.value, 0, tf.value);
      assert Up(0) == 0;
      OwnsOf(t, d1, mem.tables, mem.data, p, s, trampoline);
      assert d1 - {tf.value} == d;
      Added(t, d, procs, spaces, rest, i, mem.tables, mem.data, p, s);
      procs, spaces := procs[i := p], spaces[i := s];
      ok := true;
    }

    // freeproc: exactly the pages of the process are free again.
    method Freeproc(i: nat)
      requires Valid() && i in procs
      modifies this`procs, this`spaces, mem
      ensures Valid() && mem.All() == old(mem.All()) && i in old(spaces)
      ensures procs == old(procs) - {i} && spaces == old(spaces) - {i}
      ensures mem.tables == old(mem.tables) - old(spaces)[i].Nodes()
      ensures mem.data == old(mem.data) - PagesOf(old(mem.tables), old(procs)[i], old(spaces)[i])
      ensures Others(old(mem.tables), old(mem.data), old(procs), old(spaces), mem.tables, mem.data, i)
    {
      hide System, Owns, PagesOf, Own, Fixed, Memory.All, Memory.Valid, Lookup, Sized, Others, Space.Nodes, Frames;
      SystemOwns(mem.tables, mem.data, procs, spaces, rest, i);
      ghost var t, d, s := mem.tables, mem.data, spaces[i];
      var p := procs[i];
      ReadyToFree(t, d, p, s, trampoline);
      DropPage(mem, p.trapframe);
      ProcFreepagetable(mem, p.root, p.sz, Kernel(trampoline, p.trapframe), s, t - s.Nodes(), d - PagesOf(t, p, s));
      Removed(t, d, procs, spaces, rest, i);
      procs, spaces := procs - {i}, spaces - {i};
    }

    // growproc. The sum is taken in 64 bits: a shrink by more than there is wraps, and changes nothing.
    method Growproc(i: nat, n: int) returns (r: int)
      requires Valid() && i in procs && -0x8000_0000 <= n < 0x8000_0000
      modifies this`procs, this`spaces, mem
      ensures Valid() && mem.All() == old(mem.All()) && i in procs && i in spaces && i in old(spaces)
      ensures procs == old(procs)[i := procs[i]] && spaces == old(spaces)[i := spaces[i]]
      ensures r == 0 || r == -1
      ensures r == -1 <==>
        n > 0 && |old(mem.freelist)| < GrowthCost(old(spaces)[i], old(procs)[i].sz, old(procs)[i].sz + n)
      ensures procs[i]
        == old(procs)[i].(sz := if r == 0 && old(procs)[i].sz + n >= 0 then old(procs)[i].sz + n else old(procs)[i].sz)
      ensures Keeps(old(mem.tables), old(mem.data), old(spaces)[i], mem.tables, mem.data, spaces[i],
          Up(if n < 0 then procs[i].sz else old(procs)[i].sz))
      ensures r == 0 && n > 0 ==>
        GrownBy(old(mem.tables), old(mem.data), old(spaces)[i], mem.tables, mem.data, spaces[i], old(procs)[i].sz,
            procs[i].sz)
      ensures Others(old(mem.tables), old(mem.data), old(procs), old(spaces), mem.tables, mem.data, i)
    {
      hide System, Owns, PagesOf, Memory.All, Memory.Valid, Lookup, Sized, Others, Space.Nodes, Frames, Extended,
          OnlyGrew, SameMap,
        RootOk, MidOk, BottomOk, Separate, OwnsRange, Unmapped, Keeps, Changed, Up, PgRoundUp, Missing, Tops, Mids;
      SystemOwns(mem.tables, mem.data, procs, spaces, rest, i);
      ghost var t, d, s := mem.tables, mem.data, spaces[i];
      var p := procs[i];
      ReadyToGrow(t, d, p, s, trampoline);
      ghost var s1 := s;
      var sz := p.sz;
      r := 0;
      if n > 0 {
        ghost var ok;
        sz, s1, ok := mem.Uvmalloc(p.sz, p.sz + n, WRITABLE, p.root, s);
        if ok {
          ProcGrown(t, d, p, s, trampoline, mem.tables, mem.data, s1, p.sz + n, WRITABLE);
        } else {
          ProcSame(t, d, p, s, trampoline, mem.tables, s1);
        }
        if sz == 0 {
          sz, r := p.sz, -1;
        }
      } else if n < 0 {
        Wrapped(p.sz, n);
        if p.sz + n >= 0 {
          RangeTail(mem.tables, s, mem.data, Up(p.sz), Up(p.sz + n));
        }
        sz := mem.Uvmdealloc(p.sz, (p.sz + n) % WORD64, p.root, s);
        if p.sz + n >= 0 {
          ProcShrunk(t, d, p, s, trampoline, mem.tables, mem.data, sz);
        } else {
          NoChange(t, d, p, s, trampoline);
        }
      } else {
        NoChange(t, d, p, s, trampoline);
      }
      ChangeOk(t, d, procs, spaces, rest, i, mem.tables, mem.data, p.(sz := sz), s1);
      procs, spaces := procs[i := p.(sz := sz)], spaces[i := s1];
    }

    lemma SizeBound(i: nat)
      requires Valid() && i in procs
      ensures Up(procs[i].sz) <= PAGES
    {
      hide Lookup, RootOk, MidOk, BottomOk, Separate, Sized, Space.Nodes, KernelPte, AllApart, AllTaken, Distinct, Up;
      assert Owns(mem.tables, mem.data, procs[i], spaces[i], trampoline);
      OwnsBound(mem.tables, spaces[i], mem.data, Up(procs[i].sz));
      FramesInData(mem.tables, mem.data, spaces[i], Up(procs[i].sz));
      SubsetSize(Frames(mem.tables, spaces[i], 0, Up(procs[i].sz)), mem.All());
    }

    // uvmcopy from process i to the new process j, whose size is set.
    method CopyMemory(i: nat, j: nat) returns (r: int)
      requires Valid() && i in procs && j in procs && i != j && procs[j].sz == 0
      modifies this`procs, this`spaces, mem
      ensures Valid() && mem.All() == old(mem.All()) && i in old(spaces) && j in spaces && j in procs
      ensures r == if |old(mem.freelist)| < GrowthCost(old(spaces)[j], 0, old(procs)[i].sz) then -1 else 0
      ensures procs == old(procs)[j := old(procs)[j].(sz := if r == 0 then old(procs)[i].sz else 0)]
        && spaces == old(spaces)[j := spaces[j]]
      ensures r == 0 ==>
        Twin(old(mem.tables), old(mem.data), old(spaces)[i], mem.tables, mem.data, spaces[j], Up(old(procs)[i].sz))
      ensures Others(old(mem.tables), old(mem.data), old(procs), old(spaces), mem.tables, mem.data, j)
    {
      hide System, Owns, PagesOf, Memory.All, Memory.Valid, Lookup, Sized, Others, Space.Nodes, Frames, OnlyGrew,
          SameMap,
        RootOk, MidOk, BottomOk, Separate, OwnsRange, Copied, Twin, Untouched, Keeps, Changed, Up, Missing, Tops, Mids;
      ghost var t, d := mem.tables, mem.data;
      var p := procs[j];
      UpZero();
      ReadyToCopy(t, d, procs, spaces, rest, i, j);
      SystemOwns(t, d, procs, spaces, rest, j);
      ghost var s1;
      r, s1 := mem.Uvmcopy(procs[i].root, p.root, procs[i].sz, spaces[i], spaces[j]);
      if r < 0 {
        ProcSame(t, d, p, spaces[j], trampoline, mem.tables, s1);
      } else {
        ProcCopied(t, d, p, spaces[j], trampoline, spaces[i], mem.tables, mem.data, s1, procs[i].sz);
        p := p.(sz := procs[i].sz);
      }
      ChangeOk(t, d, procs, spaces, rest, j, mem.tables, mem.data, p, s1);
      procs, spaces := procs[j := p], spaces[j := s1];
    }

    // The memory of fork: slot j becomes a copy of process i, or stays free.
    method Fork(i: nat, j: nat) returns (ok: bool)
      requires Valid() && i in procs && j !in procs
      modifies this`procs, this`spaces, mem
      ensures Valid() && mem.All() == old(mem.All()) && i in old(spaces)
      ensures ok <==> |old(mem.freelist)| >= 1 + Price(Up(old(procs)[i].sz))
      ensures !ok ==> procs == old(procs)
      ensures ok ==> j in procs && j in spaces && procs == old(procs)[j := procs[j]] && procs[j].sz == procs[i].sz
      ensures ok ==>
        Twin(old(mem.tables), old(mem.data), old(spaces)[i], mem.tables, mem.data, spaces[j], Up(procs[i].sz))
      ensures Others(old(mem.tables), old(mem.data), old(procs), old(spaces), mem.tables, mem.data, j)
    {
      hide System, Owns, PagesOf, Memory.All, Memory.Valid, Others, Space.Nodes, Twin, Up, Price, Filled, Missing;
      SystemOwns(mem.tables, mem.data, procs, spaces, rest, i);
      SizeBound(i);
      PriceMonotone(0, Up(procs[i].sz));
      SystemKeys(mem.tables, mem.data, procs, spaces, rest);
      ghost var t, d, procs0, spaces0 := mem.tables, mem.data, procs, spaces;
      ok := Allocproc(j);
      if !ok {
        return;
      }
      ghost var t1, d1, procs1, spaces1 := mem.tables, mem.data, procs, spaces;
      ChildCost(spaces[j], procs[i].sz);
      var r := CopyMemory(i, j);
      OthersTrans(t, d, procs0, spaces0, t1, d1, procs1, spaces1, mem.tables, mem.data, j);
      if r < 0 {
        ghost var t2, d2, procs2, spaces2 := mem.tables, mem.data, procs, spaces;
        Freeproc(j);
        OthersTrans(t, d, procs0, spaces0, t2, d2, procs2, spaces2, mem.tables, mem.data, j);
        return false;
      }
      OtherSame(t, d, procs0, spaces0, t1, d1, i, j);
      TwinSince(t, d, procs0[i], spaces0[i], trampoline, t1, d1, mem.tables, mem.data, spaces[j]);
    }

    // exec in process i.
    method Run(i: nat, headerOk: bool, segs: seq<Segment>, file: Bytes, args: seq<Bytes>)
      returns (r: int, sp: nat, ghost guard: nat, ustack: seq<nat>)
      requires Valid() && i in procs
      requires forall m :: 0 <= m < |segs| && segs[m].Load? ==> segs[m].vaddr < WORD64 && segs[m].memsz < WORD64
      requires |args| != MAXARG && forall m :: 0 <= m < |args| ==> |args[m]| < PGSIZE
      modifies this`procs, this`spaces, mem
      ensures Valid() && mem.All() == old(mem.All()) && i in procs && i in spaces
      ensures procs == old(procs)[i := procs[i]] && spaces == old(spaces)[i := spaces[i]]
      ensures r == -1 ==> procs == old(procs) && mem.tables == old(mem.tables) && mem.data == old(mem.data)
      ensures r != -1 <==> headerOk && Runs(segs, file, args, |old(mem.freelist)|)
      ensures r != -1 ==> r == |args| && procs[i].sz == (Up(TopOf(segs)) + 2) * PGSIZE
      ensures r != -1 ==> Shows(mem.tables, spaces[i], mem.data, ImageOf(segs, file, Up(TopOf(segs)) * PGSIZE))
      ensures r != -1 ==> Sized(mem.tables, spaces[i]) && Backed(mem.tables, spaces[i], mem.data)
      ensures r != -1 ==> ArgsAt(mem.tables, spaces[i], mem.data, args, ustack, sp)
      ensures Others(old(mem.tables), old(mem.data), old(procs), old(spaces), mem.tables, mem.data, i)
    {
      hide System, PagesOf, Memory.All, Memory.Valid, Lookup, Sized, Others, Space.Nodes, Frames, RootOk, MidOk,
          BottomOk, Separate, OwnsRange,
        Backed, Shows, ArgsAt, ReadsAs, Changed, Up, TopOf, ImageOf, Built, Fixed, Runs;
      SystemOwns(mem.tables, mem.data, procs, spaces, rest, i);
      ghost var t, d, s := mem.tables, mem.data, spaces[i];
      var p := procs[i];
      OthersStill(t, d, procs, spaces, rest, i);
      var root, sz;
      ghost var s1;
      r, root, sz, sp, s1, guard, ustack := Exec(mem, p.root, p.sz, headerOk, segs, file, args,
        Kernel(trampoline, p.trapframe), s);
      if r == -1 {
        assert procs[i := procs[i]] == procs && spaces[i := spaces[i]] == spaces;
        return;
      }
      ProcReplaced(t, d, p, s, trampoline, mem.tables, mem.data, p.(root := root, sz := sz), s1, guard);
      hide Owns;
      ChangeOk(t, d, procs, spaces, rest, i, mem.tables, mem.data, p.(root := root, sz := sz), s1);
      procs, spaces := procs[i := p.(root := root, sz := sz)], spaces[i := s1];
    }
  }

  const WRITABLE := Perm(false, true, false, false)

  // The new pages are zero and writable.
  ghost predicate GrownBy(t: Tables, d: map<nat, Bytes>, s: Space, t1: Tables, d1: map<nat, Bytes>, s1: Space, sz: nat,
      newsz: nat) {
    Sized(t, s) && Sized(t1, s1) && Extended(t, s, d, t1, s1, d1, Up(sz), Up(newsz), UserPerm(WRITABLE))
  }

  lemma OtherSame(t: Tables, d: map<nat, Bytes>, procs: map<nat, Proc>, spaces: map<nat, Space>, t1: Tables,
      d1: map<nat, Bytes>, i: nat, j: nat)
    requires Others(t, d, procs, spaces, t1, d1, j) && i in procs && i != j
    ensures i in spaces && Untouched(t, d, t1, d1, procs[i], spaces[i])
  {}
}

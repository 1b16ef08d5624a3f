// proc_pagetable and proc_freepagetable of kernel/proc.c, and exec of kernel/exec.c: an address space is built
// beside the old one, and either replaces it or goes back page by page.
module Exec {
  import opened Basics
  import opened PagePrice
  import opened ProgramImage
  import opened Sv39
  import opened Vm
  import opened UserCopy

  // The kernel's own two mappings: the trampoline code and the process's trapframe page.
  datatype Kernel = Kernel(trampoline: nat, trapframe: nat)

  function TrampolinePte(k: Kernel): Pte { Pte(true, Perm(true, false, true, false), k.trampoline) }
  function TrapframePte(k: Kernel): Pte { Pte(true, Perm(true, true, false, false), k.trapframe) }

  // Everything but the pages of s is as it was in t0 and d0; s has n user pages of its own.
  ghost predicate Own(t0: Tables, d0: map<nat, Bytes>, t: Tables, d: map<nat, Bytes>, s: Space, n: nat) {
    && WellFormed(t, s) && n < TRAPFRAME && OwnsRange(t, s, d, 0, n)
    && TablesApart(t0, t, s) && DataApart(d0, d, Frames(t, s, 0, n))
  }

  ghost predicate TablesApart(t0: Tables, t: Tables, s: Space) {
    t.Keys == t0.Keys + s.Nodes() && s.Nodes() !! t0.Keys && (forall p :: p in t0 ==> t[p] == t0[p])
  }

  ghost predicate DataApart(d0: map<nat, Bytes>, d: map<nat, Bytes>, frames: set<nat>) {
    d.Keys == d0.Keys + frames && frames !! d0.Keys && (forall p :: p in d0 ==> d[p] == d0[p])
  }

  // What is mapped above the user pages.
  function KernelPte(w: nat, k: Kernel): Option<Pte> {
    if w == TRAMPOLINE then Some(TrampolinePte(k)) else if w == TRAPFRAME then Some(TrapframePte(k)) else None
  }

  ghost predicate Fixed(t: Tables, s: Space, n: nat, k: Kernel)
    requires Sized(t, s)
  {
    forall w: nat {:trigger Lookup(t, s, w)} :: w >= n ==> Lookup(t, s, w) == KernelPte(w, k)
  }

  // The space of a process.
  ghost predicate ProcSpace(t: Tables, d: map<nat, Bytes>, s: Space, sz: nat, k: Kernel) {
    WellFormed(t, s) && Up(sz) < TRAPFRAME && OwnsRange(t, s, d, 0, Up(sz)) && Fixed(t, s, Up(sz), k)
  }

  lemma OwnGrown(t0: Tables, d0: map<nat, Bytes>, t: Tables, d: map<nat, Bytes>, s: Space, n: nat, t1: Tables,
      d1: map<nat, Bytes>, s1: Space, n1: nat, perm: Perm, k: Kernel)
    requires Own(t0, d0, t, d, s, n) && Fixed(t, s, n, k) && WellFormed(t1, s1) && OnlyGrew(t, s, t1, s1)
    requires Extended(t, s, d, t1, s1, d1, n, n1, perm) && n1 < TRAPFRAME
    ensures Own(t0, d0, t1, d1, s1, n1) && Fixed(t1, s1, n1, k)
  {
    hide Lookup, Sized, RootOk, MidOk, BottomOk, Separate, Frames, Space.Nodes, OnlyGrew, OwnsRange, TablesApart,
        KernelPte;
    FramesGrown(t, s, d, t1, s1, d1, n, n1, perm);
    NodesGrown(t0, t, s, t1, s1);
  }

  lemma FramesGrown(t: Tables, s: Space, d: map<nat, Bytes>, t1: Tables, s1: Space, d1: map<nat, Bytes>, n: nat,
      n1: nat, perm: Perm)
    requires Sized(t, s) && Sized(t1, s1) && Extended(t, s, d, t1, s1, d1, n, n1, perm)
    ensures Frames(t1, s1, 0, n1) == Frames(t, s, 0, n) + Frames(t1, s1, n, n1 - n)
      && Frames(t1, s1, n, n1 - n) !! d.Keys
  {
    hide Lookup, Sized;
    forall p | p in Frames(t, s, 0, n) ensures p in Frames(t1, s1, 0, n1) {
      var w: nat :| w < n && Lookup(t, s, w).Some? && Lookup(t, s, w).value.ppn == p;
      assert Lookup(t1, s1, w) == Lookup(t, s, w);
    }
    forall p | p in Frames(t1, s1, 0, n1) ensures p in Frames(t, s, 0, n) + Frames(t1, s1, n, n1 - n) {
      var w: nat :| w < n1 && Lookup(t1, s1, w).Some? && Lookup(t1, s1, w).value.ppn == p;
      assert w < n ==> Lookup(t1, s1, w) == Lookup(t, s, w);
    }
  }

  lemma NodesGrown(t0: Tables, t: Tables, s: Space, t1: Tables, s1: Space)
    requires TablesApart(t0, t, s) && OnlyGrew(t, s, t1, s1)
    ensures TablesApart(t0, t1, s1)
  {
    hide Space.Nodes;
  }

  // A failed attempt to grow may leave table pages behind, and nothing else.
  lemma OwnSame(t0: Tables, d0: map<nat, Bytes>, t: Tables, d: map<nat, Bytes>, s: Space, n: nat, t1: Tables, s1: Space,
      k: Kernel)
    requires Own(t0, d0, t, d, s, n) && WellFormed(t1, s1) && OnlyGrew(t, s, t1, s1) && SameMap(t, s, t1, s1)
    ensures Own(t0, d0, t1, d, s1, n) && (Fixed(t, s, n, k) ==> Fixed(t1, s1, n, k))
  {
    hide Lookup, Sized, RootOk, MidOk, BottomOk, Separate, Space.Nodes, OnlyGrew, TablesApart, DataApart, Frames,
        KernelPte;
    NodesGrown(t0, t, s, t1, s1);
    FramesSame(t, s, t1, s1, 0, n);
  }

  lemma FramesSame(t: Tables, s: Space, t1: Tables, s1: Space, v: nat, n: nat)
    requires Sized(t, s) && Sized(t1, s1) && forall w: nat :: v <= w < v + n ==> Lookup(t1, s1, w) == Lookup(t, s, w)
    ensures Frames(t1, s1, v, n) == Frames(t, s, v, n)
  {
    hide Lookup, Sized;
  }

  // A new table page for the root.
  lemma OwnRoot(t0: Tables, d0: map<nat, Bytes>, root: nat)
    requires root !in t0
    ensures var s := Space(root, map[], map[]); var t := t0[root := ZeroTable()];
      Own(t0, d0, t, d0, s, 0) && forall w :: Lookup(t, s, w) == None
  {
    var s := Space(root, map[], map[]);
    assert s.Nodes() == {root};
  }

  // One of the kernel's mappings, or none for lack of table pages.
  lemma OwnMapped(t0: Tables, d0: map<nat, Bytes>, t: Tables, d: map<nat, Bytes>, s: Space, t1: Tables, s1: Space,
      v: nat, k: nat, ppn: nat, perm: Perm)
    requires Own(t0, d0, t, d, s, 0) && WellFormed(t1, s1) && OnlyGrew(t, s, t1, s1)
      && Mapped(t, s, t1, s1, v, k, ppn, perm)
    ensures Own(t0, d0, t1, d, s1, 0)
  {
    hide Lookup, Sized, RootOk, MidOk, BottomOk, Separate, Space.Nodes, OnlyGrew, TablesApart, DataApart, Mapped;
    NodesGrown(t0, t, s, t1, s1);
    FramesSame(t, s, t1, s1, 0, 0);
  }

  lemma OwnUnmapped(t0: Tables, d0: map<nat, Bytes>, t: Tables, d: map<nat, Bytes>, s: Space, n: nat, t1: Tables,
      v: nat)
    requires Own(t0, d0, t, d, s, n) && WellFormed(t1, s) && OnlyGrew(t, s, t1, s) && Unmapped(t, s, t1, v, 1) && v >= n
    ensures Own(t0, d0, t1, d, s, n)
  {
    hide Lookup, Sized, RootOk, MidOk, BottomOk, Separate, Space.Nodes, OnlyGrew, TablesApart, DataApart, Frames;
    NodesGrown(t0, t, s, t1, s);
    FramesSame(t, s, t1, s, 0, n);
  }

  // uvmfree gives back exactly what the space owned.
  method FreeUnmapped(mem: Memory, root: nat, sz: nat, ghost s: Space, ghost t0: Tables, ghost d0: map<nat, Bytes>)
    requires mem.Valid() && Own(t0, d0, mem.tables, mem.data, s, Up(sz)) && s.root == root
    requires forall w: nat :: w >= Up(sz) ==> Lookup(mem.tables, s, w) == None
    modifies mem
    ensures mem.Valid() && mem.All() == old(mem.All()) && mem.tables == t0 && mem.data == d0
  {
    hide Lookup, Sized, RootOk, MidOk, BottomOk, Separate, Space.Nodes, Frames, OwnsRange;
    mem.Uvmfree(root, sz, s);
    assert mem.tables.Keys == t0.Keys;
    assert mem.data.Keys == d0.Keys;
  }

  method ProcFreepagetable(mem: Memory, root: nat, sz: nat, k: Kernel, ghost s: Space, ghost t0: Tables,
      ghost d0: map<nat, Bytes>)
    requires mem.Valid() && Own(t0, d0, mem.tables, mem.data, s, Up(sz)) && Fixed(mem.tables, s, Up(sz), k)
      && s.root == root
    modifies mem
    ensures mem.Valid() && mem.All() == old(mem.All()) && mem.tables == t0 && mem.data == d0
  {
    hide Lookup, Sized, RootOk, MidOk, BottomOk, Separate, Space.Nodes, Frames, OwnsRange, TablesApart, DataApart,
        OnlyGrew;
    Unmap(mem, root, TRAMPOLINE, Up(sz), s, t0, d0);
    Unmap(mem, root, TRAPFRAME, Up(sz), s, t0, d0);
    FreeUnmapped(mem, root, sz, s, t0, d0);
  }

  // uvmunmap of one of the kernel's pages, which are not the space's to free.
  method Unmap(mem: Memory, root: nat, v: nat, ghost n: nat, ghost s: Space, ghost t0: Tables,
      ghost d0: map<nat, Bytes>)
    requires mem.Valid() && Own(t0, d0, mem.tables, mem.data, s, n) && s.root == root
    requires n <= v < MAXVPN && Lookup(mem.tables, s, v).Some?
    modifies mem
    ensures mem.Valid() && mem.All() == old(mem.All()) && Own(t0, d0, mem.tables, mem.data, s, n)
    ensures Unmapped(old(mem.tables), s, mem.tables, v, 1)
  {
    hide Lookup, Sized, RootOk, MidOk, BottomOk, Separate, Space.Nodes, Frames, OwnsRange, TablesApart, DataApart,
        OnlyGrew, Unmapped;
    ghost var t1, d1 := mem.tables, mem.data;
    mem.Uvmunmap(v * PGSIZE, 1, false, root, s);
    assert mem.data == d1;
    OwnUnmapped(t0, d0, t1, d1, s, n, mem.tables, v);
  }

  // A space with the kernel's two mappings and no user page, or nothing taken.
  method ProcPagetable(mem: Memory, k: Kernel) returns (root: Option<nat>, ghost s: Space)
    requires mem.Valid()
    modifies mem
    ensures mem.Valid() && mem.All() == old(mem.All())
    ensures root.None? ==> mem.tables == old(mem.tables) && mem.data == old(mem.data)
    ensures root.Some? ==>
      s.root == root.value && Own(old(mem.tables), old(mem.data), mem.tables, mem.data, s, 0)
        && Fixed(mem.tables, s, 0, k)
    ensures root.Some? <==> |old(mem.freelist)| >= Price(0)
    ensures root.Some? ==> Priced(|old(mem.freelist)|, |mem.freelist|, s, 0)
  {
    hide Lookup, Sized, RootOk, MidOk, BottomOk, Separate, Space.Nodes, Frames, OwnsRange, TablesApart, DataApart,
        OnlyGrew;
    ghost var t0, d0 := mem.tables, mem.data;
    s := Space(0, map[], map[]);
    root := mem.Kalloc();
    if root.None? {
      return;
    }
    mem.tables := mem.tables[root.value := ZeroTable()];
    s := Space(root.value, map[], map[]);
    OwnRoot(t0, d0, root.value);
    var ok;
    ok, s := MapKernel(mem, root.value, k, s, t0, d0);
    if !ok {
      root := None;
    } else {
      PricedStart(|old(mem.freelist)|, |mem.freelist|, s);
    }
  }

  method MapKernel(mem: Memory, root: nat, k: Kernel, ghost s: Space, ghost t0: Tables,
      ghost d0: map<nat, Bytes>) returns (ok: bool, ghost s': Space)
    requires mem.Valid() && Own(t0, d0, mem.tables, mem.data, s, 0) && s.root == root
    requires forall w: nat :: Lookup(mem.tables, s, w) == None
    requires s.l1 == map[] && s.l0 == map[]
    modifies mem
    ensures mem.Valid() && mem.All() == old(mem.All())
    ensures !ok ==> mem.tables == t0 && mem.data == d0
    ensures ok ==> s'.root == root && Own(t0, d0, mem.tables, mem.data, s', 0) && Fixed(mem.tables, s', 0, k)
    ensures ok <==> |old(mem.freelist)| >= 2
    ensures ok ==> |mem.freelist| == |old(mem.freelist)| - 2
    ensures ok ==> s'.l1.Keys == {Top(TRAMPOLINE)} && s'.l0.Keys == {Mid(TRAMPOLINE)}
  {
    hide Lookup, Sized, RootOk, MidOk, BottomOk, Separate, Space.Nodes, Frames, OwnsRange, TablesApart, DataApart,
        OnlyGrew, Set, Distinct, Memory.All, Paid, Missing;
    ghost var f0 := |mem.freelist|;
    var r;
    r, s' := Map(mem, root, TRAMPOLINE, k.trampoline, Perm(true, false, true, false), s, t0, d0);
    if r < 0 {
      FreeUnmapped(mem, root, 0, s', t0, d0);
      TopTables(s);
      return false, s';
    }
    ghost var f1, s1 := |mem.freelist|, s';
    r, s' := Map(mem, root, TRAPFRAME, k.trapframe, Perm(true, true, false, false), s', t0, d0);
    if r < 0 {
      Unmap(mem, root, TRAMPOLINE, 0, s', t0, d0);
      FreeUnmapped(mem, root, 0, s', t0, d0);
      SecondFits(f0, s, f1, s1);
      return false, s';
    }
    BothPaid(f0, s, f1, s1, |mem.freelist|, s');
    ok := true;
  }

  lemma SameTables()
    ensures Top(TRAMPOLINE) == Top(TRAPFRAME) && Mid(TRAMPOLINE) == Mid(TRAPFRAME)
  {}

  lemma TopTables(s: Space)
    requires s.l1 == map[] && s.l0 == map[]
    ensures Missing(s, TRAMPOLINE, TRAMPOLINE + 1) == 2
  {
    hide Missing, Tops, Mids, Top, Mid;
    MissingOne(s, TRAMPOLINE);
  }

  // The two pages at the top share their tables.
  lemma TopPaid(free: nat, s: Space, free1: nat, s1: Space)
    requires s.l1 == map[] && s.l0 == map[] && Paid(free, s, free1, s1, TRAMPOLINE, TRAMPOLINE + 1, 0)
    ensures s1.l1.Keys == {Top(TRAMPOLINE)} && s1.l0.Keys == {Mid(TRAMPOLINE)} && free == free1 + 2
    ensures Missing(s1, TRAPFRAME, TRAPFRAME + 1) == 0
  {
    hide Missing, Tops, Mids, Top, Mid;
    OnePage(TRAMPOLINE);
    TopTables(s);
    MissingOne(s1, TRAPFRAME);
    SameTables();
    assert s1.l1.Keys == {Top(TRAMPOLINE)} && s1.l0.Keys == {Mid(TRAMPOLINE)};
    assert Top(TRAPFRAME) in s1.l1.Keys && Mid(TRAPFRAME) in s1.l0.Keys;
  }

  // So the second mapping fails only where the first one would have.
  lemma SecondFits(free: nat, s: Space, free1: nat, s1: Space)
    requires s.l1 == map[] && s.l0 == map[] && Paid(free, s, free1, s1, TRAMPOLINE, TRAMPOLINE + 1, 0)
    ensures free1 < Missing(s1, TRAPFRAME, TRAPFRAME + 1) ==> free < 2
  {
    hide Missing, Paid;
    TopPaid(free, s, free1, s1);
  }

  lemma BothPaid(free: nat, s: Space, free1: nat, s1: Space, free2: nat, s2: Space)
    requires s.l1 == map[] && s.l0 == map[] && Paid(free, s, free1, s1, TRAMPOLINE, TRAMPOLINE + 1, 0)
    requires Paid(free1, s1, free2, s2, TRAPFRAME, TRAPFRAME + 1, 0)
    ensures s2.l1.Keys == {Top(TRAMPOLINE)} && s2.l0.Keys == {Mid(TRAMPOLINE)} && free == free2 + 2
  {
    hide Missing, Tops, Mids, Top, Mid;
    TopPaid(free, s, free1, s1);
    OnePage(TRAPFRAME);
    SameTables();
  }

  // mappages of one of the kernel's pages into an empty space.
  method Map(mem: Memory, root: nat, v: nat, ppn: nat, perm: Perm, ghost s: Space, ghost t0: Tables,
      ghost d0: map<nat, Bytes>)
    returns (r: int, ghost s': Space)
    requires mem.Valid() && Own(t0, d0, mem.tables, mem.data, s, 0) && s.root == root
    requires v < MAXVPN && Lookup(mem.tables, s, v).None? && (perm.r || perm.w || perm.x)
    modifies mem
    ensures mem.Valid() && mem.All() == old(mem.All()) && Own(t0, d0, mem.tables, mem.data, s', 0) && s'.root == root
    ensures r == 0 || r == -1
    ensures forall w: nat {:trigger Lookup(mem.tables, s', w)} ::
      Lookup(mem.tables, s', w) == if r == 0 && w == v then Some(Pte(true, perm, ppn))
        else Lookup(old(mem.tables), s, w)
    ensures r == 0 ==> Paid(|old(mem.freelist)|, s, |mem.freelist|, s', v, v + 1, 0)
    ensures r == -1 ==> |old(mem.freelist)| < Missing(s, v, v + 1)
  {
    hide Lookup, Sized, RootOk, MidOk, BottomOk, Separate, Space.Nodes, Frames, OwnsRange, TablesApart, DataApart,
        OnlyGrew, Paid, Missing;
    assert v * PGSIZE / PGSIZE == v;
    ghost var t1, d1 := mem.tables, mem.data;
    ghost var n;
    r, s', n := mem.Mappages(v * PGSIZE, PGSIZE, ppn, perm, root, s);
    assert mem.data == d1;
    OwnMapped(t0, d0, t1, d1, s, mem.tables, s', v, n, ppn, perm);
  }

  // ----- a space under construction

  // n user pages of 4096 bytes each, all of them open to the user unless guard is one of them.
  ghost predicate Whole(t: Tables, s: Space, d: map<nat, Bytes>, n: nat, guard: nat)
    requires Sized(t, s)
  {
    forall w: nat {:trigger Lookup(t, s, w)} :: w < n ==>
      Lookup(t, s, w).Some? && Lookup(t, s, w).value.ppn in d && |d[Lookup(t, s, w).value.ppn]| == PGSIZE
      && (w != guard ==> Lookup(t, s, w).value.perm.u)
  }

  ghost predicate Built(t0: Tables, d0: map<nat, Bytes>, t: Tables, d: map<nat, Bytes>, s: Space, n: nat, guard: nat,
      k: Kernel) {
    Own(t0, d0, t, d, s, n) && Fixed(t, s, n, k) && Whole(t, s, d, n, guard)
  }

  lemma WholeGrown(t: Tables, d: map<nat, Bytes>, s: Space, n: nat, guard: nat, t1: Tables, d1: map<nat, Bytes>,
      s1: Space, n1: nat, xperm: Perm)
    requires Sized(t, s) && Sized(t1, s1) && Whole(t, s, d, n, guard)
      && Extended(t, s, d, t1, s1, d1, n, n1, UserPerm(xperm))
    ensures Whole(t1, s1, d1, n1, guard)
  {
    hide Lookup, Sized, Frames, OwnsRange;
    forall w: nat | w < n1
      ensures Lookup(t1, s1, w).Some? && Lookup(t1, s1, w).value.ppn in d1
        && |d1[Lookup(t1, s1, w).value.ppn]| == PGSIZE
      ensures w != guard ==> Lookup(t1, s1, w).value.perm.u
    {
      assert w < n ==> Lookup(t1, s1, w) == Lookup(t, s, w);
    }
  }

  lemma WholeSame(t: Tables, d: map<nat, Bytes>, s: Space, n: nat, guard: nat, t1: Tables, s1: Space)
    requires Sized(t, s) && Sized(t1, s1) && Whole(t, s, d, n, guard) && SameMap(t, s, t1, s1)
    ensures Whole(t1, s1, d, n, guard)
  {
    hide Lookup, Sized;
  }

  // uvmalloc for exec; what the program had loaded stays, followed by zeros.
  method Grow(mem: Memory, root: nat, sz: nat, newsz: nat, xperm: Perm, k: Kernel, ghost s: Space, ghost t0: Tables,
      ghost d0: map<nat, Bytes>, ghost guard: nat, ghost img: Bytes, ghost budget: nat)
    returns (r: nat, ghost s': Space)
    requires mem.Valid() && Built(t0, d0, mem.tables, mem.data, s, Up(sz), guard, k) && s.root == root
      && |mem.All()| <= PAGES
    requires Priced(budget, |mem.freelist|, s, Up(sz)) && budget <= PAGES
    requires Shows(mem.tables, s, mem.data, img) && |img| == Up(sz) * PGSIZE
    modifies mem
    ensures mem.Valid() && mem.All() == old(mem.All()) && s'.root == root
    ensures r == 0 ==> Built(t0, d0, mem.tables, mem.data, s', Up(sz), guard, k)
    ensures r != 0 ==>
      r == (if newsz >= sz then newsz else sz) && Built(t0, d0, mem.tables, mem.data, s', Up(r), guard, k)
    ensures r != 0 ==>
      Up(sz) <= Up(r) <= PAGES && Shows(mem.tables, s', mem.data, img + Zeros((Up(r) - Up(sz)) * PGSIZE))
    ensures r != 0 ==> Priced(budget, |mem.freelist|, s', Up(r))
    ensures r == 0 ==> newsz >= sz && ((sz == 0 && newsz == 0) || budget < Price(Up(newsz)))
    ensures r != 0 ==> forall w: nat :: Up(sz) <= w < Up(r) ==>
      Lookup(mem.tables, s', w).Some? && Lookup(mem.tables, s', w).value.perm == UserPerm(xperm)
  {
    hide Lookup, Sized, RootOk, MidOk, BottomOk, Separate, Space.Nodes, Frames, OwnsRange, TablesApart, DataApart,
        OnlyGrew, Extended, SameMap, Whole, Up, Shows, Paid, Missing, Priced, Price;
    ghost var f1 := |mem.freelist|;
    ghost var t1, d1 := mem.tables, mem.data;
    ghost var ok;
    KernelAbove(mem.tables, s, Up(sz), k);
    r, s', ok := mem.Uvmalloc(sz, newsz, xperm, root, s);
    hide Own, Fixed;
    if newsz >= sz && ok {
      UpMonotone(sz, newsz);
      SameUp(sz, newsz);
      HasGrown(t0, d0, t1, d1, s, Up(sz), mem.tables, mem.data, s', Up(newsz), guard, k, xperm, img, mem.All());
      PricedGrown(budget, f1, s, Up(sz), |mem.freelist|, s', Up(newsz));
      NewPerms(t1, s, d1, mem.tables, s', mem.data, Up(sz), Up(newsz), xperm);
    } else if !ok {
      UpMonotone(sz, newsz);
      NotPriced(budget, f1, s, Up(sz), Up(newsz));
      OwnSame(t0, d0, t1, d1, s, Up(sz), mem.tables, s', k);
      WholeSame(t1, d1, s, Up(sz), guard, mem.tables, s');
    } else {
      SmallSpace(t0, d0, mem.tables, mem.data, s', Up(sz), guard, k, mem.All());
      assert img + Zeros(0) == img;
    }
  }

  lemma NewPerms(t: Tables, s: Space, d: map<nat, Bytes>, t1: Tables, s1: Space, d1: map<nat, Bytes>, n: nat, n1: nat,
      xperm: Perm)
    requires Sized(t, s) && Sized(t1, s1) && Extended(t, s, d, t1, s1, d1, n, n1, UserPerm(xperm))
    ensures forall w: nat :: n <= w < n1 ==> Lookup(t1, s1, w).Some? && Lookup(t1, s1, w).value.perm == UserPerm(xperm)
  {
    hide Lookup, Sized;
  }

  lemma HasGrown(t0: Tables, d0: map<nat, Bytes>, t: Tables, d: map<nat, Bytes>, s: Space, n: nat, t1: Tables,
      d1: map<nat, Bytes>, s1: Space, n1: nat, guard: nat, k: Kernel, xperm: Perm, img: Bytes, all: set<nat>)
    requires Built(t0, d0, t, d, s, n, guard, k) && Shows(t, s, d, img) && |img| == n * PGSIZE
    requires WellFormed(t1, s1) && OnlyGrew(t, s, t1, s1) && Extended(t, s, d, t1, s1, d1, n, n1, UserPerm(xperm))
      && n1 < TRAPFRAME
    requires n <= n1 && d1.Keys <= all && |all| <= PAGES
    ensures Built(t0, d0, t1, d1, s1, n1, guard, k) && n1 <= PAGES
    ensures Shows(t1, s1, d1, img + Zeros((n1 - n) * PGSIZE))
  {
    hide Lookup, Sized, RootOk, MidOk, BottomOk, Separate, Space.Nodes, Frames, OwnsRange, TablesApart, DataApart,
        OnlyGrew, Extended, Whole, Shows, Fixed;
    OwnGrown(t0, d0, t, d, s, n, t1, d1, s1, n1, UserPerm(xperm), k);
    WholeGrown(t, d, s, n, guard, t1, d1, s1, n1, xperm);
    BuiltUser(t0, d0, t1, d1, s1, n1, guard, k);
    ShowsGrown(t, s, d, t1, s1, d1, n, n1, xperm, img);
    SmallSpace(t0, d0, t1, d1, s1, n1, guard, k, all);
  }

  lemma SmallSpace(t0: Tables, d0: map<nat, Bytes>, t: Tables, d: map<nat, Bytes>, s: Space, n: nat, guard: nat,
      k: Kernel, all: set<nat>)
    requires Built(t0, d0, t, d, s, n, guard, k) && d.Keys <= all && |all| <= PAGES
    ensures n <= PAGES
  {
    hide Lookup, Frames, TablesApart, DataApart, RootOk, MidOk, BottomOk, Separate;
    OwnsBound(t, s, d, n);
    SubsetSize(Frames(t, s, 0, n), all);
  }

  lemma KernelAbove(t: Tables, s: Space, n: nat, k: Kernel)
    requires Sized(t, s) && Fixed(t, s, n, k)
    ensures forall w: nat :: n <= w < TRAPFRAME ==> Lookup(t, s, w) == None
  {}

  lemma SameUp(sz: nat, newsz: nat)
    ensures newsz == 0 && newsz >= sz ==> Up(newsz) == Up(sz)
  {}

  // New bytes of the same length in a user page.
  lemma BuiltPage(t0: Tables, d0: map<nat, Bytes>, t: Tables, d: map<nat, Bytes>, s: Space, n: nat, guard: nat,
      k: Kernel, w: nat, page: Bytes)
    requires Built(t0, d0, t, d, s, n, guard, k) && w < n && |page| == PGSIZE
    ensures Lookup(t, s, w).Some? && Built(t0, d0, t, d[Lookup(t, s, w).value.ppn := page], s, n, guard, k)
  {
    hide Lookup, RootOk, MidOk, BottomOk, Separate, Sized, Space.Nodes, TablesApart;
    var p := Lookup(t, s, w).value.ppn;
    assert p in Frames(t, s, 0, n);
  }

  // loadseg; its panic on a missing page is the assertion.
  method Loadseg(mem: Memory, root: nat, va: nat, file: Bytes, offset: nat, sz: nat, k: Kernel, ghost s: Space,
      ghost t0: Tables, ghost d0: map<nat, Bytes>, ghost n: nat, ghost img: Bytes)
    returns (r: int)
    requires mem.Valid() && Built(t0, d0, mem.tables, mem.data, s, n, n, k) && s.root == root
    requires va % PGSIZE == 0 && Up(va + sz) <= n
    requires Shows(mem.tables, s, mem.data, img) && |img| == n * PGSIZE
    modifies mem
    ensures mem.Valid() && mem.All() == old(mem.All()) && Built(t0, d0, mem.tables, mem.data, s, n, n, k)
    ensures r == 0 || r == -1
    ensures mem.freelist == old(mem.freelist) && mem.tables == old(mem.tables)
    ensures r == 0 <==> |FileBytes(file, offset, sz)| == sz
    ensures r == 0 ==> va + sz <= |img| && Shows(mem.tables, s, mem.data, Overlay(img, va, FileBytes(file, offset, sz)))
  {
    hide Lookup, Sized, RootOk, MidOk, BottomOk, Separate, Space.Nodes, Frames, OwnsRange, TablesApart, DataApart,
        Whole, Fixed, Built, Shows, FileBytes, Overlay;
    Inside(va, sz, n);
    NothingLoaded(file, offset, img, va);
    var i := 0;
    while i < sz
      invariant i % PGSIZE == 0 && mem.Valid() && mem.All() == old(mem.All())
      invariant mem.freelist == old(mem.freelist) && mem.tables == old(mem.tables)
      invariant Built(t0, d0, mem.tables, mem.data, s, n, n, k)
      invariant |FileBytes(file, offset, Loaded(i, sz))| == Loaded(i, sz)
      invariant Shows(mem.tables, s, mem.data, Overlay(img, va, FileBytes(file, offset, Loaded(i, sz))))
      decreases sz - i
    {
      PageOf(va, i, sz, n, t0, d0, mem.tables, mem.data, s, k);
      var pa := Walkaddr(mem, va + i, root, false, s);
      assert pa.Some?;
      var m := if sz - i < PGSIZE then sz - i else PGSIZE;
      var bytes := FileBytes(file, offset + i, m);
      LoadPage(t0, d0, mem.tables, mem.data, s, n, k, Overlay(img, va, FileBytes(file, offset, i)), (va + i) / PGSIZE,
          pa.value, bytes);
      SetData(mem, pa.value, bytes + mem.data[pa.value][|bytes|..]);
      FileBytesMore(file, offset, i, m);
      if |bytes| != m {
        FileBytesShort(file, offset, i + m, sz);
        return -1;
      }
      OverlayMore(img, va, FileBytes(file, offset, i), bytes);
      i := i + PGSIZE;
    }
    r := 0;
  }

  // How much of sz bytes has been read when i is reached.
  function Loaded(i: nat, sz: nat): nat {
    if i < sz then i else sz
  }

  lemma Inside(va: nat, sz: nat, n: nat)
    requires Up(va + sz) <= n
    ensures va + sz <= n * PGSIZE
  {}

  lemma NothingLoaded(file: Bytes, offset: nat, img: Bytes, va: nat)
    requires va <= |img|
    ensures FileBytes(file, offset, 0) == [] && Overlay(img, va, []) == img
  {}

  // One turn of loadseg's loop.
  lemma LoadPage(t0: Tables, d0: map<nat, Bytes>, t: Tables, d: map<nat, Bytes>, s: Space, n: nat, k: Kernel,
      img: Bytes, w: nat, p: nat, bytes: Bytes)
    requires Built(t0, d0, t, d, s, n, n, k) && Shows(t, s, d, img)
    requires w < n && Lookup(t, s, w).Some? && Lookup(t, s, w).value.perm.u && Lookup(t, s, w).value.ppn == p
    requires |bytes| <= PGSIZE && w * PGSIZE + |bytes| <= |img|
    ensures p in d && |d[p]| == PGSIZE
    ensures Built(t0, d0, t, d[p := bytes + d[p][|bytes|..]], s, n, n, k)
    ensures Shows(t, s, d[p := bytes + d[p][|bytes|..]], Overlay(img, w * PGSIZE, bytes))
  {
    hide Lookup, Sized, RootOk, MidOk, BottomOk, Separate, Space.Nodes, Frames, OwnsRange, TablesApart, DataApart,
        Fixed;
    UserPage(t, d, s, n, n, w);
    BuiltUser(t0, d0, t, d, s, n, n, k);
    hide Built, Shows, Whole;
    ShowsPage(t, s, d, img, w, p, bytes);
    BuiltPage(t0, d0, t, d, s, n, n, k, w, bytes + d[p][|bytes|..]);
  }

  method SetData(mem: Memory, p: nat, page: Bytes)
    requires mem.Valid() && p in mem.data
    modifies mem`data
    ensures mem.Valid() && mem.All() == old(mem.All()) && mem.data == old(mem.data)[p := page]
  {
    mem.data := mem.data[p := page];
    assert mem.data.Keys == old(mem.data).Keys;
  }

  lemma PageOf(va: nat, i: nat, sz: nat, n: nat, t0: Tables, d0: map<nat, Bytes>, t: Tables, d: map<nat, Bytes>,
      s: Space, k: Kernel)
    requires va % PGSIZE == 0 && i % PGSIZE == 0 && i < sz && Up(va + sz) <= n && Built(t0, d0, t, d, s, n, n, k)
    ensures (va + i) / PGSIZE < n && (va + i) / PGSIZE * PGSIZE == va + i && va + i < MAXVA
    ensures WellFormed(t, s) && Accessible(t, s, va + i, false)
  {
    hide Lookup, Sized, RootOk, MidOk, BottomOk, Separate, Frames, OwnsRange, TablesApart, DataApart, Fixed;
    UserPage(t, d, s, n, n, (va + i) / PGSIZE);
  }

  lemma UserPage(t: Tables, d: map<nat, Bytes>, s: Space, n: nat, guard: nat, w: nat)
    requires Sized(t, s) && Whole(t, s, d, n, guard) && w < n
    ensures Lookup(t, s, w).Some? && Lookup(t, s, w).value.ppn in d && |d[Lookup(t, s, w).value.ppn]| == PGSIZE
    ensures w != guard ==> Lookup(t, s, w).value.perm.u
  {}

  // The loop over the program headers.
  method LoadSegments(mem: Memory, root: nat, segs: seq<Segment>, file: Bytes, k: Kernel, ghost s: Space,
      ghost t0: Tables, ghost d0: map<nat, Bytes>, ghost budget: nat)
    returns (ok: bool, sz: nat, ghost s': Space)
    requires mem.Valid() && Built(t0, d0, mem.tables, mem.data, s, 0, 0, k) && s.root == root && |mem.All()| <= PAGES
    requires Priced(budget, |mem.freelist|, s, 0) && budget <= PAGES
    requires forall i :: 0 <= i < |segs| && segs[i].Load? ==> segs[i].vaddr < WORD64 && segs[i].memsz < WORD64
    modifies mem
    ensures mem.Valid() && mem.All() == old(mem.All()) && s'.root == root
    ensures Built(t0, d0, mem.tables, mem.data, s', Up(sz), Up(sz), k)
    ensures ok ==>
      Proper(segs) && sz == TopOf(segs) && Shows(mem.tables, s', mem.data, ImageOf(segs, file, Up(sz) * PGSIZE))
    ensures ok ==> Priced(budget, |mem.freelist|, s', Up(sz))
    ensures ok <==> Loadable(segs, file) && Price(Up(TopOf(segs))) <= budget
  {
    hide Built, Shows, ImageOf, TopOf, Priced, Price, Up, SegmentOk, Memory.All, Memory.Valid, Sized;
    NothingPriced(budget, |mem.freelist|, s);
    BuiltUser(t0, d0, mem.tables, mem.data, s, 0, 0, k);
    NothingShown(t0, d0, mem.tables, mem.data, s, k, file);
    sz, s' := 0, s;
    ok := true;
    assert segs[..0] == [];
    for i := 0 to |segs|
      invariant mem.Valid() && mem.All() == old(mem.All()) && s'.root == root
      invariant Built(t0, d0, mem.tables, mem.data, s', Up(sz), Up(sz), k)
      invariant ok && Proper(segs[..i]) && sz == TopOf(segs[..i])
      invariant Shows(mem.tables, s', mem.data, ImageOf(segs[..i], file, Up(sz) * PGSIZE))
      invariant Priced(budget, |mem.freelist|, s', Up(sz)) && Price(Up(sz)) <= budget
      invariant forall j :: 0 <= j < i ==> SegmentOk(segs[..j], segs[j], file)
    {
      ok, sz, s' := LoadOne(mem, root, segs[i], file, sz, k, s', t0, d0, segs[..i], budget);
      if !ok {
        PriceOfMore(segs, i);
        return;
      }
      assert segs[..i] + [segs[i]] == segs[..i + 1];
    }
    assert segs[..|segs|] == segs;
  }

  lemma NothingPriced(budget: nat, free: nat, s: Space)
    requires Priced(budget, free, s, 0)
    ensures Up(0) == 0 && Price(0) <= budget
  {}

  lemma PriceOfMore(segs: seq<Segment>, i: nat)
    requires i < |segs|
    ensures Price(Up(TopOf(segs[..i] + [segs[i]]))) <= Price(Up(TopOf(segs)))
  {
    assert segs[..i] + [segs[i]] == segs[..i + 1];
    TopMonotone(segs, i + 1);
    UpMonotone(TopOf(segs[..i + 1]), TopOf(segs));
    hide TopOf, Up;
    PriceMonotone(Up(TopOf(segs[..i + 1])), Up(TopOf(segs)));
  }

  lemma NothingShown(t0: Tables, d0: map<nat, Bytes>, t: Tables, d: map<nat, Bytes>, s: Space, k: Kernel, file: Bytes)
    requires Built(t0, d0, t, d, s, 0, 0, k) && Backed(t, s, d)
    ensures TopOf([]) == 0 && Shows(t, s, d, ImageOf([], file, 0))
  {}

  // One turn of it, after those for done.
  method LoadOne(mem: Memory, root: nat, ph: Segment, file: Bytes, sz: nat, k: Kernel, ghost s: Space, ghost t0: Tables,
      ghost d0: map<nat, Bytes>, ghost done: seq<Segment>, ghost budget: nat)
    returns (ok: bool, sz': nat, ghost s': Space)
    requires Priced(budget, |mem.freelist|, s, Up(sz)) && Price(Up(sz)) <= budget <= PAGES
    requires mem.Valid() && Built(t0, d0, mem.tables, mem.data, s, Up(sz), Up(sz), k) && s.root == root
      && |mem.All()| <= PAGES
    requires ph.Load? ==> ph.vaddr < WORD64 && ph.memsz < WORD64
    requires Proper(done) && sz == TopOf(done) && Shows(mem.tables, s, mem.data, ImageOf(done, file, Up(sz) * PGSIZE))
    modifies mem
    ensures mem.Valid() && mem.All() == old(mem.All()) && s'.root == root
    ensures Built(t0, d0, mem.tables, mem.data, s', Up(sz'), Up(sz'), k)
    ensures ok ==> Proper(done + [ph]) && sz' == TopOf(done + [ph])
    ensures ok ==> Shows(mem.tables, s', mem.data, ImageOf(done + [ph], file, Up(sz') * PGSIZE))
    ensures ok ==> Priced(budget, |mem.freelist|, s', Up(sz'))
    ensures ok <==> SegmentOk(done, ph, file) && Price(Up(TopOf(done + [ph]))) <= budget
  {
    hide Built, Memory.Valid, Memory.All, Up, Lookup, Shows, ImageOf, Overlay, FileBytes, TopOf, Priced, Price;
    sz', s' := sz, s;
    if ph.Unreadable? {
      return false, sz', s';
    }
    if ph.Other? {
      ImageOther(done, file, Up(sz) * PGSIZE);
      return true, sz', s';
    }
    NoWrap(ph.vaddr, ph.memsz);
    if ph.memsz < ph.filesz || (ph.vaddr + ph.memsz) % WORD64 < ph.vaddr || ph.vaddr % PGSIZE != 0 {
      return false, sz', s';
    }
    BuiltBelow(t0, d0, mem.tables, mem.data, s, Up(sz), Up(sz), k);
    Unguard(t0, d0, mem.tables, mem.data, s, Up(sz), Up(sz), TRAPFRAME, k);
    var sz1;
    sz1, s' := Grow(mem, root, sz, ph.vaddr + ph.memsz, ph.xperm, k, s, t0, d0, TRAPFRAME,
        ImageOf(done, file, Up(sz) * PGSIZE), budget);
    TopWith(done, ph);
    if sz1 == 0 {
      Unguard(t0, d0, mem.tables, mem.data, s', Up(sz), TRAPFRAME, Up(sz), k);
      return false, sz, s';
    }
    sz' := sz1;
    BuiltBelow(t0, d0, mem.tables, mem.data, s', Up(sz'), TRAPFRAME, k);
    Unguard(t0, d0, mem.tables, mem.data, s', Up(sz'), TRAPFRAME, Up(sz'), k);
    SegmentFits(done, ph, file, sz, sz');
    var r := Loadseg(mem, root, ph.vaddr, file, ph.off % WORD32, ph.filesz % WORD32, k, s', t0, d0, Up(sz'),
      ImageOf(done, file, Up(sz') * PGSIZE));
    ok := r == 0;
    AffordsIt(budget, |mem.freelist|, s', Up(sz'));
    if ok {
      ImageLoaded(done, ph, file, Up(sz') * PGSIZE);
    }
  }

  // What uvmalloc got holds the segment, whose size is no more than a uint.
  lemma SegmentFits(done: seq<Segment>, ph: Segment, file: Bytes, sz: nat, sz': nat)
    requires Proper(done) && sz == TopOf(done) && ph.Load? && ph.filesz <= ph.memsz
    requires sz' == (if ph.vaddr + ph.memsz >= sz then ph.vaddr + ph.memsz else sz) && Up(sz') <= PAGES
    ensures ph.filesz % WORD32 == ph.filesz && Up(ph.vaddr + ph.filesz) <= Up(sz') && Up(sz) <= Up(sz')
    ensures ph.vaddr + ph.filesz <= Up(sz') * PGSIZE
    ensures Proper(done + [ph]) && sz' == TopOf(done + [ph])
    ensures ImageOf(done, file, Up(sz) * PGSIZE) + Zeros((Up(sz') - Up(sz)) * PGSIZE)
      == ImageOf(done, file, Up(sz') * PGSIZE)
  {
    UpMonotone(ph.vaddr + ph.filesz, sz');
    UpMonotone(sz, sz');
    ImageLonger(done, file, Up(sz) * PGSIZE, Up(sz') * PGSIZE);
    assert (done + [ph])[..|done|] == done;
  }

  lemma TopWith(done: seq<Segment>, ph: Segment)
    requires ph.Load?
    ensures TopOf(done + [ph]) == if ph.vaddr + ph.memsz > TopOf(done) then ph.vaddr + ph.memsz else TopOf(done)
  {
    assert (done + [ph])[..|done|] == done;
  }

  lemma AffordsIt(budget: nat, free: nat, s: Space, n: nat)
    requires Priced(budget, free, s, n)
    ensures Price(n) <= budget
  {}

  lemma NoWrap(a: nat, b: nat)
    requires a < WORD64 && b < WORD64
    ensures (a + b) % WORD64 >= a <==> a + b < WORD64
  {}

  lemma BuiltBelow(t0: Tables, d0: map<nat, Bytes>, t: Tables, d: map<nat, Bytes>, s: Space, n: nat, guard: nat,
      k: Kernel)
    requires Built(t0, d0, t, d, s, n, guard, k)
    ensures n < TRAPFRAME
  {}

  // A guard above the user pages is none.
  lemma Unguard(t0: Tables, d0: map<nat, Bytes>, t: Tables, d: map<nat, Bytes>, s: Space, n: nat, guard: nat,
      guard1: nat, k: Kernel)
    requires Built(t0, d0, t, d, s, n, guard, k) && n <= guard && n <= guard1
    ensures Built(t0, d0, t, d, s, n, guard1, k) && n < TRAPFRAME
  {
    hide Lookup, RootOk, MidOk, BottomOk, Separate, Sized, Frames, OwnsRange, TablesApart, DataApart;
  }

  // uvmclear of one user page.
  method Uvmclear(mem: Memory, root: nat, va: nat, k: Kernel, ghost s: Space, ghost t0: Tables,
      ghost d0: map<nat, Bytes>, ghost n: nat)
    requires mem.Valid() && Built(t0, d0, mem.tables, mem.data, s, n, n, k) && s.root == root
    requires va % PGSIZE == 0 && va / PGSIZE < n
    modifies mem
    ensures mem.Valid() && mem.All() == old(mem.All()) && Built(t0, d0, mem.tables, mem.data, s, n, va / PGSIZE, k)
    ensures Lookup(mem.tables, s, va / PGSIZE).Some? && !Lookup(mem.tables, s, va / PGSIZE).value.perm.u
    ensures mem.data == old(mem.data) && mem.freelist == old(mem.freelist)
    ensures forall w: nat {:trigger Lookup(mem.tables, s, w)} ::
      w != va / PGSIZE ==> Lookup(mem.tables, s, w) == Lookup(old(mem.tables), s, w)
  {
    hide Lookup, RootOk, MidOk, BottomOk, Separate, Sized, Frames, OwnsRange, TablesApart, DataApart, Whole, Fixed,
        Space.Nodes;
    ghost var t1, v := mem.tables, va / PGSIZE;
    UserPage(mem.tables, mem.data, s, n, n, v);
    MappedHasTable(mem.tables, s, v);
    var pte, _ := mem.Walk(va, false, root, s);
    var (page, idx) := pte.value;
    ReadBottom(mem.tables, s, v);
    var e := mem.tables[page][idx];
    var e1 := e.(perm := e.perm.(u := false));
    SetEntry(mem.tables, s, v, e1);
    InNodes(s, v);
    mem.tables := mem.tables[page := mem.tables[page][idx := e1]];
    assert mem.tables.Keys == t1.Keys;
    Cleared(t0, d0, t1, mem.data, s, n, k, v, mem.tables, e);
  }

  lemma InNodes(s: Space, v: nat)
    requires Mid(v) in s.l0
    ensures s.l0[Mid(v)] in s.Nodes()
  {}

  lemma Cleared(t0: Tables, d0: map<nat, Bytes>, t: Tables, d: map<nat, Bytes>, s: Space, n: nat, k: Kernel, v: nat,
      t1: Tables, e: Pte)
    requires Built(t0, d0, t, d, s, n, n, k) && v < n && WellFormed(t1, s) && Lookup(t, s, v) == Some(e)
    requires Lookup(t1, s, v) == Some(e.(perm := e.perm.(u := false)))
    requires forall w: nat {:trigger Lookup(t1, s, w)} :: w != v ==> Lookup(t1, s, w) == Lookup(t, s, w)
    requires Mid(v) in s.l0 && t1.Keys == t.Keys && forall p :: p in t && p != s.l0[Mid(v)] ==> t1[p] == t[p]
    ensures Built(t0, d0, t1, d, s, n, v, k)
  {
    InNodes(s, v);
    ClearedFrames(t, s, n, v, t1, e);
    ClearedOwns(t, d, s, n, k, v, t1, e);
    hide Lookup, RootOk, MidOk, BottomOk, Separate, Sized, Frames, Space.Nodes, OwnsRange, Whole, Fixed, DataApart;
  }

  lemma ClearedOwns(t: Tables, d: map<nat, Bytes>, s: Space, n: nat, k: Kernel, v: nat, t1: Tables, e: Pte)
    requires Sized(t, s) && Sized(t1, s) && Lookup(t, s, v) == Some(e)
      && Lookup(t1, s, v) == Some(e.(perm := e.perm.(u := false)))
    requires forall w: nat {:trigger Lookup(t1, s, w)} :: w != v ==> Lookup(t1, s, w) == Lookup(t, s, w)
    requires OwnsRange(t, s, d, 0, n) && Fixed(t, s, n, k) && Whole(t, s, d, n, n) && v < n
    ensures OwnsRange(t1, s, d, 0, n) && Fixed(t1, s, n, k) && Whole(t1, s, d, n, v)
  {
    hide Lookup, Sized, KernelPte;
    forall w: nat ensures Lookup(t1, s, w).Some? <==> Lookup(t, s, w).Some? {}
    forall w: nat | Lookup(t, s, w).Some? ensures Lookup(t1, s, w).value.ppn == Lookup(t, s, w).value.ppn {}
  }

  lemma ClearedFrames(t: Tables, s: Space, n: nat, v: nat, t1: Tables, e: Pte)
    requires Sized(t, s) && Sized(t1, s) && Lookup(t, s, v) == Some(e)
      && Lookup(t1, s, v) == Some(e.(perm := e.perm.(u := false)))
    requires forall w: nat {:trigger Lookup(t1, s, w)} :: w != v ==> Lookup(t1, s, w) == Lookup(t, s, w)
    ensures Frames(t1, s, 0, n) == Frames(t, s, 0, n)
  {
    hide Lookup, Sized;
    forall p | p in Frames(t, s, 0, n) ensures p in Frames(t1, s, 0, n) {
      var w: nat :| w < n && Lookup(t, s, w).Some? && Lookup(t, s, w).value.ppn == p;
      assert Lookup(t1, s, w).Some? && Lookup(t1, s, w).value.ppn == p;
    }
  }

  // ----- the stack of the new program

  const MAXARG := 32

  lemma BuiltUser(t0: Tables, d0: map<nat, Bytes>, t: Tables, d: map<nat, Bytes>, s: Space, n: nat, guard: nat,
      k: Kernel)
    requires Built(t0, d0, t, d, s, n, guard, k)
    ensures Backed(t, s, d) && Unshared(t, s)
  {
    hide Sized, Frames, TablesApart, DataApart, RootOk, MidOk, BottomOk, Separate;
    assert forall v: nat :: Lookup(t, s, v).Some? && Lookup(t, s, v).value.perm.u ==> v < n;
    hide Lookup;
  }

  lemma {:induction false} BuiltPut(t0: Tables, d0: map<nat, Bytes>, t: Tables, d: map<nat, Bytes>, s: Space, n: nat,
      guard: nat, k: Kernel, va: nat, bs: Bytes)
    requires Built(t0, d0, t, d, s, n, guard, k) && Backed(t, s, d) && AllAccessible(t, s, va, va + |bs|, true)
    ensures Built(t0, d0, t, PutBytes(t, s, d, va, bs), s, n, guard, k)
  {
    hide Lookup, RootOk, MidOk, BottomOk, Separate, Sized, Whole, OwnsRange, TablesApart, DataApart, Frames;
    if bs != [] {
      var m := |bs| - 1;
      BuiltPut(t0, d0, t, d, s, n, guard, k, va, bs[..m]);
      var d1 := PutBytes(t, s, d, va, bs[..m]);
      assert Accessible(t, s, va + m, true);
      var w := (va + m) / PGSIZE;
      var p := Lookup(t, s, w).value.ppn;
      BuiltPage(t0, d0, t, d1, s, n, guard, k, w, d1[p][(va + m) % PGSIZE := bs[m]]);
    }
  }

  // What the user has outside lo..hi is as it was.
  ghost predicate OthersKept(t: Tables, s: Space, d: map<nat, Bytes>, d1: map<nat, Bytes>, lo: nat, hi: nat)
    requires Sized(t, s) && Backed(t, s, d) && Backed(t, s, d1)
  {
    forall from: nat, read {:trigger ReadsAs(t, s, d1, from, read)} ::
      (hi <= from || from + |read| <= lo) && ReadsAs(t, s, d, from, read) ==> ReadsAs(t, s, d1, from, read)
  }

  // One copyout onto the stack.
  method Push(mem: Memory, root: nat, sp: nat, bs: Bytes, k: Kernel, ghost s: Space, ghost t0: Tables,
      ghost d0: map<nat, Bytes>, ghost n: nat, ghost guard: nat)
    returns (r: int)
    requires mem.Valid() && Built(t0, d0, mem.tables, mem.data, s, n, guard, k) && s.root == root
    modifies mem
    ensures mem.Valid() && mem.All() == old(mem.All()) && Built(t0, d0, mem.tables, mem.data, s, n, guard, k)
    ensures mem.tables == old(mem.tables)
    ensures Sized(mem.tables, s) && Backed(mem.tables, s, mem.data) && Backed(mem.tables, s, old(mem.data))
    ensures r == 0 ==> ReadsAs(mem.tables, s, mem.data, sp, bs)
    ensures r == 0 ==> OthersKept(mem.tables, s, old(mem.data), mem.data, sp, sp + |bs|)
    ensures r == 0 || r == -1
    ensures r == 0 <==> AllAccessible(mem.tables, s, sp, sp + |bs|, true)
    ensures mem.freelist == old(mem.freelist)
  {
    hide Lookup, RootOk, MidOk, BottomOk, Separate, Sized, Whole, OwnsRange, TablesApart, DataApart, Frames, PutBytes,
        Backed, Unshared, ReadsAs, AllAccessible, Fixed;
    ghost var t, d := mem.tables, mem.data;
    BuiltUser(t0, d0, t, d, s, n, guard, k);
    ghost var m;
    r, m := Copyout(mem, root, sp, bs, s);
    assert bs[..|bs|] == bs;
    BuiltPut(t0, d0, t, d, s, n, guard, k, sp, bs[..m]);
    BuiltUser(t0, d0, mem.tables, mem.data, s, n, guard, k);
    assert mem.data.Keys == d.Keys && mem.tables == t;
    if r == 0 {
      CopyRoundTrip(t, s, d, sp, bs);
      forall from: nat, read | (sp + |bs| <= from || from + |read| <= sp) && ReadsAs(t, s, d, from, read)
        ensures ReadsAs(t, s, mem.data, from, read)
      {
        ReadsStill(t, s, d, sp, bs, from, read);
      }
    }
  }

  // A user address as eight bytes.
  function Le64(x: nat): (r: Bytes)
    ensures |r| == 8
  {
    seq(8, i requires 0 <= i < 8 => x / Pow256(i) % 0x100)
  }

  function Pow256(i: nat): (r: nat)
    ensures r > 0
  {
    if i == 0 then 1 else 0x100 * Pow256(i - 1)
  }

  function Pointers(ps: seq<nat>): (r: Bytes)
    ensures |r| == 8 * |ps|
  {
    if ps == [] then [] else Pointers(ps[..|ps| - 1]) + Le64(ps[|ps| - 1])
  }

  // ustack[0..] are the addresses of the argument strings, which lie one below the other, with their NULs.
  ghost predicate ArgsAt(t: Tables, s: Space, d: map<nat, Bytes>, args: seq<Bytes>, ustack: seq<nat>, sp: nat)
    requires Sized(t, s) && Backed(t, s, d)
  {
    && |ustack| <= |args|
    && forall i :: 0 <= i < |ustack| ==> sp <= ustack[i] && ReadsAs(t, s, d, ustack[i], args[i] + [0])
  }

  // sp when the first n strings have been pushed from top on.
  function SpAfter(top: nat, args: seq<Bytes>, n: nat): int
    requires n <= |args|
  {
    if n == 0 then top
    else
      var sp := SpAfter(top, args, n - 1) - (|args[n - 1]| + 1);
      sp - sp % 16
  }

  // The loop over the strings comes to its end, if none of the copies fails; ustack[|args|] is then set to 0.
  ghost predicate LoopEnds(top: nat, args: seq<Bytes>) {
    |args| <= MAXARG
      && forall i {:trigger SpAfter(top, args, i)} :: 0 <= i <= |args| ==> SpAfter(top, args, i) >= top - PGSIZE
  }

  // The array of pointers with its null fits below the strings.
  ghost predicate StackFits(top: nat, args: seq<Bytes>) {
    LoopEnds(top, args) && PointersAt(SpAfter(top, args, |args|), |args| + 1) >= top - PGSIZE
  }

  function PointersAt(sp: int, n: nat): int {
    sp - n * 8 - (sp - n * 8) % 16
  }

  // The stack page, below top, can be written.
  ghost predicate StackOpen(t: Tables, s: Space, top: nat)
    requires top >= PGSIZE
  {
    Sized(t, s) && AllAccessible(t, s, top - PGSIZE, top, true)
  }

  lemma PartOpen(t: Tables, s: Space, top: nat, lo: nat, hi: nat)
    requires top >= PGSIZE && StackOpen(t, s, top) && top - PGSIZE <= lo && hi <= top
    ensures Sized(t, s) && AllAccessible(t, s, lo, hi, true)
  {
    hide Accessible;
  }

  // That stays inside ustack whatever the strings exactly if there are not 32 of them: the test in the loop comes
  // before the string is pushed, so 32 are accepted, and 33 are not.
  lemma NullInsideIff(top: nat, n: nat)
    requires top % 16 == 0 && top >= PGSIZE
    ensures n != MAXARG <==>
      forall args: seq<Bytes> {:trigger LoopEnds(top, args)} :: |args| == n && LoopEnds(top, args) ==> |args| < MAXARG
  {
    if n == MAXARG {
      var args := NullBehind(top);
    }
  }

  // 32 empty strings get there.
  lemma NullBehind(top: nat) returns (args: seq<Bytes>)
    requires top % 16 == 0 && top >= PGSIZE
    ensures |args| == MAXARG && LoopEnds(top, args)
  {
    args := seq(MAXARG, _ => []);
    forall i | 0 <= i <= MAXARG ensures SpAfter(top, args, i) >= top - PGSIZE {
      EmptyStrings(top, args, i);
    }
  }

  lemma {:induction false} EmptyStrings(top: nat, args: seq<Bytes>, i: nat)
    requires top % 16 == 0 && i <= |args| && forall j :: 0 <= j < |args| ==> args[j] == []
    ensures SpAfter(top, args, i) == top - 16 * i
  {
    if i > 0 {
      EmptyStrings(top, args, i - 1);
    }
  }

  // The loop over the strings: their addresses go into ustack.
  method PushStrings(mem: Memory, root: nat, sz: nat, args: seq<Bytes>, ustack: array<nat>, k: Kernel, ghost s: Space,
      ghost t0: Tables, ghost d0: map<nat, Bytes>, ghost n: nat, ghost guard: nat, ghost img: Bytes)
    returns (ok: bool, sp: nat)
    requires mem.Valid() && Built(t0, d0, mem.tables, mem.data, s, n, guard, k) && s.root == root
      && ustack.Length == MAXARG
    requires sz >= 2 * PGSIZE && sz % PGSIZE == 0 && forall i :: 0 <= i < |args| ==> |args[i]| < PGSIZE
    requires StackHolds(mem.tables, s, mem.data, args, [], sz, img) && |img| <= sz - PGSIZE
    requires StackOpen(mem.tables, s, sz)
    modifies mem, ustack
    ensures mem.Valid() && mem.All() == old(mem.All()) && Built(t0, d0, mem.tables, mem.data, s, n, guard, k)
    ensures mem.tables == old(mem.tables)
    ensures mem.freelist == old(mem.freelist)
    ensures ok <==> LoopEnds(sz, args)
    ensures ok ==> |args| <= MAXARG && sz - PGSIZE <= sp <= sz && sp == SpAfter(sz, args, |args|)
    ensures ok ==> StackHolds(mem.tables, s, mem.data, args, ustack[..|args|], sp, img)
  {
    hide Built, Backed, Sized, ReadsAs, Lookup, ArgsAt, Memory.Valid, Memory.All, OthersKept, StackHolds, StackOpen,
      AllAccessible;
    sp, ok := sz, false;
    var stackbase := sp - PGSIZE;
    var argc := 0;
    while argc < |args|
      invariant argc <= |args| && argc <= MAXARG && stackbase <= sp <= sz
      invariant sp == SpAfter(sz, args, argc) && forall i :: 0 <= i <= argc ==> SpAfter(sz, args, i) >= stackbase
      invariant mem.Valid() && mem.All() == old(mem.All()) && Built(t0, d0, mem.tables, mem.data, s, n, guard, k)
      invariant mem.tables == old(mem.tables) && mem.freelist == old(mem.freelist)
      invariant StackHolds(mem.tables, s, mem.data, args, ustack[..argc], sp, img)
    {
      if argc >= MAXARG {
        return;
      }
      ghost var sp0, d, pushed := sp, mem.data, ustack[..argc];
      sp := sp - (|args[argc]| + 1);
      sp := sp - sp % 16;
      assert sp == SpAfter(sz, args, argc + 1);
      if sp < stackbase {
        return;
      }
      PartOpen(mem.tables, s, sz, sp, sp + |args[argc] + [0]|);
      var r := Push(mem, root, sp, args[argc] + [0], k, s, t0, d0, n, guard);
      if r < 0 {
        return;
      }
      StackMore(mem.tables, s, d, mem.data, args, pushed, sp0, sp, img);
      ustack[argc] := sp;
      argc := argc + 1;
      assert ustack[..argc] == pushed + [sp];
    }
    ok := true;
  }

  // The strings, then the array of pointers to them. sys_exec hands over at most 31 strings, each shorter than a
  // page; exactly 32 would write behind ustack.
  method PushArgs(mem: Memory, root: nat, sz: nat, args: seq<Bytes>, k: Kernel, ghost s: Space, ghost t0: Tables,
      ghost d0: map<nat, Bytes>, ghost n: nat, ghost guard: nat, ghost img: Bytes)
    returns (ok: bool, sp: nat, pushed: seq<nat>)
    requires mem.Valid() && Built(t0, d0, mem.tables, mem.data, s, n, guard, k) && s.root == root
    requires sz >= 2 * PGSIZE && sz % PGSIZE == 0 && |args| != MAXARG
      && forall i :: 0 <= i < |args| ==> |args[i]| < PGSIZE
    requires Shows(mem.tables, s, mem.data, img) && |img| <= sz - PGSIZE && StackOpen(mem.tables, s, sz)
    modifies mem
    ensures mem.Valid() && mem.All() == old(mem.All()) && Built(t0, d0, mem.tables, mem.data, s, n, guard, k)
    ensures mem.tables == old(mem.tables)
    ensures ok <==> StackFits(sz, args)
    ensures ok ==> LoopEnds(sz, args) && |pushed| == |args| < MAXARG && sp % 16 == 0 && sz - PGSIZE <= sp
    ensures ok ==> Sized(mem.tables, s) && Backed(mem.tables, s, mem.data)
    ensures ok ==>
      ArgsAt(mem.tables, s, mem.data, args, pushed, sp) && ReadsAs(mem.tables, s, mem.data, sp, Pointers(pushed + [0]))
    ensures ok ==> Shows(mem.tables, s, mem.data, img)
  {
    hide Built, Backed, Sized, ReadsAs, Pointers, Lookup, ArgsAt, Memory.Valid, Memory.All, OthersKept, StackHolds,
        Shows, LoopEnds, SpAfter, Distinct, Set, StackOpen, PointersAt;
    StackStart(mem.tables, s, mem.data, args, sz, img);
    var ustack := new nat[MAXARG];
    pushed := [];
    ok, sp := PushStrings(mem, root, sz, args, ustack, k, s, t0, d0, n, guard, img);
    if !ok {
      return;
    }
    pushed := ustack[..|args|];
    ustack[|args|] := 0;
    var ps := ustack[..|args| + 1];
    assert ps == pushed + [0] && ps[..|ps| - 1] == pushed;
    ok, sp := PushPointers(mem, root, sz, sp, ps, k, s, t0, d0, n, guard, args, img);
  }

  // The array of pointers with its null, below the strings.
  method PushPointers(mem: Memory, root: nat, sz: nat, top: nat, ps: seq<nat>, k: Kernel, ghost s: Space,
      ghost t0: Tables, ghost d0: map<nat, Bytes>, ghost n: nat, ghost guard: nat, ghost args: seq<Bytes>,
      ghost img: Bytes)
    returns (ok: bool, sp: nat)
    requires mem.Valid() && Built(t0, d0, mem.tables, mem.data, s, n, guard, k) && s.root == root
    requires 2 * PGSIZE <= sz && sz - PGSIZE <= top <= sz && 0 < |ps| <= MAXARG && |img| <= sz - PGSIZE
    requires StackHolds(mem.tables, s, mem.data, args, ps[..|ps| - 1], top, img) && StackOpen(mem.tables, s, sz)
    modifies mem
    ensures mem.Valid() && mem.All() == old(mem.All()) && Built(t0, d0, mem.tables, mem.data, s, n, guard, k)
    ensures mem.tables == old(mem.tables)
    ensures ok <==> PointersAt(top, |ps|) >= sz - PGSIZE
    ensures ok ==> sp % 16 == 0 && sz - PGSIZE <= sp && Sized(mem.tables, s) && Backed(mem.tables, s, mem.data)
    ensures ok ==>
      ArgsAt(mem.tables, s, mem.data, args, ps[..|ps| - 1], sp) && ReadsAs(mem.tables, s, mem.data, sp, Pointers(ps))
    ensures ok ==> Shows(mem.tables, s, mem.data, img)
  {
    hide Built, Backed, Sized, ReadsAs, Pointers, Lookup, ArgsAt, Memory.Valid, Memory.All, OthersKept, StackHolds,
        Shows, Distinct, Set, StackOpen, AllAccessible;
    ghost var d := mem.data;
    ok, sp := false, top - |ps| * 8;
    sp := sp - sp % 16;
    if sp < sz - PGSIZE {
      return;
    }
    PartOpen(mem.tables, s, sz, sp, sp + |Pointers(ps)|);
    var r := Push(mem, root, sp, Pointers(ps), k, s, t0, d0, n, guard);
    if r < 0 {
      return;
    }
    StackKept(mem.tables, s, d, mem.data, args, ps[..|ps| - 1], top, sp, |Pointers(ps)|, img);
    StackRead(mem.tables, s, mem.data, args, ps[..|ps| - 1], sp, img);
    ok := true;
  }

  lemma BuiltSized(t0: Tables, d0: map<nat, Bytes>, t: Tables, d: map<nat, Bytes>, s: Space, n: nat, guard: nat,
      k: Kernel)
    requires Built(t0, d0, t, d, s, n, guard, k)
    ensures Sized(t, s)
  {}

  // The strings pushed so far are on the stack from sp on, the program below it.
  ghost predicate StackHolds(t: Tables, s: Space, d: map<nat, Bytes>, args: seq<Bytes>, pushed: seq<nat>, sp: nat,
      img: Bytes) {
    Sized(t, s) && Backed(t, s, d) && ArgsAt(t, s, d, args, pushed, sp) && ReadsAs(t, s, d, 0, img)
  }

  lemma StackStart(t: Tables, s: Space, d: map<nat, Bytes>, args: seq<Bytes>, sz: nat, img: Bytes)
    requires Shows(t, s, d, img)
    ensures StackHolds(t, s, d, args, [], sz, img)
  {}

  lemma StackRead(t: Tables, s: Space, d: map<nat, Bytes>, args: seq<Bytes>, pushed: seq<nat>, sp: nat, img: Bytes)
    requires StackHolds(t, s, d, args, pushed, sp, img)
    ensures Sized(t, s) && Backed(t, s, d) && ArgsAt(t, s, d, args, pushed, sp) && Shows(t, s, d, img)
  {}

  lemma StackKept(t: Tables, s: Space, d: map<nat, Bytes>, d1: map<nat, Bytes>, args: seq<Bytes>, pushed: seq<nat>,
      sp0: nat, sp: nat, len: nat, img: Bytes)
    requires StackHolds(t, s, d, args, pushed, sp0, img) && Backed(t, s, d1)
    requires OthersKept(t, s, d, d1, sp, sp + len) && sp + len <= sp0 && |img| <= sp
    ensures StackHolds(t, s, d1, args, pushed, sp, img)
  {
    hide Sized, Backed, ReadsAs;
  }

  lemma StackMore(t: Tables, s: Space, d: map<nat, Bytes>, d1: map<nat, Bytes>, args: seq<Bytes>, pushed: seq<nat>,
      sp0: nat, sp: nat, img: Bytes)
    requires StackHolds(t, s, d, args, pushed, sp0, img) && Backed(t, s, d1) && |pushed| < |args|
    requires var len := |args[|pushed|]| + 1; OthersKept(t, s, d, d1, sp, sp + len) && sp + len <= sp0 && |img| <= sp
    requires ReadsAs(t, s, d1, sp, args[|pushed|] + [0])
    ensures StackHolds(t, s, d1, args, pushed + [sp], sp, img)
  {
    hide Sized, Backed, ReadsAs;
    StackKept(t, s, d, d1, args, pushed, sp0, sp, |args[|pushed|]| + 1, img);
  }

  // ----- exec

  // The old space, seen from the state in which the new one is complete.
  lemma OldOwns(t0: Tables, d0: map<nat, Bytes>, t: Tables, d: map<nat, Bytes>, s: Space, n: nat, guard: nat, k: Kernel,
      so: Space, oldSz: nat)
    requires ProcSpace(t0, d0, so, oldSz, k) && Built(t0, d0, t, d, s, n, guard, k)
    ensures Own(t - so.Nodes(), d - Frames(t0, so, 0, Up(oldSz)), t, d, so, Up(oldSz)) && Fixed(t, so, Up(oldSz), k)
  {
    hide Lookup, RootOk, MidOk, BottomOk, Separate, Sized, Frames, Space.Nodes, OwnsRange, Whole, KernelPte;
    NodesInTables(t0, so);
    SameTree(t0, t, so);
    FramesSame(t0, so, t, so, 0, Up(oldSz));
    FramesInData(t0, d0, so, Up(oldSz));
    OwnsSame(t0, d0, t, d, so, Up(oldSz));
    ApartFrom(t, so);
    DataFrom(d, Frames(t0, so, 0, Up(oldSz)));
    hide TablesApart, DataApart;
  }

  lemma ApartFrom(t: Tables, s: Space)
    requires s.Nodes() <= t.Keys
    ensures TablesApart(t - s.Nodes(), t, s)
  {
    hide Space.Nodes;
  }

  lemma DataFrom(d: map<nat, Bytes>, frames: set<nat>)
    requires frames <= d.Keys
    ensures DataApart(d - frames, d, frames)
  {}

  lemma OwnsSame(t: Tables, d: map<nat, Bytes>, t1: Tables, d1: map<nat, Bytes>, s: Space, n: nat)
    requires Sized(t, s) && Sized(t1, s) && OwnsRange(t, s, d, 0, n) && SameMap(t, s, t1, s) && d.Keys <= d1.Keys
    ensures OwnsRange(t1, s, d1, 0, n)
  {
    hide Lookup, Sized;
  }

  lemma FramesInData(t: Tables, d: map<nat, Bytes>, s: Space, n: nat)
    requires Sized(t, s) && OwnsRange(t, s, d, 0, n)
    ensures Frames(t, s, 0, n) <= d.Keys
  {
    hide Lookup, Sized;
  }

  // The new space once the old one is gone.
  lemma NewAlone(t0: Tables, d0: map<nat, Bytes>, t: Tables, d: map<nat, Bytes>, s: Space, n: nat, guard: nat,
      k: Kernel, nodes: set<nat>, frames: set<nat>)
    requires Built(t0, d0, t, d, s, n, guard, k) && nodes <= t0.Keys && frames <= d0.Keys
    ensures Built(t0 - nodes, d0 - frames, t - nodes, d - frames, s, n, guard, k)
  {
    hide Lookup, RootOk, MidOk, BottomOk, Separate, Sized, Frames, Space.Nodes, KernelPte;
    SameTree(t, t - nodes, s);
    FramesSame(t, s, t - nodes, s, 0, n);
    NewPages(t, d, s, n, frames);
    hide *;
    NewParts(t0, d0, t, d, s, n, guard, k, nodes, frames);
  }

  lemma NewParts(t0: Tables, d0: map<nat, Bytes>, t: Tables, d: map<nat, Bytes>, s: Space, n: nat, guard: nat,
      k: Kernel, nodes: set<nat>, frames: set<nat>)
    requires Built(t0, d0, t, d, s, n, guard, k) && nodes <= t0.Keys && frames <= d0.Keys
    requires WellFormed(t - nodes, s) && SameMap(t, s, t - nodes, s) && Frames(t - nodes, s, 0, n) == Frames(t, s, 0, n)
    requires forall w: nat :: w < n ==> Lookup(t, s, w).Some? && Lookup(t, s, w).value.ppn in d - frames
    ensures Built(t0 - nodes, d0 - frames, t - nodes, d - frames, s, n, guard, k)
  {
    LessTables(t0, t, s, nodes);
    LessData(d0, d, Frames(t, s, 0, n), frames);
    LessPages(t, d, s, n, guard, k, t - nodes, d - frames);
    hide Lookup, RootOk, MidOk, BottomOk, Separate, Sized, Frames, Space.Nodes, TablesApart, DataApart, OwnsRange,
        Whole, Fixed, SameMap;
  }

  lemma LessPages(t: Tables, d: map<nat, Bytes>, s: Space, n: nat, guard: nat, k: Kernel, t1: Tables,
      d1: map<nat, Bytes>)
    requires Sized(t, s) && Sized(t1, s) && SameMap(t, s, t1, s)
    requires OwnsRange(t, s, d, 0, n) && Whole(t, s, d, n, guard) && Fixed(t, s, n, k)
    requires forall p :: p in d1 ==> p in d && d1[p] == d[p]
    requires forall w: nat :: w < n ==> Lookup(t, s, w).Some? && Lookup(t, s, w).value.ppn in d1
    ensures OwnsRange(t1, s, d1, 0, n) && Whole(t1, s, d1, n, guard) && Fixed(t1, s, n, k)
  {
    hide Lookup, Sized, KernelPte;
  }

  lemma LessTables(t0: Tables, t: Tables, s: Space, nodes: set<nat>)
    requires TablesApart(t0, t, s) && nodes <= t0.Keys
    ensures TablesApart(t0 - nodes, t - nodes, s)
  {
    hide Space.Nodes;
  }

  lemma LessData(d0: map<nat, Bytes>, d: map<nat, Bytes>, own: set<nat>, frames: set<nat>)
    requires DataApart(d0, d, own) && frames <= d0.Keys
    ensures DataApart(d0 - frames, d - frames, own)
  {}

  lemma NewPages(t: Tables, d: map<nat, Bytes>, s: Space, n: nat, frames: set<nat>)
    requires Sized(t, s) && OwnsRange(t, s, d, 0, n) && frames !! Frames(t, s, 0, n)
    ensures forall w: nat :: w < n ==> Lookup(t, s, w).Some? && Lookup(t, s, w).value.ppn in d - frames
  {
    hide Sized, Lookup;
    forall w: nat | w < n ensures Lookup(t, s, w).Some? && Lookup(t, s, w).value.ppn in d - frames {
      assert Lookup(t, s, w).value.ppn in Frames(t, s, 0, n);
    }
  }

  // The stack of the new space, when other pages go.
  lemma StackStays(t: Tables, d: map<nat, Bytes>, s: Space, t1: Tables, d1: map<nat, Bytes>, args: seq<Bytes>,
      ustack: seq<nat>, sp: nat)
    requires Sized(t, s) && Backed(t, s, d) && Sized(t1, s) && Backed(t1, s, d1) && SameMap(t, s, t1, s)
    requires forall p :: p in d1 ==> p in d && d1[p] == d[p]
    requires ArgsAt(t, s, d, args, ustack, sp) && ReadsAs(t, s, d, sp, Pointers(ustack + [0]))
    ensures ArgsAt(t1, s, d1, args, ustack, sp) && ReadsAs(t1, s, d1, sp, Pointers(ustack + [0]))
  {
    forall from: nat, read | ReadsAs(t, s, d, from, read) ensures ReadsAs(t1, s, d1, from, read) {
      ReadsMoved(t, d, s, t1, d1, from, read);
    }
    hide ReadsAs, Sized, Backed, Pointers;
  }

  lemma ReadsMoved(t: Tables, d: map<nat, Bytes>, s: Space, t1: Tables, d1: map<nat, Bytes>, from: nat, read: Bytes)
    requires Sized(t, s) && Backed(t, s, d) && Sized(t1, s) && Backed(t1, s, d1) && SameMap(t, s, t1, s)
    requires (forall p :: p in d1 ==> p in d && d1[p] == d[p]) && ReadsAs(t, s, d, from, read)
    ensures ReadsAs(t1, s, d1, from, read)
  {
    hide Lookup, Sized;
    forall a: nat | from <= a < from + |read|
      ensures Accessible(t1, s, a, false) && read[a - from] == ByteAt(t1, s, d1, a)
    {
      assert Accessible(t, s, a, false);
    }
  }

  lemma ImageStays(t: Tables, d: map<nat, Bytes>, s: Space, t1: Tables, d1: map<nat, Bytes>, img: Bytes)
    requires Shows(t, s, d, img) && Sized(t1, s) && Backed(t1, s, d1) && SameMap(t, s, t1, s)
    requires forall p :: p in d1 ==> p in d && d1[p] == d[p]
    ensures Shows(t1, s, d1, img)
  {
    ReadsMoved(t, d, s, t1, d1, 0, img);
  }

  lemma SameNodes(t: Tables, d: map<nat, Bytes>, t0: Tables, d0: map<nat, Bytes>, s: Space, n: nat, guard: nat,
      k: Kernel, nodes: set<nat>)
    requires Built(t0, d0, t, d, s, n, guard, k) && nodes <= t0.Keys
    ensures WellFormed(t - nodes, s) && SameMap(t, s, t - nodes, s)
  {
    SameTree(t, t - nodes, s);
  }

  // What exec needs besides a good header: segments that can be loaded, arguments that fit the stack page, and free
  // pages for the whole new space, which is built before the old one goes.
  ghost predicate Runs(segs: seq<Segment>, file: Bytes, args: seq<Bytes>, free: nat) {
    && Loadable(segs, file) && StackFits((Up(TopOf(segs)) + 2) * PGSIZE, args)
    && Price(Up(TopOf(segs)) + 2) <= free
  }

  lemma FreeBound(mem: Memory)
    requires mem.Valid()
    ensures |mem.freelist| <= |mem.All()|
  {
    SetSize(mem.freelist);
    SubsetSize(Set(mem.freelist), mem.All());
  }

  // exec after namei: a new space in place of the old one, whose pages are all free again; or -1, and every page
  // is where it was. headerOk says whether the ELF header could be read and has the right magic.
  method Exec(mem: Memory, oldRoot: nat, oldSz: nat, headerOk: bool, segs: seq<Segment>, file: Bytes, args: seq<Bytes>,
      k: Kernel, ghost so: Space)
    returns (r: int, root: nat, sz: nat, sp: nat, ghost s: Space, ghost guard: nat, ustack: seq<nat>)
    requires mem.Valid() && ProcSpace(mem.tables, mem.data, so, oldSz, k) && so.root == oldRoot && |mem.All()| <= PAGES
    requires forall i :: 0 <= i < |segs| && segs[i].Load? ==> segs[i].vaddr < WORD64 && segs[i].memsz < WORD64
    requires |args| != MAXARG && forall i :: 0 <= i < |args| ==> |args[i]| < PGSIZE
    modifies mem
    ensures mem.Valid() && mem.All() == old(mem.All())
    ensures r == -1 ==> mem.tables == old(mem.tables) && mem.data == old(mem.data)
    ensures r != -1 ==> r == |args| < MAXARG && s.root == root && sz - PGSIZE <= sp
    ensures r != -1 ==> guard == Up(TopOf(segs)) && sz == (guard + 2) * PGSIZE
    ensures r != -1 ==> Proper(segs) && Shows(mem.tables, s, mem.data, ImageOf(segs, file, guard * PGSIZE))
    ensures r != -1 ==> Built(old(mem.tables) - so.Nodes(), old(mem.data) - Frames(old(mem.tables), so, 0, Up(oldSz)),
                              mem.tables, mem.data, s, Up(sz), guard, k)
    ensures r != -1 ==>
      Sized(mem.tables, s) && Backed(mem.tables, s, mem.data) && ArgsAt(mem.tables, s, mem.data, args, ustack, sp)
    ensures r != -1 ==> ReadsAs(mem.tables, s, mem.data, sp, Pointers(ustack + [0]))
    ensures r != -1 <==> headerOk && Runs(segs, file, args, |old(mem.freelist)|)
  {
    hide Built, Own, Fixed, Lookup, Sized, RootOk, MidOk, BottomOk, Separate, Space.Nodes, Frames, OwnsRange, Backed,
      ReadsAs, ArgsAt, Memory.All, Shows, ImageOf, TopOf, Up, Loadable, StackFits, Price, Priced;
    ghost var t0, d0, budget := mem.tables, mem.data, |mem.freelist|;
    FreeBound(mem);
    PriceMonotone(0, Up(TopOf(segs)) + 2);
    PriceMonotone(Up(TopOf(segs)), Up(TopOf(segs)) + 2);
    r, root, sz, sp, guard, ustack := -1, 0, 0, 0, 0, [];
    s := so;
    if !headerOk {
      return;
    }
    var pagetable;
    pagetable, s := ProcPagetable(mem, k);
    if pagetable.None? {
      return;
    }
    root := pagetable.value;
    NewlyBuilt(t0, d0, mem.tables, mem.data, s, k);
    var ok;
    ok, sz, s := LoadSegments(mem, root, segs, file, k, s, t0, d0, budget);
    if !ok {
      Bad(mem, root, sz, k, s, t0, d0, Up(sz));
      return;
    }
    ghost var img := ImageOf(segs, file, Up(sz) * PGSIZE);
    ok, sz, sp, s, guard, ustack := MakeStack(mem, root, sz, args, k, s, t0, d0, img, budget);
    if !ok {
      Bad(mem, root, sz, k, s, t0, d0, guard);
      return;
    }
    OldOwns(t0, d0, mem.tables, mem.data, s, Up(sz), guard, k, so, oldSz);
    OldInside(t0, d0, so, oldSz, k);
    NewAlone(t0, d0, mem.tables, mem.data, s, Up(sz), guard, k, so.Nodes(), Frames(t0, so, 0, Up(oldSz)));
    SameNodes(mem.tables, mem.data, t0, d0, s, Up(sz), guard, k, so.Nodes());
    ghost var t1, d1 := mem.tables, mem.data;
    ProcFreepagetable(mem, oldRoot, oldSz, k, so, mem.tables - so.Nodes(), mem.data - Frames(t0, so, 0, Up(oldSz)));
    BuiltUser(t0 - so.Nodes(), d0 - Frames(t0, so, 0, Up(oldSz)), mem.tables, mem.data, s, Up(sz), guard, k);
    StackStays(t1, d1, s, mem.tables, mem.data, args, ustack, sp);
    ImageStays(t1, d1, s, mem.tables, mem.data, img);
    r := |args|;
  }

  // From kinit on: a process that has nothing yet runs the program.
  method FirstExec(lo: nat, hi: nat, segs: seq<Segment>, file: Bytes, args: seq<Bytes>, k: Kernel)
    returns (mem: Memory, r: int, ghost s: Space, ghost guard: nat)
    requires lo <= hi <= lo + PAGES
    requires forall i :: 0 <= i < |segs| && segs[i].Load? ==> segs[i].vaddr < WORD64 && segs[i].memsz < WORD64
    requires |args| != MAXARG && forall i :: 0 <= i < |args| ==> |args[i]| < PGSIZE
    ensures fresh(mem) && mem.Valid() && mem.All() == Between(lo, hi)
    ensures r == -1 || r == |args|
    ensures r != -1 ==> Shows(mem.tables, s, mem.data, ImageOf(segs, file, Up(TopOf(segs)) * PGSIZE))
    ensures r != -1 <==> hi - lo >= Price(0) && Runs(segs, file, args, hi - lo - Price(0))
  {
    hide Fixed, Lookup, Sized, RootOk, MidOk, BottomOk, Separate, Space.Nodes, Frames, Shows, ImageOf, TopOf;
    mem := new Memory(lo, hi);
    BetweenSize(lo, hi);
    guard := 0;
    var root;
    root, s := ProcPagetable(mem, k);
    if root.None? {
      return mem, -1, s, guard;
    }
    NoPages(mem.tables, mem.data, s);
    assert |mem.freelist| == hi - lo - Price(0);
    hide Price, Priced, Runs;
    var newRoot, sz, sp, ustack;
    r, newRoot, sz, sp, s, guard, ustack := Exec(mem, root.value, 0, true, segs, file, args, k, s);
  }

  lemma NoPages(t: Tables, d: map<nat, Bytes>, s: Space)
    requires Sized(t, s)
    ensures Up(0) == 0 && OwnsRange(t, s, d, 0, 0)
  {}

  // The label bad.
  method Bad(mem: Memory, root: nat, sz: nat, k: Kernel, ghost s: Space, ghost t0: Tables, ghost d0: map<nat, Bytes>,
      ghost guard: nat)
    requires mem.Valid() && Built(t0, d0, mem.tables, mem.data, s, Up(sz), guard, k) && s.root == root
    modifies mem
    ensures mem.Valid() && mem.All() == old(mem.All()) && mem.tables == t0 && mem.data == d0
  {
    hide Own, Lookup, Frames;
    ProcFreepagetable(mem, root, sz, k, s, t0, d0);
  }

  // From the page boundary above the program to the arguments on the stack.
  method MakeStack(mem: Memory, root: nat, size: nat, args: seq<Bytes>, k: Kernel, ghost s: Space, ghost t0: Tables,
      ghost d0: map<nat, Bytes>, ghost img: Bytes, ghost budget: nat)
    returns (ok: bool, sz: nat, sp: nat, ghost s': Space, ghost guard: nat, ustack: seq<nat>)
    requires Priced(budget, |mem.freelist|, s, Up(size)) && budget <= PAGES
    requires mem.Valid() && Built(t0, d0, mem.tables, mem.data, s, Up(size), Up(size), k) && s.root == root
      && |mem.All()| <= PAGES
    requires |args| != MAXARG && forall i :: 0 <= i < |args| ==> |args[i]| < PGSIZE
    requires Shows(mem.tables, s, mem.data, img) && |img| == Up(size) * PGSIZE
    modifies mem
    ensures mem.Valid() && mem.All() == old(mem.All()) && s'.root == root
    ensures Built(t0, d0, mem.tables, mem.data, s', Up(sz), guard, k)
    ensures ok ==>
      |args| < MAXARG && guard == Up(size) && sz == (guard + 2) * PGSIZE && sz - PGSIZE <= sp && sp % 16 == 0
    ensures ok ==>
      Sized(mem.tables, s') && Lookup(mem.tables, s', guard).Some? && !Lookup(mem.tables, s', guard).value.perm.u
    ensures ok ==> Backed(mem.tables, s', mem.data) && ArgsAt(mem.tables, s', mem.data, args, ustack, sp)
    ensures ok ==> ReadsAs(mem.tables, s', mem.data, sp, Pointers(ustack + [0]))
    ensures ok ==> Shows(mem.tables, s', mem.data, img)
    ensures ok <==> Price(Up(size) + 2) <= budget && StackFits((Up(size) + 2) * PGSIZE, args)
  {
    hide Built, Own, Fixed, Lookup, RootOk, MidOk, BottomOk, Separate, Space.Nodes, Frames, OwnsRange, Backed, ReadsAs,
        ArgsAt, Memory.All, Up, PgRoundUp, Shows, Price, Priced, StackFits, StackOpen;
    RoundUp(size);
    sz, s', sp, ustack, ok, guard := PgRoundUp(size), s, 0, [], false, Up(size);
    BuiltBelow(t0, d0, mem.tables, mem.data, s, Up(size), Up(size), k);
    Unguard(t0, d0, mem.tables, mem.data, s, Up(size), Up(size), TRAPFRAME, k);
    var sz1;
    RoundUp(sz + 2 * PGSIZE);
    sz1, s' := Grow(mem, root, sz, sz + 2 * PGSIZE, Perm(false, true, false, false), k, s', t0, d0, TRAPFRAME, img,
      budget);
    guard := TRAPFRAME;
    if sz1 == 0 {
      return;
    }
    sz := sz1;
    RoundUp(sz);
    AffordsIt(budget, |mem.freelist|, s', Up(sz));
    BuiltBelow(t0, d0, mem.tables, mem.data, s', Up(sz), TRAPFRAME, k);
    Unguard(t0, d0, mem.tables, mem.data, s', Up(sz), TRAPFRAME, Up(sz), k);
    guard := sz / PGSIZE - 2;
    ghost var t1 := mem.tables;
    FrontShown(mem.tables, s', mem.data, img, (Up(sz) - Up(size)) * PGSIZE);
    Uvmclear(mem, root, sz - 2 * PGSIZE, k, s', t0, d0, Up(sz));
    BuiltUser(t0, d0, mem.tables, mem.data, s', Up(sz), guard, k);
    ClearedShows(t0, d0, t1, mem.tables, s', mem.data, img, Up(sz), guard, k);
    OpenStack(t0, d0, mem.tables, mem.data, s', Up(sz), guard, k, sz);
    ok, sp, ustack := PushArgs(mem, root, sz, args, k, s', t0, d0, Up(sz), guard, img);
  }

  lemma OpenStack(t0: Tables, d0: map<nat, Bytes>, t: Tables, d: map<nat, Bytes>, s: Space, n: nat, guard: nat,
      k: Kernel, top: nat)
    requires Built(t0, d0, t, d, s, n, guard, k) && top == n * PGSIZE && n > 0
    requires Lookup(t, s, n - 1).Some? && Lookup(t, s, n - 1).value.perm == UserPerm(Perm(false, true, false, false))
    ensures StackOpen(t, s, top)
  {
    hide Lookup, RootOk, MidOk, BottomOk, Separate, Sized, Frames, OwnsRange, TablesApart, DataApart, Whole, Fixed;
    forall a: nat | top - PGSIZE <= a < top ensures Accessible(t, s, a, true) {
      assert a / PGSIZE == n - 1;
    }
  }

  lemma FrontShown(t: Tables, s: Space, d: map<nat, Bytes>, img: Bytes, n: nat)
    requires Shows(t, s, d, img + Zeros(n))
    ensures Shows(t, s, d, img)
  {
    ShowsLess(t, s, d, img + Zeros(n), |img|);
    assert (img + Zeros(n))[..|img|] == img;
  }

  // Closing a page above it does not change what the program has.
  lemma ClearedShows(t0: Tables, d0: map<nat, Bytes>, t: Tables, t1: Tables, s: Space, d: map<nat, Bytes>, img: Bytes,
      n: nat, guard: nat, k: Kernel)
    requires Shows(t, s, d, img) && |img| == guard * PGSIZE && Built(t0, d0, t1, d, s, n, guard, k) && Backed(t1, s, d)
    requires forall w: nat {:trigger Lookup(t1, s, w)} :: w != guard ==> Lookup(t1, s, w) == Lookup(t, s, w)
    ensures Shows(t1, s, d, img)
  {
    hide Lookup, Sized, Own, Fixed, Whole;
    BuiltSized(t0, d0, t1, d, s, n, guard, k);
    ShowsStill(t, s, d, t1, s, d, img);
  }

  lemma RoundUp(sz: nat)
    ensures PgRoundUp(sz) % PGSIZE == 0 && Up(PgRoundUp(sz)) == Up(sz) && PgRoundUp(sz) == Up(sz) * PGSIZE
    ensures sz % PGSIZE == 0 ==> Up(sz) == sz / PGSIZE
  {}

  lemma NewlyBuilt(t0: Tables, d0: map<nat, Bytes>, t: Tables, d: map<nat, Bytes>, s: Space, k: Kernel)
    requires Own(t0, d0, t, d, s, 0) && Fixed(t, s, 0, k)
    ensures Built(t0, d0, t, d, s, 0, 0, k)
  {
    hide Lookup, Frames;
  }

  lemma OldInside(t: Tables, d: map<nat, Bytes>, s: Space, sz: nat, k: Kernel)
    requires ProcSpace(t, d, s, sz, k)
    ensures s.Nodes() <= t.Keys && Frames(t, s, 0, Up(sz)) <= d.Keys
  {
    NodesInTables(t, s);
    FramesInData(t, d, s, Up(sz));
  }
}

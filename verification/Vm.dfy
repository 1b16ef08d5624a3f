// kernel/kalloc.c and kernel/vm.c: physical pages, and the operations on address spaces.
// Addresses are kept as in the source; pages are named by their page number.
module Vm {
  import opened Basics
  import opened Sv39

  const PAGES := 0x8000                    // physical pages between KERNBASE and PHYSTOP
  const TRAMPOLINE := MAXVPN - 1           // as a page number
  const TRAPFRAME := MAXVPN - 2            // as a page number, below the trampoline

  type Bytes = seq<int>

  function PgRoundUp(sz: nat): nat { (sz + PGSIZE - 1) / PGSIZE * PGSIZE }

  ghost function Set(ps: seq<nat>): set<nat> { set p | p in ps }

  ghost function Between(lo: nat, hi: nat): (r: set<nat>)
    requires lo <= hi
    ensures forall p :: p in r <==> lo <= p < hi
    decreases hi - lo
  {
    if lo == hi then {} else Between(lo, hi - 1) + {hi - 1}
  }

  lemma {:induction false} BetweenSize(lo: nat, hi: nat)
    requires lo <= hi
    ensures |Between(lo, hi)| == hi - lo
    decreases hi - lo
  {
    if lo < hi {
      BetweenSize(lo, hi - 1);
    }
  }

  lemma {:induction false} SetSize(ps: seq<nat>)
    requires Distinct(ps)
    ensures |Set(ps)| == |ps|
  {
    if ps != [] {
      SetSize(ps[1..]);
      assert Set(ps) == Set(ps[1..]) + {ps[0]};
    }
  }

  class Memory {
    var freelist: seq<nat>         // kmem.freelist, from its head
    var tables: Tables             // contents of the pages in use as page tables
    var data: map<nat, Bytes>      // contents of the pages in use for anything else

    // Every physical page is on the free list, or a page table, or holds data; never two of these.
    ghost predicate Valid()
      reads this
    {
      && Distinct(freelist) && Set(freelist) !! tables.Keys && Set(freelist) !! data.Keys && tables.Keys !! data.Keys
    }

    ghost function All(): set<nat>
      reads this
    {
      Set(freelist) + tables.Keys + data.Keys
    }

    lemma DataInAll()
      ensures data.Keys <= All()
    {}

    // kinit: pages lo to hi, of which the kernel itself takes none, are free.
    constructor (lo: nat, hi: nat)
      requires lo <= hi
      ensures Valid() && tables == map[] && data == map[]
      ensures All() == Between(lo, hi) && |freelist| == hi - lo
    {
      freelist, tables, data := [], map[], map[];
      new;
      Freerange(lo, hi);
    }

    method Freerange(lo: nat, hi: nat)
      requires Valid() && lo <= hi && Between(lo, hi) !! All()
      modifies this
      ensures Valid() && tables == old(tables) && data == old(data)
      ensures All() == old(All()) + Between(lo, hi) && |freelist| == |old(freelist)| + hi - lo
    {
      hide Set, Distinct;
      var p := lo;
      while p < hi
        invariant lo <= p <= hi && Valid() && tables == old(tables) && data == old(data)
        invariant Set(freelist) == old(Set(freelist)) + Between(lo, p) && |freelist| == |old(freelist)| + p - lo
      {
        assert Between(lo, p + 1) == Between(lo, p) + {p};
        Kfree(p);
        p := p + 1;
      }
    }

    // kalloc. The page is the caller's to fill.
    method Kalloc() returns (r: Option<nat>)
      requires Valid()
      modifies `freelist
      ensures Valid()
      ensures r.None? <==> old(freelist) == []
      ensures r.None? ==> freelist == old(freelist)
      ensures r.Some? ==> freelist == old(freelist)[1..] && r.value !in Set(freelist) + tables.Keys + data.Keys
      ensures r.Some? ==> old(All()) == All() + {r.value}
    {
      if freelist == [] {
        return None;
      }
      r := Some(freelist[0]);
      assert freelist == [freelist[0]] + freelist[1..];
      freelist := freelist[1..];
    }

    // kfree of a page that was handed out, or at boot of one never used: whatever it held is gone.
    method Kfree(p: nat)
      requires Valid() && p !in Set(freelist)
      modifies this
      ensures Valid() && freelist == [p] + old(freelist) && All() == old(All()) + {p}
      ensures p in old(All()) ==> All() == old(All())
      ensures tables == old(tables) - {p} && data == old(data) - {p}
      ensures p !in old(tables) ==> tables == old(tables)
      ensures p !in old(data) ==> data == old(data)
      ensures Set(freelist) == old(Set(freelist)) + {p}
    {
      tables, data, freelist := tables - {p}, data - {p}, [p] + freelist;
      assert freelist[1..] == old(freelist);
    }

    // walk: the table page and index of the entry for va. New table pages come from the free list.
    method Walk(va: nat, alloc: bool, root: nat, ghost s: Space) returns (pte: Option<(nat, nat)>, ghost s': Space)
      requires Valid() && WellFormed(tables, s) && s.root == root && va < MAXVA
      modifies `freelist, `tables
      ensures Valid() && All() == old(All()) && WellFormed(tables, s') && s'.root == root
      ensures SameMap(old(tables), s, tables, s') && OnlyGrew(old(tables), s, tables, s')
      ensures !alloc ==> s' == s && tables == old(tables) && freelist == old(freelist)
      ensures !alloc ==> (pte.Some? <==> Mid(va / PGSIZE) in s.l0)
      ensures alloc && pte.None? ==> freelist == [] && |old(freelist)| < Missing(s, va / PGSIZE, va / PGSIZE + 1)
      ensures alloc && pte.Some? ==> Paid(|old(freelist)|, s, |freelist|, s', va / PGSIZE, va / PGSIZE + 1, 0)
      ensures pte.Some? ==> Mid(va / PGSIZE) in s'.l0 && pte.value == (s'.l0[Mid(va / PGSIZE)], va / PGSIZE % TABLE)
    {
      hide SameMap, Sized, Separate, RootOk, MidOk, BottomOk, Lookup, Px, Distinct, OnlyGrew, Missing, Paid,
        Walked;
      Digits(va);
      ghost var v := va / PGSIZE;
      WalkStarts(tables, s, v, |freelist|);
      var level, page := 2, root;
      s' := s;
      StartWalk(tables, s);
      while level > 0
        invariant 0 <= level <= 2 && Valid() && All() == old(All())
        invariant WellFormed(tables, s') && s'.root == root
        invariant SameMap(old(tables), s, tables, s') && OnlyGrew(old(tables), s, tables, s')
        invariant !alloc ==> s' == s && tables == old(tables) && freelist == old(freelist)
        invariant level == 2 ==> page == root
        invariant level == 1 ==> Top(v) in s'.l1 && page == s'.l1[Top(v)]
        invariant level == 0 ==> Mid(v) in s'.l0 && page == s'.l0[Mid(v)]
        invariant alloc ==> Walked(|old(freelist)|, s, |freelist|, s', v, level)
      {
        if level == 2 {
          ReadRoot(tables, s', Top(v));
        } else {
          ReadMiddle(tables, s', Mid(v));
        }
        var idx := Px(level, va);
        var entry := tables[page][idx];
        if entry.v {
          page := entry.ppn;
          if alloc {
            WalkedDown(|old(freelist)|, s, |freelist|, s', v, level);
          }
        } else {
          if !alloc {
            if Mid(v) in s.l0 {
              BottomUnderMiddle(tables, s, Mid(v));
            }
            return None, s';
          }
          var p;
          p, s' := NewTable(v, level, page, idx, old(tables), s, s', |old(freelist)|);
          if p.None? {
            return None, s';
          }
          page := p.value;
        }
        level := level - 1;
      }
      if alloc {
        WalkEnds(|old(freelist)|, s, |freelist|, s', v);
      }
      return Some((page, Px(0, va))), s';
    }

    // A new table page under entry idx of table page, for walk.
    method NewTable(ghost v: nat, ghost level: nat, page: nat, idx: nat, ghost t: Tables, ghost s: Space,
        ghost s0: Space, ghost free: nat)
      returns (p: Option<nat>, ghost s1: Space)
      requires Valid() && WellFormed(t, s) && WellFormed(tables, s0)
      requires SameMap(t, s, tables, s0) && OnlyGrew(t, s, tables, s0)
      requires level == 2 || level == 1
      requires level == 2 ==> page == s0.root && Top(v) < TABLE && Top(v) !in s0.l1
      requires level == 1 ==> Top(v) in s0.l1 && Mid(v) / TABLE == Top(v) && page == s0.l1[Top(v)] && Mid(v) !in s0.l0
      requires page in tables && |tables[page]| == TABLE && idx == (if level == 2 then Top(v) else Mid(v) % TABLE)
      requires Walked(free, s, |freelist|, s0, v, level)
      modifies `freelist, `tables
      ensures Valid() && All() == old(All())
      ensures p.None? ==> s1 == s0 && tables == old(tables) && freelist == [] && free < Missing(s, v, v + 1)
      ensures p.Some? ==> WellFormed(tables, s1) && SameMap(t, s, tables, s1) && OnlyGrew(t, s, tables, s1)
      ensures p.Some? ==>
        s1 == if level == 2 then s0.(l1 := s0.l1[Top(v) := p.value]) else s0.(l0 := s0.l0[Mid(v) := p.value])
      ensures p.Some? ==> Walked(free, s, |freelist|, s1, v, level - 1)
    {
      hide SameMap, Sized, Separate, RootOk, MidOk, BottomOk, Lookup, Distinct, OnlyGrew, Missing, Walked;
      s1 := s0;
      p := Kalloc();
      if p.None? {
        WalkStops(free, s, |freelist|, s0, v, level);
        return;
      }
      ghost var t0 := tables;
      s1 := if level == 2 then s0.(l1 := s0.l1[Top(v) := p.value]) else s0.(l0 := s0.l0[Mid(v) := p.value]);
      tables := tables[p.value := ZeroTable()];
      tables := tables[page := tables[page][idx := Pointer(p.value)]];
      AddTable(t, s, t0, s0, v, level, page, p.value, tables, s1);
      WalkedNew(free, s, |freelist| + 1, s0, v, level, s1);
    }

    // mappages: k pages get mapped, all of them unless a table page could not be allocated.
    method Mappages(va: nat, size: nat, ppn: nat, perm: Perm, root: nat, ghost s: Space)
      returns (r: int, ghost s': Space, ghost k: nat)
      requires Valid() && WellFormed(tables, s) && s.root == root
      requires va % PGSIZE == 0 && size % PGSIZE == 0 && size > 0 && va + size <= MAXVA
      requires perm.r || perm.w || perm.x
      requires forall w :: va / PGSIZE <= w < (va + size) / PGSIZE ==> Lookup(tables, s, w) == None
      modifies `freelist, `tables
      ensures Valid() && All() == old(All()) && WellFormed(tables, s') && s'.root == root
      ensures OnlyGrew(old(tables), s, tables, s')
      ensures Mapped(old(tables), s, tables, s', va / PGSIZE, k, ppn, perm)
      ensures (r == 0 && k == size / PGSIZE) || (r == -1 && k < size / PGSIZE && freelist == [])
      ensures r == 0 ==> Paid(|old(freelist)|, s, |freelist|, s', va / PGSIZE, va / PGSIZE + size / PGSIZE, 0)
      ensures r == -1 ==> |old(freelist)| < Missing(s, va / PGSIZE, va / PGSIZE + size / PGSIZE)
    {
      hide Sized, Separate, RootOk, MidOk, BottomOk, Lookup, OnlyGrew, Distinct, Mapped, Paid, Missing;
      var a, last, pa := va, va + size - PGSIZE, ppn;
      s', k := s, 0;
      StartWalk(tables, s);
      StartMap(tables, s, va / PGSIZE, ppn, perm);
      PaidNone(|freelist|, s, va / PGSIZE);
      while true
        invariant Valid() && All() == old(All()) && WellFormed(tables, s') && s'.root == root
        invariant OnlyGrew(old(tables), s, tables, s')
        invariant k < size / PGSIZE && a == va + k * PGSIZE && pa == ppn + k
        invariant Mapped(old(tables), s, tables, s', va / PGSIZE, k, ppn, perm)
        invariant Paid(|old(freelist)|, s, |freelist|, s', va / PGSIZE, va / PGSIZE + k, 0)
        decreases size / PGSIZE - k
      {
        ghost var t0, s0, f0, w := tables, s', |freelist|, va / PGSIZE + k;
        assert a / PGSIZE == w;
        var pte;
        pte, s' := Walk(a, true, root, s0);
        GrewTrans(old(tables), s, t0, s0, tables, s');
        if pte.None? {
          MapSame(old(tables), s, t0, s0, tables, s', va / PGSIZE, k, ppn, perm);
          NotPaid(|old(freelist)|, s, f0, s0, va / PGSIZE, w, w + 1, va / PGSIZE + size / PGSIZE, 0, 0);
          return -1, s', k;
        }
        var (page, idx) := pte.value;
        ghost var t1 := tables;
        ReadBottom(t1, s', a / PGSIZE);
        SetEntry(t1, s', a / PGSIZE, Pte(true, perm, pa));
        tables := tables[page := tables[page][idx := Pte(true, perm, pa)]];
        GrewEntry(old(tables), s, t1, tables, s', Mid(a / PGSIZE));
        MapOne(old(tables), s, t0, s0, t1, tables, s', va / PGSIZE, k, ppn, perm);
        PaidMore(|old(freelist)|, s, f0, s0, |freelist|, s', va / PGSIZE, w, w + 1, 0, 0);
        k := k + 1;
        if a == last {
          break;
        }
        a, pa := a + PGSIZE, pa + 1;
      }
      r := 0;
    }

    // uvmunmap
    method Uvmunmap(va: nat, npages: nat, doFree: bool, root: nat, ghost s: Space)
      requires Valid() && WellFormed(tables, s) && s.root == root
      requires va % PGSIZE == 0 && va + npages * PGSIZE <= MAXVA
      requires forall w :: va / PGSIZE <= w < va / PGSIZE + npages ==> Lookup(tables, s, w).Some?
      requires doFree ==> OwnsRange(tables, s, data, va / PGSIZE, npages)
      modifies this
      ensures Valid() && All() == old(All()) && WellFormed(tables, s)
      ensures OnlyGrew(old(tables), s, tables, s) && Unmapped(old(tables), s, tables, va / PGSIZE, npages)
      ensures data == old(data) - (if doFree then Frames(old(tables), s, va / PGSIZE, npages) else {})
      ensures !doFree ==> freelist == old(freelist)
    {
      hide Sized, Separate, RootOk, MidOk, BottomOk, Lookup, OnlyGrew, Distinct, Unmapped, Frames, OwnsRange;
      ghost var v0, k := va / PGSIZE, 0;
      StartWalk(tables, s);
      StartUnmap(tables, s, v0);
      var a := va;
      while a < va + npages * PGSIZE
        invariant k <= npages && a == va + k * PGSIZE
        invariant Valid() && All() == old(All()) && WellFormed(tables, s)
        invariant OnlyGrew(old(tables), s, tables, s) && Unmapped(old(tables), s, tables, v0, k)
        invariant data == old(data) - (if doFree then Frames(old(tables), s, v0, k) else {})
        invariant !doFree ==> freelist == old(freelist)
      {
        ghost var t0 := tables;
        UnmappedAt(old(tables), s, t0, v0, k);
        if doFree {
          NextFrame(old(tables), s, old(data), v0, npages, k);
        }
        UnmapPage(a, doFree, root, s, v0 + k);
        GrewEntry(old(tables), s, t0, tables, s, Mid(v0 + k));
        UnmapOne(old(tables), s, t0, tables, v0, k);
        k := k + 1;
        a := a + PGSIZE;
      }
    }

    // One turn of uvmunmap's loop.
    method UnmapPage(a: nat, doFree: bool, root: nat, ghost s: Space, ghost v: nat)
      requires Valid() && WellFormed(tables, s) && s.root == root && a == v * PGSIZE && a < MAXVA
      requires Lookup(tables, s, v).Some? && (doFree ==> Lookup(tables, s, v).value.ppn in data)
      modifies this
      ensures Valid() && All() == old(All()) && WellFormed(tables, s) && Mid(v) in s.l0
      ensures Lookup(tables, s, v) == None
      ensures forall w: nat {:trigger Lookup(tables, s, w)} ::
        w != v ==> Lookup(tables, s, w) == Lookup(old(tables), s, w)
      ensures s.l0[Mid(v)] in tables && tables == old(tables)[s.l0[Mid(v)] := tables[s.l0[Mid(v)]]]
        && s.l0[Mid(v)] in old(tables)
      ensures data == old(data) - (if doFree then {Lookup(old(tables), s, v).value.ppn} else {})
      ensures !doFree ==> freelist == old(freelist)
    {
      hide Sized, Separate, RootOk, MidOk, BottomOk, Lookup, Distinct;
      ghost var t0 := tables;
      MappedHasTable(t0, s, v);
      var pte, _ := Walk(a, false, root, s);
      var (page, idx) := pte.value;
      ReadBottom(tables, s, v);
      if doFree {
        Kfree(tables[page][idx].ppn);
        assert tables == t0;
      }
      SetEntry(t0, s, v, ZERO);
      tables := tables[page := tables[page][idx := ZERO]];
    }

    // uvmdealloc
    method Uvmdealloc(oldsz: nat, newsz: nat, root: nat, ghost s: Space) returns (r: nat)
      requires Valid() && WellFormed(tables, s) && s.root == root && PgRoundUp(oldsz) <= MAXVA
      requires newsz < oldsz ==> OwnsRange(tables, s, data, Up(newsz), Up(oldsz) - Up(newsz))
      modifies this
      ensures Valid() && All() == old(All()) && WellFormed(tables, s) && OnlyGrew(old(tables), s, tables, s)
      ensures r == if newsz >= oldsz then oldsz else newsz
      ensures newsz >= oldsz ==> tables == old(tables) && data == old(data) && freelist == old(freelist)
      ensures newsz < oldsz ==> Unmapped(old(tables), s, tables, Up(newsz), Up(oldsz) - Up(newsz))
      ensures newsz < oldsz ==> data == old(data) - Frames(old(tables), s, Up(newsz), Up(oldsz) - Up(newsz))
    {
      hide Sized, Separate, RootOk, MidOk, BottomOk, Lookup, Distinct, Unmapped, Frames;
      StartWalk(tables, s);
      if newsz >= oldsz {
        return oldsz;
      }
      UpMonotone(newsz, oldsz);
      StartUnmap(tables, s, Up(newsz));
      if PgRoundUp(newsz) < PgRoundUp(oldsz) {
        var npages := (PgRoundUp(oldsz) - PgRoundUp(newsz)) / PGSIZE;
        Uvmunmap(PgRoundUp(newsz), npages, true, root, s);
      }
      return newsz;
    }

    // uvmalloc; ok says whether it grew the process as asked. If not, the mappings and the data are as before,
    // and only table pages may have left the free list.
    method Uvmalloc(oldsz: nat, newsz: nat, xperm: Perm, root: nat, ghost s: Space)
      returns (r: nat, ghost s': Space, ghost ok: bool)
      requires Valid() && WellFormed(tables, s) && s.root == root && |All()| <= PAGES
      requires OwnsRange(tables, s, data, 0, Up(oldsz))
      requires forall w :: Up(oldsz) <= w < TRAPFRAME ==> Lookup(tables, s, w) == None
      modifies this
      ensures Valid() && All() == old(All()) && WellFormed(tables, s') && s'.root == root
      ensures OnlyGrew(old(tables), s, tables, s')
      ensures newsz < oldsz ==> ok && r == oldsz && s' == s && tables == old(tables) && data == old(data)
      ensures newsz < oldsz ==> freelist == old(freelist)
      ensures newsz >= oldsz && ok ==> r == newsz && Up(newsz) < TRAPFRAME
      ensures newsz >= oldsz && ok ==>
        Extended(old(tables), s, old(data), tables, s', data, Up(oldsz), Up(newsz), UserPerm(xperm))
      ensures !ok ==> r == 0 && SameMap(old(tables), s, tables, s') && data == old(data)
      ensures newsz >= oldsz && ok ==>
        Paid(|old(freelist)|, s, |freelist|, s', Up(oldsz), Up(newsz), Up(newsz) - Up(oldsz))
      ensures !ok ==> newsz >= oldsz && |old(freelist)| < Missing(s, Up(oldsz), Up(newsz)) + Up(newsz) - Up(oldsz)
    {
      hide Sized, Separate, RootOk, MidOk, BottomOk, Lookup, Distinct, Unmapped, Mapped, Frames, OnlyGrew, Extended,
        OwnsRange, SameMap, Set, Space.Nodes, Up, PgRoundUp, UserPerm, ZeroPage, Valid, All, Paid, Missing;
      s', ok := s, true;
      StartWalk(tables, s);
      if newsz < oldsz {
        return oldsz, s', ok;
      }
      UpMonotone(oldsz, newsz);
      ghost var n := Up(oldsz);
      StartExtend(tables, s, data, n, UserPerm(xperm));
      PaidNone(|freelist|, s, n);
      DataInAll();
      ExtendBound(tables, s, data, tables, s, data, n, n, UserPerm(xperm), All());
      var base := PgRoundUp(oldsz);
      var a := base;
      while a < newsz
        invariant a == n * PGSIZE && Up(oldsz) <= n <= Up(newsz) && n < TRAPFRAME
        invariant Valid() && All() == old(All()) && WellFormed(tables, s') && s'.root == root
        invariant OnlyGrew(old(tables), s, tables, s')
        invariant Extended(old(tables), s, old(data), tables, s', data, Up(oldsz), n, UserPerm(xperm))
        invariant Paid(|old(freelist)|, s, |freelist|, s', Up(oldsz), n, n - Up(oldsz))
        decreases newsz - a
      {
        PageIndex(n, newsz);
        ghost var d0, t0, s0, f0 := data, tables, s', |freelist|;
        ExtendedAt(old(tables), s, old(data), t0, s0, d0, Up(oldsz), n, UserPerm(xperm));
        var got, p;
        got, s', p := GrowOne(a, UserPerm(xperm), root, s0, n);
        GrewTrans(old(tables), s, t0, s0, tables, s');
        if !got {
          ExtendedSame(old(tables), s, old(data), t0, s0, tables, s', d0, Up(oldsz), n, UserPerm(xperm));
          NotPaid(|old(freelist)|, s, f0, s0, Up(oldsz), n, n + 1, Up(newsz), n - Up(oldsz), 1);
          ok := Undo(a, base, root, s', old(tables), s, old(data), Up(oldsz), n, UserPerm(xperm));
          return 0, s', ok;
        }
        ExtendedOne(old(tables), s, old(data), t0, s0, tables, s', d0, data, Up(oldsz), n, UserPerm(xperm), p);
        PaidMore(|old(freelist)|, s, f0, s0, |freelist|, s', Up(oldsz), n, n + 1, n - Up(oldsz), 1);
        n, a := n + 1, a + PGSIZE;
        DataInAll();
        ExtendBound(old(tables), s, old(data), tables, s', data, Up(oldsz), n, UserPerm(xperm), All());
      }
      PageIndex(n, newsz);
      r := newsz;
    }

    // One page for uvmalloc: a zeroed page mapped at a, or nothing but perhaps new table pages.
    method GrowOne(a: nat, perm: Perm, root: nat, ghost s: Space, ghost v: nat) returns (ok: bool, ghost s': Space,
        p: nat)
      requires Valid() && WellFormed(tables, s) && s.root == root
      requires a == v * PGSIZE && a + PGSIZE <= MAXVA && perm.r && Lookup(tables, s, v) == None
      modifies this
      ensures Valid() && All() == old(All()) && WellFormed(tables, s') && s'.root == root
      ensures OnlyGrew(old(tables), s, tables, s')
      ensures ok ==> Mapped(old(tables), s, tables, s', v, 1, p, perm)
      ensures ok ==> p !in old(data) && data == old(data)[p := ZeroPage()]
      ensures !ok ==> Mapped(old(tables), s, tables, s', v, 0, p, perm) && data == old(data)
      ensures ok ==> Paid(|old(freelist)|, s, |freelist|, s', v, v + 1, 1)
      ensures !ok ==> |old(freelist)| < Missing(s, v, v + 1) + 1
    {
      hide Sized, Separate, RootOk, MidOk, BottomOk, Lookup, Distinct, OnlyGrew, Mapped, Paid, Missing;
      s', p := s, 0;
      PageIndex(v, a);
      StartWalk(tables, s);
      StartMap(tables, s, v, p, perm);
      var mem := Kalloc();
      if mem.None? {
        return false, s', p;
      }
      p := mem.value;
      data := data[p := ZeroPage()];
      var e;
      ghost var k;
      e, s', k := Mappages(a, PGSIZE, p, perm, root, s);
      if e != 0 {
        Kfree(p);
        assert data == old(data);
        return false, s', p;
      }
      PaidExtra(|old(freelist)|, s, |freelist|, s', v, v + 1);
      ok := true;
    }

    // uvmalloc's way out: give back the pages mapped so far.
    method Undo(a: nat, base: nat, root: nat, ghost s': Space, ghost t: Tables, ghost s: Space,
        ghost d: map<nat, Bytes>,
                ghost n0: nat, ghost n: nat, ghost perm: Perm) returns (ghost ok: bool)
      requires Valid() && WellFormed(tables, s') && s'.root == root && WellFormed(t, s)
      requires a == n * PGSIZE && base == n0 * PGSIZE && n0 <= n < TRAPFRAME
      requires Extended(t, s, d, tables, s', data, n0, n, perm) && OnlyGrew(t, s, tables, s')
      requires forall w :: n0 <= w < TRAPFRAME ==> Lookup(t, s, w) == None
      modifies this
      ensures Valid() && All() == old(All()) && WellFormed(tables, s') && OnlyGrew(t, s, tables, s')
      ensures !ok && SameMap(t, s, tables, s') && data == d
    {
      hide Sized, Separate, RootOk, MidOk, BottomOk, Lookup, Distinct, Unmapped, Frames, OnlyGrew;
      ok := false;
      ghost var t0 := tables;
      assert Up(a) == n && Up(base) == n0 && PgRoundUp(a) == a;
      var _ := Uvmdealloc(a, base, root, s');
      GrewTrans(t, s, t0, s', tables, s');
      ExtendUndone(t, s, d, t0, s', old(data), n0, n, perm, tables);
    }

    // uvmcopy: the child gets its own copy of every page, or, if memory runs out, none.
    method Uvmcopy(oldRoot: nat, newRoot: nat, sz: nat, ghost so: Space, ghost s: Space)
      returns (r: int, ghost s': Space)
      requires Valid() && WellFormed(tables, so) && WellFormed(tables, s) && so.Nodes() !! s.Nodes()
      requires so.root == oldRoot && s.root == newRoot && Up(sz) < TRAPFRAME
      requires OwnsRange(tables, so, data, 0, Up(sz))
      requires forall w :: 0 <= w < Up(sz) ==> Lookup(tables, s, w) == None
      modifies this
      ensures Valid() && All() == old(All()) && WellFormed(tables, so) && WellFormed(tables, s')
      ensures SameMap(old(tables), so, tables, so) && s'.root == newRoot
      ensures OnlyGrew(old(tables), s, tables, s')
      ensures r == 0 ==> Copied(old(tables), so, s, old(data), tables, s', data, Up(sz))
      ensures r != 0 ==> r == -1 && SameMap(old(tables), s, tables, s') && data == old(data)
      ensures r == 0 ==> Paid(|old(freelist)|, s, |freelist|, s', 0, Up(sz), Up(sz))
      ensures r != 0 ==> |old(freelist)| < Missing(s, 0, Up(sz)) + Up(sz)
    {
      hide Sized, Separate, RootOk, MidOk, BottomOk, Lookup, Distinct, Unmapped, Mapped, Frames, OnlyGrew, OwnsRange,
        SameMap, Set, Space.Nodes, Up, PgRoundUp, Copied, Valid, All, Paid, Missing;
      s' := s;
      StartWalk(tables, s);
      StartWalk(tables, so);
      StartCopy(tables, so, s, data);
      PaidNone(|freelist|, s, 0);
      ghost var n := 0;
      var i := 0;
      PageIndex(0, sz);
      while i < sz
        invariant i == n * PGSIZE && n <= Up(sz)
        invariant Valid() && All() == old(All()) && WellFormed(tables, s') && s'.root == newRoot
        invariant WellFormed(tables, so) && SameMap(old(tables), so, tables, so)
        invariant OnlyGrew(old(tables), s, tables, s')
        invariant Copied(old(tables), so, s, old(data), tables, s', data, n)
        invariant Paid(|old(freelist)|, s, |freelist|, s', 0, n, n)
      {
        PageIndex(n, sz);
        ghost var d0, t0, s0, f0 := data, tables, s', |freelist|;
        CopiedAt(old(tables), so, s, old(data), t0, s0, d0, n, Up(sz));
        SourcePage(old(tables), t0, so, old(data), n, Up(sz));
        var pte, _ := Walk(i, false, oldRoot, so);
        ReadBottom(tables, so, n);
        var entry := tables[pte.value.0][pte.value.1];
        var got, p;
        got, s', p := CopyOne(i, entry.ppn, entry.perm, newRoot, s0, n);
        GrewTrans(old(tables), s, t0, s0, tables, s');
        OtherTree(old(tables), s, tables, s', so);
        if !got {
          CopiedSame(old(tables), so, s, old(data), t0, s0, tables, s', d0, n, p, entry.perm);
          NotPaid(|old(freelist)|, s, f0, s0, 0, n, n + 1, Up(sz), n, 1);
          r := UndoCopy(i, newRoot, s', old(tables), so, s, old(data), n);
          OtherTree(old(tables), s, tables, s', so);
          return;
        }
        CopiedOne(old(tables), so, s, old(data), t0, s0, tables, s', d0, data, n, p, entry);
        PaidMore(|old(freelist)|, s, f0, s0, |freelist|, s', 0, n, n + 1, n, 1);
        n, i := n + 1, i + PGSIZE;
      }
      PageIndex(n, sz);
      r := 0;
    }

    // One page for uvmcopy: a copy of page pa mapped at a.
    method CopyOne(a: nat, pa: nat, perm: Perm, root: nat, ghost s: Space, ghost v: nat)
      returns (ok: bool, ghost s': Space, p: nat)
      requires Valid() && WellFormed(tables, s) && s.root == root && pa in data
      requires a == v * PGSIZE && a + PGSIZE <= MAXVA && (perm.r || perm.w || perm.x) && Lookup(tables, s, v) == None
      modifies this
      ensures Valid() && All() == old(All()) && WellFormed(tables, s') && s'.root == root
      ensures OnlyGrew(old(tables), s, tables, s')
      ensures ok ==> Mapped(old(tables), s, tables, s', v, 1, p, perm)
      ensures ok ==> p !in old(data) && data == old(data)[p := old(data)[pa]]
      ensures !ok ==> Mapped(old(tables), s, tables, s', v, 0, p, perm) && data == old(data)
      ensures ok ==> Paid(|old(freelist)|, s, |freelist|, s', v, v + 1, 1)
      ensures !ok ==> |old(freelist)| < Missing(s, v, v + 1) + 1
    {
      hide Sized, Separate, RootOk, MidOk, BottomOk, Lookup, Distinct, OnlyGrew, Mapped, Paid, Missing;
      s', p := s, 0;
      PageIndex(v, a);
      StartWalk(tables, s);
      StartMap(tables, s, v, p, perm);
      var mem := Kalloc();
      if mem.None? {
        return false, s', p;
      }
      p := mem.value;
      data := data[p := data[pa]];
      var e;
      ghost var k;
      e, s', k := Mappages(a, PGSIZE, p, perm, root, s);
      if e != 0 {
        Kfree(p);
        assert data == old(data);
        return false, s', p;
      }
      PaidExtra(|old(freelist)|, s, |freelist|, s', v, v + 1);
      ok := true;
    }

    // uvmcopy's way out.
    method UndoCopy(i: nat, root: nat, ghost s': Space, ghost t: Tables, ghost so: Space, ghost s: Space,
                    ghost d: map<nat, Bytes>, ghost n: nat) returns (r: int)
      requires Valid() && WellFormed(tables, s') && s'.root == root && WellFormed(t, s) && WellFormed(t, so)
      requires i == n * PGSIZE && n < TRAPFRAME
      requires Copied(t, so, s, d, tables, s', data, n) && OnlyGrew(t, s, tables, s')
      requires forall w :: 0 <= w < n ==> Lookup(t, s, w) == None
      modifies this
      ensures Valid() && All() == old(All()) && WellFormed(tables, s') && OnlyGrew(t, s, tables, s')
      ensures r == -1 && SameMap(t, s, tables, s') && data == d
    {
      hide Sized, Separate, RootOk, MidOk, BottomOk, Lookup, Distinct, Unmapped, Frames, OnlyGrew, OwnsRange;
      ghost var t0 := tables;
      PageIndex(n, i);
      Uvmunmap(0, i / PGSIZE, true, root, s');
      GrewTrans(t, s, t0, s', tables, s');
      CopyUndone(t, so, s, d, t0, s', old(data), n, tables);
      r := -1;
    }

    // freewalk: gives back the table page and all table pages below it. The tree was s in t0; level and key
    // say where in it the page stands.
    method Freewalk(page: nat, ghost t0: Tables, ghost s: Space, ghost level: nat, ghost key: nat)
      requires WellFormed(t0, s) && Empty(t0, s) && Place(s, level, key) && page == PageAt(s, level, key)
      requires Valid() && Below(s, level, key) <= tables.Keys
      requires forall p :: p in Below(s, level, key) ==> p in t0 && tables[p] == t0[p]
      modifies this
      ensures Valid() && All() == old(All()) && data == old(data)
      ensures tables == old(tables) - Below(s, level, key)
      ensures Set(freelist) == old(Set(freelist)) + Below(s, level, key)
      decreases level
    {
      hide WellFormed, Sized, Separate, RootOk, MidOk, BottomOk, Lookup, Empty, Distinct, Set, Below, Under, Place,
          PageAt;
      ghost var f0, d0 := Set(freelist), tables;
      UnderNone(t0, s, level, key);
      var i := 0;
      while i < TABLE
        invariant 0 <= i <= TABLE && Valid() && All() == old(All()) && data == old(data)
        invariant page in tables && page in t0 && |tables[page]| == |t0[page]| == TABLE
        invariant forall j :: i <= j < TABLE ==> tables[page][j] == t0[page][j]
        invariant tables.Keys == d0.Keys - Under(s, level, key, i)
        invariant forall p :: p in tables && p != page ==> tables[p] == d0[p]
        invariant Set(freelist) == f0 + Under(s, level, key, i)
        modifies this
      {
        EntryAt(t0, s, level, key, i);
        var pte := tables[page][i];
        if pte.v && !pte.perm.r && !pte.perm.w && !pte.perm.x {
          var child := pte.ppn;
          ChildBelow(t0, s, level, key, i);
          Freewalk(child, t0, s, level - 1, ChildKey(level, key, i));
          ghost var keys := tables.Keys;
          tables := tables[page := tables[page][i := ZERO]];
          assert tables.Keys == keys;
        } else {
          assert !pte.v;
        }
        UnderStep(t0, s, level, key, i);
        i := i + 1;
      }
      BelowIsUnder(t0, s, level, key);
      Kfree(page);
    }

    // uvmfree: the process's pages and all its table pages go back to the free list, each once.
    method Uvmfree(root: nat, sz: nat, ghost s: Space)
      requires Valid() && WellFormed(tables, s) && s.root == root && Up(sz) < TRAPFRAME
      requires OwnsRange(tables, s, data, 0, Up(sz))
      requires forall w: nat :: w >= Up(sz) ==> Lookup(tables, s, w) == None
      modifies this
      ensures Valid() && All() == old(All())
      ensures tables.Keys == old(tables.Keys) - s.Nodes() && data == old(data) - Frames(old(tables), s, 0, Up(sz))
      ensures forall p :: p in tables ==> tables[p] == old(tables)[p]
    {
      hide Sized, Separate, RootOk, MidOk, BottomOk, Lookup, Distinct, Unmapped, Frames, Set, Empty, Below;
      StartUnmap(tables, s, 0);
      ghost var t0 := tables;
      if sz > 0 {
        Uvmunmap(0, PgRoundUp(sz) / PGSIZE, true, root, s);
      }
      assert Up(sz) == PgRoundUp(sz) / PGSIZE;
      NowEmpty(t0, s, tables, Up(sz));
      RootBelow(tables, s);
      Freewalk(root, tables, s, 2, 0);
    }
  }

  lemma NowEmpty(t: Tables, s: Space, t': Tables, n: nat)
    requires Sized(t, s) && Sized(t', s) && Unmapped(t, s, t', 0, n)
    requires forall w: nat :: w >= n ==> Lookup(t, s, w) == None
    ensures Empty(t', s)
  {
    hide Sized, Lookup;
  }

  lemma RootBelow(t: Tables, s: Space)
    requires WellFormed(t, s)
    ensures Below(s, 2, 0) == s.Nodes() && s.Nodes() <= t.Keys
  {
    NodesInTables(t, s);
    assert forall k :: k in s.l0 ==> k / TABLE in s.l1 && k / TABLE < TABLE;
  }

  // No page is mapped.
  ghost predicate Empty(t: Tables, s: Space)
    requires Sized(t, s)
  {
    forall v: nat {:trigger Lookup(t, s, v)} :: Lookup(t, s, v) == None
  }

  // The places of table pages in the tree: the root, the middle table under top index key, and the bottom
  // table with middle number key.
  ghost predicate Place(s: Space, level: nat, key: nat) {
    (level == 2 && key == 0) || (level == 1 && key in s.l1) || (level == 0 && key in s.l0)
  }

  ghost function PageAt(s: Space, level: nat, key: nat): nat
    requires Place(s, level, key)
  {
    if level == 2 then s.root else if level == 1 then s.l1[key] else s.l0[key]
  }

  ghost function ChildKey(level: nat, key: nat, i: nat): nat {
    if level == 2 then i else Join(key, i)
  }

  // The table pages under the first i entries of the page at a place.
  ghost function Under(s: Space, level: nat, key: nat, i: nat): set<nat>
    requires Place(s, level, key)
  {
    if level == 2 then (set a | a in s.l1 && a < i :: s.l1[a]) + (set k | k in s.l0 && k / TABLE < i :: s.l0[k])
    else if level == 1 then set k | k in s.l0 && k / TABLE == key && k % TABLE < i :: s.l0[k]
    else {}
  }

  // The table pages at and below a place.
  ghost function Below(s: Space, level: nat, key: nat): set<nat>
    requires Place(s, level, key)
  {
    {PageAt(s, level, key)} + Under(s, level, key, TABLE)
  }

  lemma UnderNone(t0: Tables, s: Space, level: nat, key: nat)
    requires WellFormed(t0, s) && Place(s, level, key)
    ensures Under(s, level, key, 0) == {}
    ensures PageAt(s, level, key) in Below(s, level, key)
    ensures PageAt(s, level, key) in t0 && |t0[PageAt(s, level, key)]| == TABLE
  {}

  // Entry i of the page at a place points to a table page or is invalid.
  lemma EntryAt(t0: Tables, s: Space, level: nat, key: nat, i: nat)
    requires WellFormed(t0, s) && Empty(t0, s) && Place(s, level, key) && i < TABLE
    ensures var p := PageAt(s, level, key);
      && p in t0 && |t0[p]| == TABLE
      && (t0[p][i].v <==> level > 0 && Place(s, level - 1, ChildKey(level, key, i)))
      && (t0[p][i].v ==> t0[p][i] == Pointer(PageAt(s, level - 1, ChildKey(level, key, i))))
  {
    if level == 0 {
      var v := key * TABLE + i;
      assert Mid(v) == key && v % TABLE == i;
      assert Lookup(t0, s, v) == None;
    }
  }

  lemma ChildBelow(t0: Tables, s: Space, level: nat, key: nat, i: nat)
    requires WellFormed(t0, s) && Place(s, level, key) && i < TABLE
    requires level > 0 && Place(s, level - 1, ChildKey(level, key, i))
    ensures Below(s, level - 1, ChildKey(level, key, i)) <= Below(s, level, key)
    ensures Below(s, level - 1, ChildKey(level, key, i)) !! Under(s, level, key, i)
    ensures PageAt(s, level, key) !in Below(s, level - 1, ChildKey(level, key, i))
  {
    assert forall k :: k in s.l0 ==> k / TABLE in s.l1 && k / TABLE < TABLE;
  }

  lemma UnderStep(t0: Tables, s: Space, level: nat, key: nat, i: nat)
    requires WellFormed(t0, s) && Place(s, level, key) && i < TABLE
    ensures var sub := if level > 0 && Place(s, level - 1, ChildKey(level, key, i))
                       then Below(s, level - 1, ChildKey(level, key, i)) else {};
      Under(s, level, key, i + 1) == Under(s, level, key, i) + sub
  {
    if level == 2 {
      UnderRoot(t0, s, i);
    } else if level == 1 {
      UnderMiddle(t0, s, key, i);
    }
  }

  lemma UnderRoot(t0: Tables, s: Space, i: nat)
    requires WellFormed(t0, s) && i < TABLE
    ensures Under(s, 2, 0, i + 1) == Under(s, 2, 0, i) + if i in s.l1 then Below(s, 1, i) else {}
  {
    hide Lookup, BottomOk, Separate;
    assert forall k :: k in s.l0 ==> k / TABLE in s.l1 && (k / TABLE < i + 1 <==> k / TABLE < i || k / TABLE == i);
    assert (set k | k in s.l0 && k / TABLE < i + 1 :: s.l0[k]) ==
      (set k | k in s.l0 && k / TABLE < i :: s.l0[k])
      + (set k | k in s.l0 && k / TABLE == i && k % TABLE < TABLE :: s.l0[k]);
    assert (set a | a in s.l1 && a < i + 1 :: s.l1[a]) ==
      (set a | a in s.l1 && a < i :: s.l1[a]) + (if i in s.l1 then {s.l1[i]} else {});
  }

  lemma UnderMiddle(t0: Tables, s: Space, key: nat, i: nat)
    requires WellFormed(t0, s) && key in s.l1 && i < TABLE
    ensures Under(s, 1, key, i + 1) == Under(s, 1, key, i) + if Join(key, i) in s.l0 then Below(s, 0, Join(key, i))
      else {}
  {
    hide Lookup, BottomOk, Separate;
    assert forall k :: k in s.l0 ==> (k / TABLE == key && k % TABLE == i <==> k == Join(key, i));
  }

  lemma BelowIsUnder(t0: Tables, s: Space, level: nat, key: nat)
    requires WellFormed(t0, s) && Place(s, level, key)
    ensures Below(s, level, key) == Under(s, level, key, TABLE) + {PageAt(s, level, key)}
    ensures PageAt(s, level, key) !in Under(s, level, key, TABLE)
  {}

  // Another tree in the same memory is not affected.
  lemma OtherTree(t: Tables, s: Space, t': Tables, s': Space, so: Space)
    requires OnlyGrew(t, s, t', s') && WellFormed(t, so) && so.Nodes() !! s.Nodes()
    ensures WellFormed(t', so) && SameMap(t, so, t', so) && so.Nodes() !! s'.Nodes()
  {
    NodesInTables(t, so);
    SameTree(t, t', so);
  }

  // The first n pages of so have been copied into s, each into a fresh page with the same permissions.
  ghost predicate Copied(t: Tables, so: Space, s: Space, d: map<nat, Bytes>, t': Tables, s': Space, d': map<nat, Bytes>,
      n: nat)
    requires Sized(t, so) && Sized(t, s) && Sized(t', s')
  {
    && OwnsRange(t', s', d', 0, n)
    && (forall w: nat {:trigger Lookup(t', s', w)} :: w >= n ==> Lookup(t', s', w) == Lookup(t, s, w))
    && (forall w: nat {:trigger Lookup(t', s', w)} :: w < n ==> CopyPage(Lookup(t, so, w), Lookup(t', s', w), d, d'))
    && d'.Keys == d.Keys + Frames(t', s', 0, n)
    && (forall p :: p in d ==> p in d' && d'[p] == d[p])
  }

  ghost predicate CopyPage(from: Option<Pte>, to: Option<Pte>, d: map<nat, Bytes>, d': map<nat, Bytes>) {
    && from.Some? && to.Some? && to.value.v && to.value.perm == from.value.perm
    && from.value.ppn in d && to.value.ppn !in d && to.value.ppn in d'
    && d'[to.value.ppn] == d[from.value.ppn]
  }

  lemma StartCopy(t: Tables, so: Space, s: Space, d: map<nat, Bytes>)
    requires Sized(t, so) && Sized(t, s)
    ensures Copied(t, so, s, d, t, s, d, 0)
  {}

  lemma CopiedAt(t: Tables, so: Space, s: Space, d: map<nat, Bytes>, t': Tables, s': Space, d': map<nat, Bytes>, n: nat,
      m: nat)
    requires Sized(t, so) && Sized(t, s) && Sized(t', s') && Copied(t, so, s, d, t', s', d', n)
    ensures Lookup(t', s', n) == Lookup(t, s, n)
    ensures forall p :: p in d ==> p in d' && d'[p] == d[p]
  {}

  lemma SourcePage(t: Tables, t0: Tables, so: Space, d: map<nat, Bytes>, n: nat, m: nat)
    requires Sized(t, so) && Sized(t0, so) && SameMap(t, so, t0, so) && OwnsRange(t, so, d, 0, m) && n < m
    ensures Lookup(t0, so, n) == Lookup(t, so, n) && Lookup(t, so, n).Some? && Lookup(t, so, n).value.ppn in d
    ensures Mid(n) in so.l0
  {
    assert Lookup(t0, so, n) == Lookup(t, so, n);
  }

  lemma CopiedSame(t: Tables, so: Space, s: Space, d: map<nat, Bytes>, t0: Tables, s0: Space, t1: Tables, s1: Space,
                   d': map<nat, Bytes>, n: nat, p: nat, perm: Perm)
    requires Sized(t, so) && Sized(t, s) && Sized(t0, s0) && Sized(t1, s1) && Copied(t, so, s, d, t0, s0, d', n)
    requires Mapped(t0, s0, t1, s1, n, 0, p, perm)
    ensures Copied(t, so, s, d, t1, s1, d', n)
  {
    hide Sized, Lookup;
    assert forall w: nat {:trigger Lookup(t1, s1, w)} :: Lookup(t1, s1, w) == Lookup(t0, s0, w);
    assert forall w: nat {:trigger Lookup(t0, s0, w)} :: Lookup(t1, s1, w) == Lookup(t0, s0, w);
    assert Frames(t1, s1, 0, n) == Frames(t0, s0, 0, n);
  }

  lemma CopiedOne(t: Tables, so: Space, s: Space, d: map<nat, Bytes>, t0: Tables, s0: Space, t1: Tables, s1: Space,
                  d': map<nat, Bytes>, d1: map<nat, Bytes>, n: nat, p: nat, from: Pte)
    requires Sized(t, so) && Sized(t, s) && Sized(t0, s0) && Sized(t1, s1) && Copied(t, so, s, d, t0, s0, d', n)
    requires Lookup(t, so, n) == Some(from) && from.ppn in d
    requires Mapped(t0, s0, t1, s1, n, 1, p, from.perm) && p !in d' && from.ppn in d' && d1 == d'[p := d'[from.ppn]]
    ensures Copied(t, so, s, d, t1, s1, d1, n + 1)
  {
    hide Sized, Lookup, OwnsRange, Frames;
    OwnsOne(t0, s0, t1, s1, d', d1, n, from.perm, p);
    FramesOne(t0, s0, t1, s1, 0, n, from.perm, p);
    assert Lookup(t1, s1, n) == Some(Pte(true, from.perm, p));
    assert forall w: nat {:trigger Lookup(t1, s1, w)} :: w != n ==> Lookup(t1, s1, w) == Lookup(t0, s0, w);
  }

  lemma CopyUndone(t: Tables, so: Space, s: Space, d: map<nat, Bytes>, t': Tables, s': Space, d': map<nat, Bytes>,
                   n: nat, t2: Tables)
    requires Sized(t, so) && Sized(t, s) && Sized(t', s') && Sized(t2, s') && Copied(t, so, s, d, t', s', d', n)
    requires forall w :: 0 <= w < n ==> Lookup(t, s, w) == None
    requires Unmapped(t', s', t2, 0, n)
    ensures SameMap(t, s, t2, s')
    ensures d == d' - Frames(t', s', 0, n)
  {
    hide Sized, Lookup;
  }

  // The number of pages that sz bytes take.
  function Up(sz: nat): nat { (sz + PGSIZE - 1) / PGSIZE }

  lemma UpMonotone(a: nat, b: nat)
    requires a <= b
    ensures Up(a) <= Up(b) && PgRoundUp(a) == Up(a) * PGSIZE && PgRoundUp(b) == Up(b) * PGSIZE
    ensures a <= PgRoundUp(a) && (PgRoundUp(a) < b ==> Up(a) < Up(b))
  {}

  lemma PageIndex(n: nat, sz: nat)
    ensures n * PGSIZE / PGSIZE == n && n * PGSIZE % PGSIZE == 0
    ensures n * PGSIZE < sz <==> n + 1 <= Up(sz)
  {}

  function ZeroPage(): Bytes { seq(PGSIZE, _ => 0) }

  function UserPerm(xperm: Perm): (p: Perm)
    ensures p.r
  { Perm(true, xperm.w, xperm.x, true) }

  // The process has grown from n0 to n pages: the new ones are distinct fresh zeroed pages, and every other
  // mapping and every other page is as before.
  ghost predicate Extended(t: Tables, s: Space, d: map<nat, Bytes>, t': Tables, s': Space, d': map<nat, Bytes>,
                           n0: nat, n: nat, perm: Perm)
    requires Sized(t, s) && Sized(t', s')
  {
    && n0 <= n
    && OwnsRange(t', s', d', 0, n)
    && (forall w: nat {:trigger Lookup(t', s', w)} ::
          w < n0 || w >= n ==> Lookup(t', s', w) == Lookup(t, s, w))
    && (forall w: nat {:trigger Lookup(t', s', w)} :: n0 <= w < n ==>
          Lookup(t', s', w).Some? && FreshPage(Lookup(t', s', w).value, perm, d, d'))
    && d'.Keys == d.Keys + Frames(t', s', n0, n - n0)
    && (forall p :: p in d ==> p in d' && d'[p] == d[p])
  }

  ghost predicate FreshPage(e: Pte, perm: Perm, d: map<nat, Bytes>, d': map<nat, Bytes>) {
    e.v && e.perm == perm && e.ppn !in d && e.ppn in d' && d'[e.ppn] == ZeroPage()
  }

  lemma StartExtend(t: Tables, s: Space, d: map<nat, Bytes>, n: nat, perm: Perm)
    requires Sized(t, s) && OwnsRange(t, s, d, 0, n)
    ensures Extended(t, s, d, t, s, d, n, n, perm)
  {}

  // Distinct pages for distinct virtual pages: a process cannot be larger than physical memory.
  lemma {:induction false} OwnsBound(t: Tables, s: Space, d: map<nat, Bytes>, n: nat)
    requires Sized(t, s) && OwnsRange(t, s, d, 0, n)
    ensures |Frames(t, s, 0, n)| == n && Frames(t, s, 0, n) <= d.Keys
  {
    if n > 0 {
      OwnsBound(t, s, d, n - 1);
      NextFrame(t, s, d, 0, n, n - 1);
    }
  }

  lemma ExtendBound(t: Tables, s: Space, d: map<nat, Bytes>, t': Tables, s': Space, d': map<nat, Bytes>,
                    n0: nat, n: nat, perm: Perm, all: set<nat>)
    requires Sized(t, s) && Sized(t', s') && Extended(t, s, d, t', s', d', n0, n, perm)
    requires d'.Keys <= all && |all| <= PAGES
    ensures n < TRAPFRAME
  {
    OwnsBound(t', s', d', n);
    SubsetSize(Frames(t', s', 0, n), all);
  }

  lemma ExtendedAt(t: Tables, s: Space, d: map<nat, Bytes>, t': Tables, s': Space, d': map<nat, Bytes>,
                   n0: nat, n: nat, perm: Perm)
    requires Sized(t, s) && Sized(t', s') && Extended(t, s, d, t', s', d', n0, n, perm)
    ensures Lookup(t', s', n) == Lookup(t, s, n)
  {}

  lemma ExtendedSame(t: Tables, s: Space, d: map<nat, Bytes>, t0: Tables, s0: Space, t1: Tables, s1: Space,
                     d': map<nat, Bytes>, n0: nat, n: nat, perm: Perm)
    requires Sized(t, s) && Sized(t0, s0) && Sized(t1, s1) && Extended(t, s, d, t0, s0, d', n0, n, perm)
    requires exists p :: Mapped(t0, s0, t1, s1, n, 0, p, perm)
    ensures Extended(t, s, d, t1, s1, d', n0, n, perm)
  {
    hide Sized, Lookup, FreshPage;
    assert Frames(t1, s1, n0, n - n0) == Frames(t0, s0, n0, n - n0) by {
      assert forall w: nat {:trigger Lookup(t0, s0, w)} :: Lookup(t1, s1, w) == Lookup(t0, s0, w);
      assert forall w: nat {:trigger Lookup(t1, s1, w)} :: Lookup(t1, s1, w) == Lookup(t0, s0, w);
    }
    hide Frames;
    assert forall w: nat {:trigger Lookup(t1, s1, w)} :: Lookup(t1, s1, w) == Lookup(t0, s0, w);
    assert forall w: nat {:trigger Lookup(t0, s0, w)} :: Lookup(t1, s1, w) == Lookup(t0, s0, w);
  }

  lemma OwnsOne(t0: Tables, s0: Space, t1: Tables, s1: Space, d: map<nat, Bytes>, d1: map<nat, Bytes>,
                n: nat, perm: Perm, p: nat)
    requires Sized(t0, s0) && Sized(t1, s1) && OwnsRange(t0, s0, d, 0, n)
    requires Mapped(t0, s0, t1, s1, n, 1, p, perm) && p !in d && d1.Keys == d.Keys + {p}
    ensures OwnsRange(t1, s1, d1, 0, n + 1)
  {
    hide Sized, Lookup;
    assert Lookup(t1, s1, n) == Some(Pte(true, perm, p));
    assert forall w: nat {:trigger Lookup(t1, s1, w)} :: w < n ==> Lookup(t1, s1, w) == Lookup(t0, s0, w);
  }

  lemma FramesOne(t0: Tables, s0: Space, t1: Tables, s1: Space, n0: nat, n: nat, perm: Perm, p: nat)
    requires Sized(t0, s0) && Sized(t1, s1) && n0 <= n && Mapped(t0, s0, t1, s1, n, 1, p, perm)
    ensures Frames(t1, s1, n0, n + 1 - n0) == Frames(t0, s0, n0, n - n0) + {p}
  {
    hide Sized, Lookup;
    assert Lookup(t1, s1, n) == Some(Pte(true, perm, p));
    assert forall w: nat {:trigger Lookup(t1, s1, w)} :: w < n ==> Lookup(t1, s1, w) == Lookup(t0, s0, w);
    assert forall w: nat {:trigger Lookup(t0, s0, w)} :: w < n ==> Lookup(t1, s1, w) == Lookup(t0, s0, w);
  }

  lemma ExtendedOne(t: Tables, s: Space, d: map<nat, Bytes>, t0: Tables, s0: Space, t1: Tables, s1: Space,
                    d': map<nat, Bytes>, d1: map<nat, Bytes>, n0: nat, n: nat, perm: Perm, p: nat)
    requires Sized(t, s) && Sized(t0, s0) && Sized(t1, s1) && Extended(t, s, d, t0, s0, d', n0, n, perm)
    requires Mapped(t0, s0, t1, s1, n, 1, p, perm) && p !in d' && d1 == d'[p := ZeroPage()]
    ensures Extended(t, s, d, t1, s1, d1, n0, n + 1, perm)
  {
    hide Sized, Lookup, OwnsRange, Frames;
    OwnsOne(t0, s0, t1, s1, d', d1, n, perm, p);
    FramesOne(t0, s0, t1, s1, n0, n, perm, p);
    assert Lookup(t1, s1, n) == Some(Pte(true, perm, p));
    assert forall w: nat {:trigger Lookup(t1, s1, w)} :: w != n ==> Lookup(t1, s1, w) == Lookup(t0, s0, w);
  }

  // Unmapping the new pages again restores the old mappings and the old data pages.
  lemma ExtendUndone(t: Tables, s: Space, d: map<nat, Bytes>, t': Tables, s': Space, d': map<nat, Bytes>,
                     n0: nat, n: nat, perm: Perm, t2: Tables)
    requires Sized(t, s) && Sized(t', s') && Sized(t2, s') && Extended(t, s, d, t', s', d', n0, n, perm)
    requires forall w :: n0 <= w < n ==> Lookup(t, s, w) == None
    requires if n0 < n then Unmapped(t', s', t2, n0, n - n0) else t2 == t'
    ensures SameMap(t, s, t2, s')
    ensures d == if n0 < n then d' - Frames(t', s', n0, n - n0) else d'
  {
    hide Sized, Lookup;
  }

  // The physical pages that the n virtual pages from v0 on map to.
  ghost function Frames(t: Tables, s: Space, v0: nat, n: nat): set<nat>
    requires Sized(t, s)
  {
    set w: nat | v0 <= w < v0 + n && Lookup(t, s, w).Some? :: Lookup(t, s, w).value.ppn
  }

  // These pages are mapped to distinct data pages.
  ghost predicate OwnsRange(t: Tables, s: Space, data: map<nat, Bytes>, v0: nat, n: nat)
    requires Sized(t, s)
  {
    && (forall w: nat :: v0 <= w < v0 + n ==> Lookup(t, s, w).Some? && Lookup(t, s, w).value.ppn in data)
    && (forall w: nat, x: nat :: v0 <= w < x < v0 + n ==> Lookup(t, s, w).value.ppn != Lookup(t, s, x).value.ppn)
  }

  ghost predicate Unmapped(t: Tables, s: Space, t': Tables, v0: nat, k: nat)
    requires Sized(t, s) && Sized(t', s)
  {
    forall w: nat {:trigger Lookup(t', s, w)} :: Lookup(t', s, w) == if v0 <= w < v0 + k then None else Lookup(t, s, w)
  }

  lemma StartUnmap(t: Tables, s: Space, v0: nat)
    requires Sized(t, s)
    ensures Unmapped(t, s, t, v0, 0) && Frames(t, s, v0, 0) == {}
  {}

  lemma UnmappedAt(t: Tables, s: Space, t0: Tables, v0: nat, k: nat)
    requires Sized(t, s) && Sized(t0, s) && Unmapped(t, s, t0, v0, k)
    ensures Lookup(t0, s, v0 + k) == Lookup(t, s, v0 + k)
  {}

  lemma MappedHasTable(t: Tables, s: Space, v: nat)
    requires Sized(t, s) && Lookup(t, s, v).Some?
    ensures Mid(v) in s.l0
  {}

  lemma UnmapOne(t: Tables, s: Space, t0: Tables, t1: Tables, v0: nat, k: nat)
    requires Sized(t, s) && Sized(t0, s) && Sized(t1, s) && Unmapped(t, s, t0, v0, k)
    requires Lookup(t1, s, v0 + k) == None
    requires forall w: nat {:trigger Lookup(t1, s, w)} :: w != v0 + k ==> Lookup(t1, s, w) == Lookup(t0, s, w)
    ensures Unmapped(t, s, t1, v0, k + 1)
  {
    hide Sized, Lookup;
  }

  lemma NextFrame(t: Tables, s: Space, data: map<nat, Bytes>, v0: nat, n: nat, k: nat)
    requires Sized(t, s) && OwnsRange(t, s, data, v0, n) && k < n
    ensures var p := Lookup(t, s, v0 + k).value.ppn;
      && p in data && p !in Frames(t, s, v0, k) && Frames(t, s, v0, k + 1) == Frames(t, s, v0, k) + {p}
  {
    hide Sized, Lookup;
    assert Lookup(t, s, v0 + k).Some?;
  }

  // Pages v0 up to v0 + k map to the pages from ppn on; every other page maps as before.
  ghost predicate Mapped(t: Tables, s: Space, t': Tables, s': Space, v0: nat, k: nat, ppn: nat, perm: Perm)
    requires Sized(t, s) && Sized(t', s')
  {
    forall w: nat {:trigger Lookup(t', s', w)} :: Lookup(t', s', w) ==
      if v0 <= w < v0 + k then Some(Pte(true, perm, ppn + (w - v0))) else Lookup(t, s, w)
  }

  lemma StartMap(t: Tables, s: Space, v0: nat, ppn: nat, perm: Perm)
    requires Sized(t, s)
    ensures Mapped(t, s, t, s, v0, 0, ppn, perm)
  {}

  lemma MapSame(t: Tables, s: Space, t0: Tables, s0: Space, t1: Tables, s1: Space, v0: nat, k: nat, ppn: nat,
      perm: Perm)
    requires Sized(t, s) && Sized(t0, s0) && Sized(t1, s1)
    requires Mapped(t, s, t0, s0, v0, k, ppn, perm) && SameMap(t0, s0, t1, s1)
    ensures Mapped(t, s, t1, s1, v0, k, ppn, perm)
  {
    hide Sized, Lookup;
  }

  // The walk changed no translation, and the new entry is the next one.
  lemma MapOne(t: Tables, s: Space, t0: Tables, s0: Space, t1: Tables, t2: Tables, s1: Space,
               v0: nat, k: nat, ppn: nat, perm: Perm)
    requires Sized(t, s) && Sized(t0, s0) && Sized(t1, s1) && Sized(t2, s1)
    requires Mapped(t, s, t0, s0, v0, k, ppn, perm) && SameMap(t0, s0, t1, s1)
    requires Lookup(t2, s1, v0 + k) == Some(Pte(true, perm, ppn + k))
    requires forall w: nat {:trigger Lookup(t2, s1, w)} :: w != v0 + k ==> Lookup(t2, s1, w) == Lookup(t1, s1, w)
    ensures Mapped(t, s, t2, s1, v0, k + 1, ppn, perm)
  {
    hide Sized, Lookup;
    forall w: nat ensures Lookup(t2, s1, w) ==
      if v0 <= w < v0 + (k + 1) then Some(Pte(true, perm, ppn + (w - v0))) else Lookup(t, s, w)
    {
      assert Lookup(t1, s1, w) == Lookup(t0, s0, w);
    }
  }

  lemma GrewTrans(t: Tables, s: Space, t0: Tables, s0: Space, t1: Tables, s1: Space)
    requires OnlyGrew(t, s, t0, s0) && OnlyGrew(t0, s0, t1, s1)
    ensures OnlyGrew(t, s, t1, s1)
  {
    hide Space.Nodes;
  }

  lemma GrewEntry(t: Tables, s: Space, t1: Tables, t2: Tables, s1: Space, k: nat)
    requires OnlyGrew(t, s, t1, s1) && k in s1.l0 && s1.l0[k] in t1
    requires s1.l0[k] in t2 && t2 == t1[s1.l0[k] := t2[s1.l0[k]]]
    ensures OnlyGrew(t, s, t2, s1)
  {
    assert s1.l0[k] in s1.Nodes();
    hide Space.Nodes;
  }

  lemma StartWalk(t: Tables, s: Space)
    requires WellFormed(t, s)
    ensures SameMap(t, s, t, s) && OnlyGrew(t, s, t, s)
  {
    NodesInTables(t, s);
  }

  // One new table page, under the root or under a middle table, seen from where the walk began.
  lemma AddTable(t: Tables, s: Space, t0: Tables, s0: Space, v: nat, level: nat, page: nat, p: nat, t1: Tables,
      s1: Space)
    requires WellFormed(t, s) && WellFormed(t0, s0) && SameMap(t, s, t0, s0) && OnlyGrew(t, s, t0, s0) && p !in t0
    requires level == 2 ==> page == s0.root && Top(v) < TABLE && Top(v) !in s0.l1
    requires level == 1 ==> Top(v) in s0.l1 && Mid(v) / TABLE == Top(v) && page == s0.l1[Top(v)] && Mid(v) !in s0.l0
    requires level == 1 || level == 2
    requires page in t0 && |t0[page]| == TABLE
    requires t1 == t0[p := ZeroTable()][page := t0[page][(if level == 2 then Top(v) else Mid(v) % TABLE) := Pointer(p)]]
    requires s1 == if level == 2 then s0.(l1 := s0.l1[Top(v) := p]) else s0.(l0 := s0.l0[Mid(v) := p])
    ensures WellFormed(t1, s1) && SameMap(t, s, t1, s1) && OnlyGrew(t, s, t1, s1) && t1.Keys == t0.Keys + {p}
  {
    hide Separate, RootOk, MidOk, BottomOk, Lookup, OnlyGrew;
    NodesInTables(t0, s0);
    assert page in s0.Nodes();
    if level == 2 {
      AddMiddle(t0, s0, Top(v), p);
    } else {
      AddBottom(t0, s0, Mid(v), p);
    }
    GrewMore(t, s, t0, s0, page, p, t1, s1);
  }

  lemma GrewMore(t: Tables, s: Space, t0: Tables, s0: Space, page: nat, p: nat, t1: Tables, s1: Space)
    requires OnlyGrew(t, s, t0, s0) && s1.Nodes() == s0.Nodes() + {p} && page in s0.Nodes() && page in t0 && p !in t0
    requires page in t1 && t1 == t0[p := ZeroTable()][page := t1[page]]
    requires forall a :: a in s0.l1 ==> a in s1.l1 && s1.l1[a] == s0.l1[a]
    requires forall k :: k in s0.l0 ==> k in s1.l0 && s1.l0[k] == s0.l0[k]
    ensures OnlyGrew(t, s, t1, s1) && t1.Keys == t0.Keys + {p}
  {
    hide Space.Nodes;
  }

  // walk has come down to a level: it has taken a page for each table on its way that was missing.
  ghost predicate Walked(free: nat, s: Space, free1: nat, s1: Space, v: nat, level: nat) {
    && s1.l1.Keys == (if level < 2 then s.l1.Keys + {Top(v)} else s.l1.Keys)
    && s1.l0.Keys == (if level < 1 then s.l0.Keys + {Mid(v)} else s.l0.Keys)
    && free == free1 + (if level < 2 && Top(v) !in s.l1 then 1 else 0) + (if level < 1 && Mid(v) !in s.l0 then 1 else 0)
  }

  lemma WalkStarts(t: Tables, s: Space, v: nat, free: nat)
    requires WellFormed(t, s)
    ensures Walked(free, s, free, s, v, 2)
  {}

  lemma WalkedDown(free: nat, s: Space, free1: nat, s1: Space, v: nat, level: nat)
    requires Walked(free, s, free1, s1, v, level)
    requires (level == 2 ==> Top(v) in s1.l1) && (level == 1 ==> Mid(v) in s1.l0)
    requires 1 <= level <= 2
    ensures Walked(free, s, free1, s1, v, level - 1)
  {}

  lemma WalkedNew(free: nat, s: Space, free1: nat, s1: Space, v: nat, level: nat, s2: Space)
    requires Walked(free, s, free1, s1, v, level) && 1 <= level <= 2 && free1 > 0
    requires s2.l1.Keys == s1.l1.Keys + (if level == 2 then {Top(v)} else {})
    requires s2.l0.Keys == s1.l0.Keys + (if level == 1 then {Mid(v)} else {})
    requires (level == 2 ==> Top(v) !in s1.l1) && (level == 1 ==> Mid(v) !in s1.l0)
    ensures Walked(free, s, free1 - 1, s2, v, level - 1)
  {}

  lemma WalkStops(free: nat, s: Space, free1: nat, s1: Space, v: nat, level: nat)
    requires Walked(free, s, free1, s1, v, level) && free1 == 0
    requires (level == 2 && Top(v) !in s1.l1) || (level == 1 && Mid(v) !in s1.l0)
    ensures free < Missing(s, v, v + 1)
  {
    MissingOne(s, v);
    hide Missing;
  }

  lemma WalkEnds(free: nat, s: Space, free1: nat, s1: Space, v: nat)
    requires Walked(free, s, free1, s1, v, 0)
    ensures Paid(free, s, free1, s1, v, v + 1, 0)
  {
    OnePage(v);
    MissingOne(s, v);
    hide Missing;
  }

  // A tree may have gained pages, all of them new to the tables; no other table page has changed.
  ghost predicate OnlyGrew(t: Tables, s: Space, t': Tables, s': Space) {
    && s.Nodes() <= s'.Nodes() && (s'.Nodes() - s.Nodes()) !! t.Keys
    && t'.Keys == t.Keys + s'.Nodes()
    && (forall p :: p in t && p !in s'.Nodes() ==> t'[p] == t[p])
    && (forall a :: a in s.l1 ==> a in s'.l1 && s'.l1[a] == s.l1[a])
    && (forall k :: k in s.l0 ==> k in s'.l0 && s'.l0[k] == s.l0[k])
  }
}

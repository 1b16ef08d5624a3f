// The three-level page tables of kernel/vm.c and kernel/riscv.h (Sv39, section 4.4 of the RISC-V Privileged
// Architecture): how a tree of table pages spells a map from virtual pages to page-table entries.
module Sv39 {
  import opened Basics

  const PGSIZE := 4096
  const MAXVA := 0x40_0000_0000          // 1 << 38
  const MAXVPN := MAXVA / PGSIZE
  const TABLE := 512                     // entries in a table page

  datatype Perm = Perm(r: bool, w: bool, x: bool, u: bool)

  // A page-table entry; ppn is the number of the physical page it points to.
  datatype Pte = Pte(v: bool, perm: Perm, ppn: nat) {
    predicate Leaf() { v && (perm.r || perm.w || perm.x) }
  }

  const NONE := Perm(false, false, false, false)
  const ZERO := Pte(false, NONE, 0)

  function Pointer(p: nat): Pte { Pte(true, NONE, p) }

  function ZeroTable(): (r: seq<Pte>)
    ensures |r| == TABLE && forall i :: 0 <= i < TABLE ==> r[i] == ZERO
  {
    seq(TABLE, _ => ZERO)
  }

  // PX(level, va): 9 bits of the virtual address.
  function Px(level: nat, va: nat): (r: nat)
    requires level <= 2
    ensures r < TABLE
  {
    (if level == 2 then va / 0x4000_0000 else if level == 1 then va / 0x20_0000 else va / 0x1000) % TABLE
  }

  // Top and middle index of a virtual page, as one number each.
  function Top(v: nat): nat { v / 0x4_0000 }
  function Mid(v: nat): nat { v / TABLE }

  // The middle number with top index a and middle index i.
  function Join(a: nat, i: nat): nat { a * TABLE + i }

  // The indices of an address are the digits of its page number in base 512.
  lemma Digits(va: nat)
    requires va < MAXVA
    ensures var v := va / PGSIZE;
      && v < MAXVPN
      && Px(2, va) == Top(v) && Top(v) < TABLE
      && Px(1, va) == Mid(v) % TABLE && Mid(v) / TABLE == Top(v)
      && Px(0, va) == v % TABLE
  {
    var v := va / PGSIZE;
    assert va / 0x4000_0000 == v / 0x4_0000;
    assert va / 0x20_0000 == v / 0x200;
    assert v / 0x200 / 0x200 == v / 0x4_0000;
  }

  // Distinct virtual pages have distinct indices.
  lemma IndicesDetermine(va: nat, wa: nat)
    requires va < MAXVA && wa < MAXVA
    requires Px(2, va) == Px(2, wa) && Px(1, va) == Px(1, wa) && Px(0, va) == Px(0, wa)
    ensures va / PGSIZE == wa / PGSIZE
  {
    Digits(va);
    Digits(wa);
    var v, w := va / PGSIZE, wa / PGSIZE;
    assert Mid(v) == Top(v) * TABLE + Mid(v) % TABLE;
    assert Mid(w) == Top(w) * TABLE + Mid(w) % TABLE;
    assert v == Mid(v) * TABLE + v % TABLE;
    assert w == Mid(w) * TABLE + w % TABLE;
  }

  // The table pages of one address space: the root, the pages below it by top index, and the pages below
  // those by middle number.
  datatype Space = Space(root: nat, l1: map<nat, nat>, l0: map<nat, nat>) {
    ghost function Nodes(): set<nat> {
      {root} + l1.Values + l0.Values
    }
  }

  type Tables = map<nat, seq<Pte>>

  // No table page occurs twice in the tree.
  ghost predicate Separate(s: Space) {
    && (forall a :: a in s.l1 ==> s.l1[a] != s.root)
    && (forall k :: k in s.l0 ==> s.l0[k] != s.root)
    && (forall a, k :: a in s.l1 && k in s.l0 ==> s.l1[a] != s.l0[k])
    && (forall a, b :: a in s.l1 && b in s.l1 && a != b ==> s.l1[a] != s.l1[b])
    && (forall k, m :: k in s.l0 && m in s.l0 && k != m ==> s.l0[k] != s.l0[m])
  }

  ghost predicate Sized(t: Tables, s: Space) {
    && s.root in t && |t[s.root]| == TABLE
    && (forall a :: a in s.l1 ==> s.l1[a] in t && |t[s.l1[a]]| == TABLE)
    && (forall k :: k in s.l0 ==> s.l0[k] in t && |t[s.l0[k]]| == TABLE)
  }

  // The entries of the root and of the middle tables point to the table pages that s says, and to no others.
  ghost predicate RootOk(t: Tables, s: Space)
    requires Sized(t, s)
  {
    && (forall a :: a in s.l1 ==> a < TABLE)
    && (forall a :: 0 <= a < TABLE ==> if a in s.l1 then t[s.root][a] == Pointer(s.l1[a]) else !t[s.root][a].v)
  }

  ghost predicate MidOk(t: Tables, s: Space)
    requires Sized(t, s)
  {
    && (forall k :: k in s.l0 ==> k / TABLE in s.l1)
    && (forall a, i :: a in s.l1 && 0 <= i < TABLE ==>
          if Join(a, i) in s.l0 then t[s.l1[a]][i] == Pointer(s.l0[Join(a, i)]) else !t[s.l1[a]][i].v)
  }

  ghost predicate BottomOk(t: Tables, s: Space)
    requires Sized(t, s)
  {
    forall k, i :: k in s.l0 && 0 <= i < TABLE ==>
      (t[s.l0[k]][i].v ==> t[s.l0[k]][i].Leaf())
  }

  ghost predicate WellFormed(t: Tables, s: Space) {
    Separate(s) && Sized(t, s) && RootOk(t, s) && MidOk(t, s) && BottomOk(t, s)
  }

  // The address space as a flat map.
  ghost function Lookup(t: Tables, s: Space, v: nat): Option<Pte>
    requires Sized(t, s)
  {
    if Mid(v) in s.l0 then
      var e := t[s.l0[Mid(v)]][v % TABLE];
      if e.v then Some(e) else None
    else None
  }

  ghost predicate SameMap(t: Tables, s: Space, t': Tables, s': Space)
    requires Sized(t, s) && Sized(t', s')
  {
    forall v: nat {:trigger Lookup(t', s', v)} :: Lookup(t', s', v) == Lookup(t, s, v)
  }

  lemma ValuesAdd(m: map<nat, nat>, k: nat, p: nat)
    requires k !in m
    ensures m[k := p].Values == m.Values + {p}
  {
    forall q | q in m.Values ensures q in m[k := p].Values {
      var j :| j in m && m[j] == q;
      assert m[k := p][j] == q;
    }
    assert m[k := p][k] == p;
  }

  // ----- changing one entry

  lemma Unlisted(s: Space, p: nat)
    requires p !in s.Nodes()
    ensures p != s.root && (forall a :: a in s.l1 ==> s.l1[a] != p) && (forall k :: k in s.l0 ==> s.l0[k] != p)
  {}

  // A fresh, empty middle table under top index a.
  lemma AddMiddle(t: Tables, s: Space, a: nat, p: nat)
    requires WellFormed(t, s) && a < TABLE && a !in s.l1 && p !in s.Nodes() && p !in t
    ensures var t' := t[p := ZeroTable()][s.root := t[s.root][a := Pointer(p)]];
      var s' := s.(l1 := s.l1[a := p]);
      WellFormed(t', s') && SameMap(t, s, t', s') && s'.Nodes() == s.Nodes() + {p}
  {
    hide RootOk, MidOk, BottomOk, Lookup, Join, SameMap, Separate;
    AddMiddleTree(t, s, a, p);
    AddMiddleRest(t, s, a, p);
    ValuesAdd(s.l1, a, p);
  }

  lemma AddMiddleTree(t: Tables, s: Space, a: nat, p: nat)
    requires WellFormed(t, s) && a < TABLE && a !in s.l1 && p !in s.Nodes() && p !in t
    ensures var t' := t[p := ZeroTable()][s.root := t[s.root][a := Pointer(p)]];
      var s' := s.(l1 := s.l1[a := p]);
      Separate(s') && Sized(t', s') && RootOk(t', s') && BottomOk(t', s')
  {
    hide MidOk, Lookup, Join;
    Unlisted(s, p);
  }

  lemma AddMiddleRest(t: Tables, s: Space, a: nat, p: nat)
    requires WellFormed(t, s) && a < TABLE && a !in s.l1 && p !in s.Nodes() && p !in t
    ensures var t' := t[p := ZeroTable()][s.root := t[s.root][a := Pointer(p)]];
      var s' := s.(l1 := s.l1[a := p]);
      Sized(t', s') && MidOk(t', s') && SameMap(t, s, t', s')
  {
    hide RootOk, BottomOk;
    Unlisted(s, p);
    assert forall i :: 0 <= i < TABLE ==> Join(a, i) / TABLE == a;
  }

  // A fresh, empty bottom table under middle number k.
  lemma AddBottom(t: Tables, s: Space, k: nat, p: nat)
    requires WellFormed(t, s) && k / TABLE in s.l1 && k !in s.l0 && p !in s.Nodes() && p !in t
    ensures var m := s.l1[k / TABLE];
      m in t && |t[m]| == TABLE &&
      var t' := t[p := ZeroTable()][m := t[m][k % TABLE := Pointer(p)]];
      var s' := s.(l0 := s.l0[k := p]);
      WellFormed(t', s') && SameMap(t, s, t', s') && s'.Nodes() == s.Nodes() + {p}
  {
    hide RootOk, MidOk, BottomOk, Lookup, Join, SameMap, Separate;
    AddBottomTree(t, s, k, p);
    AddBottomMid(t, s, k, p);
    AddBottomMap(t, s, k, p);
    ValuesAdd(s.l0, k, p);
  }

  lemma AddBottomTree(t: Tables, s: Space, k: nat, p: nat)
    requires WellFormed(t, s) && k / TABLE in s.l1 && k !in s.l0 && p !in s.Nodes() && p !in t
    ensures var m := s.l1[k / TABLE];
      var t' := t[p := ZeroTable()][m := t[m][k % TABLE := Pointer(p)]];
      var s' := s.(l0 := s.l0[k := p]);
      Separate(s') && Sized(t', s') && RootOk(t', s') && BottomOk(t', s')
  {
    hide MidOk, Lookup, Join;
    Unlisted(s, p);
  }

  lemma AddBottomMap(t: Tables, s: Space, k: nat, p: nat)
    requires Separate(s) && Sized(t, s) && k / TABLE in s.l1 && k !in s.l0 && p !in t
    ensures var m := s.l1[k / TABLE];
      var t' := t[p := ZeroTable()][m := t[m][k % TABLE := Pointer(p)]];
      var s' := s.(l0 := s.l0[k := p]);
      Sized(t', s') && SameMap(t, s, t', s')
  {}

  lemma AddBottomMid(t: Tables, s: Space, k: nat, p: nat)
    requires Separate(s) && Sized(t, s) && MidOk(t, s) && k / TABLE in s.l1 && k !in s.l0 && p !in t
    ensures var m := s.l1[k / TABLE];
      var t' := t[p := ZeroTable()][m := t[m][k % TABLE := Pointer(p)]];
      var s' := s.(l0 := s.l0[k := p]);
      Sized(t', s') && MidOk(t', s')
  {
    var m := s.l1[k / TABLE];
    var t' := t[p := ZeroTable()][m := t[m][k % TABLE := Pointer(p)]];
    var s' := s.(l0 := s.l0[k := p]);
    assert forall k0 :: k0 in s.l0 ==> s.l0[k0] in t && s.l0[k0] != p;
    forall a, i | a in s.l1 && 0 <= i < TABLE
      ensures if Join(a, i) in s'.l0 then t'[s.l1[a]][i] == Pointer(s'.l0[Join(a, i)]) else !t'[s.l1[a]][i].v
    {
      assert Join(a, i) / TABLE == a && Join(a, i) % TABLE == i;
    }
  }

  // Writing a leaf entry, or clearing one, changes the translation of exactly that page.
  lemma SetEntry(t: Tables, s: Space, v: nat, e: Pte)
    requires WellFormed(t, s) && Mid(v) in s.l0 && (e.v ==> e.Leaf())
    ensures var p := s.l0[Mid(v)];
      p in t && |t[p]| == TABLE &&
      var t' := t[p := t[p][v % TABLE := e]];
      && WellFormed(t', s)
      && Lookup(t', s, v) == (if e.v then Some(e) else None)
      && (forall w: nat {:trigger Lookup(t', s, w)} :: w != v ==> Lookup(t', s, w) == Lookup(t, s, w))
  {
  }

  // ----- reading the tree

  lemma ReadRoot(t: Tables, s: Space, a: nat)
    requires WellFormed(t, s) && a < TABLE
    ensures s.root in t && |t[s.root]| == TABLE
    ensures t[s.root][a].v <==> a in s.l1
    ensures a in s.l1 ==> t[s.root][a] == Pointer(s.l1[a])
  {}

  lemma ReadMiddle(t: Tables, s: Space, k: nat)
    requires WellFormed(t, s) && k / TABLE in s.l1
    ensures var m := s.l1[k / TABLE]; m in t && |t[m]| == TABLE && (t[m][k % TABLE].v <==> k in s.l0)
    ensures k in s.l0 ==> t[s.l1[k / TABLE]][k % TABLE] == Pointer(s.l0[k])
  {
    assert Join(k / TABLE, k % TABLE) == k;
  }

  lemma ReadBottom(t: Tables, s: Space, v: nat)
    requires WellFormed(t, s) && Mid(v) in s.l0
    ensures var p := s.l0[Mid(v)]; p in t && |t[p]| == TABLE
    ensures var e := t[s.l0[Mid(v)]][v % TABLE];
      Lookup(t, s, v) == (if e.v then Some(e) else None) && (e.v ==> e.Leaf())
  {}

  lemma BottomUnderMiddle(t: Tables, s: Space, k: nat)
    requires WellFormed(t, s) && k in s.l0
    ensures k / TABLE in s.l1
  {}

  // A tree reads only its own pages.
  lemma SameTree(t: Tables, t': Tables, s: Space)
    requires WellFormed(t, s) && forall p :: p in s.Nodes() ==> p in t' && p in t && t'[p] == t[p]
    ensures WellFormed(t', s) && SameMap(t, s, t', s)
  {
    assert s.root in s.Nodes();
    assert forall a :: a in s.l1 ==> s.l1[a] in s.Nodes();
    assert forall k :: k in s.l0 ==> s.l0[k] in s.Nodes();
  }

  lemma NodesInTables(t: Tables, s: Space)
    requires WellFormed(t, s)
    ensures s.Nodes() <= t.Keys
  {}

  // ----- the table pages that mapping a range takes

  ghost function Tops(lo: nat, hi: nat): (r: set<nat>)
    ensures lo >= hi ==> r == {}
  {
    set w: nat | lo <= w < hi :: Top(w)
  }

  ghost function Mids(lo: nat, hi: nat): (r: set<nat>)
    ensures lo >= hi ==> r == {}
  {
    set w: nat | lo <= w < hi :: Mid(w)
  }

  ghost function Missing(s: Space, lo: nat, hi: nat): nat {
    |Tops(lo, hi) - s.l1.Keys| + |Mids(lo, hi) - s.l0.Keys|
  }

  // Of free pages, those left are what the missing tables for lo..hi, and extra pages, did not take.
  ghost predicate Paid(free: nat, s: Space, free1: nat, s1: Space, lo: nat, hi: nat, extra: nat) {
    && s1.l1.Keys == s.l1.Keys + Tops(lo, hi) && s1.l0.Keys == s.l0.Keys + Mids(lo, hi)
    && free == free1 + Missing(s, lo, hi) + extra
  }

  lemma OnePage(v: nat)
    ensures Tops(v, v + 1) == {Top(v)} && Mids(v, v + 1) == {Mid(v)}
  {
    assert Top(v) in Tops(v, v + 1) && Mid(v) in Mids(v, v + 1);
  }

  lemma MissingOne(s: Space, v: nat)
    ensures Missing(s, v, v + 1) == (if Top(v) in s.l1 then 0 else 1) + (if Mid(v) in s.l0 then 0 else 1)
  {
    OnePage(v);
    assert {Top(v)} - s.l1.Keys == if Top(v) in s.l1 then {} else {Top(v)};
    assert {Mid(v)} - s.l0.Keys == if Mid(v) in s.l0 then {} else {Mid(v)};
  }

  lemma PaidNone(free: nat, s: Space, lo: nat)
    ensures Paid(free, s, free, s, lo, lo, 0)
  {
    assert Tops(lo, lo) == {} && Mids(lo, lo) == {};
  }

  // Ranges next to each other.
  lemma RangesJoin(lo: nat, mid: nat, hi: nat)
    requires lo <= mid <= hi
    ensures Tops(lo, hi) == Tops(lo, mid) + Tops(mid, hi) && Mids(lo, hi) == Mids(lo, mid) + Mids(mid, hi)
  {
    hide Top, Mid;
    forall w: nat | lo <= w < hi
      ensures Top(w) in Tops(lo, mid) + Tops(mid, hi) && Mid(w) in Mids(lo, mid) + Mids(mid, hi)
    {}
  }

  lemma MissingJoin(s: Space, s1: Space, lo: nat, mid: nat, hi: nat)
    requires lo <= mid <= hi && s1.l1.Keys == s.l1.Keys + Tops(lo, mid) && s1.l0.Keys == s.l0.Keys + Mids(lo, mid)
    ensures Missing(s, lo, hi) == Missing(s, lo, mid) + Missing(s1, mid, hi)
  {
    RangesJoin(lo, mid, hi);
    hide Tops, Mids;
    Apart2(s.l1.Keys, Tops(lo, mid), Tops(mid, hi));
    Apart2(s.l0.Keys, Mids(lo, mid), Mids(mid, hi));
  }

  lemma Apart2(k: set<nat>, a: set<nat>, b: set<nat>)
    ensures |(a + b) - k| == |a - k| + |b - (k + a)|
  {
    assert (a + b) - k == (a - k) + (b - (k + a));
  }

  lemma PaidMore(free: nat, s: Space, free1: nat, s1: Space, free2: nat, s2: Space, lo: nat, mid: nat, hi: nat,
      extra: nat, extra1: nat)
    requires lo <= mid <= hi && Paid(free, s, free1, s1, lo, mid, extra) && Paid(free1, s1, free2, s2, mid, hi, extra1)
    ensures Paid(free, s, free2, s2, lo, hi, extra + extra1)
  {
    MissingJoin(s, s1, lo, mid, hi);
    KeysJoin(s, s1, s2, lo, mid, hi);
    hide Missing, Tops, Mids;
  }

  lemma PaidExtra(free: nat, s: Space, free1: nat, s1: Space, lo: nat, hi: nat)
    requires free > 0 && Paid(free - 1, s, free1, s1, lo, hi, 0)
    ensures Paid(free, s, free1, s1, lo, hi, 1)
  {}

  lemma KeysJoin(s: Space, s1: Space, s2: Space, lo: nat, mid: nat, hi: nat)
    requires lo <= mid <= hi && s1.l1.Keys == s.l1.Keys + Tops(lo, mid) && s1.l0.Keys == s.l0.Keys + Mids(lo, mid)
    requires s2.l1.Keys == s1.l1.Keys + Tops(mid, hi) && s2.l0.Keys == s1.l0.Keys + Mids(mid, hi)
    ensures s2.l1.Keys == s.l1.Keys + Tops(lo, hi) && s2.l0.Keys == s.l0.Keys + Mids(lo, hi)
  {
    RangesJoin(lo, mid, hi);
    hide Tops, Mids;
  }

  // Who cannot pay for the rest of the range could not pay for all of it.
  lemma NotPaid(free: nat, s: Space, free1: nat, s1: Space, lo: nat, mid: nat, hi: nat, end: nat, extra: nat,
      extra1: nat)
    requires lo <= mid <= hi <= end && Paid(free, s, free1, s1, lo, mid, extra)
    requires free1 < Missing(s1, mid, hi) + extra1
    ensures free < Missing(s, lo, end) + extra + extra1
  {
    MissingJoin(s, s1, lo, mid, hi);
    MissingMonotone(s, lo, hi, end);
    hide Missing, Tops, Mids;
  }

  lemma MissingMonotone(s: Space, lo: nat, hi: nat, end: nat)
    requires lo <= hi <= end
    ensures Missing(s, lo, hi) <= Missing(s, lo, end)
  {
    RangesJoin(lo, hi, end);
    SubsetSize(Tops(lo, hi) - s.l1.Keys, Tops(lo, end) - s.l1.Keys);
    SubsetSize(Mids(lo, hi) - s.l0.Keys, Mids(lo, end) - s.l0.Keys);
  }
}

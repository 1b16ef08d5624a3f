// What an address space costs: the free pages that exec and fork take for n user pages and the tables for them.
module PagePrice {
  import opened Basics
  import opened Sv39
  import opened Vm

  // The root, a middle and a bottom table for the two pages at the top; then the user pages, a bottom table for
  // each 512 of them, and one middle table.
  function Price(n: nat): nat {
    3 + n + (n + TABLE - 1) / TABLE + if n > 0 then 1 else 0
  }

  // The tree has tables for the two pages at the top and for the first n pages, and no others.
  ghost predicate Filled(s: Space, n: nat) {
    s.l1.Keys == {Top(TRAMPOLINE)} + Tops(0, n) && s.l0.Keys == {Mid(TRAMPOLINE)} + Mids(0, n)
  }

  // Of budget free pages those left are what a space of n user pages has not cost.
  ghost predicate Priced(budget: nat, free: nat, s: Space, n: nat) {
    Filled(s, n) && budget == free + Price(n)
  }

  lemma {:induction false} LowRange(n: nat)
    requires n <= PAGES
    ensures |Mids(0, n)| == (n + TABLE - 1) / TABLE && |Tops(0, n)| == if n > 0 then 1 else 0
    ensures Top(TRAMPOLINE) !in Tops(0, n) && Mid(TRAMPOLINE) !in Mids(0, n)
  {
    forall m | m in Mids(0, n) ensures m in Between(0, (n + TABLE - 1) / TABLE) {
      var w: nat :| w < n && Mid(w) == m;
    }
    forall m: nat | m in Between(0, (n + TABLE - 1) / TABLE) ensures m in Mids(0, n) {
      assert Mid(m * TABLE) == m && m * TABLE < n;
    }
    BetweenSize(0, (n + TABLE - 1) / TABLE);
    assert Mids(0, n) == Between(0, (n + TABLE - 1) / TABLE);
    assert n > 0 ==> Top(0) in Tops(0, n);
    assert Tops(0, n) == if n > 0 then {0} else {};
  }

  // Growing from n to n1 user pages costs the difference.
  lemma PriceStep(s: Space, n: nat, n1: nat)
    requires Filled(s, n) && n <= n1 <= PAGES
    ensures Missing(s, n, n1) + (n1 - n) + Price(n) == Price(n1)
  {
    var b := Space(0, map[Top(TRAMPOLINE) := 0], map[Mid(TRAMPOLINE) := 0]);
    assert b.l1.Keys == {Top(TRAMPOLINE)} && b.l0.Keys == {Mid(TRAMPOLINE)};
    hide Missing, Tops, Mids, Price;
    MissingJoin(b, s, 0, n, n1);
    PriceIs(b, n);
    PriceIs(b, n1);
  }

  lemma PriceIs(b: Space, n: nat)
    requires b.l1.Keys == {Top(TRAMPOLINE)} && b.l0.Keys == {Mid(TRAMPOLINE)} && n <= PAGES
    ensures Missing(b, 0, n) + n + 3 == Price(n)
  {
    hide Missing, Tops, Mids, Top, Mid;
    LowRange(n);
    MissingLow(b, n);
  }

  lemma MissingLow(b: Space, n: nat)
    requires b.l1.Keys == {Top(TRAMPOLINE)} && b.l0.Keys == {Mid(TRAMPOLINE)} && n <= PAGES
    ensures Missing(b, 0, n) == |Mids(0, n)| + |Tops(0, n)|
  {
    LowRange(n);
    hide Tops, Mids;
    assert Tops(0, n) - b.l1.Keys == Tops(0, n) && Mids(0, n) - b.l0.Keys == Mids(0, n);
  }

  lemma PricedStart(budget: nat, free: nat, s: Space)
    requires s.l1.Keys == {Top(TRAMPOLINE)} && s.l0.Keys == {Mid(TRAMPOLINE)} && budget == free + 3
    ensures Priced(budget, free, s, 0)
  {
    assert Tops(0, 0) == {} && Mids(0, 0) == {};
  }

  lemma PricedGrown(budget: nat, free: nat, s: Space, n: nat, free1: nat, s1: Space, n1: nat)
    requires n <= n1 <= PAGES && Priced(budget, free, s, n) && Paid(free, s, free1, s1, n, n1, n1 - n)
    ensures Priced(budget, free1, s1, n1)
  {
    PriceStep(s, n, n1);
    RangesJoin(0, n, n1);
    hide Missing, Tops, Mids, Price, Top, Mid;
    assert {Top(TRAMPOLINE)} + Tops(0, n1) == {Top(TRAMPOLINE)} + Tops(0, n) + Tops(n, n1);
    assert {Mid(TRAMPOLINE)} + Mids(0, n1) == {Mid(TRAMPOLINE)} + Mids(0, n) + Mids(n, n1);
  }

  lemma PriceMonotone(n: nat, n1: nat)
    requires n <= n1
    ensures Price(n) <= Price(n1) && n1 < Price(n1)
  {}

  // A budget that does not reach for the next step does not reach for the whole.
  lemma NotPriced(budget: nat, free: nat, s: Space, n: nat, n1: nat)
    requires n <= n1 && Priced(budget, free, s, n) && free < Missing(s, n, n1) + (n1 - n) && budget <= PAGES
    ensures budget < Price(n1)
  {
    PriceMonotone(n, n1);
    if n1 <= PAGES {
      PriceStep(s, n, n1);
    }
    hide Missing, Filled;
  }
}

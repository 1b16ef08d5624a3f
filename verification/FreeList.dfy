// The free list of user/umalloc.c as a value: blocks in address order, no two adjacent, headed by the
// static block base of size 0. Addresses and sizes count units of sizeof(Header).
module FreeList {
  import opened Basics

  const NULL := 0
  const BASE := 1

  datatype Block = Block(addr: int, size: int) {
    function End(): int { addr + size }
  }

  ghost function Range(a: int, n: int): (r: set<int>)
    ensures forall u :: u in r <==> a <= u < a + n
    decreases if n > 0 then n else 0
  {
    if n <= 0 then {} else Range(a, n - 1) + {a + n - 1}
  }

  ghost function Units(fs: seq<Block>): set<int> {
    if fs == [] then {} else Range(fs[0].addr, fs[0].size) + Units(fs[1..])
  }

  lemma {:induction false} UnitsConcat(fs: seq<Block>, gs: seq<Block>)
    ensures Units(fs + gs) == Units(fs) + Units(gs)
  {
    if fs == [] {
      assert fs + gs == gs;
    } else {
      UnitsConcat(fs[1..], gs);
      assert (fs + gs)[1..] == fs[1..] + gs;
    }
  }

  lemma UnitsSplit(fs: seq<Block>, k: nat)
    requires k < |fs|
    ensures Units(fs) == Units(fs[..k]) + Range(fs[k].addr, fs[k].size) + Units(fs[k + 1..])
  {
    UnitsConcat(fs[..k], fs[k..]);
    assert fs == fs[..k] + fs[k..];
    assert fs[k..][1..] == fs[k + 1..];
  }

  lemma {:induction false} UnitsMember(fs: seq<Block>, u: int)
    ensures u in Units(fs) <==> exists i :: 0 <= i < |fs| && fs[i].addr <= u < fs[i].End()
  {
    if fs != [] {
      UnitsMember(fs[1..], u);
      if u in Units(fs[1..]) {
        var i :| 0 <= i < |fs[1..]| && fs[1..][i].addr <= u < fs[1..][i].End();
        assert fs[i + 1].addr <= u < fs[i + 1].End();
      }
      if i :| 0 <= i < |fs| && fs[i].addr <= u < fs[i].End() {
        if i > 0 {
          assert fs[1..][i - 1].addr <= u < fs[1..][i - 1].End();
        }
      }
    }
  }

  // Address order, with a gap between neighbours: whatever could be coalesced has been.
  ghost predicate Coalesced(fs: seq<Block>) {
    && |fs| > 0 && fs[0] == Block(BASE, 0)
    && (forall i :: 1 <= i < |fs| ==> fs[i].size >= 1)
    && (forall i, j :: 0 <= i < j < |fs| && j == i + 1 ==> fs[i].End() < fs[j].addr)
  }

  lemma {:induction false} Ordered(fs: seq<Block>, i: nat, j: nat)
    requires Coalesced(fs) && i < j < |fs|
    ensures fs[i].End() < fs[j].addr
  {
    if i + 1 < j {
      Ordered(fs, i, j - 1);
    }
  }

  ghost function UnitsBefore(fs: seq<Block>, k: nat): set<int>
    requires k < |fs|
  {
    Units(fs[..k])
  }

  ghost function UnitsAfter(fs: seq<Block>, k: nat): set<int>
    requires k < |fs|
  {
    Units(fs[k + 1..])
  }

  // Units below block k come from the blocks before it, units above it from those after it.
  lemma UnitsOutside(fs: seq<Block>, k: nat)
    requires Coalesced(fs) && k < |fs|
    ensures forall u :: u in UnitsBefore(fs, k) ==> u < fs[k].addr - 1
    ensures forall u :: u in UnitsAfter(fs, k) ==> u > fs[k].End()
    ensures Units(fs) == UnitsBefore(fs, k) + Range(fs[k].addr, fs[k].size) + UnitsAfter(fs, k)
  {
    UnitsSplit(fs, k);
    forall u | u in UnitsBefore(fs, k) ensures u < fs[k].addr - 1 {
      UnitBefore(fs, k, u);
    }
    forall u | u in UnitsAfter(fs, k) ensures u > fs[k].End() {
      UnitAfter(fs, k, u);
    }
  }

  lemma UnitBefore(fs: seq<Block>, k: nat, u: int)
    requires Coalesced(fs) && k < |fs| && u in UnitsBefore(fs, k)
    ensures u < fs[k].addr - 1
  {
    UnitsMember(fs[..k], u);
    var i :| 0 <= i < k && fs[i].addr <= u < fs[i].End();
    Ordered(fs, i, k);
  }

  lemma UnitAfter(fs: seq<Block>, k: nat, u: int)
    requires Coalesced(fs) && k < |fs| && u in UnitsAfter(fs, k)
    ensures u > fs[k].End()
  {
    var hi := fs[k + 1..];
    UnitsMember(hi, u);
    var i :| 0 <= i < |hi| && hi[i].addr <= u < hi[i].End();
    Ordered(fs, k, k + 1 + i);
  }

  // A coalesced list is determined by the units it covers.
  lemma {:induction false} Canonical(fs: seq<Block>, gs: seq<Block>)
    requires Coalesced(fs) && Coalesced(gs) && Units(fs) == Units(gs)
    ensures fs == gs
  {
    var n, m := |fs| - 1, |gs| - 1;
    if n == 0 || m == 0 {
      OnlyBase(fs);
      OnlyBase(gs);
      assert fs == [fs[0]] && gs == [gs[0]];
    } else {
      SameFront(fs, gs);
      Canonical(fs[..n], gs[..m]);
      assert fs == fs[..n] + [fs[n]] && gs == gs[..m] + [gs[m]];
    }
  }

  // A coalesced list covers no unit exactly if it is the base block alone.
  lemma OnlyBase(fs: seq<Block>)
    requires Coalesced(fs)
    ensures Units(fs) == {} <==> |fs| == 1
  {
    var n := |fs| - 1;
    UnitsSplit(fs, n);
    EmptyTail(fs);
    if n > 0 {
      assert fs[n].addr in Range(fs[n].addr, fs[n].size);
    }
  }

  lemma EmptyTail(fs: seq<Block>)
    requires fs != []
    ensures UnitsAfter(fs, |fs| - 1) == {}
    ensures |fs| == 1 ==> UnitsBefore(fs, 0) == {}
  {}

  lemma SameLast(fs: seq<Block>, gs: seq<Block>)
    requires Coalesced(fs) && Coalesced(gs) && |fs| > 1 && |gs| > 1 && Units(fs) == Units(gs)
    ensures fs[|fs| - 1].End() == gs[|gs| - 1].End() && fs[|fs| - 1].addr <= gs[|gs| - 1].addr
  {
    var n, m := |fs| - 1, |gs| - 1;
    UnitsOutside(fs, n);
    UnitsOutside(gs, m);
    EmptyTail(fs);
    EmptyTail(gs);
    assert fs[n].End() - 1 in Units(gs);
    assert gs[m].End() - 1 in Units(fs);
    assert fs[n].addr - 1 !in Units(fs);
    assert fs[n].addr - 1 !in Range(gs[m].addr, gs[m].size);
  }

  lemma SameFront(fs: seq<Block>, gs: seq<Block>)
    requires Coalesced(fs) && Coalesced(gs) && |fs| > 1 && |gs| > 1 && Units(fs) == Units(gs)
    ensures fs[|fs| - 1] == gs[|gs| - 1] && Units(fs[..|fs| - 1]) == Units(gs[..|gs| - 1])
  {
    var n, m := |fs| - 1, |gs| - 1;
    hide Units, Coalesced;
    SameLast(fs, gs);
    SameLast(gs, fs);
    UnitsOutside(fs, n);
    UnitsOutside(gs, m);
    EmptyTail(fs);
    EmptyTail(gs);
    assert UnitsBefore(fs, n) == UnitsBefore(gs, m);
  }

  // ----- freeing

  // Block k is the last one below address a.
  ghost predicate Below(fs: seq<Block>, a: int, k: nat) {
    k < |fs| && fs[k].addr < a && (k + 1 < |fs| ==> a < fs[k + 1].addr)
  }

  // A stretch of a coalesced list, without the base block.
  ghost predicate Chain(gs: seq<Block>) {
    && (forall i :: 0 <= i < |gs| ==> gs[i].size >= 1)
    && (forall i, j :: 0 <= i < j < |gs| && j == i + 1 ==> gs[i].End() < gs[j].addr)
  }

  // Puts b in front of gs, as one block with gs[0] if they touch.
  ghost function Front(b: Block, gs: seq<Block>): seq<Block> {
    if gs != [] && b.End() == gs[0].addr then [Block(b.addr, b.size + gs[0].size)] + gs[1..] else [b] + gs
  }

  // The list after b has been put behind block k and merged with its neighbours.
  ghost function Inserted(fs: seq<Block>, b: Block, k: nat): seq<Block>
    requires k < |fs|
  {
    fs[..k] + Front(fs[k], Front(b, fs[k + 1..]))
  }

  lemma RangeJoin(a: int, n: int, m: int)
    requires n >= 0 && m >= 0
    ensures Range(a, n + m) == Range(a, n) + Range(a + n, m)
  {}

  lemma FrontUnits(b: Block, gs: seq<Block>)
    requires b.size >= 0 && (gs != [] ==> gs[0].size >= 0)
    ensures Units(Front(b, gs)) == Range(b.addr, b.size) + Units(gs)
  {
    if gs != [] && b.End() == gs[0].addr {
      UnitsCons(Block(b.addr, b.size + gs[0].size), gs[1..]);
      RangeJoin(b.addr, b.size, gs[0].size);
    } else {
      UnitsCons(b, gs);
    }
  }

  lemma FrontChain(b: Block, gs: seq<Block>)
    requires Chain(gs) && b.size >= 1 && (gs != [] ==> b.End() <= gs[0].addr)
    ensures Chain(Front(b, gs)) && Front(b, gs)[0].addr == b.addr
  {}

  lemma FrontCoalesced(fs: seq<Block>, k: nat, gs: seq<Block>)
    requires Coalesced(fs) && k < |fs| && Chain(gs) && gs != []
    requires fs[k].End() <= gs[0].addr && gs[0].addr > BASE
    ensures Coalesced(fs[..k] + Front(fs[k], gs))
  {
    if k > 0 {
      FrontChain(fs[k], gs);
    }
  }

  // Block b touches no unit of any block of fs.
  ghost predicate Clear(fs: seq<Block>, b: Block) {
    b.addr > BASE && b.size >= 1 &&
    forall i :: 1 <= i < |fs| ==> b.End() <= fs[i].addr || fs[i].End() <= b.addr
  }

  lemma InsertedCoalesced(fs: seq<Block>, b: Block, k: nat)
    requires Coalesced(fs) && Clear(fs, b) && Below(fs, b.addr, k)
    ensures Coalesced(Inserted(fs, b, k))
  {
    FrontChain(b, fs[k + 1..]);
    FrontCoalesced(fs, k, Front(b, fs[k + 1..]));
  }

  lemma InsertedUnits(fs: seq<Block>, b: Block, k: nat)
    requires Coalesced(fs) && b.size >= 0 && k < |fs|
    ensures Units(Inserted(fs, b, k)) == Units(fs) + Range(b.addr, b.size)
  {
    UnitsSplit(fs, k);
    FrontUnits(b, fs[k + 1..]);
    FrontUnits(fs[k], Front(b, fs[k + 1..]));
    UnitsConcat(fs[..k], Front(fs[k], Front(b, fs[k + 1..])));
  }

  lemma UnitsCons(b: Block, gs: seq<Block>)
    ensures Units([b] + gs) == Range(b.addr, b.size) + Units(gs)
  {
    assert ([b] + gs)[1..] == gs;
  }

  // ----- allocating

  // How many steps from block start around the ring to block i, the start itself being last.
  function Steps(n: nat, start: nat, i: nat): int {
    if i > start then i - start else i + n - start
  }

  // Going round from the successor of start, every block before block i is too small for nu units.
  ghost predicate Skipped(fs: seq<Block>, start: nat, nu: int, i: nat) {
    forall x: nat :: x < |fs| && Steps(|fs|, start, x) < Steps(|fs|, start, i) ==> fs[x].size < nu
  }

  // Next fit: block k is the first with room for nu units.
  ghost predicate NextFit(fs: seq<Block>, start: nat, nu: int, k: nat) {
    k < |fs| && fs[k].size >= nu && Skipped(fs, start, nu, k)
  }

  ghost predicate Fits(fs: seq<Block>, nu: int) {
    exists i :: 0 <= i < |fs| && fs[i].size >= nu
  }

  // There is only one next fit.
  lemma FitFound(fs: seq<Block>, start: nat, nu: int, i: nat)
    requires NextFit(fs, start, nu, i)
    ensures Fits(fs, nu) && forall k: nat :: NextFit(fs, start, nu, k) ==> k == i
  {}

  lemma NextFitFits(fs: seq<Block>, start: nat, nu: int)
    ensures !Fits(fs, nu) ==> forall k: nat :: !NextFit(fs, start, nu, k)
  {}

  lemma SkipNone(fs: seq<Block>, start: nat, nu: int)
    requires start < |fs|
    ensures Skipped(fs, start, nu, Succ(|fs|, start)) && Steps(|fs|, start, Succ(|fs|, start)) <= |fs|
  {}

  // A walk that starts behind block start skips one more block, or has come back.
  lemma SkipOne(fs: seq<Block>, start: nat, nu: int, i: nat)
    requires start < |fs| && i < |fs| && Skipped(fs, start, nu, i) && fs[i].size < nu
    ensures i != start ==> Skipped(fs, start, nu, Succ(|fs|, i))
    ensures i != start ==> Steps(|fs|, start, i) + 1 == Steps(|fs|, start, Succ(|fs|, i)) <= |fs|
    ensures i == start ==> !Fits(fs, nu)
  {}

  lemma SameAddress(fs: seq<Block>, i: nat, j: nat)
    requires Coalesced(fs) && i < |fs| && j < |fs| && fs[i].addr == fs[j].addr
    ensures i == j
  {
    if i < j { Ordered(fs, i, j); }
    if j < i { Ordered(fs, j, i); }
  }

  // The list after nu units have been cut off the end of block k.
  ghost function Carved(fs: seq<Block>, k: nat, nu: int): seq<Block>
    requires k < |fs|
  {
    if fs[k].size == nu then fs[..k] + fs[k + 1..] else fs[k := Block(fs[k].addr, fs[k].size - nu)]
  }

  lemma CarvedCoalesced(fs: seq<Block>, k: nat, nu: int)
    requires Coalesced(fs) && 1 <= k < |fs| && 1 <= nu <= fs[k].size
    ensures Coalesced(Carved(fs, k, nu))
  {
    var gs := Carved(fs, k, nu);
    if fs[k].size == nu {
      assert forall i :: 0 <= i < |gs| ==> gs[i] == fs[if i < k then i else i + 1];
      if k + 1 < |fs| {
        Ordered(fs, k - 1, k + 1);
      }
    }
  }

  lemma CarvedUnits(fs: seq<Block>, k: nat, nu: int)
    requires Coalesced(fs) && 1 <= k < |fs| && 1 <= nu <= fs[k].size
    ensures Range(fs[k].End() - nu, nu) <= Units(fs)
    ensures Units(Carved(fs, k, nu)) == Units(fs) - Range(fs[k].End() - nu, nu)
  {
    var gs := Carved(fs, k, nu);
    UnitsOutside(fs, k);
    if fs[k].size == nu {
      UnitsConcat(fs[..k], fs[k + 1..]);
    } else {
      UnitsSplit(gs, k);
      assert gs[..k] == fs[..k] && gs[k + 1..] == fs[k + 1..];
    }
  }
}

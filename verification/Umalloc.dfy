// user/umalloc.c: malloc, free and morecore over the circular free list threaded through the headers.
module Umalloc {
  import opened Basics
  import opened FreeList

  const HEADERSIZE := 16
  const MINCORE := 4096
  const INT_MAX := 0x7fff_ffff

  // How many units malloc(nbytes) needs: the bytes rounded up, and one header.
  function NUnits(nbytes: int): int {
    (nbytes + HEADERSIZE - 1) / HEADERSIZE + 1
  }

  // morecore asks for at least this many units.
  function CoreSize(nu: int): int {
    if nu < MINCORE then MINCORE else nu
  }

  // sbrk takes an int: the size_t product is truncated to 32 bits and read as signed.
  function SbrkArgument(nu: int): int {
    var bytes := nu * HEADERSIZE % 0x1_0000_0000;
    if bytes > INT_MAX then bytes - 0x1_0000_0000 else bytes
  }

  // morecore asks for as many bytes as it meant exactly when they fit an int; at 2^27 units it asks to shrink.
  lemma SbrkExact(nu: int)
    requires 0 <= nu
    ensures SbrkArgument(nu) == nu * HEADERSIZE <==> nu * HEADERSIZE <= INT_MAX
    ensures SbrkArgument(0x800_0000) < 0
  {
    assert nu * HEADERSIZE % 0x1_0000_0000 >= 0;
  }

  // Hence malloc(nbytes), whose argument is a uint, asks for what it needs exactly up to 2^31 - 32 bytes. One byte more
  // and it asks to shrink the heap; for 2^32 - 1 bytes it asks for 16.
  lemma RequestExact(nbytes: int)
    requires 0 <= nbytes < 0x1_0000_0000
    ensures SbrkArgument(NUnits(nbytes)) == NUnits(nbytes) * HEADERSIZE <==> nbytes <= 0x7FFF_FFE0
    ensures SbrkArgument(NUnits(0x7FFF_FFE1)) < 0 && SbrkArgument(NUnits(0xFFFF_FFFF)) == 16
  {
    SbrkExact(NUnits(nbytes));
  }

  // The header of block i records its size and points to its successor.
  ghost predicate HeaderOk(ptr: map<int, int>, size: map<int, int>, fs: seq<Block>, i: nat)
    requires i < |fs|
  {
    && fs[i].addr in ptr && fs[i].addr in size && size[fs[i].addr] == fs[i].size
    && ptr[fs[i].addr] == fs[Succ(|fs|, i)].addr
  }

  // The headers of fs form the cycle.
  ghost predicate Linked(ptr: map<int, int>, size: map<int, int>, fs: seq<Block>) {
    forall i {:trigger HeaderOk(ptr, size, fs, i)} :: 0 <= i < |fs| ==> HeaderOk(ptr, size, fs, i)
  }

  // A block handed out keeps its header and overlaps no free block.
  ghost predicate LiveOk(size: map<int, int>, fs: seq<Block>, b: Block) {
    Clear(fs, b) && b.addr in size && size[b.addr] == b.size
  }

  ghost predicate Disjoint(b: Block, c: Block) {
    b.End() <= c.addr || c.End() <= b.addr
  }

  ghost predicate LiveApart(size: map<int, int>, live: set<Block>, fs: seq<Block>) {
    && (forall b {:trigger LiveOk(size, fs, b)} :: b in live ==> LiveOk(size, fs, b))
    && (forall b, c {:trigger Disjoint(b, c)} :: b in live && c in live && b != c ==> Disjoint(b, c))
  }

  ghost function LiveUnits(live: set<Block>): set<int> {
    set b, u | b in live && u in Range(b.addr, b.size) :: u
  }

  lemma LiveUnitsAdd(live: set<Block>, b: Block)
    ensures LiveUnits(live + {b}) == LiveUnits(live) + Range(b.addr, b.size)
  {
    forall u | u in LiveUnits(live + {b}) ensures u in LiveUnits(live) + Range(b.addr, b.size) {
      var c :| c in live + {b} && u in Range(c.addr, c.size);
    }
  }

  // What a walk along the list relies on.
  lemma BlockAt(ptr: map<int, int>, size: map<int, int>, fs: seq<Block>, live: set<Block>, i: nat, j: nat)
    requires Consistent(ptr, size, fs, live) && i < |fs| && j < |fs|
    ensures HeaderOk(ptr, size, fs, i) && (fs[i].size >= 1 ==> i > 0) && (fs[i].addr == fs[j].addr ==> i == j)
  {
    if fs[i].addr == fs[j].addr {
      SameAddress(fs, i, j);
    }
  }

  lemma AddRemove(live: set<Block>, b: Block)
    requires b !in live
    ensures live + {b} - {b} == live
  {}

  ghost predicate Consistent(ptr: map<int, int>, size: map<int, int>, fs: seq<Block>, live: set<Block>) {
    Coalesced(fs) && Linked(ptr, size, fs) && LiveApart(size, live, fs)
  }

  class Heap {
    var ptr: map<int, int>     // s.ptr of the header at each address
    var size: map<int, int>    // s.size of the header at each address
    var freep: int
    var brk: int               // end of the process's data segment
    ghost var free: seq<Block>
    ghost var cur: nat         // freep points to block cur
    ghost var live: set<Block>      // the blocks handed out
    ghost var arena: set<int>       // every unit obtained from sbrk
    ghost var sbrks: nat            // calls of sbrk so far

    ghost predicate Valid()
      reads this
    {
      && brk > BASE
      && arena <= Range(BASE + 1, brk - BASE - 1)
      && arena == Units(free) + LiveUnits(live)
      && if freep == NULL then free == [] && live == {}
         else Consistent(ptr, size, free, live) && cur < |free| && free[cur].addr == freep
    }

    constructor (start: int)
      requires start > BASE
      ensures Valid() && freep == NULL && live == {} && arena == {} && sbrks == 0
    {
      ptr, size, freep, brk := map[], map[], NULL, start;
      free, cur, live, arena, sbrks := [], 0, {}, {}, 0;
    }

    // free's search loop: the free block below live block bp, found by walking the cycle from freep.
    method FindPlace(bp: int, ghost b: Block) returns (p: int, ghost k: nat)
      requires Valid() && freep != NULL && b in live && b.addr == bp
      ensures Below(free, bp, k) && p == free[k].addr && p != NULL
    {
      LiveNotFree(size, live, free, b);
      p := freep;
      k := FindBelow(free, bp);
      ghost var i: nat := cur;
      assert HeaderOk(ptr, size, free, i);
      while !(bp > p && bp < ptr[p])
        invariant i < |free| && p == free[i].addr && HeaderOk(ptr, size, free, i)
        decreases if i <= k then k - i else k - i + |free|
      {
        if p >= ptr[p] && (bp > p || bp < ptr[p]) {
          break;
        }
        AtPlace(free, bp, i, k);
        p := ptr[p];
        i := Succ(|free|, i);
        assert HeaderOk(ptr, size, free, i);
      }
      AtPlace(free, bp, i, k);
      if k > 0 {
        Ordered(free, 0, k);
      }
    }

    // free's pointer surgery: coalesces bp with its neighbours, or links it in.
    method Splice(bp: int, p: int, ghost b: Block, ghost k: nat)
      requires Consistent(ptr, size, free, live) && b in live && b.addr == bp
      requires Below(free, bp, k) && p == free[k].addr
      modifies `ptr, `size
      ensures Surgery(old(ptr), old(size), free, b, k, ptr, size)
    {
      LiveNotFree(size, live, free, b);
      assert HeaderOk(ptr, size, free, k);
      assert HeaderOk(ptr, size, free, Succ(|free|, k));
      if bp + size[bp] == ptr[p] {
        size := size[bp := size[bp] + size[ptr[p]]];
        ptr := ptr[bp := ptr[ptr[p]]];
      } else {
        ptr := ptr[bp := ptr[p]];
      }
      if p + size[p] == bp {
        size := size[p := size[p] + size[bp]];
        ptr := ptr[p := ptr[bp]];
      } else {
        ptr := ptr[p := bp];
      }
    }

    // Everything free does before it moves freep.
    method PutBack(bp: int, ghost b: Block) returns (p: int, ghost k: nat)
      requires Valid() && freep != NULL && b in live && b.addr == bp
      modifies `ptr, `size, `free, `live
      ensures Consistent(ptr, size, free, live) && k < |free| && p == free[k].addr && p != NULL
      ensures live == old(live) - {b}
      ensures Units(free) == old(Units(free)) + Range(bp, b.size)
      ensures Units(free) + LiveUnits(live) == old(Units(free) + LiveUnits(live))
      ensures Below(old(free), bp, k)
      ensures Fits(free, b.size)
    {
      p, k := FindPlace(bp, b);
      Splice(bp, p, b, k);
      free, live := FreeKept(old(ptr), old(size), live, b, free, k, ptr, size);
    }

    // Gives the block whose memory starts at ap, block b, back to the free list. With Canonical, the
    // units determine the list.
    method Free(ap: int, ghost b: Block)
      requires Valid() && freep != NULL && b in live && b.addr == ap - 1
      modifies `ptr, `size, `freep, `free, `cur, `live
      ensures Valid() && freep != NULL
      ensures live == old(live) - {b}
      ensures Units(free) == old(Units(free)) + Range(ap - 1, b.size)
      ensures Below(old(free), ap - 1, cur)
      ensures Fits(free, b.size)
    {
      freep, cur := PutBack(ap - 1, b);
    }

    // The kernel extends the data segment by n units, or refuses. Other callers of sbrk may have left a gap.
    method Sbrk(n: int) returns (p: int)
      requires n >= 1 && brk > BASE && arena <= Range(BASE + 1, brk - BASE - 1)
      modifies `brk, `arena, `sbrks
      ensures sbrks == old(sbrks) + 1
      ensures p == -1 ==> brk == old(brk) && arena == old(arena)
      ensures p != -1 ==> p >= old(brk) && brk == p + n && arena == old(arena) + Range(p, n)
      ensures arena <= Range(BASE + 1, brk - BASE - 1)
    {
      sbrks := sbrks + 1;
      p := -1;
      if * {
        var gap :| 0 <= gap;
        p := brk + gap;
        brk := p + n;
        arena := arena + Range(p, n);
      }
    }

    // Enters the fresh block at p as if malloc had handed it out.
    method EnterCore(p: int, n: int, ghost arena0: set<int>)
      requires freep != NULL && Consistent(ptr, size, free, live) && cur < |free| && free[cur].addr == freep
      requires arena0 == Units(free) + LiveUnits(live) && n >= 1 && p > BASE && brk > BASE
      requires arena0 <= Range(BASE + 1, p - BASE - 1)
      requires arena == arena0 + Range(p, n) && arena <= Range(BASE + 1, brk - BASE - 1)
      modifies `size, `live
      ensures Valid() && Block(p, n) !in old(live) && sbrks == old(sbrks)
      ensures live == old(live) + {Block(p, n)}
    {
      CoreKept(ptr, size, free, live, arena0, p, n);
      size := size[p := n];
      live := live + {Block(p, n)};
    }

    // The first half of morecore: fresh core, entered as handed out.
    method GetCore(nu: int) returns (ok: bool, p: int)
      requires Valid() && freep != NULL && 1 <= nu
      modifies `brk, `arena, `sbrks, `size, `live
      ensures Valid() && sbrks == old(sbrks) + 1
      ensures !ok ==> live == old(live) && arena == old(arena) && brk == old(brk)
      ensures ok ==> brk == p + CoreSize(nu) > old(brk)
      ensures ok ==> p >= old(brk) && old(arena) <= arena && arena - old(arena) == Range(p, CoreSize(nu))
      ensures ok ==> Block(p, CoreSize(nu)) !in old(live) && live == old(live) + {Block(p, CoreSize(nu))}
    {
      p := Sbrk(CoreSize(nu));
      ok := p != -1;
      if ok {
        EnterCore(p, CoreSize(nu), old(arena));
      }
    }

    // Asks the kernel for at least nu units and frees them; returns the new freep.
    method Morecore(nu: int) returns (r: int)
      requires Valid() && freep != NULL && 1 <= nu && SbrkArgument(nu) == nu * HEADERSIZE
      modifies this
      ensures Valid() && freep != NULL && sbrks == old(sbrks) + 1 && live == old(live)
      ensures brk >= old(brk) && (r == NULL <==> brk == old(brk))
      ensures r == NULL ==> free == old(free) && live == old(live) && arena == old(arena) && cur == old(cur)
      ensures r != NULL ==> r == freep && Fits(free, nu)
      ensures r != NULL ==> Units(free) == old(Units(free)) + (arena - old(arena))
    {
      hide Consistent, LiveUnits, Units, Range;
      var ok, p := GetCore(nu);
      if !ok {
        return NULL;
      }
      AddRemove(old(live), Block(p, CoreSize(nu)));
      Free(p + 1, Block(p, CoreSize(nu)));
      return freep;
    }

    // Unlinks block i from its predecessor, or cuts nu units off its end.
    method Take(p: int, prevp: int, nu: int, ghost i: nat) returns (hdr: int)
      requires Valid() && freep != NULL && 1 <= i < |free| && 1 <= nu <= free[i].size
      requires p == free[i].addr && prevp == free[i - 1].addr
      modifies `ptr, `size, `freep, `free, `cur, `live
      ensures Valid() && freep != NULL && freep == prevp
      ensures hdr == old(free)[i].End() - nu && hdr > BASE
      ensures Block(hdr, nu) !in old(live) && live == old(live) + {Block(hdr, nu)}
      ensures Range(hdr, nu) <= old(Units(free)) && Units(free) == old(Units(free)) - Range(hdr, nu)
    {
      hdr := TakeOut(p, prevp, nu, i);
      freep, cur := prevp, i - 1;
    }

    // Everything that malloc does to the list before it moves freep.
    method TakeOut(p: int, prevp: int, nu: int, ghost i: nat) returns (hdr: int)
      requires Consistent(ptr, size, free, live) && 1 <= i < |free| && 1 <= nu <= free[i].size
      requires p == free[i].addr && prevp == free[i - 1].addr
      modifies `ptr, `size, `free, `live
      ensures Consistent(ptr, size, free, live) && i - 1 < |free| && free[i - 1].addr == prevp && prevp >= BASE
      ensures hdr == old(free)[i].End() - nu && hdr > BASE
      ensures Block(hdr, nu) !in old(live) && live == old(live) + {Block(hdr, nu)}
      ensures Range(hdr, nu) <= old(Units(free)) && Units(free) == old(Units(free)) - Range(hdr, nu)
      ensures Units(free) + LiveUnits(live) == old(Units(free) + LiveUnits(live))
    {
      hdr := Cut(p, prevp, nu, i);
      free, live := TakeKept(old(ptr), old(size), free, live, i, nu, ptr, size);
    }

    // The header updates of malloc's two cases: an exact fit is unlinked, a larger block is shortened.
    method Cut(p: int, prevp: int, nu: int, ghost i: nat) returns (hdr: int)
      requires Consistent(ptr, size, free, live) && 1 <= i < |free| && 1 <= nu <= free[i].size
      requires p == free[i].addr && prevp == free[i - 1].addr
      modifies `ptr, `size
      ensures CutHeaders(old(ptr), old(size), free, i, nu, ptr, size)
      ensures hdr == free[i].End() - nu
    {
      assert HeaderOk(ptr, size, free, i);
      if size[p] == nu {
        ptr := ptr[prevp := ptr[p]];
        hdr := p;
      } else {
        size := size[p := size[p] - nu];
        hdr := p + size[p];
        size := size[hdr := nu];
      }
    }

    // malloc's initialisation: the empty list is base alone.
    method InitBase()
      requires Valid() && freep == NULL
      modifies `ptr, `size, `freep, `free, `cur
      ensures Valid() && freep == BASE && free == [Block(BASE, 0)] && cur == 0 && Units(free) == old(Units(free))
    {
      freep := BASE;
      ptr, size := ptr[BASE := BASE], size[BASE := 0];
      free, cur := [Block(BASE, 0)], 0;
      UnitsCons(Block(BASE, 0), []);
      assert free == [Block(BASE, 0)] + [];
    }

    // malloc's loop: next fit, growing the heap when the walk has come back to freep.
    method Search(nu: int) returns (hdr: int)
      requires Valid() && freep != NULL && 1 <= nu && SbrkArgument(nu) == nu * HEADERSIZE
      modifies this
      ensures Valid() && freep != NULL && brk >= old(brk)
      ensures sbrks == old(sbrks) + if Fits(old(free), nu) then 0 else 1
      ensures hdr == NULL || hdr > BASE
      ensures hdr == NULL <==> !Fits(old(free), nu) && brk == old(brk)
      ensures hdr == NULL ==> live == old(live) && arena == old(arena) && Units(free) == old(Units(free))
      ensures hdr != NULL ==> Block(hdr, nu) !in old(live) && live == old(live) + {Block(hdr, nu)}
      ensures hdr != NULL ==> Range(hdr, nu) <= old(Units(free)) + (arena - old(arena))
      ensures hdr != NULL ==> Units(free) == old(Units(free)) + (arena - old(arena)) - Range(hdr, nu)
      ensures Fits(old(free), nu) ==> hdr != NULL && arena == old(arena) && sbrks == old(sbrks)
      ensures forall k: nat :: NextFit(old(free), old(cur), nu, k) ==> hdr == old(free)[k].End() - nu
    {
      hide Consistent, LiveUnits, Units, Range, Skipped, Fits, Steps;
      ghost var fs0, cur0, grown := free, cur, false;
      var prevp := freep;
      BlockAt(ptr, size, free, live, cur, cur);
      var p := ptr[prevp];
      ghost var i: nat := Succ(|free|, cur);
      SkipNone(free, cur, nu);
      assert Units(free) == old(Units(free)) + (arena - old(arena));
      while true
        invariant Valid() && freep != NULL
        invariant i < |free| && p == free[i].addr && (i > 0 ==> prevp == free[i - 1].addr)
        invariant Skipped(free, cur, nu, i)
        invariant !grown ==> free == fs0 && cur == cur0 && arena == old(arena) && sbrks == old(sbrks) && brk == old(brk)
        invariant live == old(live) && Units(free) == old(Units(free)) + (arena - old(arena))
        invariant grown ==> sbrks == old(sbrks) + 1 && Fits(free, nu) && !Fits(fs0, nu) && brk > old(brk)
        decreases !grown, |free| - Steps(|free|, cur, i)
      {
        BlockAt(ptr, size, free, live, i, cur);
        if size[p] >= nu {
          FitFound(free, cur, nu, i);
          NextFitFits(fs0, cur0, nu);
          hdr := Take(p, prevp, nu, i);
          return;
        }
        SkipOne(free, cur, nu, i);
        if p == freep {
          p := Morecore(nu);
          NextFitFits(fs0, cur0, nu);
          if p == NULL {
            return NULL;
          }
          grown, i := true, cur;
          SkipNone(free, cur, nu);
          BlockAt(ptr, size, free, live, i, cur);
        }
        prevp := p;
        p := ptr[p];
        i := Succ(|free|, i);
      }
    }

    // malloc(nbytes): 0 if there is no memory, and otherwise the address behind the header of a new block.
    method Malloc(nbytes: int) returns (r: int)
      requires Valid() && 0 <= nbytes < 0x1_0000_0000
      requires SbrkArgument(NUnits(nbytes)) == NUnits(nbytes) * HEADERSIZE
      modifies this
      ensures Valid() && freep != NULL && brk >= old(brk)
      // It asks the kernel once if no free block is large enough, and fails exactly if the kernel then refuses.
      ensures sbrks == old(sbrks) + if Fits(old(free), NUnits(nbytes)) then 0 else 1
      ensures r == NULL <==> !Fits(old(free), NUnits(nbytes)) && brk == old(brk)
      // Out of memory: nothing has changed hands.
      ensures r == NULL ==> live == old(live) && arena == old(arena) && Units(free) == old(Units(free))
      // Otherwise r is the memory of a new block of the right size, cut from what was free or from what the
      // kernel gave; Valid says that it overlaps no other block.
      ensures r != NULL ==> NewBlock(r - 1, NUnits(nbytes), old(live), old(Units(free)) + (arena - old(arena)))
      // The heap grows only if no free block is large enough.
      ensures Fits(old(free), NUnits(nbytes)) ==> r != NULL && arena == old(arena) && sbrks == old(sbrks)
      // Next fit, from the end of the block.
      ensures forall k: nat :: NextFit(old(free), old(cur), NUnits(nbytes), k) ==>
        r - 1 == old(free)[k].End() - NUnits(nbytes)
    {
      hide Consistent, LiveUnits, Units, Range;
      if freep == NULL {
        InitBase();
      }
      var hdr := Search(NUnits(nbytes));
      r := if hdr == NULL then NULL else hdr + 1;
    }

    ghost predicate NewBlock(hdr: int, nu: int, live0: set<Block>, avail: set<int>)
      reads this
    {
      && Block(hdr, nu) !in live0 && live == live0 + {Block(hdr, nu)}
      && Range(hdr, nu) <= avail && Units(free) == avail - Range(hdr, nu)
    }
  }

  // The list is in order again after free's surgery on the headers, and the units of the block have moved
  // from one side of the account to the other.
  lemma FreeKept(ptr: map<int, int>, size: map<int, int>, live: set<Block>, b: Block, fs: seq<Block>, k: nat,
                 ptr': map<int, int>, size': map<int, int>) returns (gs: seq<Block>, rest: set<Block>)
    requires Consistent(ptr, size, fs, live) && b in live && Below(fs, b.addr, k)
    requires Surgery(ptr, size, fs, b, k, ptr', size')
    ensures Consistent(ptr', size', gs, rest) && k < |gs| && gs[k].addr == fs[k].addr
    ensures rest == live - {b}
    ensures Fits(gs, b.size)
    ensures Units(gs) == Units(fs) + Range(b.addr, b.size)
    ensures Units(fs) + LiveUnits(live) == Units(gs) + LiveUnits(rest)
  {
    gs, rest := Inserted(fs, b, k), live - {b};
    assert LiveOk(size, fs, b);
    FreeAccounts(live, b, fs, k);
    FreeLinks(ptr, size, live, b, fs, k, ptr', size');
    InsertedShifted(fs, b, k);
    assert gs[if Down(fs, b, k) then k else k + 1].size >= b.size;
  }

  ghost predicate CutHeaders(ptr: map<int, int>, size: map<int, int>, fs: seq<Block>, i: nat, nu: int,
                             ptr': map<int, int>, size': map<int, int>)
    requires 1 <= i < |fs|
  {
    && ptr' == (if fs[i].size == nu then ptr[fs[i - 1].addr := fs[Succ(|fs|, i)].addr] else ptr)
    && size' == (if fs[i].size == nu then size else size[fs[i].addr := fs[i].size - nu][fs[i].End() - nu := nu])
  }

  // Cutting units off a block, or unlinking it, keeps everything in order.
  lemma TakeKept(ptr: map<int, int>, size: map<int, int>, fs: seq<Block>, live: set<Block>, i: nat, nu: int,
                 ptr': map<int, int>, size': map<int, int>) returns (gs: seq<Block>, all: set<Block>)
    requires Consistent(ptr, size, fs, live) && 1 <= i < |fs| && 1 <= nu <= fs[i].size
    requires CutHeaders(ptr, size, fs, i, nu, ptr', size')
    ensures Consistent(ptr', size', gs, all)
    ensures i - 1 < |gs| && gs[i - 1].addr == fs[i - 1].addr && BASE <= gs[i - 1].addr < fs[i].addr
    ensures var hdr := fs[i].End() - nu;
      && Block(hdr, nu) !in live && all == live + {Block(hdr, nu)}
      && Range(hdr, nu) <= Units(fs) && Units(gs) == Units(fs) - Range(hdr, nu)
      && Units(fs) + LiveUnits(live) == Units(gs) + LiveUnits(all)
  {
    var b := Block(fs[i].End() - nu, nu);
    gs, all := Carved(fs, i, nu), live + {b};
    if i > 1 {
      Ordered(fs, 0, i - 1);
    }
    CarvedCoalesced(fs, i, nu);
    CarvedUnits(fs, i, nu);
    LiveUnitsAdd(live, b);
    assert HeaderOk(ptr, size, fs, i);
    TakeLinks(ptr, size, fs, i, nu, ptr', size');
    TakeApart(size, fs, live, i, nu, size');
  }

  lemma TakeLinks(ptr: map<int, int>, size: map<int, int>, fs: seq<Block>, i: nat, nu: int,
                  ptr': map<int, int>, size': map<int, int>)
    requires Coalesced(fs) && Linked(ptr, size, fs) && 1 <= i < |fs| && 1 <= nu <= fs[i].size
    requires CutHeaders(ptr, size, fs, i, nu, ptr', size')
    ensures Linked(ptr', size', Carved(fs, i, nu))
  {
    var gs := Carved(fs, i, nu);
    CoalescedAscending(fs);
    forall k | 0 <= k < |gs| ensures HeaderOk(ptr', size', gs, k) {
      var o := if fs[i].size == nu && k >= i then k + 1 else k;
      assert HeaderOk(ptr, size, fs, o);
      if i < o { Ordered(fs, i, o); }
    }
  }

  lemma TakeApart(size: map<int, int>, fs: seq<Block>, live: set<Block>, i: nat, nu: int, size': map<int, int>)
    requires Coalesced(fs) && LiveApart(size, live, fs) && 1 <= i < |fs| && 1 <= nu <= fs[i].size
    requires fs[i].addr in size && size[fs[i].addr] == fs[i].size
    requires size' == if fs[i].size == nu then size else size[fs[i].addr := fs[i].size - nu][fs[i].End() - nu := nu]
    ensures var b := Block(fs[i].End() - nu, nu);
      b !in live && LiveApart(size', live + {b}, Carved(fs, i, nu))
  {
    var b, gs := Block(fs[i].End() - nu, nu), Carved(fs, i, nu);
    TakenClear(fs, i, nu);
    forall c | c in live ensures LiveOk(size', gs, c) && Disjoint(b, c) && Disjoint(c, b) && c != b {
      assert LiveOk(size, fs, c);
    }
    assert LiveOk(size', gs, b);
  }

  lemma TakenClear(fs: seq<Block>, i: nat, nu: int)
    requires Coalesced(fs) && 1 <= i < |fs| && 1 <= nu <= fs[i].size
    ensures Clear(Carved(fs, i, nu), Block(fs[i].End() - nu, nu))
  {
    Ordered(fs, 0, i);
    forall k | 0 <= k < |fs| && k != i ensures fs[i].End() < fs[k].addr || fs[k].End() < fs[i].addr {
      if k < i { Ordered(fs, k, i); } else { Ordered(fs, i, k); }
    }
  }

  // Fresh core lies above every header and every unit known so far, so it can be entered as handed out.
  lemma CoreKept(ptr: map<int, int>, size: map<int, int>, fs: seq<Block>, live: set<Block>, arena: set<int>, p: int,
      n: int)
    requires Consistent(ptr, size, fs, live) && arena == Units(fs) + LiveUnits(live) && n >= 1 && p > BASE
    requires arena <= Range(BASE + 1, p - BASE - 1)
    ensures Block(p, n) !in live && Consistent(ptr, size[p := n], fs, live + {Block(p, n)})
    ensures arena + Range(p, n) == Units(fs) + LiveUnits(live + {Block(p, n)})
  {
    var b := Block(p, n);
    forall c | c in live ensures c.End() <= p {
      assert LiveOk(size, fs, c);
      assert c.End() - 1 in Range(c.addr, c.size);
      assert c.End() - 1 in LiveUnits(live);
    }
    forall i | 0 <= i < |fs| ensures fs[i].End() <= p {
      EndsBelow(fs, i, p);
    }
    FreshLinks(ptr, size, fs, p, n);
    FreshApart(size, fs, live, b);
    LiveUnitsAdd(live, b);
  }

  lemma EndsBelow(fs: seq<Block>, i: nat, p: int)
    requires i < |fs| && Units(fs) <= Range(BASE + 1, p - BASE - 1) && BASE < p
    requires fs[i].size >= 1 || fs[i] == Block(BASE, 0)
    ensures fs[i].End() <= p
  {
    UnitsMember(fs, fs[i].End() - 1);
  }

  lemma FreshLinks(ptr: map<int, int>, size: map<int, int>, fs: seq<Block>, p: int, n: int)
    requires Coalesced(fs) && Linked(ptr, size, fs) && p > BASE && forall i :: 0 <= i < |fs| ==> fs[i].End() <= p
    ensures Linked(ptr, size[p := n], fs)
  {
    var size' := size[p := n];
    forall i | 0 <= i < |fs| ensures HeaderOk(ptr, size', fs, i) {
      assert HeaderOk(ptr, size, fs, i);
    }
  }

  lemma FreshApart(size: map<int, int>, fs: seq<Block>, live: set<Block>, b: Block)
    requires LiveApart(size, live, fs) && b.addr > BASE && b.size >= 1
    requires forall i :: 0 <= i < |fs| ==> fs[i].End() <= b.addr
    requires forall c :: c in live ==> c.End() <= b.addr
    ensures b !in live && LiveApart(size[b.addr := b.size], live + {b}, fs)
  {
    var size' := size[b.addr := b.size];
    forall c | c in live + {b} ensures LiveOk(size', fs, c) {
      assert c in live ==> LiveOk(size, fs, c);
    }
  }

  lemma FreeLinks(ptr: map<int, int>, size: map<int, int>, live: set<Block>, b: Block, fs: seq<Block>, k: nat,
                  ptr': map<int, int>, size': map<int, int>)
    requires Consistent(ptr, size, fs, live) && b in live && Below(fs, b.addr, k)
    requires Surgery(ptr, size, fs, b, k, ptr', size')
    ensures Consistent(ptr', size', Inserted(fs, b, k), live - {b})
  {
    assert LiveOk(size, fs, b);
    CoalescedAscending(fs);
    InsertedShifted(fs, b, k);
    InsertedCoalesced(fs, b, k);
    Spliced(ptr, size, fs, b, k, Inserted(fs, b, k), ptr', size');
    LiveAfterFree(size, size', live, b, fs, k);
  }

  lemma FreeAccounts(live: set<Block>, b: Block, fs: seq<Block>, k: nat)
    requires Coalesced(fs) && b in live && b.size >= 0 && k < |fs|
    ensures Units(Inserted(fs, b, k)) == Units(fs) + Range(b.addr, b.size)
    ensures Units(fs) + LiveUnits(live) == Units(Inserted(fs, b, k)) + LiveUnits(live - {b})
  {
    hide Range, Units, LiveUnits, Inserted, Coalesced;
    InsertedUnits(fs, b, k);
    LiveUnitsAdd(live - {b}, b);
    assert live - {b} + {b} == live;
  }

  ghost predicate Up(fs: seq<Block>, b: Block, k: nat) {
    k + 1 < |fs| && b.End() == fs[k + 1].addr
  }

  ghost predicate Down(fs: seq<Block>, b: Block, k: nat) {
    k < |fs| && fs[k].End() == b.addr
  }

  // Where the blocks of a list end up when b is put behind block k.
  ghost predicate Shifted(fs: seq<Block>, b: Block, k: nat, gs: seq<Block>)
    requires k < |fs|
  {
    var gone := (if Up(fs, b, k) then 1 else 0) + (if Down(fs, b, k) then 1 else 0);
    var bs := if Up(fs, b, k) then b.size + fs[k + 1].size else b.size;
    && |gs| == |fs| + 1 - gone
    && (forall i :: 0 <= i < k ==> gs[i] == fs[i])
    && (if Down(fs, b, k) then gs[k] == Block(fs[k].addr, fs[k].size + bs)
        else gs[k] == fs[k] && gs[k + 1] == Block(b.addr, bs))
    && (forall i :: (if Down(fs, b, k) then k else k + 1) < i < |gs| ==> gs[i] == fs[i + gone - 1])
  }

  lemma InsertedShifted(fs: seq<Block>, b: Block, k: nat)
    requires k < |fs|
    ensures Shifted(fs, b, k, Inserted(fs, b, k))
  {
    var hi := fs[k + 1..];
    var g := Front(b, hi);
    if Up(fs, b, k) {
      assert g == [Block(b.addr, b.size + fs[k + 1].size)] + fs[k + 2..];
    } else {
      assert g == [b] + hi;
    }
  }

  ghost predicate Ascending(fs: seq<Block>) {
    forall i, j :: 0 <= i < j < |fs| ==> fs[i].addr < fs[j].addr
  }

  lemma CoalescedAscending(fs: seq<Block>)
    requires Coalesced(fs)
    ensures Ascending(fs)
  {
    forall i, j | 0 <= i < j < |fs| ensures fs[i].addr < fs[j].addr {
      Ordered(fs, i, j);
    }
  }

  // What free's pointer surgery leaves in the headers, in its four cases.
  ghost predicate Surgery(ptr: map<int, int>, size: map<int, int>, fs: seq<Block>, b: Block, k: nat,
                          ptr': map<int, int>, size': map<int, int>)
    requires k < |fs|
  {
    var up, down := Up(fs, b, k), Down(fs, b, k);
    var bs := if up then b.size + fs[k + 1].size else b.size;
    var bn := fs[Succ(|fs|, if up then k + 1 else k)].addr;
    && size' == (if down then size[b.addr := bs][fs[k].addr := fs[k].size + bs] else size[b.addr := bs])
    && ptr' == ptr[b.addr := bn][fs[k].addr := if down then bn else b.addr]
  }

  // Hence the headers spell the new list.
  lemma Spliced(ptr: map<int, int>, size: map<int, int>, fs: seq<Block>, b: Block, k: nat,
                gs: seq<Block>, ptr': map<int, int>, size': map<int, int>)
    requires Ascending(fs) && Linked(ptr, size, fs) && Below(fs, b.addr, k)
    requires Shifted(fs, b, k, gs) && Surgery(ptr, size, fs, b, k, ptr', size')
    ensures Linked(ptr', size', gs)
  {
    forall i | 0 <= i < |gs| ensures HeaderOk(ptr', size', gs, i) {
      assert HeaderOk(ptr, size, fs, k);
      if i < k || i > (if Down(fs, b, k) then k else k + 1) {
        OldHeader(ptr, size, fs, b, k, gs, ptr', size', i);
      }
    }
  }

  // A block away from the splice keeps its header.
  lemma OldHeader(ptr: map<int, int>, size: map<int, int>, fs: seq<Block>, b: Block, k: nat,
                  gs: seq<Block>, ptr': map<int, int>, size': map<int, int>, i: nat)
    requires Ascending(fs) && Linked(ptr, size, fs) && Below(fs, b.addr, k)
    requires Shifted(fs, b, k, gs) && Surgery(ptr, size, fs, b, k, ptr', size')
    requires i < |gs| && (i < k || i > (if Down(fs, b, k) then k else k + 1))
    ensures HeaderOk(ptr', size', gs, i)
  {
    var o := OldPlace(fs, b, k, gs, i);
    assert HeaderOk(ptr, size, fs, o) && fs[o].addr != fs[k].addr;
  }

  // Such a block has the successor it had before.
  lemma OldPlace(fs: seq<Block>, b: Block, k: nat, gs: seq<Block>, i: nat) returns (o: nat)
    requires Ascending(fs) && Below(fs, b.addr, k) && Shifted(fs, b, k, gs)
    requires i < |gs| && (i < k || i > (if Down(fs, b, k) then k else k + 1))
    ensures o < |fs| && o != k && gs[i] == fs[o] && fs[o].addr != b.addr
    ensures gs[Succ(|gs|, i)].addr == fs[Succ(|fs|, o)].addr
  {
    o := if i < k then i else i + (if Up(fs, b, k) then 1 else 0) + (if Down(fs, b, k) then 1 else 0) - 1;
  }

  lemma LiveNotFree(size: map<int, int>, live: set<Block>, fs: seq<Block>, b: Block)
    requires Coalesced(fs) && LiveApart(size, live, fs) && b in live
    ensures LiveOk(size, fs, b)
    ensures forall i :: 0 <= i < |fs| ==> fs[i].addr != b.addr
  {
    assert LiveOk(size, fs, b);
  }

  // What is clear of the list and of b is clear of the list with b put in.
  lemma ClearAfter(fs: seq<Block>, b: Block, k: nat, gs: seq<Block>, c: Block)
    requires k < |fs| && fs[0] == Block(BASE, 0)
    requires Shifted(fs, b, k, gs) && Clear(fs, b) && Clear(fs, c)
    requires Disjoint(b, c)
    ensures Clear(gs, c)
  {}

  // Freeing a block disturbs no other block that is handed out.
  lemma LiveAfterFree(size: map<int, int>, size': map<int, int>, live: set<Block>, b: Block, fs: seq<Block>, k: nat)
    requires Coalesced(fs) && LiveApart(size, live, fs) && b in live && k < |fs|
    requires forall a :: a in size && a != b.addr && a != fs[k].addr ==> a in size' && size'[a] == size[a]
    ensures LiveApart(size', live - {b}, Inserted(fs, b, k))
  {
    InsertedShifted(fs, b, k);
    assert LiveOk(size, fs, b);
    forall c | c in live - {b} ensures LiveOk(size', Inserted(fs, b, k), c) {
      assert LiveOk(size, fs, c) && Disjoint(b, c);
      LiveNotFree(size, live, fs, c);
      ClearAfter(fs, b, k, Inserted(fs, b, k), c);
    }
  }

  // The block behind which address a belongs.
  ghost function FindBelow(fs: seq<Block>, a: int): (k: nat)
    requires Coalesced(fs) && a > BASE && forall i :: 0 <= i < |fs| ==> fs[i].addr != a
    ensures Below(fs, a, k)
  {
    if fs[|fs| - 1].addr < a then |fs| - 1 else FindBelow(fs[..|fs| - 1], a)
  }

  // free's loop stops exactly there.
  lemma AtPlace(fs: seq<Block>, a: int, i: nat, k: nat)
    requires Coalesced(fs) && a > BASE && i < |fs| && Below(fs, a, k)
    requires forall i :: 0 <= i < |fs| ==> fs[i].addr != a
    ensures var p, q := fs[i].addr, fs[Succ(|fs|, i)].addr;
      i == k <==> (a > p && a < q) || (p >= q && (a > p || a < q))
  {
    if i < k { Ordered(fs, i, k); }
    if k + 1 < i { Ordered(fs, k + 1, i); }
    if i + 1 < |fs| { Ordered(fs, i, i + 1); }
    if i + 1 < k { Ordered(fs, i + 1, k); }
    if 0 < i { Ordered(fs, 0, i); }
  }
}

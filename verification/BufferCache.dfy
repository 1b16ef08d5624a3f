// kernel/bio.c: the buffer cache, its LRU ring, and what bread returns.
module BufferCache {
  import opened Basics
  import opened LruRing
  import opened LogFormat

  const NBUF := 3 * MAXOPBLOCKS
  const HEAD := NBUF          // &bcache.head
  const ROOTDEV := 1          // the only device

  datatype Buf = Buf(valid: bool, dev: nat, blockno: nat, refcnt: nat, data: Block)

  predicate Caches(b: Buf, k: nat) {
    b.dev == ROOTDEV && b.blockno == k
  }

  function Lookup(bs: seq<Buf>, k: nat): (i: nat)
    ensures i <= |bs|
    ensures i < |bs| ==> Caches(bs[i], k)
    ensures forall j :: 0 <= j < i ==> !Caches(bs[j], k)
  {
    if bs == [] then 0 else if Caches(bs[0], k) then 0 else 1 + Lookup(bs[1..], k)
  }

  // What a reader of block k must see: the valid buffer that caches it, or else the disk.
  function Contents(bs: seq<Buf>, disk: seq<Block>, k: nat): Block
    requires k < |disk|
  {
    var i := Lookup(bs, k);
    if i < |bs| && bs[i].valid then bs[i].data else disk[k]
  }

  // At most one buffer caches a block.
  ghost predicate Unique(bs: seq<Buf>) {
    forall i, j, k: nat {:trigger Caches(bs[i], k), Caches(bs[j], k)} ::
      0 <= i < |bs| && 0 <= j < |bs| && Caches(bs[i], k) && Caches(bs[j], k) ==> i == j
  }

  // A buffer that nobody uses may be recycled: it agrees with the disk.
  ghost predicate Clean(b: Buf, disk: seq<Block>) {
    b.dev == ROOTDEV ==> b.blockno < |disk| && (b.valid && b.refcnt == 0 ==> b.data == disk[b.blockno])
  }

  lemma UniqueLookup(bs: seq<Buf>, k: nat, i: nat)
    requires Unique(bs) && i < |bs| && Caches(bs[i], k)
    ensures Lookup(bs, k) == i
  {}

  // Changing one buffer without touching what it caches changes at most the contents of that block.
  lemma UpdateBuf(bs: seq<Buf>, disk: seq<Block>, i: nat, b: Buf)
    requires Unique(bs) && i < |bs| && b.dev == bs[i].dev && b.blockno == bs[i].blockno
    ensures Unique(bs[i := b])
    ensures forall k: nat :: k < |disk| && Caches(b, k) ==>
      Contents(bs[i := b], disk, k) == if b.valid then b.data else disk[k]
    ensures forall k: nat :: k < |disk| && !Caches(b, k) ==> Contents(bs[i := b], disk, k) == Contents(bs, disk, k)
    ensures b.valid == bs[i].valid && b.data == bs[i].data ==>
      forall k: nat :: k < |disk| ==> Contents(bs[i := b], disk, k) == Contents(bs, disk, k)
  {
    var cs := bs[i := b];
    assert forall j, k: nat {:trigger Caches(cs[j], k)} :: 0 <= j < |cs| ==> Caches(cs[j], k) == Caches(bs[j], k);
    forall k: nat | k < |disk|
      ensures Caches(b, k) ==> Contents(cs, disk, k) == if b.valid then b.data else disk[k]
      ensures Caches(b, k) && bs[i].valid == b.valid && bs[i].data == b.data ==>
        Contents(cs, disk, k) == Contents(bs, disk, k)
      ensures !Caches(b, k) ==> Contents(cs, disk, k) == Contents(bs, disk, k)
    {
      if Caches(b, k) {
        UniqueLookup(cs, k, i);
        UniqueLookup(bs, k, i);
      } else if Lookup(cs, k) < |cs| {
        UniqueLookup(bs, k, Lookup(cs, k));
      } else if Lookup(bs, k) < |bs| {
        UniqueLookup(cs, k, Lookup(bs, k));
      }
    }
  }

  // Recycling an unused buffer for a block that is not cached changes the contents of no block.
  lemma Recycle(bs: seq<Buf>, disk: seq<Block>, i: nat, k: nat)
    requires Unique(bs) && i < |bs| && Clean(bs[i], disk) && bs[i].refcnt == 0 && Lookup(bs, k) == |bs|
    ensures var cs := bs[i := Buf(false, ROOTDEV, k, 1, bs[i].data)];
      Unique(cs) && forall m: nat :: m < |disk| ==> Contents(cs, disk, m) == Contents(bs, disk, m)
  {
    var cs := bs[i := Buf(false, ROOTDEV, k, 1, bs[i].data)];
    forall m: nat | m < |disk| ensures Contents(cs, disk, m) == Contents(bs, disk, m) {
      if m == k {
        assert Caches(cs[i], k);
      } else if Lookup(cs, m) < |cs| {
        UniqueLookup(bs, m, Lookup(cs, m));
      } else if Lookup(bs, m) < |bs| {
        var j := Lookup(bs, m);
        assert cs[j] == bs[j] || j == i;
      }
    }
  }

  class Cache {
    const next: array<nat>
    const prev: array<nat>
    const buf: array<Buf>
    var disk: seq<Block>
    ghost var order: seq<nat>   // most recently used first

    ghost predicate Valid()
      reads this, next, prev, buf
    {
      && next != prev && next.Length == prev.Length == NBUF + 1 && buf.Length == NBUF
      && Ring(next[..], prev[..], [HEAD] + order)
      && Permutes(order)
      && Unique(buf[..])
      && (forall b :: 0 <= b < NBUF ==> Clean(buf[b], disk))
    }

    // binit
    constructor (d: seq<Block>)
      ensures Valid() && disk == d && fresh(next) && fresh(prev) && fresh(buf)
      ensures forall k: nat :: k < |d| ==> Contents(buf[..], d, k) == d[k]
    {
      disk := d;
      next := new nat[NBUF + 1](_ => HEAD);
      prev := new nat[NBUF + 1](_ => HEAD);
      buf := new Buf[NBUF](_ => Buf(false, 0, 0, 0, seq(BWORDS, _ => 0)));
      order := [];
      new;
      var b := 0;
      assert LinkOk(next[..], prev[..], [HEAD], 0);
      while b < NBUF
        invariant 0 <= b <= NBUF
        invariant Ring(next[..], prev[..], [HEAD] + order)
        invariant |order| == b && forall x :: x in order <==> 0 <= x < b
        modifies next, prev, this`order
      {
        PushFront(next[..], prev[..], [HEAD] + order, b);
        next[b] := next[HEAD];
        prev[b] := HEAD;
        prev[next[HEAD]] := b;
        next[HEAD] := b;
        assert [HEAD, b] + ([HEAD] + order)[1..] == [HEAD] + ([b] + order);
        order := [b] + order;
        b := b + 1;
      }
    }

    // The two scans of bget, under bcache.lock. None stands for its panic.
    method Bget(dev: nat, blockno: nat) returns (r: Option<nat>)
      requires Valid() && dev == ROOTDEV && blockno < |disk|
      modifies buf
      ensures Valid() && GetOk(order, old(buf[..]), dev, blockno, r, buf[..])
      ensures forall k: nat :: k < |disk| ==> Contents(buf[..], disk, k) == Contents(old(buf[..]), disk, k)
    {
      hide Ring, Lookup, Contents, Unique, Node, SkippedFor, InUse;
      ghost var bs, i := buf[..], 1;
      RingAt(next[..], prev[..], order, 0);
      var b := next[HEAD];
      WalkEnds(order, bs, blockno);
      while b != HEAD
        invariant buf[..] == bs && 1 <= i <= NBUF + 1 && b == Node(order, i)
        invariant SkippedFor(order, bs, blockno, i)
        decreases NBUF + 1 - i
      {
        RingAt(next[..], prev[..], order, i);
        if buf[b].dev == dev && buf[b].blockno == blockno {
          UniqueLookup(bs, blockno, b);
          UpdateBuf(bs, disk, b, bs[b].(refcnt := bs[b].refcnt + 1));
          buf[b] := buf[b].(refcnt := buf[b].refcnt + 1);
          assert buf[..] == bs[b := bs[b].(refcnt := bs[b].refcnt + 1)];
          return Some(b);
        }
        SkipOne(order, bs, blockno, i);
        b := next[b];
        i := i + 1;
      }
      NotCached(order, bs, blockno, i);
      RingAt(next[..], prev[..], order, NBUF);
      b := prev[HEAD];
      i := NBUF;
      while b != HEAD
        invariant buf[..] == bs && 0 <= i <= NBUF && b == Node(order, i)
        invariant InUse(order, bs, i)
        decreases i
      {
        RingAt(next[..], prev[..], order, i);
        if buf[b].refcnt == 0 {
          Recycle(bs, disk, b, blockno);
          buf[b] := Buf(false, dev, blockno, 1, buf[b].data);
          assert buf[..] == bs[b := Buf(false, dev, blockno, 1, bs[b].data)];
          VictimFound(order, bs, i);
          return Some(b);
        }
        InUseOne(order, bs, i);
        RingAt(next[..], prev[..], order, i - 1);
        b := prev[b];
        i := i - 1;
      }
      AllInUse(order, bs, i);
      return None;
    }

    // bread: the contents of the block, wherever they are. None stands for bget's panic.
    method Bread(dev: nat, blockno: nat) returns (r: Option<nat>)
      requires Valid() && dev == ROOTDEV && blockno < |disk|
      modifies buf
      ensures Valid()
      ensures r.Some? ==> r.value < NBUF && Caches(buf[r.value], blockno) && buf[r.value].valid
      ensures r.Some? ==> buf[r.value].refcnt > 0 && buf[r.value].data == Contents(old(buf[..]), disk, blockno)
      ensures forall k: nat :: k < |disk| ==> Contents(buf[..], disk, k) == Contents(old(buf[..]), disk, k)
      ensures forall b :: 0 <= b < NBUF && old(buf[b]).refcnt > 0 ==>
        buf[b] == old(buf[b]) || r == Some(b)
    {
      r := Bget(dev, blockno);
      if r.Some? {
        var b := r.value;
        UniqueLookup(buf[..], blockno, b);
        if !buf[b].valid {
          UpdateBuf(buf[..], disk, b, buf[b].(data := disk[blockno], valid := true));
          buf[b] := buf[b].(data := disk[buf[b].blockno], valid := true);
        }
      }
    }

    // The holder of a buffer changes its data.
    method Modify(b: nat, v: Block)
      requires Valid() && b < NBUF && buf[b].refcnt > 0 && buf[b].valid && buf[b].dev == ROOTDEV
      modifies buf
      ensures Valid() && buf[..] == old(buf[..])[b := old(buf[b]).(data := v)]
      ensures Contents(buf[..], disk, buf[b].blockno) == v
      ensures forall k: nat ::
        k < |disk| && k != buf[b].blockno ==> Contents(buf[..], disk, k) == Contents(old(buf[..]), disk, k)
    {
      ghost var bs := buf[..];
      UpdateBuf(bs, disk, b, bs[b].(data := v));
      buf[b] := buf[b].(data := v);
      assert buf[..] == bs[b := bs[b].(data := v)] && Caches(buf[b], buf[b].blockno);
    }

    // bwrite: the disk catches up with the buffer; no reader can tell.
    method Bwrite(b: nat)
      requires Valid() && b < NBUF && buf[b].valid && buf[b].dev == ROOTDEV
      modifies `disk
      ensures Valid() && disk == old(disk)[buf[b].blockno := buf[b].data]
      ensures forall k: nat :: k < |disk| ==> Contents(buf[..], disk, k) == Contents(buf[..], old(disk), k)
    {
      ghost var bs := buf[..];
      UniqueLookup(bs, buf[b].blockno, b);
      assert forall x :: 0 <= x < NBUF && x != b ==> !Caches(bs[x], bs[b].blockno);
      disk := disk[buf[b].blockno := buf[b].data];
    }

    method Bpin(b: nat)
      requires Valid() && b < NBUF && buf[b].refcnt > 0
      modifies buf
      ensures Valid() && buf[..] == old(buf[..])[b := old(buf[b]).(refcnt := old(buf[b]).refcnt + 1)]
      ensures forall k: nat :: k < |disk| ==> Contents(buf[..], disk, k) == Contents(old(buf[..]), disk, k)
    {
      UpdateBuf(buf[..], disk, b, buf[b].(refcnt := buf[b].refcnt + 1));
      buf[b] := buf[b].(refcnt := buf[b].refcnt + 1);
    }

    // A last reference is dropped only once the buffer agrees with the disk: see bwrite and log_write.
    method Bunpin(b: nat)
      requires Valid() && b < NBUF && buf[b].refcnt > 0
      requires Clean(buf[b].(refcnt := buf[b].refcnt - 1), disk)
      modifies buf
      ensures Valid() && buf[..] == old(buf[..])[b := old(buf[b]).(refcnt := old(buf[b]).refcnt - 1)]
      ensures forall k: nat :: k < |disk| ==> Contents(buf[..], disk, k) == Contents(old(buf[..]), disk, k)
    {
      UpdateBuf(buf[..], disk, b, buf[b].(refcnt := buf[b].refcnt - 1));
      buf[b] := buf[b].(refcnt := buf[b].refcnt - 1);
    }

    // brelse: an unused buffer becomes the most recently used one.
    method Brelse(b: nat)
      requires Valid() && b < NBUF && buf[b].refcnt > 0
      requires Clean(buf[b].(refcnt := buf[b].refcnt - 1), disk)
      modifies next, prev, buf, `order
      ensures Valid() && buf[..] == old(buf[..])[b := old(buf[b]).(refcnt := old(buf[b]).refcnt - 1)]
      ensures buf[b].refcnt > 0 ==> order == old(order)
      ensures buf[b].refcnt == 0 ==> MovedToFront(old(order), b, order)
      ensures forall k: nat :: k < |disk| ==> Contents(buf[..], disk, k) == Contents(old(buf[..]), disk, k)
    {
      UpdateBuf(buf[..], disk, b, buf[b].(refcnt := buf[b].refcnt - 1));
      buf[b] := buf[b].(refcnt := buf[b].refcnt - 1);
      if buf[b].refcnt == 0 {
        ToFront(b);
      }
    }

    method ToFront(b: nat)
      requires next != prev && next.Length == prev.Length == NBUF + 1 && b < NBUF && b in order && HEAD !in order
      requires Ring(next[..], prev[..], [HEAD] + order)
      modifies next, prev, `order
      ensures Ring(next[..], prev[..], [HEAD] + order)
      ensures MovedToFront(old(order), b, order)
      ensures |order| == |old(order)| && forall x :: x in order <==> x in old(order)
    {
      ghost var c := [HEAD] + order;
      ghost var p :| 0 <= p < |order| && order[p] == b;
      ghost var i: nat := p + 1;
      assert forall x :: x in order ==> x == b || x in Drop(order, p);
      ghost var d := Drop(c, i);
      ghost var n, q := next[..], prev[..];
      Unlink(n, q, c, i);
      prev[next[b]] := prev[b];
      next[prev[b]] := next[b];
      hide Ring;
      assert next[..] == n[q[b] := n[b]] && prev[..] == q[n[b] := q[b]];
      n, q := next[..], prev[..];
      PushFront(n, q, d, b);
      next[b] := next[HEAD];
      prev[b] := HEAD;
      prev[next[HEAD]] := b;
      next[HEAD] := b;
      assert next[..] == n[b := n[HEAD]][HEAD := b] && prev[..] == q[b := HEAD][n[HEAD] := b];
      order := [b] + Drop(order, p);
      assert [HEAD, b] + d[1..] == [HEAD] + order;
    }
  }

  // What bget may do to the buffers bs, giving cs.
  ghost predicate GetOk(order: seq<nat>, bs: seq<Buf>, dev: nat, blockno: nat, r: Option<nat>, cs: seq<Buf>) {
    var i := Lookup(bs, blockno);
    if i < |bs| then
      // already cached: one more reference to that buffer
      r == Some(i) && cs == bs[i := bs[i].(refcnt := bs[i].refcnt + 1)]
    else if r.Some? then
      // not cached: the least recently used buffer without references is given to the block
      r.value < |bs| && LeastRecentFree(order, bs, r.value)
      && cs == bs[r.value := Buf(false, dev, blockno, 1, bs[r.value].data)]
    else
      // every buffer is in use
      cs == bs && forall b :: 0 <= b < |bs| ==> bs[b].refcnt > 0
  }

  ghost predicate LeastRecentFree(order: seq<nat>, bs: seq<Buf>, b: nat) {
    exists p :: 0 <= p < |order| && order[p] == b && b < |bs| && bs[b].refcnt == 0
      && forall q :: p < q < |order| ==> order[q] < |bs| && bs[order[q]].refcnt > 0
  }

  ghost predicate MovedToFront(before: seq<nat>, b: nat, after: seq<nat>) {
    exists p :: 0 <= p < |before| && before[p] == b && after == [b] + Drop(before, p)
  }

  ghost predicate Permutes(order: seq<nat>) {
    |order| == NBUF && forall b :: b in order <==> 0 <= b < NBUF
  }

  // The node at position i of the ring, counted from the head in either direction.
  ghost function Node(order: seq<nat>, i: int): nat {
    if 1 <= i <= |order| then order[i - 1] else HEAD
  }

  // One step of a walk along the ring.
  lemma RingAt(next: seq<nat>, prev: seq<nat>, order: seq<nat>, i: nat)
    requires Ring(next, prev, [HEAD] + order) && |next| == |prev| == NBUF + 1 && Permutes(order) && i <= NBUF
    ensures Node(order, i) <= NBUF && next[Node(order, i)] == Node(order, i + 1)
    ensures Node(order, i + 1) <= NBUF && prev[Node(order, i + 1)] == Node(order, i)
    ensures Node(order, i) == HEAD <==> i == 0
  {
    var c := [HEAD] + order;
    assert LinkOk(next, prev, c, i);
    assert c[i] == Node(order, i) && c[Succ(|c|, i)] == Node(order, i + 1);
    assert i > 0 ==> order[i - 1] in order;
    assert i < NBUF ==> order[i] in order;
  }

  // The first i - 1 nodes do not cache block k.
  ghost predicate SkippedFor(order: seq<nat>, bs: seq<Buf>, k: nat, i: int) {
    forall p :: 0 <= p < |order| && p < i - 1 ==> order[p] < |bs| && !Caches(bs[order[p]], k)
  }

  // Where the two walks start and the first one ends.
  lemma WalkEnds(order: seq<nat>, bs: seq<Buf>, k: nat)
    requires Permutes(order)
    ensures SkippedFor(order, bs, k, 1) && InUse(order, bs, NBUF) && Node(order, NBUF + 1) == HEAD
  {}

  lemma SkipOne(order: seq<nat>, bs: seq<Buf>, k: nat, i: int)
    requires SkippedFor(order, bs, k, i) && 1 <= i <= |order| && Node(order, i) < |bs| && !Caches(bs[Node(order, i)], k)
    ensures SkippedFor(order, bs, k, i + 1)
  {}

  lemma NotCached(order: seq<nat>, bs: seq<Buf>, k: nat, i: int)
    requires Permutes(order) && |bs| == NBUF && SkippedFor(order, bs, k, i) && 1 <= i && Node(order, i) == HEAD
    ensures Lookup(bs, k) == |bs|
  {
    assert forall p :: 0 <= p < |order| ==> order[p] in order;
    var x := Lookup(bs, k);
    assert x < |bs| ==> x in order;
  }

  // The nodes behind position i are all referenced.
  ghost predicate InUse(order: seq<nat>, bs: seq<Buf>, i: int) {
    forall p :: 0 <= p < |order| && i <= p ==> order[p] < |bs| && bs[order[p]].refcnt > 0
  }

  lemma InUseOne(order: seq<nat>, bs: seq<Buf>, i: int)
    requires InUse(order, bs, i) && 1 <= i <= |order| && Node(order, i) < |bs| && bs[Node(order, i)].refcnt > 0
    ensures InUse(order, bs, i - 1)
  {}

  lemma VictimFound(order: seq<nat>, bs: seq<Buf>, i: int)
    requires InUse(order, bs, i) && 1 <= i <= |order| && Node(order, i) < |bs| && bs[Node(order, i)].refcnt == 0
    ensures LeastRecentFree(order, bs, Node(order, i))
  {
    assert order[i - 1] == Node(order, i);
  }

  lemma AllInUse(order: seq<nat>, bs: seq<Buf>, i: int)
    requires Permutes(order) && |bs| == NBUF && InUse(order, bs, i) && 0 <= i <= NBUF && Node(order, i) == HEAD
    ensures forall b :: 0 <= b < |bs| ==> bs[b].refcnt > 0
  {
    assert forall p :: 0 <= p < |order| ==> order[p] in order;
    forall b | 0 <= b < |bs| ensures bs[b].refcnt > 0 {
      assert b in order;
      var p :| 0 <= p < |order| && order[p] == b;
    }
  }
}

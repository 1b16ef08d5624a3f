// Files as flat byte sequences, and what one chunk of readi or writei does to them.
module FileBytes {
  import opened FileBlocks

  // t written into s at off, which is at most the length of s.
  function Splice(s: seq<byte>, off: nat, t: seq<byte>): seq<byte>
    requires off <= |s|
  {
    s[..off] + t + if off + |t| < |s| then s[off + |t|..] else []
  }

  lemma SpliceTwice(s: seq<byte>, off: nat, a: seq<byte>, b: seq<byte>)
    requires off <= |s|
    ensures off + |a| <= |Splice(s, off, a)|
    ensures Splice(Splice(s, off, a), off + |a|, b) == Splice(s, off, a + b)
  {
    var u := Splice(s, off, a);
    assert u[..off + |a|] == s[..off] + a;
    if off + |a| + |b| < |u| {
      assert u[off + |a| + |b|..] == s[off + |a| + |b|..];
    }
  }

  lemma SpliceNothing(s: seq<byte>, off: nat)
    ensures off <= |s| ==> Splice(s, off, []) == s
  {
    if off <= |s| {
      assert s[..off] + [] + s[off..] == s;
    }
  }

  lemma SpliceRead(s: seq<byte>, off: nat, t: seq<byte>)
    requires off <= |s|
    ensures off + |t| <= |Splice(s, off, t)| && Splice(s, off, t)[off..off + |t|] == t
  {}

  // c is c0 with t at off; behind the end of c0 nothing can be put.
  predicate SplicedAt(c: seq<byte>, c0: seq<byte>, off: nat, t: seq<byte>) {
    if off > |c0| then t == [] && c == c0 else c == Splice(c0, off, t)
  }

  lemma SplicedSize(c: seq<byte>, c0: seq<byte>, off: nat, t: seq<byte>)
    requires SplicedAt(c, c0, off, t)
    ensures t != [] ==> off <= |c0|
    ensures off <= |c0| ==> off + |t| <= |c|
    ensures off > |c0| ==> t == [] && |c| == |c0|
  {}

  lemma SplicedMore(c: seq<byte>, c0: seq<byte>, off: nat, t: seq<byte>, u: seq<byte>, c1: seq<byte>)
    requires SplicedAt(c, c0, off, t) && off <= |c0|
    requires off + |t| <= |c| ==> c1 == Splice(c, off + |t|, u)
    ensures SplicedAt(c1, c0, off, t + u)
  {
    SpliceTwice(c0, off, t, u);
  }

  // Reading the bytes of a file from off to off + m, all in one block.
  lemma ReadChunk(data: map<nat, Block>, ip: Inode, off: nat, m: nat, b: nat)
    requires off + m <= ip.size && off % BSIZE + m <= BSIZE
    requires b == SlotBlock(data, ip, SlotOf(off / BSIZE)) && b != 0 && b in data && |data[b]| == BSIZE
    ensures data[b][off % BSIZE..off % BSIZE + m] == Contents(data, ip)[off..off + m]
  {
    hide SlotBlock, SlotOf;
    forall k | off <= k < off + m ensures data[b][off % BSIZE + (k - off)] == ByteOf(data, ip, k) {
      SameBlock(off, k);
    }
  }

  lemma SameBlock(off: nat, k: nat)
    requires off <= k < off + (BSIZE - off % BSIZE)
    ensures k / BSIZE == off / BSIZE && k % BSIZE == off % BSIZE + (k - off)
  {}

  function PutBytes(b: Block, o: nat, t: seq<byte>): (r: Block)
    requires o + |t| <= |b|
    ensures |r| == |b|
  {
    b[..o] + t + b[o + |t|..]
  }

  // Bytes old and new: those of file i from off on are t's.
  ghost predicate Wrote(data: map<nat, Block>, nodes: map<nat, Inode>, data1: map<nat, Block>, nodes1: map<nat, Inode>,
      i: nat, off: nat, t: seq<byte>) {
    && nodes.Keys == nodes1.Keys
    && forall g, k: nat {:trigger ByteOf(data1, nodes1[g], k)} :: g in nodes ==>
         ByteOf(data1, nodes1[g], k) == if g == i && off <= k < off + |t| then t[k - off] else ByteOf(data, nodes[g], k)
  }

  lemma WroteNothing(data: map<nat, Block>, nodes: map<nat, Inode>, i: nat, off: nat)
    ensures Wrote(data, nodes, data, nodes, i, off, [])
  {}

  // Allocation changes no byte.
  lemma WroteExtended(data: map<nat, Block>, nodes: map<nat, Inode>, data1: map<nat, Block>, nodes1: map<nat, Inode>,
                      data2: map<nat, Block>, nodes2: map<nat, Inode>, i: nat, off: nat, t: seq<byte>)
    requires Wrote(data, nodes, data1, nodes1, i, off, t) && Extended(data1, nodes1, data2, nodes2, i)
    ensures Wrote(data, nodes, data2, nodes2, i, off, t)
  {
    hide ByteOf, SlotBlock;
    forall g, k: nat | g in nodes ensures ByteOf(data2, nodes2[g], k) == ByteOf(data1, nodes1[g], k) {}
  }

  // One chunk more.
  lemma WroteChunk(data: map<nat, Block>, nodes: map<nat, Inode>, data1: map<nat, Block>, nodes1: map<nat, Inode>,
      owner: map<nat, Slot>,
                   i: nat, off: nat, t: seq<byte>, u: seq<byte>, b: nat, data2: map<nat, Block>)
    requires Wrote(data, nodes, data1, nodes1, i, off, t) && SlotsOk(data1, nodes1, owner) && i in nodes1
    requires var o := off + |t|; o % BSIZE + |u| <= BSIZE && b == SlotBlock(data1, nodes1[i], SlotOf(o / BSIZE))
    requires b != 0 && b in data1 && |data1[b]| == BSIZE
      && data2 == data1[b := PutBytes(data1[b], (off + |t|) % BSIZE, u)]
    ensures Wrote(data, nodes, data2, nodes1, i, off, t + u) && SlotsOk(data2, nodes1, owner)
    ensures forall g, s: nat :: g in nodes1 ==> SlotBlock(data2, nodes1[g], s) == SlotBlock(data1, nodes1[g], s)
  {
    var o := off + |t|;
    assert b in owner && owner[b] == Slot(i, SlotOf(o / BSIZE));
    NewBytes(data1, nodes1, owner, b, data2);
    forall g, k: nat | g in nodes
      ensures ByteOf(data2, nodes1[g], k) == if g == i && off <= k < o + |u| then (t + u)[k - off]
        else ByteOf(data, nodes[g], k)
    {
      ByteAfter(data1, nodes1, owner, i, o, u, b, data2, g, k);
    }
    hide SlotBlock, ByteOf;
  }

  lemma ByteAfter(data1: map<nat, Block>, nodes1: map<nat, Inode>, owner: map<nat, Slot>, i: nat, o: nat, u: seq<byte>,
      b: nat, data2: map<nat, Block>, g: nat, k: nat)
    requires SlotsOk(data1, nodes1, owner) && i in nodes1 && g in nodes1
    requires o % BSIZE + |u| <= BSIZE && b == SlotBlock(data1, nodes1[i], SlotOf(o / BSIZE))
    requires b != 0 && b in data1 && |data1[b]| == BSIZE && data2 == data1[b := PutBytes(data1[b], o % BSIZE, u)]
    requires SlotBlock(data2, nodes1[g], SlotOf(k / BSIZE)) == SlotBlock(data1, nodes1[g], SlotOf(k / BSIZE))
    ensures ByteOf(data2, nodes1[g], k) == if g == i && o <= k < o + |u| then u[k - o] else ByteOf(data1, nodes1[g], k)
  {
    hide SlotBlock;
    var s, so := SlotOf(k / BSIZE), SlotOf(o / BSIZE);
    var c := SlotBlock(data1, nodes1[g], s);
    assert owner[b] == Slot(i, so);
    assert c == b ==> owner[b] == Slot(g, s);
    if c == b {
      assert k / BSIZE == o / BSIZE;
    } else {
      assert !(g == i && k / BSIZE == o / BSIZE);
    }
  }

  // The new contents of the files.
  lemma WroteContents(data: map<nat, Block>, nodes: map<nat, Inode>, data1: map<nat, Block>, nodes1: map<nat, Inode>,
      i: nat, off: nat, t: seq<byte>, ip1: Inode)
    requires Wrote(data, nodes, data1, nodes1, i, off, t) && i in nodes && off <= nodes[i].size
    requires ip1 == nodes1[i].(size := if off + |t| > nodes[i].size then off + |t| else nodes[i].size)
    ensures Contents(data1, ip1) == Splice(Contents(data, nodes[i]), off, t)
    ensures forall g ::
      g in nodes && g != i && nodes1[g].size == nodes[g].size ==> Contents(data1, nodes1[g]) == Contents(data, nodes[g])
  {
    forall k: nat ensures ByteOf(data1, ip1, k) == ByteOf(data1, nodes1[i], k) {}
    hide ByteOf;
  }
}

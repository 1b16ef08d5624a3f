// balloc, bfree, bmap, itrunc, readi and writei of kernel/fs.c, and filewrite's chunks of kernel/file.c.
// Buffers and the log are below: a block is read and written in place, and log_write leaves its number in logged.
module Files {
  import LogFormat
  import opened Basics
  import opened FileBlocks
  import opened FileBytes

  const BPB: nat := 8192 // bitmap bits per block
  const IPB: nat := 16   // inodes per block

  // No block is free.
  predicate Full(bits: seq<bool>) {
    forall b :: 0 <= b < |bits| ==> bits[b]
  }

  class Fs {
    const meta: nat
    const bmapStart: nat
    const inodeStart: nat
    var bits: seq<bool>          // the bitmap; its length is sb.size
    var data: map<nat, Block>
    var nodes: map<nat, Inode>   // the inodes in memory
    var dnodes: map<nat, Inode>  // the inodes on disk
    var logged: seq<nat>         // the calls of log_write
    ghost var owner: map<nat, Slot>

    ghost predicate Valid()
      reads this
    {
      && BitsOk(bits, owner, meta) && BlocksOk(data, meta, |bits|) && SlotsOk(data, nodes, owner)
      && forall i :: i in nodes ==> NoHoles(data, nodes[i])
    }

    function BitmapBlock(b: nat): nat {
      bmapStart + b / BPB
    }

    function InodeBlock(i: nat): nat {
      inodeStart + i / IPB
    }

    // A disk before any file is written: the metadata blocks marked as used, and some empty inodes.
    constructor (meta: nat, bmapStart: nat, inodeStart: nat, disk: seq<Block>, inums: set<nat>)
      requires 0 < meta <= |disk| < WORD && forall b :: 0 <= b < |disk| ==> |disk[b]| == BSIZE
      ensures Valid() && logged == [] && nodes.Keys == inums && |bits| == |disk|
      ensures this.meta == meta && this.bmapStart == bmapStart && this.inodeStart == inodeStart
      ensures forall b :: 0 <= b < |disk| ==> (bits[b] <==> b < meta)
      ensures dnodes == nodes && forall i :: i in inums ==> Contents(data, nodes[i]) == []
    {
      this.meta, this.bmapStart, this.inodeStart := meta, bmapStart, inodeStart;
      bits := seq(|disk|, b => b < meta);
      data := map b: nat | b < |disk| :: disk[b];
      nodes := map i | i in inums :: Inode(0, seq(NDIRECT + 1, _ => 0));
      dnodes := map i | i in inums :: Inode(0, seq(NDIRECT + 1, _ => 0));
      logged, owner := [], map[];
    }

    // The lowest free block, zeroed and marked; 0 if there is none.
    method Balloc() returns (b: nat)
      requires 0 < meta <= |bits| && forall c :: 0 <= c < meta ==> bits[c]
      modifies `bits, `data, `logged
      ensures b == 0 <==> Full(old(bits))
      ensures b == 0 ==> bits == old(bits) && data == old(data) && logged == old(logged)
      ensures b != 0 ==> meta <= b < |old(bits)| && !old(bits)[b] && forall c :: 0 <= c < b ==> old(bits)[c]
      ensures b != 0 ==> bits == old(bits)[b := true] && data == old(data)[b := Zeros()]
      ensures b != 0 ==> logged == old(logged) + [BitmapBlock(b), b]
    {
      var base := 0;
      while base < |bits|
        invariant bits == old(bits) && data == old(data) && logged == old(logged) && base % BPB == 0
        invariant forall c :: 0 <= c < base && c < |bits| ==> bits[c]
      {
        var bi := 0;
        while bi < BPB && base + bi < |bits|
          invariant 0 <= bi <= BPB && bits == old(bits) && data == old(data) && logged == old(logged)
          invariant forall c :: 0 <= c < base + bi && c < |bits| ==> bits[c]
        {
          if !bits[base + bi] {
            b := base + bi;
            bits := bits[b := true];
            logged := logged + [bmapStart + base / BPB];
            SameBitmapBlock(base, bi);
            data := data[b := Zeros()];
            logged := logged + [b];
            return;
          }
          bi := bi + 1;
        }
        base := base + BPB;
      }
      b := 0;
    }

    // The panic "freeing free block" is the precondition.
    method Bfree(b: nat)
      requires b < |bits| && bits[b]
      modifies `bits, `logged
      ensures bits == old(bits)[b := false] && logged == old(logged) + [BitmapBlock(b)]
    {
      bits := bits[b := false];
      logged := logged + [BitmapBlock(b)];
    }

    // Valid, except that a file may lack blocks.
    ghost predicate Sound()
      reads this
    {
      BitsOk(bits, owner, meta) && BlocksOk(data, meta, |bits|) && SlotsOk(data, nodes, owner)
    }

    // bmap for a direct block, and for the indirect block itself; maps has the bitmap block it logs.
    method DirectBlock(i: nat, s: nat) returns (r: nat, ghost maps: set<nat>)
      requires Sound() && i in nodes && s <= NDIRECT && s < |nodes[i].addrs|
      modifies `bits, `data, `nodes, `logged, `owner
      ensures i in nodes && Sound() && Extended(old(data), old(nodes), data, nodes, i) && |bits| == |old(bits)|
      ensures r == SlotBlock(data, nodes[i], s)
      ensures SlotBlock(old(data), old(nodes)[i], s) != 0 ==>
        (bits, data, nodes, logged, owner) == (old(bits), old(data), old(nodes), old(logged), old(owner)) && maps == {}
      ensures r == 0 ==>
        (bits, data, nodes, logged, owner) == (old(bits), old(data), old(nodes), old(logged), old(owner)) && maps == {}
          && Full(bits)
      ensures |maps| <= 1 && LogGrew(old(logged), logged, maps + Real(r))
      ensures s < NDIRECT ==> nodes[i].addrs[NDIRECT] == old(nodes)[i].addrs[NDIRECT]
    {
      hide SlotsOk, SlotBlock, Extended, Grown;
      AddrIs(data, nodes, owner, i, s);
      ExtendedRefl(data, nodes, i);
      r, maps := nodes[i].addrs[s], {};
      if r == 0 {
        r := Balloc();
        if r == 0 {
          return;
        }
        var ip := nodes[i].(addrs := nodes[i].addrs[s := r]);
        GrowDirect(old(data), nodes, owner, i, s, r, data, ip);
        GrownExtended(old(data), nodes, data, nodes[i := ip], i, s);
        nodes := nodes[i := ip];
        owner := owner[r := Slot(i, s)];
        maps := {BitmapBlock(r)};
      }
    }

    // bmap for entry j of the indirect block, which is there.
    method EntryBlockOf(i: nat, j: nat) returns (r: nat, ghost maps: set<nat>)
      requires Sound() && i in nodes && j < NINDIRECT && |nodes[i].addrs| == NDIRECT + 1 && nodes[i].addrs[NDIRECT] != 0
      modifies `bits, `data, `logged, `owner
      ensures Sound() && Extended(old(data), nodes, data, nodes, i) && |bits| == |old(bits)|
      ensures r == SlotBlock(data, nodes[i], NDIRECT + 1 + j)
      ensures SlotBlock(old(data), nodes[i], NDIRECT + 1 + j) != 0 || r == 0 ==>
        (bits, data, logged, owner) == (old(bits), old(data), old(logged), old(owner)) && maps == {}
      ensures r == 0 ==> Full(bits)
      ensures |maps| <= 1 && LogGrew(old(logged), logged, maps + Real(r) + Real(nodes[i].addrs[NDIRECT]))
    {
      hide SlotsOk, SlotBlock, Extended, Grown, Word, SetWord;
      AddrIs(data, nodes, owner, i, NDIRECT);
      EntryIs(data, nodes, owner, bits, meta, i, j);
      ExtendedRefl(data, nodes, i);
      var addr := nodes[i].addrs[NDIRECT];
      r, maps := Word(data[addr], j), {};
      if r == 0 {
        r := Balloc();
        if r != 0 {
          data := data[addr := SetWord(data[addr], j, r)];
          logged := logged + [addr];
          GrowEntry(old(data), nodes, owner, i, j, r, data);
          GrownExtended(old(data), nodes, data, nodes, i, NDIRECT + 1 + j);
          owner := owner[r := Slot(i, NDIRECT + 1 + j)];
          maps := {BitmapBlock(r)};
        }
      }
    }

    // bmap; the panic on a block beyond MAXFILE is the precondition.
    method Bmap(i: nat, bn: nat) returns (r: nat, ghost maps: set<nat>)
      requires Sound() && i in nodes && bn < MAXFILE
      modifies `bits, `data, `nodes, `logged, `owner
      ensures i in nodes && Sound() && Extended(old(data), old(nodes), data, nodes, i) && |bits| == |old(bits)|
      ensures |nodes[i].addrs| == NDIRECT + 1 == |old(nodes)[i].addrs|
      ensures r == SlotBlock(data, nodes[i], SlotOf(bn))
      ensures SlotBlock(old(data), old(nodes)[i], SlotOf(bn)) != 0 ==>
        (bits, data, nodes, logged, owner) == (old(bits), old(data), old(nodes), old(logged), old(owner)) && maps == {}
      ensures r == 0 ==> Full(bits)
      ensures LogGrew(old(logged), logged, maps + Real(r) + Real(nodes[i].addrs[NDIRECT]))
      ensures |maps| <= (if r != 0 then 1 else 0) + NewIndirect(old(nodes)[i], nodes[i])
    {
      hide SlotsOk, SlotBlock, Extended;
      AddrIs(data, nodes, owner, i, NDIRECT);
      if bn < NDIRECT {
        r, maps := DirectBlock(i, bn);
        AddrIs(data, nodes, owner, i, NDIRECT);
        LogGrew2(old(logged), old(logged), logged, {}, maps + Real(r), maps + Real(r) + Real(nodes[i].addrs[NDIRECT]));
        return;
      }
      var addr;
      ghost var maps0;
      HoleAbove(data, nodes[i], bn);
      addr, maps0 := DirectBlock(i, NDIRECT);
      AddrIs(data, nodes, owner, i, NDIRECT);
      if addr == 0 {
        HoleAbove(data, nodes[i], bn);
        LogGrew2(old(logged), old(logged), logged, {}, maps0 + Real(0),
            maps0 + Real(0) + Real(nodes[i].addrs[NDIRECT]));
        return 0, maps0;
      }
      ghost var data0, nodes0, logged0 := data, nodes, logged;
      r, maps := EntryBlockOf(i, bn - NDIRECT);
      ExtendedTrans(old(data), old(nodes), data0, nodes0, data, nodes, i);
      LogGrew2(old(logged), logged0, logged, maps0 + Real(addr), maps + Real(r) + Real(addr),
          maps0 + maps + Real(r) + Real(addr));
      maps := maps0 + maps;
    }

    // readi. It allocates nothing. Copy number fails, counted from 0, to the user's buffer fails.
    method Readi(i: nat, off: nat, n: nat, fails: nat) returns (r: int, dst: seq<byte>)
      requires Valid() && i in nodes && off < WORD && n < WORD
      modifies `bits, `data, `nodes, `logged, `owner
      ensures (bits, data, nodes, logged, owner) == (old(bits), old(data), old(nodes), old(logged), old(owner))
      ensures r == -1 <==> fails < Turns(off, Readable(nodes[i], off, n))
      ensures r != -1 ==> r == |dst| == Readable(nodes[i], off, n)
      ensures off <= nodes[i].size && |dst| <= nodes[i].size - off ==> dst == Contents(data, nodes[i])[off..off + |dst|]
      ensures |dst| <= Readable(nodes[i], off, n)
    {
      hide BitsOk, BlocksOk, SlotsOk, SlotBlock, Extended, ByteOf, Contents, Turns, LogGrew, NoHoles, Piece, AtEdge;
      NoTurns(off, n);
      if off > nodes[i].size || (off + n) % WORD < off {
        return 0, [];
      }
      var left := if off + n > nodes[i].size then nodes[i].size - off else n;
      assert left == Readable(nodes[i], off, n);
      hide Readable;
      NoTurns(off, left);
      var tot, copy := 0, 0;
      dst := [];
      while tot < left
        invariant (bits, data, nodes, logged, owner) == (old(bits), old(data), old(nodes), old(logged), old(owner))
        invariant tot <= left && off + left <= nodes[i].size
        invariant Valid() && dst == Contents(data, nodes[i])[off..off + tot]
        invariant copy == Turns(off, tot) <= fails && AtEdge(off, tot, left)
      {
        var at := off + tot;
        Backed(i, at / BSIZE);
        var addr, _ := Bmap(i, at / BSIZE);
        if addr == 0 {
          break;
        }
        var m := Piece(off, tot, left);
        PieceFacts(off, tot, left);
        if copy == fails {
          return -1, dst;
        }
        ReadChunk(data, nodes[i], at, m, addr);
        Adjacent(Contents(data, nodes[i]), off, at, at + m);
        dst := dst + data[addr][at % BSIZE..at % BSIZE + m];
        tot := tot + m;
        copy := copy + 1;
      }
      r := tot;
    }

    // One turn of writei's loop, for the bytes u at at, which lie in one block; t have been written from off on.
    // When fail holds, the copy from the user fails and changes nothing; the block has been found or added by then.
    method WriteBlock(i: nat, at: nat, u: seq<byte>, fail: bool, ghost off: nat, ghost t: seq<byte>,
        ghost data0: map<nat, Block>, ghost nodes0: map<nat, Inode>)
      returns (addr: nat, ghost maps: set<nat>)
      requires Sound() && i in nodes && Wrote(data0, nodes0, data, nodes, i, off, t)
      requires at == off + |t| && at / BSIZE < MAXFILE && at % BSIZE + |u| <= BSIZE
      modifies `bits, `data, `nodes, `logged, `owner
      ensures i in nodes && Sound() && |bits| == |old(bits)| && SlotsStay(old(data), old(nodes), data, nodes)
      ensures nodes == old(nodes)[i := nodes[i]] && nodes[i].size == old(nodes)[i].size
      ensures Wrote(data0, nodes0, data, nodes, i, off, if addr != 0 && !fail then t + u else t)
      ensures addr == SlotBlock(data, nodes[i], SlotOf(at / BSIZE))
      ensures addr == 0 ==> Full(bits)
      ensures |nodes[i].addrs| == NDIRECT + 1 == |old(nodes)[i].addrs|
      ensures LogGrew(old(logged), logged, maps + Real(addr) + Real(nodes[i].addrs[NDIRECT]))
      ensures |maps|
        <= (if addr != 0 && SlotBlock(old(data), old(nodes)[i],
            SlotOf(at / BSIZE)) == 0 then 1 else 0) + NewIndirect(old(nodes)[i], nodes[i])
    {
      hide BitsOk, SlotsOk, SlotBlock, Extended, Wrote, ByteOf, SlotsStay;
      ghost var data1, nodes1 := data, nodes;
      addr, maps := Bmap(i, at / BSIZE);
      WroteExtended(data0, nodes0, data1, nodes1, data, nodes, i, off, t);
      ExtendedKeeps(data1, nodes1, data, nodes, i);
      if addr == 0 || fail {
        return;
      }
      InRange(data, nodes, owner, bits, meta, i, SlotOf(at / BSIZE));
      ghost var data2 := data;
      WroteChunk(data0, nodes0, data, nodes, owner, i, off, t, u, addr,
          data[addr := PutBytes(data[addr], at % BSIZE, u)]);
      data := data[addr := PutBytes(data[addr], at % BSIZE, u)];
      SlotsStayOn(data1, nodes1, data2, data, nodes);
      LogOne(old(logged), logged, addr, maps + Real(addr) + Real(nodes[i].addrs[NDIRECT]));
      logged := logged + [addr];
    }

    // writei. Copy number fails, counted from 0, from the user's buffer fails and changes nothing.
    // blocks are those logged before the inode block: at most nine for a chunk of filewrite.
    method Writei(i: nat, src: seq<byte>, off: nat, fails: nat) returns (r: int, ghost blocks: set<nat>)
      requires Valid() && i in nodes && off < WORD && |src| < WORD
      modifies `bits, `data, `nodes, `dnodes, `logged, `owner
      ensures Valid() && |bits| == |old(bits)| && nodes.Keys == old(nodes).Keys
      ensures r == -1 <==> off > old(nodes)[i].size || off + |src| >= WORD || off + |src| > MAXFILE * BSIZE
      ensures r == -1 ==>
        (bits, data, nodes, dnodes, logged, owner)
          == (old(bits), old(data), old(nodes), old(dnodes), old(logged), old(owner))
      ensures r != -1 ==>
        0 <= r <= |src| && Contents(data, nodes[i]) == Splice(Contents(old(data), old(nodes)[i]), off, src[..r])
      ensures forall g :: g in nodes && g != i ==> Contents(data, nodes[g]) == Contents(old(data), old(nodes)[g])
      ensures r != -1 ==> dnodes == old(dnodes)[i := nodes[i]]
      ensures r != -1 ==> Turns(off, r) <= fails
      ensures 0 <= r < |src| ==> Turns(off, r) == fails || Full(bits)
      ensures 0 <= r < |src| && Turns(off, |src|) <= fails ==> Full(bits)
      ensures r != -1 ==>
        |logged| > |old(logged)| && logged[|logged| - 1] == InodeBlock(i)
          && LogGrew(old(logged), logged[..|logged| - 1], blocks)
      ensures r != -1 && |src| <= 3 * BSIZE ==> |blocks| <= 9
    {
      hide BitsOk, BlocksOk, SlotsOk, SlotBlock, SlotOf, ByteOf, Wrote, Contents, NoHoles, Splice;
      blocks := {};
      if off > nodes[i].size || (off + |src|) % WORD < off {
        return -1, blocks;
      }
      if off + |src| > MAXFILE * BSIZE {
        return -1, blocks;
      }
      ghost var data0, nodes0 := data, nodes;
      var tot;
      HolesAll(i, off);
      tot, blocks := WriteLoop(i, src, off, fails);
      Resize(i, off + tot, data0, nodes0, off, src[..tot]);
      Iupdate(i);
      assert logged[..|logged| - 1] + [InodeBlock(i)] == logged;
      r := tot;
    }

    // A turn with its account.
    method WriteTurn(i: nat, at: nat, u: seq<byte>, fail: bool, ghost off: nat, ghost t: seq<byte>,
        ghost data0: map<nat, Block>, ghost nodes0: map<nat, Inode>,
                     ghost logged0: seq<nat>, ghost tl: Tally) returns (addr: nat, ghost tl2: Tally)
      requires Sound() && i in nodes && i in nodes0 && Wrote(data0, nodes0, data, nodes, i, off, t)
        && HolesBut(data, nodes, i, at)
      requires at == off + |t| < MAXFILE * BSIZE && at % BSIZE + |u| <= BSIZE && (tl.chunks == 0 ==> t == [])
      requires TallyOk(logged0, logged, tl, nodes0[i], nodes[i], off)
      modifies `bits, `data, `nodes, `logged, `owner
      ensures i in nodes && Sound() && |bits| == |old(bits)|
      ensures nodes == old(nodes)[i := nodes[i]] && nodes[i].size == old(nodes)[i].size
      ensures Wrote(data0, nodes0, data, nodes, i, off, if addr != 0 && !fail then t + u else t)
      ensures HolesBut(data, nodes, i, at) && (addr != 0 ==> HolesBut(data, nodes, i, at + |u|))
      ensures addr == 0 ==> Full(bits)
      ensures TallyOk(logged0, logged, tl2, nodes0[i], nodes[i], off) && tl2.chunks == tl.chunks + if addr != 0 then 1
        else 0
    {
      hide BitsOk, BlocksOk, SlotsOk, SlotBlock, SlotOf, ByteOf, Wrote, LogGrew, SlotsStay, HolesBut, NewIndirect;
      ghost var data1, nodes1, logged1 := data, nodes, logged;
      SlotThere(data, nodes, owner, i, off, at);
      TallyAddrs(logged0, logged, tl, nodes0[i], nodes[i], off);
      hide TallyOk;
      ghost var maps;
      addr, maps := WriteBlock(i, at, u, fail, off, t, data0, nodes0);
      IndirectStays(data1, nodes1, data, nodes, owner, i);
      tl2 := TallyStep(logged0, logged1, logged, tl, nodes0[i], nodes1[i], nodes[i], off, addr, maps,
                       addr != 0 && SlotBlock(data1, nodes1[i], SlotOf(at / BSIZE)) == 0);
      HolesStay(data1, nodes1, data, nodes, i, at);
      if addr != 0 {
        HolesMore(data, nodes, i, at, |u|);
      }
    }

    // writei's loop.
    method WriteLoop(i: nat, src: seq<byte>, off: nat, fails: nat) returns (tot: nat, ghost blocks: set<nat>)
      requires Sound() && i in nodes && HolesBut(data, nodes, i, off) && off + |src| <= MAXFILE * BSIZE
      modifies `bits, `data, `nodes, `logged, `owner
      ensures tot <= |src| && i in nodes && Sound() && |bits| == |old(bits)|
      ensures nodes == old(nodes)[i := nodes[i]] && nodes[i].size == old(nodes)[i].size
      ensures Wrote(old(data), old(nodes), data, nodes, i, off, src[..tot]) && HolesBut(data, nodes, i, off + tot)
      ensures Turns(off, tot) <= fails
      ensures tot < |src| ==> Turns(off, tot) == fails || Full(bits)
      ensures tot < |src| && Turns(off, |src|) <= fails ==> Full(bits)
      ensures LogGrew(old(logged), logged, blocks) && (|src| <= 3 * BSIZE ==> |blocks| <= 9)
    {
      hide BitsOk, BlocksOk, SlotsOk, SlotBlock, SlotOf, ByteOf, Wrote, LogGrew, TallyOk, SlotsStay, HolesBut, Turns,
          Piece, AtEdge;
      NoTurns(off, |src|);
      tot := 0;
      var chunk := 0;
      ghost var data0, nodes0 := data, nodes;
      ghost var tl, touched := Tally({}, {}, 0, 0), 0;
      WroteNothing(data, nodes, i, off);
      TallyStart(data, nodes, owner, i, logged, off);
      while tot < |src|
        invariant tot <= |src| && chunk == Turns(off, tot) <= fails && i in nodes && Sound() && |bits| == |old(bits)|
        invariant nodes == nodes0[i := nodes[i]] && nodes[i].size == nodes0[i].size
        invariant Wrote(data0, nodes0, data, nodes, i, off, src[..tot]) && HolesBut(data, nodes, i, off + tot)
        invariant TallyOk(old(logged), logged, tl, nodes0[i], nodes[i], off) && tl.chunks <= Turns(off, tot)
        invariant touched == tot && AtEdge(off, tot, |src|) && (tot > 0 ==> tl.chunks > 0)
      {
        var at := off + tot;
        var m := Piece(off, tot, |src|);
        PieceFacts(off, tot, |src|);
        var addr;
        addr, tl := WriteTurn(i, at, src[tot..tot + m], chunk == fails, off, src[..tot], data0, nodes0, old(logged),
          tl);
        touched := tot + m;
        if addr == 0 || chunk == fails {
          break;
        }
        assert src[..tot] + src[tot..tot + m] == src[..tot + m];
        tot := tot + m;
        chunk := chunk + 1;
      }
      TallyAddrs(old(logged), logged, tl, nodes0[i], nodes[i], off);
      blocks := tl.data + tl.maps + Real(nodes[i].addrs[NDIRECT]);
      TallyEnd(old(logged), logged, tl, nodes0[i], nodes[i], off, touched, |src|);
    }

    // The end of writei before its iupdate.
    method Resize(i: nat, end: nat, ghost data0: map<nat, Block>, ghost nodes0: map<nat, Inode>, ghost off: nat,
        ghost t: seq<byte>)
      requires i in nodes && i in nodes0 && Sound() && HolesBut(data, nodes, i, end)
        && Wrote(data0, nodes0, data, nodes, i, off, t)
      requires nodes == nodes0[i := nodes[i]] && nodes[i].size == nodes0[i].size && end == off + |t|
      requires off <= nodes0[i].size && end <= MAXFILE * BSIZE
      modifies `nodes
      ensures Valid() && nodes.Keys == nodes0.Keys
      ensures Contents(data, nodes[i]) == Splice(Contents(data0, nodes0[i]), off, t)
      ensures forall g :: g in nodes && g != i ==> Contents(data, nodes[g]) == Contents(data0, nodes0[g])
    {
      hide BitsOk, BlocksOk, SlotBlock, ByteOf, Wrote, Contents, Splice;
      ghost var ip := nodes[i].(size := if end > nodes[i].size then end else nodes[i].size);
      WroteContents(data0, nodes0, data, nodes, i, off, t, ip);
      Resized(data, nodes, owner, i, end, ip);
      assert nodes[i := nodes[i]] == nodes;
      if end > nodes[i].size {
        nodes := nodes[i := nodes[i].(size := end)];
      }
    }

    method Iupdate(i: nat)
      requires i in nodes
      modifies `dnodes, `logged
      ensures dnodes == old(dnodes)[i := nodes[i]] && logged == old(logged) + [InodeBlock(i)]
    {
      dnodes := dnodes[i := nodes[i]];
      logged := logged + [InodeBlock(i)];
    }

    lemma HolesAll(i: nat, off: nat)
      requires Valid() && i in nodes && off <= nodes[i].size
      ensures HolesBut(data, nodes, i, off)
    {}

    // filewrite on an inode: each turn is an operation of its own on the log. ops are their calls of log_write.
    // Copy number fails, counted from 0 over all turns, from the user's buffer fails.
    method Filewrite(i: nat, off: nat, src: seq<byte>, fails: nat) returns (ret: int, off1: nat, ops: seq<seq<nat>>)
      requires Valid() && i in nodes && off < WORD && |src| < WORD / 2
      modifies `bits, `data, `nodes, `dnodes, `logged, `owner
      ensures Valid() && nodes.Keys == old(nodes).Keys && off <= off1 <= off + |src|
      ensures ret == if off1 == off + |src| then |src| else -1
      ensures ret == -1 ==>
        Refused(old(nodes)[i].size, off, |src|, fails) || Full(bits)
      ensures |src| > 0 && Refused(old(nodes)[i].size, off, |src|, fails) ==> ret == -1
      ensures ret == -1 && off <= old(nodes)[i].size && fails >= Copies(off, |src|) ==>
        off1 + CHUNK > MAXFILE * BSIZE || Full(bits)
      ensures off1 == off || off <= old(nodes)[i].size
      ensures SplicedAt(Contents(data, nodes[i]), Contents(old(data), old(nodes)[i]), off, src[..off1 - off])
      ensures forall g :: g in nodes && g != i ==> Contents(data, nodes[g]) == Contents(old(data), old(nodes)[g])
      ensures forall k :: 0 <= k < |ops| ==> FitsOp(ops[k], InodeBlock(i))
    {
      hide BitsOk, BlocksOk, SlotsOk, NoHoles, ByteOf, Contents, LogGrew, Splice, FitsOp, Turns, Copies, Full;
      var max := (LogFormat.MAXOPBLOCKS - 1 - 1 - 2) / 2 * BSIZE;
      assert max == CHUNK;
      ops, off1 := [], off;
      var k, copies := 0, 0;
      ghost var c0 := Contents(data, nodes[i]);
      SpliceNothing(c0, off);
      assert SplicedAt(c0, c0, off, src[..0]);
      hide SplicedAt;
      while k < |src|
        invariant k <= |src| && off1 == off + k && Valid() && i in nodes && nodes.Keys == old(nodes).Keys
        invariant copies + Copies(off1, |src| - k) == Copies(off, |src|) && copies <= fails
        invariant k > 0 ==> off <= |c0| && off + k <= MAXFILE * BSIZE
        invariant SplicedAt(Contents(data, nodes[i]), c0, off, src[..k])
        invariant forall g :: g in nodes && g != i ==> Contents(data, nodes[g]) == Contents(old(data), old(nodes)[g])
        invariant forall k :: 0 <= k < |ops| ==> FitsOp(ops[k], InodeBlock(i))
      {
        var n1 := Min(|src| - k, max);
        CopiesStep(off1, |src| - k);
        SplicedSize(Contents(data, nodes[i]), c0, off, src[..k]);
        var r, op := WriteOp(i, src[k..k + n1], off1, fails - copies, c0, off, src[..k]);
        ops := ops + [op];
        if r > 0 {
          off1 := off1 + r;
        }
        TakeMore(src, k, n1, r);
        if r != n1 {
          break;
        }
        copies := copies + Turns(off + k, n1);
        k := k + r;
      }
      NoCopies(off1);
      ret := if k == |src| then |src| else -1;
    }

    // One turn of it, after t have been written from off on.
    method WriteOp(i: nat, u: seq<byte>, at: nat, fails: nat, ghost c0: seq<byte>, ghost off: nat, ghost t: seq<byte>)
      returns (r: int, op: seq<nat>)
      requires Valid() && i in nodes && at == off + |t| && off < WORD && |t| + |u| < WORD / 2 && |u| <= CHUNK
      requires SplicedAt(Contents(data, nodes[i]), c0, off, t)
      modifies `bits, `data, `nodes, `dnodes, `logged, `owner
      ensures Valid() && nodes.Keys == old(nodes).Keys && -1 <= r <= |u|
      ensures r == -1 <==> at > old(nodes)[i].size || at + |u| > MAXFILE * BSIZE
      ensures r != -1 ==> Turns(at, r) <= fails
      ensures 0 <= r < |u| && Turns(at, |u|) <= fails ==> Full(bits)
      ensures SplicedAt(Contents(data, nodes[i]), c0, off, if r == -1 then t else t + u[..r])
      ensures forall g :: g in nodes && g != i ==> Contents(data, nodes[g]) == Contents(old(data), old(nodes)[g])
      ensures FitsOp(op, InodeBlock(i))
    {
      hide BitsOk, BlocksOk, SlotsOk, NoHoles, ByteOf, Contents, LogGrew, Splice, FitsOp, Turns, Full;
      logged := [];
      SizeBound(i);
      ghost var blocks, c := {}, Contents(data, nodes[i]);
      SplicedSize(c, c0, off, t);
      hide SplicedAt;
      r, blocks := Writei(i, u, at, fails);
      OpFits(logged, r, InodeBlock(i), blocks);
      op := logged;
      if r != -1 {
        SplicedMore(c, c0, off, t, u[..r], Contents(data, nodes[i]));
      }
    }

    lemma SizeBound(i: nat)
      requires Valid() && i in nodes
      ensures nodes[i].size <= MAXFILE * BSIZE
    {}

    // What is written can be read back.
    method WriteThenRead(i: nat, src: seq<byte>, off: nat, fails: nat) returns (n: int, dst: seq<byte>)
      requires Valid() && i in nodes && off <= nodes[i].size && off + |src| <= MAXFILE * BSIZE
      modifies `bits, `data, `nodes, `dnodes, `logged, `owner
      ensures 0 <= n <= |src| && dst == src[..n]
      ensures n < |src| ==> fails < Turns(off, |src|) || Full(bits)
    {
      hide BitsOk, BlocksOk, SlotsOk, NoHoles, ByteOf, Contents, LogGrew, Splice;
      SizeBound(i);
      ghost var c0 := Contents(data, nodes[i]);
      ghost var blocks;
      n, blocks := Writei(i, src, off, fails);
      SpliceRead(c0, off, src[..n]);
      var r;
      TurnsUpTo(off, n, |src|);
      r, dst := Readi(i, off, n, Turns(off, |src|));
    }

    // itrunc: the file is empty, and exactly its blocks are free again.
    method Itrunc(i: nat)
      requires Valid() && i in nodes
      modifies `bits, `nodes, `dnodes, `logged, `owner
      ensures Valid() && i in nodes && nodes == old(nodes)[i := nodes[i]] && nodes[i].size == 0
        && dnodes == old(dnodes)[i := nodes[i]]
      ensures owner == Without(old(owner), i)
      ensures forall b :: 0 <= b < |bits| == |old(bits)| ==>
        (bits[b] <==> old(bits)[b] && !(b in old(owner) && old(owner)[b].inum == i))
      ensures forall g :: g in nodes && g != i ==> Contents(data, nodes[g]) == Contents(data, old(nodes)[g])
    {
      hide SlotsOk, BlocksOk, ByteOf, Contents, NoHoles, SlotBlock;
      ghost var owner0 := owner;
      TruncDirect(i);
      AddrIs(data, nodes, owner, i, NDIRECT);
      if nodes[i].addrs[NDIRECT] != 0 {
        TruncIndirect(i);
      }
      NowEmpty(data, nodes, owner, i);
      ghost var nodes1 := nodes;
      nodes := nodes[i := nodes[i].(size := 0)];
      Emptied(data, old(nodes), nodes1, nodes, owner, i);
      Iupdate(i);
    }

    method TruncDirect(i: nat)
      requires Sound() && i in nodes
      modifies `bits, `nodes, `logged, `owner
      ensures Sound() && |bits| == |old(bits)| && i in nodes && nodes == old(nodes)[i := nodes[i]]
      ensures |nodes[i].addrs| == NDIRECT + 1 && forall s :: 0 <= s < NDIRECT ==> nodes[i].addrs[s] == 0
      ensures FreedBelow(old(owner), owner, i, NDIRECT)
    {
      hide SlotsOk, BlocksOk, SlotBlock;
      FreedNone(owner, i);
      AddrIs(data, nodes, owner, i, 0);
      for s := 0 to NDIRECT
        invariant Sound() && |bits| == |old(bits)| && i in nodes && nodes == old(nodes)[i := nodes[i]]
        invariant |nodes[i].addrs| == NDIRECT + 1 && forall t :: 0 <= t < s ==> nodes[i].addrs[t] == 0
        invariant FreedBelow(old(owner), owner, i, s)
      {
        AddrIs(data, nodes, owner, i, s);
        ghost var owner1 := owner;
        if nodes[i].addrs[s] != 0 {
          var b := nodes[i].addrs[s];
          DropDirect(data, nodes, owner, i, s, nodes[i].(addrs := nodes[i].addrs[s := 0]));
          Bfree(b);
          nodes := nodes[i := nodes[i].(addrs := nodes[i].addrs[s := 0])];
          owner := owner - {b};
        }
        FreedOneMore(data, old(owner), owner1, owner, nodes, i, s);
      }
    }

    method TruncIndirect(i: nat)
      requires Sound() && i in nodes && |nodes[i].addrs| == NDIRECT + 1 && nodes[i].addrs[NDIRECT] != 0
      requires forall s :: 0 <= s < NDIRECT ==> nodes[i].addrs[s] == 0
      modifies `bits, `nodes, `logged, `owner
      ensures Sound() && |bits| == |old(bits)| && i in nodes && nodes == old(nodes)[i := nodes[i]]
      ensures |nodes[i].addrs| == NDIRECT + 1 && forall s :: 0 <= s <= NDIRECT ==> nodes[i].addrs[s] == 0
      ensures owner == Without(old(owner), i)
    {
      hide SlotsOk, BlocksOk, SlotBlock, Word;
      ghost var bits0 := bits;
      AddrIs(data, nodes, owner, i, NDIRECT);
      var ind := nodes[i].addrs[NDIRECT];
      EntryIs(data, nodes, owner, bits, meta, i, 0);
      for j := 0 to NINDIRECT
        invariant |bits| == |bits0| && nodes == old(nodes) && owner == old(owner)
        invariant forall b :: 0 <= b < |bits| ==> (bits[b] <==> bits0[b] && !EntryBelow(owner, i, j, b))
      {
        EntryIs(data, nodes, owner, bits0, meta, i, j);
        EntryOwned(data, nodes, owner, i, j);
        if Word(data[ind], j) != 0 {
          Bfree(Word(data[ind], j));
        }
      }
      Bfree(ind);
      DropAll(data, nodes, owner, i, nodes[i].(addrs := nodes[i].addrs[NDIRECT := 0]));
      nodes := nodes[i := nodes[i].(addrs := nodes[i].addrs[NDIRECT := 0])];
      owner := Without(owner, i);
    }

    // A block below the size of a file is there.
    lemma Backed(i: nat, bn: nat)
      requires Valid() && i in nodes && bn * BSIZE < nodes[i].size
      ensures bn < MAXFILE && SlotBlock(data, nodes[i], SlotOf(bn)) != 0
      ensures SlotBlock(data, nodes[i], SlotOf(bn)) in data && |data[SlotBlock(data, nodes[i], SlotOf(bn))]| == BSIZE
    {
      assert SlotBlock(data, nodes[i], SlotOf(bn)) in owner;
    }
  }

  lemma Adjacent(s: seq<byte>, i: nat, j: nat, k: nat)
    requires i <= j <= k <= |s|
    ensures s[i..j] + s[j..k] == s[i..k]
  {}

  lemma SameBitmapBlock(base: nat, bi: nat)
    requires base % BPB == 0 && bi < BPB
    ensures (base + bi) / BPB == base / BPB
  {}

  function NewIndirect(ip: Inode, ip1: Inode): nat
    requires |ip.addrs| == NDIRECT + 1 && |ip1.addrs| == NDIRECT + 1
  {
    if ip.addrs[NDIRECT] == 0 && ip1.addrs[NDIRECT] != 0 then 1 else 0
  }

  // Without an indirect block there are no entries.
  lemma HoleAbove(data: map<nat, Block>, ip: Inode, bn: nat)
    requires |ip.addrs| == NDIRECT + 1 && NDIRECT <= bn < MAXFILE
    ensures ip.addrs[NDIRECT] == 0 ==> SlotBlock(data, ip, SlotOf(bn)) == 0
  {}

  function Min(a: nat, b: nat): nat {
    if a < b then a else b
  }

  function Real(b: nat): set<nat> {
    if b == 0 then {} else {b}
  }

  // Only blocks of s have been logged since.
  ghost predicate LogGrew(logged: seq<nat>, logged1: seq<nat>, s: set<nat>) {
    logged <= logged1 && forall k :: |logged| <= k < |logged1| ==> logged1[k] in s
  }

  lemma AddrIs(data: map<nat, Block>, nodes: map<nat, Inode>, owner: map<nat, Slot>, i: nat, s: nat)
    requires SlotsOk(data, nodes, owner) && i in nodes && s <= NDIRECT
    ensures |nodes[i].addrs| == NDIRECT + 1 && SlotBlock(data, nodes[i], s) == nodes[i].addrs[s]
    ensures nodes[i].addrs[s] != 0 ==> nodes[i].addrs[s] in owner && owner[nodes[i].addrs[s]] == Slot(i, s)
  {
    assert SlotBlock(data, nodes[i], s) == nodes[i].addrs[s];
  }

  lemma EntryIs(data: map<nat, Block>, nodes: map<nat, Inode>, owner: map<nat, Slot>, bits: seq<bool>, meta: nat,
      i: nat, j: nat)
    requires BitsOk(bits, owner, meta) && BlocksOk(data, meta, |bits|) && SlotsOk(data, nodes, owner)
    requires i in nodes && j < NINDIRECT && |nodes[i].addrs| == NDIRECT + 1 && nodes[i].addrs[NDIRECT] != 0
    ensures var ind := nodes[i].addrs[NDIRECT];
      ind in data && |data[ind]| == BSIZE && SlotBlock(data, nodes[i], NDIRECT + 1 + j) == Word(data[ind], j)
  {
    AddrIs(data, nodes, owner, i, NDIRECT);
  }

  // What log_write asks of an operation: each call is made while fewer than MAXOPBLOCKS blocks have been logged.
  // The inode block comes last.
  ghost predicate FitsOp(op: seq<nat>, inodeBlock: nat) {
    op == [] || (op[|op| - 1] == inodeBlock && forall k: nat :: k < |op| ==> |Numbers(op[..k])| < LogFormat.MAXOPBLOCKS)
  }

  function Numbers(op: seq<nat>): set<nat> {
    set b | b in op
  }

  lemma OpFits(logged: seq<nat>, r: int, inodeBlock: nat, blocks: set<nat>)
    requires r == -1 ==> logged == []
    requires r != -1 ==>
      logged != [] && logged[|logged| - 1] == inodeBlock && LogGrew([], logged[..|logged| - 1], blocks) && |blocks| <= 9
    ensures FitsOp(logged, inodeBlock)
  {
    if r != -1 {
      var n := |logged| - 1;
      forall k: nat | k < |logged| ensures |Numbers(logged[..k])| < LogFormat.MAXOPBLOCKS {
        forall b | b in logged[..k] ensures b in blocks {
          assert b in logged[..n];
        }
        SubsetSize(Numbers(logged[..k]), blocks);
      }
    }
  }

  lemma TakeMore(src: seq<byte>, k: nat, n: nat, r: int)
    requires k + n <= |src| && r <= n
    ensures r >= 0 ==> src[..k] + src[k..k + n][..r] == src[..k + r]
  {}

  function Without(owner: map<nat, Slot>, i: nat): map<nat, Slot> {
    map b | b in owner && owner[b].inum != i :: owner[b]
  }

  // Of the blocks of file i those in slots below s are gone from owner.
  ghost predicate FreedBelow(owner: map<nat, Slot>, owner1: map<nat, Slot>, i: nat, s: nat) {
    forall b ::
      (b in owner1 <==> b in owner && !(owner[b].inum == i && owner[b].slot < s))
        && (b in owner1 ==> owner1[b] == owner[b])
  }

  lemma FreedNone(owner: map<nat, Slot>, i: nat)
    ensures FreedBelow(owner, owner, i, 0)
  {}

  lemma FreedOneMore(data: map<nat, Block>, owner0: map<nat, Slot>, owner1: map<nat, Slot>, owner: map<nat, Slot>,
      nodes: map<nat, Inode>, i: nat, s: nat)
    requires FreedBelow(owner0, owner1, i, s) && SlotsOk(data, nodes, owner) && i in nodes && s < NDIRECT
      && nodes[i].addrs[s] == 0
    requires owner == owner1 || exists b :: b in owner1 && owner1[b] == Slot(i, s) && owner == owner1 - {b}
    ensures FreedBelow(owner0, owner, i, s + 1)
  {
    assert SlotBlock(data, nodes[i], s) == 0;
    forall b | b in owner ensures owner[b] != Slot(i, s) {
      assert OwnerOk(data, nodes, b, owner[b]);
    }
    hide SlotBlock, SlotsOk;
  }

  predicate EntryBelow(owner: map<nat, Slot>, i: nat, j: nat, b: nat) {
    b in owner && owner[b].inum == i && NDIRECT < owner[b].slot <= NDIRECT + j
  }

  lemma EntryOwned(data: map<nat, Block>, nodes: map<nat, Inode>, owner: map<nat, Slot>, i: nat, j: nat)
    requires SlotsOk(data, nodes, owner) && i in nodes && j < NINDIRECT
    ensures var b := SlotBlock(data, nodes[i], NDIRECT + 1 + j);
      b != 0 ==> b in owner && owner[b] == Slot(i, NDIRECT + 1 + j)
    ensures forall b ::
      b in owner && owner[b] == Slot(i, NDIRECT + 1 + j) ==> b != 0 && b == SlotBlock(data, nodes[i], NDIRECT + 1 + j)
  {
    forall b | b in owner && owner[b] == Slot(i, NDIRECT + 1 + j)
      ensures b != 0 && b == SlotBlock(data, nodes[i], NDIRECT + 1 + j)
    {
      assert OwnerOk(data, nodes, b, owner[b]);
    }
    hide SlotBlock;
  }

  // The indirect block goes, and all entries with it.
  lemma DropAll(data: map<nat, Block>, nodes: map<nat, Inode>, owner: map<nat, Slot>, i: nat, ip1: Inode)
    requires SlotsOk(data, nodes, owner) && i in nodes && |nodes[i].addrs| == NDIRECT + 1
    requires forall s :: 0 <= s < NDIRECT ==> nodes[i].addrs[s] == 0
    requires ip1 == nodes[i].(addrs := nodes[i].addrs[NDIRECT := 0])
    ensures SlotsOk(data, nodes[i := ip1], Without(owner, i))
    ensures forall b :: b in owner && owner[b].inum == i ==> owner[b].slot >= NDIRECT && owner[b].slot < NSLOTS
    ensures forall b :: b in owner && owner[b] == Slot(i, NDIRECT) ==> b == nodes[i].addrs[NDIRECT]
  {
    var nodes1, owner1 := nodes[i := ip1], Without(owner, i);
    forall t: nat ensures SlotBlock(data, ip1, t) == 0 {}
    forall g, t: nat | g in nodes && g != i ensures SlotBlock(data, nodes1[g], t) == SlotBlock(data, nodes[g], t) {}
    forall b | b in owner
      ensures OwnerOk(data, nodes, b, owner[b]) && (owner[b].inum == i ==> owner[b].slot >= NDIRECT)
    {
      assert OwnerOk(data, nodes, b, owner[b]);
    }
    forall b | b in owner1 ensures OwnerOk(data, nodes1, b, owner1[b]) {
      assert OwnerOk(data, nodes, b, owner[b]);
    }
    hide EntryBlock;
  }

  // A file all of whose addresses are 0 owns nothing.
  lemma NowEmpty(data: map<nat, Block>, nodes: map<nat, Inode>, owner: map<nat, Slot>, i: nat)
    requires SlotsOk(data, nodes, owner) && i in nodes && |nodes[i].addrs| == NDIRECT + 1
    requires forall s :: 0 <= s <= NDIRECT ==> nodes[i].addrs[s] == 0
    ensures forall b :: b in owner ==> owner[b].inum != i
  {
    forall b | b in owner ensures owner[b].inum != i {
      assert OwnerOk(data, nodes, b, owner[b]);
    }
  }

  lemma Emptied(data: map<nat, Block>, nodes0: map<nat, Inode>, nodes1: map<nat, Inode>, nodes: map<nat, Inode>,
      owner: map<nat, Slot>, i: nat)
    requires SlotsOk(data, nodes1, owner) && i in nodes0 && i in nodes1 && nodes1 == nodes0[i := nodes1[i]]
    requires nodes == nodes1[i := nodes1[i].(size := 0)] && forall g :: g in nodes0 ==> NoHoles(data, nodes0[g])
    ensures SlotsOk(data, nodes, owner) && forall g :: g in nodes ==> NoHoles(data, nodes[g])
    ensures forall g :: g in nodes && g != i ==> Contents(data, nodes[g]) == Contents(data, nodes0[g])
  {
    forall g, s: nat | g in nodes ensures SlotBlock(data, nodes[g], s) == SlotBlock(data, nodes1[g], s) {}
    forall b | b in owner ensures OwnerOk(data, nodes, b, owner[b]) {
      assert OwnerOk(data, nodes1, b, owner[b]);
    }
    hide SlotBlock, ByteOf, Contents, SlotOf;
    forall g | g in nodes ensures NoHoles(data, nodes[g]) {
      assert NoHoles(data, nodes0[g]);
    }
  }

  // The blocks that a run of writei's loop has logged: data blocks and bitmap blocks, besides the indirect block;
  // and how many of the chunks written needed a new data block.
  datatype Tally = Tally(data: set<nat>, maps: set<nat>, chunks: nat, newData: nat)

  ghost predicate TallyOk(logged0: seq<nat>, logged: seq<nat>, tl: Tally, ip0: Inode, ip: Inode, off: nat) {
    && |ip0.addrs| == NDIRECT + 1 && |ip.addrs| == NDIRECT + 1
    && (ip0.addrs[NDIRECT] != 0 ==> ip.addrs[NDIRECT] != 0)
    && LogGrew(logged0, logged, tl.data + tl.maps + Real(ip.addrs[NDIRECT]))
    && |tl.data| <= tl.chunks && |tl.maps| <= tl.newData + NewIndirect(ip0, ip)
    && tl.newData <= tl.chunks && (off % BSIZE != 0 && tl.chunks > 0 ==> tl.newData < tl.chunks)
  }

  // The most turns that writing tot bytes from off on can take.
  function Turns(off: nat, tot: nat): nat {
    if tot == 0 then 0 else (off + tot - 1) / BSIZE - off / BSIZE + 1
  }

  // filewrite writes this much in one operation.
  const CHUNK: nat := 3 * BSIZE

  // The copies that filewrite makes for n bytes from off on.
  function Copies(off: nat, n: nat): nat
    decreases n
  {
    if n == 0 then 0 else Turns(off, Min(n, CHUNK)) + Copies(off + Min(n, CHUNK), n - Min(n, CHUNK))
  }

  lemma NoCopies(off: nat)
    ensures Copies(off, 0) == 0
  {}

  lemma CopiesStep(off: nat, n: nat)
    requires n > 0
    ensures Copies(off, n) == Turns(off, Min(n, CHUNK)) + Copies(off + Min(n, CHUNK), n - Min(n, CHUNK))
  {}

  // What makes filewrite stop short on a disk with room: the range does not start within the file or goes beyond the
  // largest file, or a copy fails.
  predicate Refused(size: nat, off: nat, n: nat, fails: nat) {
    off > size || off + n > MAXFILE * BSIZE || fails < Copies(off, n)
  }

  lemma TallyStart(data: map<nat, Block>, nodes: map<nat, Inode>, owner: map<nat, Slot>, i: nat, logged: seq<nat>,
      off: nat)
    requires SlotsOk(data, nodes, owner) && i in nodes
    ensures TallyOk(logged, logged, Tally({}, {}, 0, 0), nodes[i], nodes[i], off)
  {}

  lemma TallyAddrs(l0: seq<nat>, l1: seq<nat>, tl: Tally, ip0: Inode, ip: Inode, off: nat)
    requires TallyOk(l0, l1, tl, ip0, ip, off)
    ensures |ip.addrs| == NDIRECT + 1
  {}

  lemma Regroup(a: set<nat>, b: set<nat>, c: set<nat>, d: set<nat>, e: set<nat>, f: set<nat>)
    requires c <= f
    ensures a + b + c + (d + e + f) <= a + e + (b + d) + f
  {}

  lemma TallyStep(l0: seq<nat>, l1: seq<nat>, l2: seq<nat>, tl: Tally, ip0: Inode, ip1: Inode, ip2: Inode, off: nat,
      addr: nat, maps: set<nat>, grew: bool)
    returns (tl2: Tally)
    requires TallyOk(l0, l1, tl, ip0, ip1, off) && |ip2.addrs| == NDIRECT + 1
    requires LogGrew(l1, l2, maps + Real(addr) + Real(ip2.addrs[NDIRECT]))
    requires |maps| <= (if grew then 1 else 0) + NewIndirect(ip1, ip2)
    requires ip1.addrs[NDIRECT] != 0 ==> ip2.addrs[NDIRECT] == ip1.addrs[NDIRECT]
    requires grew ==> addr != 0 && (tl.chunks > 0 || off % BSIZE == 0)
    ensures TallyOk(l0, l2, tl2, ip0, ip2, off) && tl2.chunks == tl.chunks + if addr != 0 then 1 else 0
  {
    assert NewIndirect(ip0, ip1) + NewIndirect(ip1, ip2) <= NewIndirect(ip0, ip2);
    var data2, maps2 := TallySets(l0, l1, l2, tl, ip1.addrs[NDIRECT], ip2.addrs[NDIRECT], addr, maps);
    hide LogGrew, NewIndirect, Real;
    tl2 := Tally(data2, maps2, tl.chunks + (if addr != 0 then 1 else 0), tl.newData + if grew then 1 else 0);
  }

  lemma TallySets(l0: seq<nat>, l1: seq<nat>, l2: seq<nat>, tl: Tally, ind1: nat, ind2: nat, addr: nat, maps: set<nat>)
    returns (data2: set<nat>, maps2: set<nat>)
    requires LogGrew(l0, l1, tl.data + tl.maps + Real(ind1)) && LogGrew(l1, l2, maps + Real(addr) + Real(ind2))
    requires ind1 != 0 ==> ind2 == ind1
    ensures LogGrew(l0, l2, data2 + maps2 + Real(ind2))
    ensures |data2| <= |tl.data| + (if addr != 0 then 1 else 0) && |maps2| <= |tl.maps| + |maps|
  {
    data2, maps2 := tl.data + Real(addr), tl.maps + maps;
    Regroup(tl.data, tl.maps, Real(ind1), maps, Real(addr), Real(ind2));
    LogGrew2(l0, l1, l2, tl.data + tl.maps + Real(ind1), maps + Real(addr) + Real(ind2), data2 + maps2 + Real(ind2));
    SizeOfSum(tl.data, Real(addr));
    SizeOfSum(tl.maps, maps);
    hide LogGrew;
  }

  lemma TallyEnd(l0: seq<nat>, l1: seq<nat>, tl: Tally, ip0: Inode, ip: Inode, off: nat, touched: nat, n: nat)
    requires TallyOk(l0, l1, tl, ip0, ip, off) && tl.chunks <= Turns(off, touched) && touched <= n
    ensures var blocks := tl.data + tl.maps + Real(ip.addrs[NDIRECT]);
      LogGrew(l0, l1, blocks) && (n <= 3 * BSIZE ==> |blocks| <= 9)
  {
    SizeOfSum(tl.data, tl.maps);
    SizeOfSum(tl.data + tl.maps, Real(ip.addrs[NDIRECT]));
    if n <= 3 * BSIZE {
      assert Turns(off, touched) <= 4 && (off % BSIZE == 0 ==> Turns(off, touched) <= 3);
    }
  }

  // The first write to a disk, in whatever file, can be read back.
  method FirstWrite(meta: nat, bmapStart: nat, inodeStart: nat, disk: seq<Block>, inums: set<nat>, i: nat,
      src: seq<byte>, fails: nat)
    returns (fs: Fs, n: int, dst: seq<byte>)
    requires 0 < meta <= |disk| < WORD && forall b :: 0 <= b < |disk| ==> |disk[b]| == BSIZE
    requires i in inums && |src| <= MAXFILE * BSIZE
    ensures fresh(fs) && 0 <= n <= |src| && dst == src[..n]
    ensures n < |src| ==> fails < Turns(0, |src|) || Full(fs.bits)
  {
    fs := new Fs(meta, bmapStart, inodeStart, disk, inums);
    n, dst := fs.WriteThenRead(i, src, 0, fails);
  }

  // How much of n bytes from off on readi finds in the file.
  function Readable(ip: Inode, off: nat, n: nat): nat {
    if off > ip.size || off + n >= WORD then 0 else if off + n > ip.size then ip.size - off else n
  }

  // A loop over n bytes from off on, block by block, has done tot of them.
  predicate AtEdge(off: nat, tot: nat, n: nat) {
    0 < tot < n ==> (off + tot) % BSIZE == 0
  }

  // What it does next.
  function Piece(off: nat, tot: nat, n: nat): nat
    requires tot <= n
  {
    Min(n - tot, BSIZE - (off + tot) % BSIZE)
  }

  lemma NoTurns(off: nat, n: nat)
    ensures Turns(off, 0) == 0 && AtEdge(off, 0, n)
  {}

  lemma PieceFacts(off: nat, tot: nat, n: nat)
    requires tot < n && AtEdge(off, tot, n)
    ensures 0 < Piece(off, tot, n) <= n - tot && (off + tot) % BSIZE + Piece(off, tot, n) <= BSIZE
    ensures AtEdge(off, tot + Piece(off, tot, n), n)
    ensures Turns(off, tot + Piece(off, tot, n)) == Turns(off, tot) + 1 <= Turns(off, n)
  {
    TurnsUpTo(off, tot + Piece(off, tot, n), n);
  }

  lemma TurnsUpTo(off: nat, tot: nat, n: nat)
    requires tot <= n
    ensures Turns(off, tot) <= Turns(off, n)
  {}

  // No file has holes, and i has none below upto either.
  ghost predicate HolesBut(data: map<nat, Block>, nodes: map<nat, Inode>, i: nat, upto: nat) {
    && i in nodes && (forall g :: g in nodes ==> NoHoles(data, nodes[g]))
    && forall bn: nat {:trigger SlotOf(bn)} :: bn * BSIZE < upto ==> SlotBlock(data, nodes[i], SlotOf(bn)) != 0
  }

  lemma HolesStay(data: map<nat, Block>, nodes: map<nat, Inode>, data1: map<nat, Block>, nodes1: map<nat, Inode>,
      i: nat, upto: nat)
    requires HolesBut(data, nodes, i, upto) && SlotsStay(data, nodes, data1, nodes1)
    requires forall g :: g in nodes ==> nodes1[g].size == nodes[g].size
    ensures HolesBut(data1, nodes1, i, upto)
  {
    hide SlotBlock, SlotOf;
    forall g | g in nodes1 ensures NoHoles(data1, nodes1[g]) {
      assert NoHoles(data, nodes[g]);
    }
  }

  lemma HolesMore(data: map<nat, Block>, nodes: map<nat, Inode>, i: nat, at: nat, m: nat)
    requires HolesBut(data, nodes, i, at) && at % BSIZE + m <= BSIZE
      && SlotBlock(data, nodes[i], SlotOf(at / BSIZE)) != 0
    ensures HolesBut(data, nodes, i, at + m)
  {
    hide SlotBlock, SlotOf, NoHoles;
    forall bn: nat | bn * BSIZE < at + m ensures SlotBlock(data, nodes[i], SlotOf(bn)) != 0 {
      assert bn * BSIZE < at || bn == at / BSIZE;
    }
  }

  // The first block of a write that does not start on a block's edge is there already.
  lemma SlotThere(data: map<nat, Block>, nodes: map<nat, Inode>, owner: map<nat, Slot>, i: nat, off: nat, at: nat)
    requires HolesBut(data, nodes, i, at) && off <= at && at < MAXFILE * BSIZE
    ensures at / BSIZE < MAXFILE && (at % BSIZE != 0 ==> SlotBlock(data, nodes[i], SlotOf(at / BSIZE)) != 0)
  {
    hide SlotBlock, SlotOf, NoHoles;
    assert at % BSIZE != 0 ==> at / BSIZE * BSIZE < at;
    assert SlotOf(at / BSIZE) == SlotOf(at / BSIZE);
  }

  lemma IndirectStays(data: map<nat, Block>, nodes: map<nat, Inode>, data1: map<nat, Block>, nodes1: map<nat, Inode>,
      owner: map<nat, Slot>, i: nat)
    requires SlotsStay(data, nodes, data1, nodes1) && i in nodes && |nodes[i].addrs| == NDIRECT + 1 == |nodes1[i].addrs|
    ensures nodes[i].addrs[NDIRECT] != 0 ==> nodes1[i].addrs[NDIRECT] == nodes[i].addrs[NDIRECT]
  {
    assert SlotBlock(data, nodes[i], NDIRECT) == nodes[i].addrs[NDIRECT];
  }

  lemma Resized(data: map<nat, Block>, nodes: map<nat, Inode>, owner: map<nat, Slot>, i: nat, end: nat, ip: Inode)
    requires SlotsOk(data, nodes, owner) && HolesBut(data, nodes, i, end) && end <= MAXFILE * BSIZE
    requires ip == nodes[i].(size := if end > nodes[i].size then end else nodes[i].size)
    ensures SlotsOk(data, nodes[i := ip], owner) && forall g :: g in nodes ==> NoHoles(data, nodes[i := ip][g])
  {
    var nodes1 := nodes[i := ip];
    forall g, s: nat | g in nodes ensures SlotBlock(data, nodes1[g], s) == SlotBlock(data, nodes[g], s) {}
    forall b | b in owner ensures OwnerOk(data, nodes1, b, owner[b]) {
      assert OwnerOk(data, nodes, b, owner[b]);
    }
    hide SlotBlock, SlotOf;
    forall g | g in nodes ensures NoHoles(data, nodes1[g]) {
      assert NoHoles(data, nodes[g]);
    }
  }

  lemma LogOne(l0: seq<nat>, l1: seq<nat>, b: nat, s: set<nat>)
    requires LogGrew(l0, l1, s) && b in s
    ensures LogGrew(l0, l1 + [b], s)
  {}

  lemma ExtendedKeeps(data: map<nat, Block>, nodes: map<nat, Inode>, data1: map<nat, Block>, nodes1: map<nat, Inode>,
      i: nat)
    requires Extended(data, nodes, data1, nodes1, i)
    ensures i in nodes && i in nodes1 && nodes1 == nodes[i := nodes1[i]] && nodes1[i].size == nodes[i].size
    ensures SlotsStay(data, nodes, data1, nodes1)
  {}

  lemma SlotsStayOn(data1: map<nat, Block>, nodes1: map<nat, Inode>, data2: map<nat, Block>, data3: map<nat, Block>,
      nodes2: map<nat, Inode>)
    requires SlotsStay(data1, nodes1, data2, nodes2)
    requires forall g, s: nat :: g in nodes2 ==> SlotBlock(data3, nodes2[g], s) == SlotBlock(data2, nodes2[g], s)
    ensures SlotsStay(data1, nodes1, data3, nodes2)
  {
    hide SlotBlock;
  }

  lemma InRange(data: map<nat, Block>, nodes: map<nat, Inode>, owner: map<nat, Slot>, bits: seq<bool>, meta: nat,
      i: nat, s: nat)
    requires BitsOk(bits, owner, meta) && BlocksOk(data, meta, |bits|) && SlotsOk(data, nodes, owner) && i in nodes
    requires SlotBlock(data, nodes[i], s) != 0
    ensures SlotBlock(data, nodes[i], s) in data && |data[SlotBlock(data, nodes[i], s)]| == BSIZE
  {
    assert SlotBlock(data, nodes[i], s) in owner;
  }

  lemma LogGrew2(l0: seq<nat>, l1: seq<nat>, l2: seq<nat>, s: set<nat>, t: set<nat>, u: set<nat>)
    requires LogGrew(l0, l1, s) && LogGrew(l1, l2, t) && s + t <= u
    ensures LogGrew(l0, l2, u)
  {
    forall k | |l0| <= k < |l2| ensures l2[k] in u {
      if k < |l1| {
        assert l1[k] == l2[k];
      }
    }
  }
}

// Blocks, inodes and the bitmap of kernel/fs.c as values: which block each index slot of a file names.
module FileBlocks {
  const BSIZE: nat := 1024
  const NDIRECT: nat := 12
  const NINDIRECT: nat := 256
  const MAXFILE: nat := 268
  const NSLOTS: nat := 269 // the direct slots, the indirect block, its entries
  const WORD: nat := 0x1_0000_0000

  type byte = x: int | 0 <= x < 256
  type Block = seq<byte>

  datatype Inode = Inode(size: nat, addrs: seq<nat>)

  datatype Slot = Slot(inum: nat, slot: nat)

  // The entry of an indirect block, in the byte order of the machine.
  function Word(b: Block, j: nat): nat
    requires |b| == BSIZE && j < NINDIRECT
  {
    FromBytes(b[4 * j], b[4 * j + 1], b[4 * j + 2], b[4 * j + 3])
  }

  function FromBytes(b0: int, b1: int, b2: int, b3: int): nat
    requires 0 <= b0 && 0 <= b1 && 0 <= b2 && 0 <= b3
  {
    b0 + 0x100 * b1 + 0x1_0000 * b2 + 0x100_0000 * b3
  }

  function SetWord(b: Block, j: nat, w: nat): (r: Block)
    requires |b| == BSIZE && j < NINDIRECT && w < WORD
    ensures |r| == BSIZE
  {
    b[4 * j := w % 0x100][4 * j + 1 := w / 0x100 % 0x100]
     [4 * j + 2 := w / 0x1_0000 % 0x100][4 * j + 3 := w / 0x100_0000]
  }

  lemma WordSet(b: Block, j: nat, w: nat, k: nat)
    requires |b| == BSIZE && j < NINDIRECT && k < NINDIRECT && w < WORD
    ensures Word(SetWord(b, j, w), k) == if k == j then w else Word(b, k)
  {
    Digits(w);
    if k != j {
      forall i | 4 * k <= i < 4 * k + 4 ensures SetWord(b, j, w)[i] == b[i] {}
    }
  }

  lemma Digits(w: nat)
    requires w < WORD
    ensures w
      == w % 0x100 + 0x100 * (w / 0x100 % 0x100) + 0x1_0000 * (w / 0x1_0000 % 0x100) + 0x100_0000 * (w / 0x100_0000)
  {
    var w1 := w / 0x100;
    var w2 := w1 / 0x100;
    assert w == 0x100 * w1 + w % 0x100 && w1 == 0x100 * w2 + w1 % 0x100 && w2 == 0x100 * (w2 / 0x100) + w2 % 0x100;
    assert w / 0x1_0000 == w2 && w / 0x100_0000 == w2 / 0x100;
  }

  function Zeros(): (r: Block)
    ensures |r| == BSIZE
  {
    seq(BSIZE, _ => 0)
  }

  // The block that slot s of a file names; 0 for none.
  function SlotBlock(data: map<nat, Block>, ip: Inode, s: nat): nat {
    if |ip.addrs| != NDIRECT + 1 || s >= NSLOTS then 0
    else if s <= NDIRECT then ip.addrs[s]
    else EntryBlock(data, ip.addrs[NDIRECT], s - NDIRECT - 1)
  }

  function EntryBlock(data: map<nat, Block>, ind: nat, j: nat): nat
    requires j < NINDIRECT
  {
    if ind == 0 || ind !in data || |data[ind]| != BSIZE then 0 else Word(data[ind], j)
  }

  // The slot of the bn-th block of a file.
  function SlotOf(bn: nat): nat {
    if bn < NDIRECT then bn else bn + 1
  }

  // Blocks below meta hold the boot block, the super block, the log, the inodes and the bitmap.
  ghost predicate BitsOk(bits: seq<bool>, owner: map<nat, Slot>, meta: nat) {
    && 0 < meta <= |bits| < WORD
    && (forall b :: 0 <= b < |bits| ==> (bits[b] <==> b < meta || b in owner))
    && forall b :: b in owner ==> meta <= b < |bits|
  }

  ghost predicate BlocksOk(data: map<nat, Block>, meta: nat, size: nat) {
    forall b: nat :: meta <= b < size ==> b in data && |data[b]| == BSIZE
  }

  // owner and the slots of the files say the same: no block is named twice.
  ghost predicate SlotsOk(data: map<nat, Block>, nodes: map<nat, Inode>, owner: map<nat, Slot>) {
    && (forall i :: i in nodes ==> |nodes[i].addrs| == NDIRECT + 1)
    && (forall b :: b in owner ==> OwnerOk(data, nodes, b, owner[b]))
    && forall i, s: nat {:trigger SlotBlock(data, nodes[i], s)} :: i in nodes && SlotBlock(data, nodes[i], s) != 0 ==>
         SlotBlock(data, nodes[i], s) in owner && owner[SlotBlock(data, nodes[i], s)] == Slot(i, s)
  }

  predicate OwnerOk(data: map<nat, Block>, nodes: map<nat, Inode>, b: nat, o: Slot) {
    b != 0 && o.inum in nodes && o.slot < NSLOTS && SlotBlock(data, nodes[o.inum], o.slot) == b
  }

  // Every block below the size is there.
  ghost predicate NoHoles(data: map<nat, Block>, ip: Inode) {
    && ip.size <= MAXFILE * BSIZE
    && forall bn: nat {:trigger SlotOf(bn)} :: bn * BSIZE < ip.size ==> SlotBlock(data, ip, SlotOf(bn)) != 0
  }

  function ByteOf(data: map<nat, Block>, ip: Inode, k: nat): byte {
    BlockByte(data, SlotBlock(data, ip, SlotOf(k / BSIZE)), k % BSIZE)
  }

  function BlockByte(data: map<nat, Block>, b: nat, o: nat): byte
    requires o < BSIZE
  {
    if b != 0 && b in data && |data[b]| == BSIZE then data[b][o] else 0
  }

  function Contents(data: map<nat, Block>, ip: Inode): (s: seq<byte>)
    ensures |s| == ip.size
  {
    seq(ip.size, k requires 0 <= k < ip.size => ByteOf(data, ip, k))
  }

  // ----- a new block in an empty slot, new bytes in a data block, a block taken out of its slot

  // b is a block that nobody owns.
  lemma NewDirect(data: map<nat, Block>, nodes: map<nat, Inode>, owner: map<nat, Slot>, i: nat, s: nat, b: nat,
      data1: map<nat, Block>, ip1: Inode)
    requires SlotsOk(data, nodes, owner) && i in nodes && s <= NDIRECT && nodes[i].addrs[s] == 0 && b != 0
      && b !in owner
    requires data1 == data[b := Zeros()] && ip1 == nodes[i].(addrs := nodes[i].addrs[s := b])
    ensures SlotsOk(data1, nodes[i := ip1], owner[b := Slot(i, s)])
    ensures forall g, t: nat ::
      g in nodes && !(g == i && t == s) ==> SlotBlock(data1, nodes[i := ip1][g], t) == SlotBlock(data, nodes[g], t)
    ensures SlotBlock(data1, ip1, s) == b
  {
    var nodes1, owner1 := nodes[i := ip1], owner[b := Slot(i, s)];
    hide Word, Zeros, EntryBlock;
    forall g, t: nat | g in nodes && !(g == i && t == s)
      ensures SlotBlock(data1, nodes1[g], t) == SlotBlock(data, nodes[g], t)
    {
      NewDirectOther(data, nodes, owner, i, s, b, data1, ip1, g, t);
    }
    forall c | c in owner ensures OwnerOk(data1, nodes1, c, owner1[c]) {
      assert OwnerOk(data, nodes, c, owner[c]);
    }
    assert SlotBlock(data1, ip1, s) == b;
    hide SlotBlock;
  }

  lemma NewDirectOther(data: map<nat, Block>, nodes: map<nat, Inode>, owner: map<nat, Slot>, i: nat, s: nat, b: nat,
      data1: map<nat, Block>, ip1: Inode, g: nat, t: nat)
    requires SlotsOk(data, nodes, owner) && i in nodes && s <= NDIRECT && nodes[i].addrs[s] == 0 && b != 0
      && b !in owner
    requires data1 == data[b := Zeros()] && ip1 == nodes[i].(addrs := nodes[i].addrs[s := b])
    requires g in nodes && !(g == i && t == s)
    ensures SlotBlock(data1, nodes[i := ip1][g], t) == SlotBlock(data, nodes[g], t)
  {
    hide Word, Zeros;
    if NDIRECT < t < NSLOTS {
      NotIndirect(data, nodes, owner, g, b);
      ZeroEntries(t - NDIRECT - 1);
    }
  }

  // A block without owner is no file's indirect block.
  lemma NotIndirect(data: map<nat, Block>, nodes: map<nat, Inode>, owner: map<nat, Slot>, g: nat, b: nat)
    requires SlotsOk(data, nodes, owner) && g in nodes && b != 0
    requires b in owner ==> owner[b].slot != NDIRECT
    ensures nodes[g].addrs[NDIRECT] != b
  {
    assert SlotBlock(data, nodes[g], NDIRECT) == nodes[g].addrs[NDIRECT];
  }

  lemma ZeroEntries(j: nat)
    requires j < NINDIRECT
    ensures Word(Zeros(), j) == 0
  {}

  lemma NewEntry(data: map<nat, Block>, nodes: map<nat, Inode>, owner: map<nat, Slot>, i: nat, j: nat, b: nat,
      data1: map<nat, Block>)
    requires SlotsOk(data, nodes, owner) && i in nodes && j < NINDIRECT && 0 < b < WORD && b !in owner
    requires var ind := nodes[i].addrs[NDIRECT];
      && ind != 0 && ind in data && |data[ind]| == BSIZE && ind != b && Word(data[ind], j) == 0
      && data1 == data[b := Zeros()][ind := SetWord(data[ind], j, b)]
    ensures SlotsOk(data1, nodes, owner[b := Slot(i, NDIRECT + 1 + j)])
    ensures forall g, t: nat ::
      g in nodes && !(g == i && t == NDIRECT + 1 + j) ==> SlotBlock(data1, nodes[g], t) == SlotBlock(data, nodes[g], t)
    ensures SlotBlock(data1, nodes[i], NDIRECT + 1 + j) == b
  {
    var ind, owner1 := nodes[i].addrs[NDIRECT], owner[b := Slot(i, NDIRECT + 1 + j)];
    assert SlotBlock(data, nodes[i], NDIRECT) == ind;
    forall g, t: nat | g in nodes && !(g == i && t == NDIRECT + 1 + j)
      ensures SlotBlock(data1, nodes[g], t) == SlotBlock(data, nodes[g], t)
    {
      NewEntryOther(data, nodes, owner, i, j, b, data1, g, t);
    }
    WordSet(data[ind], j, b, j);
    forall c | c in owner ensures OwnerOk(data1, nodes, c, owner1[c]) {
      assert OwnerOk(data, nodes, c, owner[c]);
    }
    hide Word, SetWord;
  }

  lemma NewEntryOther(data: map<nat, Block>, nodes: map<nat, Inode>, owner: map<nat, Slot>, i: nat, j: nat, b: nat,
      data1: map<nat, Block>, g: nat, t: nat)
    requires SlotsOk(data, nodes, owner) && i in nodes && j < NINDIRECT && 0 < b < WORD && b !in owner
    requires var ind := nodes[i].addrs[NDIRECT];
      && ind != 0 && ind in data && |data[ind]| == BSIZE && ind != b && Word(data[ind], j) == 0
      && data1 == data[b := Zeros()][ind := SetWord(data[ind], j, b)]
    requires g in nodes && !(g == i && t == NDIRECT + 1 + j)
    ensures SlotBlock(data1, nodes[g], t) == SlotBlock(data, nodes[g], t)
  {
    hide Word, SetWord;
    var ind := nodes[i].addrs[NDIRECT];
    assert SlotBlock(data, nodes[i], NDIRECT) == ind;
    if NDIRECT < t < NSLOTS {
      NotIndirect(data, nodes, owner, g, b);
      assert SlotBlock(data, nodes[g], NDIRECT) == nodes[g].addrs[NDIRECT];
      if g == i {
        WordSet(data[ind], j, b, t - NDIRECT - 1);
      }
    }
  }

  // Bytes written into a block that is not an indirect block change no slot.
  lemma NewBytes(data: map<nat, Block>, nodes: map<nat, Inode>, owner: map<nat, Slot>, b: nat, data1: map<nat, Block>)
    requires SlotsOk(data, nodes, owner) && b in owner && owner[b].slot != NDIRECT && b in data && b in data1
      && data1 == data[b := data1[b]]
    ensures SlotsOk(data1, nodes, owner)
    ensures forall g, t: nat :: g in nodes ==> SlotBlock(data1, nodes[g], t) == SlotBlock(data, nodes[g], t)
  {
    forall g, t: nat | g in nodes ensures SlotBlock(data1, nodes[g], t) == SlotBlock(data, nodes[g], t) {
      assert OwnerOk(data, nodes, b, owner[b]);
      NotIndirect(data, nodes, owner, g, b);
      hide Word;
    }
    forall c | c in owner ensures OwnerOk(data1, nodes, c, owner[c]) {
      assert OwnerOk(data, nodes, c, owner[c]);
    }
    hide SlotBlock;
  }

  // A direct slot is emptied.
  lemma DropDirect(data: map<nat, Block>, nodes: map<nat, Inode>, owner: map<nat, Slot>, i: nat, s: nat, ip1: Inode)
    requires SlotsOk(data, nodes, owner) && i in nodes && s < NDIRECT && nodes[i].addrs[s] != 0
    requires ip1 == nodes[i].(addrs := nodes[i].addrs[s := 0])
    ensures nodes[i].addrs[s] in owner && owner[nodes[i].addrs[s]] == Slot(i, s)
    ensures SlotsOk(data, nodes[i := ip1], owner - {nodes[i].addrs[s]})
    ensures forall t: nat :: t != s ==> SlotBlock(data, ip1, t) == SlotBlock(data, nodes[i], t)
  {
    var b, nodes1 := nodes[i].addrs[s], nodes[i := ip1];
    assert SlotBlock(data, nodes[i], s) == b;
    forall g, t: nat | g in nodes && !(g == i && t == s)
      ensures SlotBlock(data, nodes1[g], t) == SlotBlock(data, nodes[g], t)
    {
      hide Word;
    }
    forall c | c in owner - {b} ensures OwnerOk(data, nodes1, c, owner[c]) {
      assert OwnerOk(data, nodes, c, owner[c]);
    }
    hide EntryBlock;
  }

  // A block has been put into an empty slot (i, s): all other slots name what they named, all bytes are as before.
  ghost predicate Grown(data: map<nat, Block>, nodes: map<nat, Inode>, data1: map<nat, Block>, nodes1: map<nat, Inode>,
      i: nat, s: nat)
    requires i in nodes && i in nodes1
  {
    && nodes1 == nodes[i := nodes1[i]] && nodes1[i].size == nodes[i].size
    && SameSlots(data, nodes, data1, nodes1, i, s) && SameBytes(data, nodes, data1, nodes1)
    && SlotBlock(data, nodes[i], s) == 0
  }

  ghost predicate SameSlots(data: map<nat, Block>, nodes: map<nat, Inode>, data1: map<nat, Block>,
      nodes1: map<nat, Inode>, i: nat, s: nat) {
    && nodes.Keys == nodes1.Keys
    && forall g, t: nat {:trigger SlotBlock(data1, nodes1[g], t)} :: g in nodes && !(g == i && t == s) ==>
         SlotBlock(data1, nodes1[g], t) == SlotBlock(data, nodes[g], t)
  }

  ghost predicate SameBytes(data: map<nat, Block>, nodes: map<nat, Inode>, data1: map<nat, Block>,
      nodes1: map<nat, Inode>) {
    && nodes.Keys == nodes1.Keys
    && forall g, k: nat {:trigger ByteOf(data1, nodes1[g], k)} ::
      g in nodes ==> ByteOf(data1, nodes1[g], k) == ByteOf(data, nodes[g], k)
  }

  // Zeros in the new block read like no block at all.
  lemma BytesStay(data: map<nat, Block>, nodes: map<nat, Inode>, owner: map<nat, Slot>, data1: map<nat, Block>,
      nodes1: map<nat, Inode>, i: nat, s: nat, b: nat, ind: nat)
    requires SlotsOk(data, nodes, owner) && SameSlots(data, nodes, data1, nodes1, i, s)
    requires i in nodes && SlotBlock(data, nodes[i], s) == 0 && SlotBlock(data1, nodes1[i], s) == b
    requires b !in owner && b in data1 && data1[b] == Zeros() && (ind in owner ==> owner[ind].slot == NDIRECT)
    requires forall c :: c in owner && c != ind ==> (c in data <==> c in data1) && (c in data ==> data1[c] == data[c])
    ensures SameBytes(data, nodes, data1, nodes1)
  {
    forall g, k: nat | g in nodes ensures ByteOf(data1, nodes1[g], k) == ByteOf(data, nodes[g], k) {
      hide SlotBlock;
      var t := SlotOf(k / BSIZE);
      var c := SlotBlock(data, nodes[g], t);
      assert c != 0 ==> c in owner && owner[c] == Slot(g, t);
    }
  }

  lemma GrowDirect(data: map<nat, Block>, nodes: map<nat, Inode>, owner: map<nat, Slot>, i: nat, s: nat, b: nat,
      data1: map<nat, Block>, ip1: Inode)
    requires SlotsOk(data, nodes, owner) && i in nodes && s <= NDIRECT && nodes[i].addrs[s] == 0 && b != 0
      && b !in owner
    requires data1 == data[b := Zeros()] && ip1 == nodes[i].(addrs := nodes[i].addrs[s := b])
    ensures SlotsOk(data1, nodes[i := ip1], owner[b := Slot(i, s)]) && SlotBlock(data1, ip1, s) == b
    ensures Grown(data, nodes, data1, nodes[i := ip1], i, s)
  {
    NewDirect(data, nodes, owner, i, s, b, data1, ip1);
    hide EntryBlock, Zeros;
    assert SlotBlock(data, nodes[i], s) == 0;
    BytesStay(data, nodes, owner, data1, nodes[i := ip1], i, s, b, 0);
    hide SlotBlock, SlotsOk;
  }

  lemma GrowEntry(data: map<nat, Block>, nodes: map<nat, Inode>, owner: map<nat, Slot>, i: nat, j: nat, b: nat,
      data1: map<nat, Block>)
    requires SlotsOk(data, nodes, owner) && i in nodes && j < NINDIRECT && 0 < b < WORD && b !in owner
    requires var ind := nodes[i].addrs[NDIRECT];
      && ind != 0 && ind in data && |data[ind]| == BSIZE && ind != b && Word(data[ind], j) == 0
      && data1 == data[b := Zeros()][ind := SetWord(data[ind], j, b)]
    ensures SlotsOk(data1, nodes, owner[b := Slot(i, NDIRECT + 1 + j)])
      && SlotBlock(data1, nodes[i], NDIRECT + 1 + j) == b
    ensures Grown(data, nodes, data1, nodes, i, NDIRECT + 1 + j)
  {
    NewEntry(data, nodes, owner, i, j, b, data1);
    hide Word, SetWord, Zeros;
    var ind := nodes[i].addrs[NDIRECT];
    assert SlotBlock(data, nodes[i], NDIRECT) == ind && SlotBlock(data, nodes[i], NDIRECT + 1 + j) == 0;
    assert nodes[i := nodes[i]] == nodes;
    BytesStay(data, nodes, owner, data1, nodes, i, NDIRECT + 1 + j, b, ind);
    hide SlotBlock, SlotsOk;
  }

  // Blocks may have been added to file i, but nothing that any file holds has changed.
  ghost predicate Extended(data: map<nat, Block>, nodes: map<nat, Inode>, data1: map<nat, Block>,
      nodes1: map<nat, Inode>, i: nat) {
    && i in nodes && i in nodes1 && nodes1 == nodes[i := nodes1[i]] && nodes1[i].size == nodes[i].size
    && SameBytes(data, nodes, data1, nodes1) && SlotsStay(data, nodes, data1, nodes1)
  }

  ghost predicate SlotsStay(data: map<nat, Block>, nodes: map<nat, Inode>, data1: map<nat, Block>,
      nodes1: map<nat, Inode>) {
    && nodes.Keys == nodes1.Keys
    && forall g, t: nat {:trigger SlotBlock(data1, nodes1[g], t)} {:trigger SlotBlock(data, nodes[g], t)} ::
         g in nodes && SlotBlock(data, nodes[g], t) != 0 ==>
           SlotBlock(data1, nodes1[g], t) == SlotBlock(data, nodes[g], t)
  }

  lemma ExtendedRefl(data: map<nat, Block>, nodes: map<nat, Inode>, i: nat)
    requires i in nodes
    ensures Extended(data, nodes, data, nodes, i)
  {}

  lemma GrownExtended(data: map<nat, Block>, nodes: map<nat, Inode>, data1: map<nat, Block>, nodes1: map<nat, Inode>,
      i: nat, s: nat)
    requires i in nodes && i in nodes1 && Grown(data, nodes, data1, nodes1, i, s)
    ensures Extended(data, nodes, data1, nodes1, i)
  {
    hide SlotBlock, ByteOf;
  }

  lemma ExtendedTrans(data: map<nat, Block>, nodes: map<nat, Inode>, data1: map<nat, Block>, nodes1: map<nat, Inode>,
      data2: map<nat, Block>, nodes2: map<nat, Inode>, i: nat)
    requires Extended(data, nodes, data1, nodes1, i) && Extended(data1, nodes1, data2, nodes2, i)
    ensures Extended(data, nodes, data2, nodes2, i)
  {
    hide SlotBlock, ByteOf;
    forall g, t: nat | g in nodes && SlotBlock(data, nodes[g], t) != 0
      ensures SlotBlock(data2, nodes2[g], t) == SlotBlock(data, nodes[g], t)
    {
      assert SlotBlock(data1, nodes1[g], t) == SlotBlock(data, nodes[g], t);
    }
    forall g, k: nat | g in nodes ensures ByteOf(data2, nodes2[g], k) == ByteOf(data, nodes[g], k) {
      assert ByteOf(data1, nodes1[g], k) == ByteOf(data, nodes[g], k);
    }
  }

}

// The on-disk redo log of kernel/log.c: the header block, the log blocks behind it, and what a disk
// image means once recovery has run on it.
module LogFormat {
  import opened Basics

  const MAXOPBLOCKS := 10
  const LOGSIZE := 3 * MAXOPBLOCKS

  // A disk block, as the BSIZE / sizeof(int) words that the header code reads and writes.
  const BWORDS := 256
  type Block = b: seq<int> | |b| == BWORDS witness seq(BWORDS, _ => 0)
  type Disk = seq<Block>

  // The part of the superblock that the log uses.
  datatype Layout = Layout(size: nat, logstart: nat, nlog: nat) {
    ghost predicate Valid() {
      1 <= nlog && logstart + nlog <= size
    }

    predicate Home(b: int) {
      0 <= b < size && !(logstart <= b < logstart + nlog)
    }

    function Capacity(): int {
      if LOGSIZE < nlog - 1 then LOGSIZE else nlog - 1
    }
  }

  // ----- the header block

  // Writing a header overwrites the count and that many block numbers; later words keep their old value.
  function Encode(prev: Block, bs: seq<int>): (r: Block)
    requires |bs| <= LOGSIZE
  {
    [|bs|] + bs + prev[1 + |bs|..]
  }

  predicate HeaderFits(b: Block) {
    0 <= b[0] <= LOGSIZE
  }

  function Decode(b: Block): (bs: seq<int>)
    requires HeaderFits(b)
  {
    b[1..1 + b[0]]
  }

  lemma DecodeEncode(prev: Block, bs: seq<int>)
    requires |bs| <= LOGSIZE
    ensures HeaderFits(Encode(prev, bs)) && Decode(Encode(prev, bs)) == bs
  {
    assert Encode(prev, bs)[1..1 + |bs|] == bs;
  }

  // A log record that recovery can replay: no more entries than log blocks, all naming distinct home blocks.
  ghost predicate Replayable(L: Layout, bs: seq<int>) {
    && |bs| <= L.Capacity()
    && Distinct(bs)
    && (forall i :: 0 <= i < |bs| ==> L.Home(bs[i]))
  }

  ghost predicate WellFormed(L: Layout, d: Disk) {
    && L.Valid()
    && |d| == L.size
    && HeaderFits(d[L.logstart])
    && Replayable(L, Decode(d[L.logstart]))
  }

  ghost function Header(L: Layout, d: Disk): seq<int>
    requires WellFormed(L, d)
  {
    Decode(d[L.logstart])
  }

  // ----- what a disk image means

  function IndexOf(bs: seq<int>, b: int): (i: nat)
    ensures i <= |bs|
    ensures i < |bs| ==> bs[i] == b
    ensures forall j :: 0 <= j < i ==> bs[j] != b
  {
    if bs == [] then 0 else if bs[0] == b then 0 else 1 + IndexOf(bs[1..], b)
  }

  // The contents of home block b after a completed recovery from d.
  ghost function Redo(L: Layout, d: Disk, b: int): Block
    requires WellFormed(L, d) && L.Home(b)
  {
    var i := IndexOf(Header(L, d), b);
    if i < |Header(L, d)| then d[L.logstart + 1 + i] else d[b]
  }

  // Every home block of d already holds what m says.
  ghost predicate HomeIs(L: Layout, d: Disk, m: Disk) {
    |d| == |m| == L.size && forall b {:trigger L.Home(b)} :: L.Home(b) ==> d[b] == m[b]
  }

  // Log block i holds what m says about the i-th home block of bs.
  ghost predicate Logged(L: Layout, d: Disk, bs: seq<int>, m: Disk)
    requires Replayable(L, bs) && L.Valid() && |d| == |m| == L.size
  {
    forall i :: 0 <= i < |bs| ==> d[L.logstart + 1 + i] == m[bs[i]]
  }

  // Every home block holds what m says, except those still to be installed, bs[t..].
  ghost predicate InstalledTo(L: Layout, d: Disk, bs: seq<int>, t: nat, m: Disk)
    requires t <= |bs| && Replayable(L, bs) && |d| == |m| == L.size
  {
    && (forall b {:trigger L.Home(b)} :: L.Home(b) && b !in bs ==> d[b] == m[b])
    && (forall i :: 0 <= i < t ==> d[bs[i]] == m[bs[i]])
  }

  // The disk stands for contents m: its header names logged blocks that hold what m says, and so does
  // every home block that the header does not name.
  ghost predicate RecoversTo(L: Layout, d: Disk, m: Disk) {
    && WellFormed(L, d)
    && |m| == L.size
    && Logged(L, d, Header(L, d), m)
    && InstalledTo(L, d, Header(L, d), 0, m)
  }

  // That is: recovery from d leaves every home block as in m.
  lemma RecoversToIff(L: Layout, d: Disk, m: Disk)
    requires WellFormed(L, d) && |m| == L.size
    ensures RecoversTo(L, d, m) <==> forall b {:trigger L.Home(b)} :: L.Home(b) ==> Redo(L, d, b) == m[b]
  {
    var bs := Header(L, d);
    if forall b {:trigger L.Home(b)} :: L.Home(b) ==> Redo(L, d, b) == m[b] {
      forall i | 0 <= i < |bs| ensures d[L.logstart + 1 + i] == m[bs[i]] {
        assert IndexOf(bs, bs[i]) == i;
        assert Redo(L, d, bs[i]) == m[bs[i]];
      }
      forall b | L.Home(b) && b !in bs ensures d[b] == m[b] {
        assert Redo(L, d, b) == m[b];
      }
    }
  }

  // With an empty header, recovery changes nothing.
  lemma EmptyHeader(L: Layout, d: Disk, m: Disk)
    requires WellFormed(L, d) && Header(L, d) == [] && |m| == L.size
    ensures RecoversTo(L, d, m) <==> HomeIs(L, d, m)
  {}

  // The disk image that recovery would leave, ignoring the log region.
  ghost function Recovered(L: Layout, d: Disk): (m: Disk)
    requires WellFormed(L, d)
    ensures RecoversTo(L, d, m)
  {
    var m := seq(L.size, b requires 0 <= b < L.size => if L.Home(b) then Redo(L, d, b) else d[b]);
    RecoversToIff(L, d, m);
    m
  }

  // ----- histories of block writes

  datatype Write = Write(op: nat, block: int, data: Block)

  ghost function Apply(m: Disk, ws: seq<Write>): (r: Disk)
    ensures |r| == |m|
  {
    if ws == [] then m
    else
      var w := ws[|ws| - 1];
      var r := Apply(m, ws[..|ws| - 1]);
      if 0 <= w.block < |m| then r[w.block := w.data] else r
  }

  // ----- one disk write at a time

  // Writing a log block beyond the header's entries does not change what recovery yields.
  lemma WriteUnusedLogBlock(L: Layout, d: Disk, k: nat, v: Block, m: Disk)
    requires RecoversTo(L, d, m) && Header(L, d) == []
    requires 1 <= k < L.nlog
    ensures RecoversTo(L, d[L.logstart + k := v], m) && Header(L, d[L.logstart + k := v]) == []
  {
    EmptyHeader(L, d, m);
    EmptyHeader(L, d[L.logstart + k := v], m);
  }

  // Writing the header over a complete log switches from the old contents m to the new contents m'.
  lemma WriteHeader(L: Layout, d: Disk, v: Block, bs: seq<int>, m': Disk)
    requires WellFormed(L, d) && |m'| == L.size
    requires Replayable(L, bs)
    requires Logged(L, d, bs, m') && InstalledTo(L, d, bs, 0, m')
    ensures var d' := d[L.logstart := Encode(v, bs)];
      RecoversTo(L, d', m') && Header(L, d') == bs
  {
    var d' := d[L.logstart := Encode(v, bs)];
    DecodeEncode(v, bs);
    assert Header(L, d') == bs;
  }

  // Installing a logged block leaves the meaning unchanged and extends the installed prefix.
  lemma InstallOne(L: Layout, d: Disk, t: nat, m: Disk)
    requires RecoversTo(L, d, m) && t < |Header(L, d)|
    requires InstalledTo(L, d, Header(L, d), t, m)
    ensures var bs := Header(L, d); var d' := d[bs[t] := d[L.logstart + 1 + t]];
      RecoversTo(L, d', m) && Header(L, d') == bs && InstalledTo(L, d', bs, t + 1, m)
  {}

  // Clearing the header once everything is installed leaves the meaning unchanged.
  lemma ClearHeader(L: Layout, d: Disk, v: Block, m: Disk)
    requires RecoversTo(L, d, m) && HomeIs(L, d, m)
    ensures var d' := d[L.logstart := Encode(v, [])];
      RecoversTo(L, d', m) && Header(L, d') == [] && HomeIs(L, d', m)
  {
    var d' := d[L.logstart := Encode(v, [])];
    DecodeEncode(v, []);
    EmptyHeader(L, d', m);
  }

  lemma FullyInstalled(L: Layout, d: Disk, bs: seq<int>, m: Disk)
    requires L.Valid() && |d| == |m| == L.size && Replayable(L, bs)
    ensures InstalledTo(L, d, bs, |bs|, m) <==> HomeIs(L, d, m)
  {}

  // The blocks that install_trans has not unpinned after t iterations.
  ghost function Unpinned(lh: seq<int>, t: nat): set<int> {
    set i | t <= i < |lh| :: lh[i]
  }

  lemma Unpin(lh: seq<int>, t: nat)
    requires Distinct(lh) && t < |lh|
    ensures Unpinned(lh, t + 1) == Unpinned(lh, t) - {lh[t]}
  {}
}

// kernel/log.c as code: the loops that write, install and replay the log, one disk block at a time.
module LogCode {
  import opened Basics
  import opened LogFormat

  // A crash after any of the writes that left these disks behind recovers to m.
  ghost predicate AllRecover(L: Layout, ds: seq<Disk>, m: Disk) {
    ds == [] || (RecoversTo(L, ds[|ds| - 1], m) && AllRecover(L, ds[..|ds| - 1], m))
  }

  lemma {:induction false} AllRecoverAt(L: Layout, ds: seq<Disk>, m: Disk, k: nat)
    requires AllRecover(L, ds, m) && k < |ds|
    ensures RecoversTo(L, ds[k], m)
  {
    if k < |ds| - 1 {
      AllRecoverAt(L, ds[..|ds| - 1], m, k);
    }
  }

  lemma {:induction false} AllRecoverConcat(L: Layout, ds: seq<Disk>, es: seq<Disk>, m: Disk)
    requires AllRecover(L, ds, m) && AllRecover(L, es, m)
    ensures AllRecover(L, ds + es, m)
  {
    if es == [] {
      assert ds + es == ds;
    } else {
      AllRecoverConcat(L, ds, es[..|es| - 1], m);
      assert (ds + es)[..|ds + es| - 1] == ds + es[..|es| - 1];
    }
  }

  class Log {
    const L: Layout
    var disk: Disk
    var cache: map<int, Block>
    var pinned: set<int>
    var lh: seq<int>         // log.lh.block[0..log.lh.n)
    var outstanding: int
    var committing: bool
    ghost var trail: seq<Disk>   // the disk after each bwrite so far

    // Unpinned buffers agree with the disk, so recycling one loses nothing.
    ghost predicate Valid()
      reads this
    {
      && L.Valid() && |disk| == L.size
      && pinned <= cache.Keys
      && (forall b :: b in cache ==> 0 <= b < L.size)
      && (forall b :: b in cache && b !in pinned ==> cache[b] == disk[b])
      && (forall b :: b in pinned ==> L.Home(b))
    }

    function Contents(b: int): Block
      reads this
      requires b in cache || 0 <= b < |disk|
    {
      if b in cache then cache[b] else disk[b]
    }

    // initlog, on whatever disk a crash has left: m is what it stands for.
    constructor (layout: Layout, d: Disk, ghost m: Disk)
      requires layout.Valid() && RecoversTo(layout, d, m)
      ensures Valid() && L == layout && lh == [] && pinned == {} && outstanding == 0 && !committing
      ensures RecoversTo(L, disk, m) && HomeIs(L, disk, m) && Header(L, disk) == []
      ensures AllRecover(L, trail, m)
    {
      L, disk, cache, pinned, lh, outstanding, committing, trail := layout, d, map[], {}, [], 0, false, [];
      new;
      ghost var ds := RecoverFromLog(m);
      assert trail == ds;
    }

    method Bread(b: int) returns (v: Block)
      requires Valid() && 0 <= b < L.size
      modifies `cache
      ensures Valid() && v == old(Contents(b)) && cache == old(cache)[b := v]
    {
      if b !in cache {
        cache := cache[b := disk[b]];
      }
      v := cache[b];
    }

    method Bwrite(b: int, v: Block)
      requires Valid() && 0 <= b < L.size
      modifies `disk, `cache, `trail
      ensures Valid() && disk == old(disk)[b := v] && cache == old(cache)[b := v]
      ensures trail == old(trail) + [disk]
    {
      cache := cache[b := v];
      disk := disk[b := v];
      trail := trail + [disk];
    }

    // Copies the header block into log.lh, one number at a time.
    method ReadHead()
      requires Valid() && pinned == {} && HeaderFits(disk[L.logstart])
      modifies `cache, `lh
      ensures Valid() && lh == Decode(disk[L.logstart])
    {
      var buf := Bread(L.logstart);
      var n := buf[0];
      lh := [];
      var i := 0;
      while i < n
        invariant Valid() && 0 <= i <= n && lh == buf[1..1 + i]
      {
        lh := lh + [buf[1 + i]];
        i := i + 1;
      }
    }

    method WriteHead()
      requires Valid() && |lh| <= LOGSIZE && L.logstart !in pinned
      modifies `disk, `cache, `trail
      ensures Valid() && disk == old(disk)[L.logstart := Encode(old(disk)[L.logstart], lh)]
      ensures cache == old(cache)[L.logstart := disk[L.logstart]]
      ensures trail == old(trail) + [disk]
    {
      var buf := Bread(L.logstart);
      var hb: Block := buf[0 := |lh|];
      var i := 0;
      while i < |lh|
        invariant 0 <= i <= |lh| && hb == [|lh|] + lh[..i] + buf[1 + i..]
      {
        hb := hb[1 + i := lh[i]];
        i := i + 1;
      }
      assert lh[..|lh|] == lh;
      assert hb == Encode(buf, lh);
      Bwrite(L.logstart, hb);
    }

    // write_log: m is what the disk stands for, now what the cache does.
    method WriteLog(ghost m: Disk, ghost now: Disk) returns (ghost ds: seq<Disk>)
      requires Valid() && Replayable(L, lh) && pinned == (set b | b in lh) && |now| == L.size
      requires RecoversTo(L, disk, m) && Header(L, disk) == []
      requires forall b :: b in pinned ==> cache[b] == now[b]
      modifies `disk, `cache, `trail
      ensures Valid() && RecoversTo(L, disk, m) && Header(L, disk) == []
      ensures Logged(L, disk, lh, now)
      ensures trail == old(trail) + ds && |ds| == |lh| && AllRecover(L, ds, m)
    {
      var tail := 0;
      ds := [];
      while tail < |lh|
        invariant 0 <= tail <= |lh| && Valid()
        invariant RecoversTo(L, disk, m) && Header(L, disk) == []
        invariant forall i :: 0 <= i < tail ==> disk[L.logstart + 1 + i] == now[lh[i]]
        invariant forall b :: b in pinned ==> cache[b] == now[b]
        invariant trail == old(trail) + ds && |ds| == tail && AllRecover(L, ds, m)
      {
        WriteLogBlock(tail, m);
        ds := ds + [disk];
        tail := tail + 1;
      }
    }

    // The body of write_log's loop.
    method WriteLogBlock(tail: nat, ghost m: Disk)
      requires Valid() && Replayable(L, lh) && tail < |lh| && lh[tail] in pinned
      requires RecoversTo(L, disk, m) && Header(L, disk) == []
      modifies `disk, `cache, `trail
      ensures Valid() && RecoversTo(L, disk, m) && Header(L, disk) == []
      ensures disk == old(disk)[L.logstart + 1 + tail := old(cache)[lh[tail]]]
      ensures forall b :: b in pinned ==> cache[b] == old(cache)[b]
      ensures trail == old(trail) + [disk]
    {
      var to := Bread(L.logstart + tail + 1);
      var from := Bread(lh[tail]);
      WriteUnusedLogBlock(L, disk, 1 + tail, from, m);
      Bwrite(L.logstart + tail + 1, from);
    }

    // install_trans: the disk stands for m before, throughout and after.
    method InstallTrans(recovering: bool, ghost m: Disk) returns (ghost ds: seq<Disk>)
      requires Valid() && RecoversTo(L, disk, m) && lh == Header(L, disk)
      requires pinned == if recovering then {} else Unpinned(lh, 0)
      modifies `disk, `cache, `trail, `pinned
      ensures Valid() && RecoversTo(L, disk, m) && Header(L, disk) == lh && HomeIs(L, disk, m)
      ensures pinned == {}
      ensures trail == old(trail) + ds && |ds| == |lh| && AllRecover(L, ds, m)
    {
      var tail := 0;
      ds := [];
      while tail < |lh|
        invariant 0 <= tail <= |lh| && Valid()
        invariant RecoversTo(L, disk, m) && Header(L, disk) == lh && InstalledTo(L, disk, lh, tail, m)
        invariant pinned == if recovering then {} else Unpinned(lh, tail)
        invariant trail == old(trail) + ds && |ds| == tail && AllRecover(L, ds, m)
      {
        InstallBlock(tail, recovering, m);
        ds := ds + [disk];
        tail := tail + 1;
      }
    }

    // The body of install_trans's loop.
    method InstallBlock(tail: nat, recovering: bool, ghost m: Disk)
      requires Valid() && RecoversTo(L, disk, m) && lh == Header(L, disk) && tail < |lh|
      requires InstalledTo(L, disk, lh, tail, m)
      requires pinned == if recovering then {} else Unpinned(lh, tail)
      modifies `disk, `cache, `trail, `pinned
      ensures Valid() && RecoversTo(L, disk, m) && Header(L, disk) == lh
      ensures InstalledTo(L, disk, lh, tail + 1, m)
      ensures pinned == if recovering then {} else Unpinned(lh, tail + 1)
      ensures trail == old(trail) + [disk]
    {
      InstallOne(L, disk, tail, m);
      Unpin(lh, tail);
      hide InstalledTo, Unpinned, RecoversTo, Header;
      var lbuf := Bread(L.logstart + tail + 1);
      var dbuf := Bread(lh[tail]);
      assert lbuf == disk[L.logstart + 1 + tail];
      Bwrite(lh[tail], lbuf);
      if !recovering {
        pinned := pinned - {lh[tail]};
      }
    }

    // Clears log.lh and writes the empty header, at the end of commit and of recovery.
    method EraseHead(ghost m: Disk)
      requires Valid() && RecoversTo(L, disk, m) && HomeIs(L, disk, m) && pinned == {}
      modifies `disk, `cache, `trail, `lh
      ensures Valid() && lh == []
      ensures RecoversTo(L, disk, m) && HomeIs(L, disk, m) && Header(L, disk) == []
      ensures trail == old(trail) + [disk]
    {
      lh := [];
      ClearHeader(L, disk, disk[L.logstart], m);
      WriteHead();
    }

    // commit: a crash after any of its 2n + 2 disk writes recovers to the old contents m before the header
    // write, and to the new contents from the header write on.
    method Commit(ghost m: Disk, ghost now: Disk) returns (ghost before: seq<Disk>, ghost after: seq<Disk>)
      requires Valid() && Replayable(L, lh) && pinned == (set b | b in lh) && |now| == L.size
      requires RecoversTo(L, disk, m) && Header(L, disk) == []
      requires forall b :: b in pinned ==> cache[b] == now[b]
      requires forall b {:trigger L.Home(b)} :: L.Home(b) && b !in lh ==> now[b] == m[b]
      modifies `disk, `cache, `trail, `pinned, `lh
      ensures Valid() && lh == [] && pinned == {}
      ensures RecoversTo(L, disk, now) && HomeIs(L, disk, now) && Header(L, disk) == []
      ensures trail == old(trail) + before + after
      ensures |before| == |old(lh)| && |after| == if old(lh) == [] then 0 else |old(lh)| + 2
      ensures AllRecover(L, before, m) && AllRecover(L, after, now)
    {
      before, after := [], [];
      if |lh| > 0 {
        before := WriteLog(m, now);
        ghost var d := disk;
        WriteHead();
        ghost var head := disk;
        assert RecoversTo(L, head, now) && Header(L, head) == lh by {
          LogFormat.WriteHeader(L, d, d[L.logstart], lh, now);
        }
        assert pinned == Unpinned(lh, 0);
        ghost var ds := InstallTrans(false, now);
        EraseHead(now);
        AllRecoverConcat(L, [head], ds, now);
        after := [head] + ds + [disk];
        assert after[..|after| - 1] == [head] + ds;
      }
    }

    // recover_from_log: whatever disk it starts from, and wherever it is interrupted.
    method RecoverFromLog(ghost m: Disk) returns (ghost ds: seq<Disk>)
      requires Valid() && pinned == {} && RecoversTo(L, disk, m)
      modifies `disk, `cache, `trail, `pinned, `lh
      ensures Valid() && lh == [] && pinned == {}
      ensures RecoversTo(L, disk, m) && HomeIs(L, disk, m) && Header(L, disk) == []
      ensures trail == old(trail) + ds && AllRecover(L, ds, m)
    {
      ReadHead();
      ds := InstallTrans(true, m);
      EraseHead(m);
      ds := ds + [disk];
    }

    // One turn of begin_op's loop. The space for every operation that runs is reserved, and nobody sleeps
    // without a commit or another operation to wait for.
    method BeginOp() returns (sleeps: bool)
      modifies `outstanding
      ensures outstanding == old(outstanding) + if sleeps then 0 else 1
      ensures !sleeps ==> !committing && |lh| + outstanding * MAXOPBLOCKS <= LOGSIZE
      ensures sleeps ==> committing || |lh| + (outstanding + 1) * MAXOPBLOCKS > LOGSIZE
      ensures sleeps && lh == [] ==> committing || outstanding > 0
    {
      sleeps := committing || |lh| + (outstanding + 1) * MAXOPBLOCKS > LOGSIZE;
      if !sleeps {
        outstanding := outstanding + 1;
      }
    }

    // What the running operations have logged is in the log and pinned: the disk stands for m, with them for now.
    ghost predicate Collecting(m: Disk, now: Disk)
      reads this
      requires Valid()
    {
      && Replayable(L, lh) && pinned == (set b | b in lh) && |now| == L.size
      && RecoversTo(L, disk, m) && Header(L, disk) == []
      && (forall b :: b in pinned ==> cache[b] == now[b])
      && (forall b {:trigger L.Home(b)} :: L.Home(b) && b !in lh ==> now[b] == m[b])
    }

    // end_op; panicked stands for "log.committing". The last operation out commits.
    method EndOp(ghost m: Disk, ghost now: Disk) returns (panicked: bool, ghost before: seq<Disk>,
        ghost after: seq<Disk>)
      requires Valid() && (committing || Collecting(m, now))
      modifies `disk, `cache, `trail, `pinned, `lh, `outstanding, `committing
      ensures Valid() && outstanding == old(outstanding) - 1 && committing == old(committing)
      ensures panicked <==> old(committing)
      ensures trail == old(trail) + before + after
      ensures panicked || outstanding != 0 ==>
        disk == old(disk) && cache == old(cache) && pinned == old(pinned) && lh == old(lh) && before == after == []
      ensures !panicked && outstanding == 0 ==> lh == [] && Collecting(now, now) && HomeIs(L, disk, now)
      ensures !panicked && outstanding == 0 ==> AllRecover(L, before, m) && AllRecover(L, after, now)
    {
      before, after := [], [];
      outstanding := outstanding - 1;
      if committing {
        return true, before, after;
      }
      if outstanding == 0 {
        committing := true;
        before, after := Commit(m, now);
        committing := false;
      }
      panicked := false;
    }

    // log_write; panicked stands for its two panics, on which nothing changes.
    method LogWrite(b: int) returns (panicked: bool)
      requires Valid() && b in cache && L.Home(b)
      modifies `lh, `pinned
      ensures Valid()
      ensures panicked <==> |old(lh)| >= L.Capacity() || outstanding < 1
      ensures panicked || b in old(lh) ==> lh == old(lh) && pinned == old(pinned)
      ensures !panicked && b !in old(lh) ==> lh == old(lh) + [b] && pinned == old(pinned) + {b}
      ensures Replayable(L, old(lh)) ==> Replayable(L, lh)
    {
      if |lh| >= LOGSIZE || |lh| >= L.nlog - 1 {
        return true;
      }
      if outstanding < 1 {
        return true;
      }
      var i := 0;
      while i < |lh| && lh[i] != b
        invariant 0 <= i <= |lh|
        invariant forall j :: 0 <= j < i ==> lh[j] != b
      {
        i := i + 1;
      }
      if i == |lh| {
        pinned := pinned + {b};
        lh := lh + [b];
      } else {
        lh := lh[i := b];
      }
      return false;
    }
  }
}

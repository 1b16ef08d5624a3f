// kernel/virtio_disk.c: the driver between its sleeps, and a disk that serves requests in any order.
// Every method runs with vdisk_lock held or is the device's; wakeups lists the channels it woke.
module VirtioDisk {
  import opened Basics
  import opened VirtioRings

  // &disk.free[0], and a buffer.
  datatype Chan = FreeChan | BufChan(b: nat)

  type Block = seq<int>

  // What the rings and descriptors hold: the owners of the descriptors, the requests under way by their heads,
  // and the histories of the avail ring (taken of it by the device) and of the used ring (seen of it by the driver).
  datatype Flight = Flight(owner: seq<Option<nat>>, chains: map<nat, Request>, posted: seq<nat>, taken: nat,
      completed: seq<nat>, seen: nat)

  ghost function Added(f: Flight, h: nat, r: Request): Flight
    requires |f.owner| == NUM && h < NUM && r.d1 < NUM && r.d2 < NUM
  {
    f.(owner := Set3(f.owner, h, r.d1, r.d2, Some(h)), chains := f.chains[h := r], posted := f.posted + [h])
  }

  ghost function Removed(f: Flight, h: nat): Flight
    requires |f.owner| == NUM && h in f.chains && h < NUM && f.chains[h].d1 < NUM && f.chains[h].d2 < NUM
  {
    f.(owner := Set3(f.owner, h, f.chains[h].d1, f.chains[h].d2, None), chains := f.chains - {h})
  }

  ghost predicate Backed(chains: map<nat, Request>, bufs: map<nat, Block>) {
    forall h :: h in chains ==> chains[h].buf in bufs
  }

  // What the interrupt handler makes of the requests in the used ring.
  function Noticed(chains: map<nat, Request>): map<nat, Request> {
    map h | h in chains :: if chains[h].stage.Used? then chains[h].(stage := Seen) else chains[h]
  }

  class Disk {
    var free: seq<bool>
    var desc: seq<Desc>
    var ops: seq<Header>
    var info: seq<Info>
    var busy: set<nat>            // the buffers with b->disk == 1
    var avail: seq<nat>           // disk.avail->ring
    var availIdx: uint16          // disk.avail->idx
    var used: seq<nat>            // disk.used->ring[].id
    var usedIdx: uint16           // disk.used->idx
    var seenIdx: uint16           // disk.used_idx
    var bufs: map<nat, Block>     // b->data
    // The device's own: the index of the next avail entry, the chains it works on, the sectors.
    var nextIdx: uint16
    var working: set<nat>
    var sectors: map<nat, Block>

    ghost var fl: Flight

    ghost predicate Valid()
      reads this
    {
      && Chained(free, fl.owner, fl.chains)
      && AllFormatted(free, desc, ops, fl.chains)
      && RingOk(avail, fl.posted, fl.taken, availIdx, nextIdx) && AvailOk(fl.chains, fl.posted, fl.taken)
      && RingOk(used, fl.completed, fl.seen, usedIdx, seenIdx) && UsedOk(fl.chains, fl.completed, fl.seen)
      && BufsOk(fl.chains, info, busy)
      && WorkOk(fl.chains, working)
      && Backed(fl.chains, bufs)
    }

    // virtio_disk_init, after the queue is set up.
    constructor (bufs0: map<nat, Block>, sectors0: map<nat, Block>)
      ensures Valid() && fl.chains == map[] && |free| == NUM && (forall i :: 0 <= i < NUM ==> free[i])
      ensures bufs == bufs0 && sectors == sectors0 && fl.posted == [] && fl.completed == []
    {
      free, desc := seq(NUM, _ => true), seq(NUM, _ => ZERO);
      ops, info := seq(NUM, _ => OpHeader(false, 0)), seq(NUM, _ => Info(None, 0));
      avail, used := seq(NUM, _ => 0), seq(NUM, _ => 0);
      busy, availIdx, usedIdx, seenIdx, nextIdx, working := {}, 0, 0, 0, 0, {};
      bufs, sectors := bufs0, sectors0;
      fl := Flight(seq(NUM, _ => None), map[], [], 0, [], 0);
    }

    method AllocDesc() returns (r: int)
      requires |free| == NUM
      modifies `free
      ensures r == -1 <==> FreeSet(old(free)) == {}
      ensures r == -1 ==> free == old(free)
      ensures r != -1 ==> 0 <= r < NUM && old(free)[r] && free == old(free)[r := false]
    {
      for i := 0 to NUM
        invariant free == old(free) && forall j :: 0 <= j < i ==> !free[j]
      {
        if free[i] {
          free := free[i := false];
          assert (i as nat) in FreeSet(old(free));
          return i;
        }
      }
      r := -1;
    }

    // The panics are the precondition.
    method FreeDesc(i: nat) returns (woken: Chan)
      requires |free| == NUM && |desc| == NUM && i < NUM && !free[i]
      modifies `free, `desc
      ensures free == old(free)[i := true] && desc == old(desc)[i := ZERO] && woken == FreeChan
    {
      desc := desc[i := ZERO];
      free := free[i := true];
      woken := FreeChan;
    }

    // The inner loop of alloc3_desc: the descriptors taken so far, from before, are free again.
    method GiveBack(idx: seq<nat>, ghost before: seq<bool>) returns (wakeups: seq<Chan>)
      requires |free| == NUM && |desc| == NUM && |before| == NUM && free == Taking(before, idx)
      requires forall k :: 0 <= k < |idx| ==> idx[k] < NUM && before[idx[k]] && desc[idx[k]] == ZERO
      requires forall k, j :: 0 <= k < j < |idx| ==> idx[k] != idx[j]
      modifies `free, `desc
      ensures free == before && desc == old(desc) && forall c :: c in wakeups ==> c == FreeChan
    {
      wakeups := [];
      for j := 0 to |idx|
        invariant |free| == NUM && desc == old(desc) && free == Taking(before, idx[j..])
        invariant forall c :: c in wakeups ==> c == FreeChan
      {
        TakingBack(before, idx[j..]);
        assert idx[j..][1..] == idx[j + 1..];
        assert desc[idx[j] := ZERO] == desc;
        var w := FreeDesc(idx[j]);
        wakeups := wakeups + [w];
      }
    }

    // Three descriptors or, with everything as before, none: there were fewer than three.
    method Alloc3Desc() returns (r: int, idx: seq<nat>, wakeups: seq<Chan>)
      requires |free| == NUM && |desc| == NUM && forall i :: 0 <= i < NUM && free[i] ==> desc[i] == ZERO
      modifies `free, `desc
      ensures desc == old(desc) && (r == 0 || r == -1) && (forall c :: c in wakeups ==> c == FreeChan)
      ensures r == 0 <==> |FreeSet(old(free))| >= 3
      ensures r == -1 ==> free == old(free)
      ensures r == 0 ==> |idx| == 3 && idx[0] != idx[1] && idx[0] != idx[2] && idx[1] != idx[2]
      ensures r == 0 ==> forall k :: 0 <= k < 3 ==> idx[k] < NUM && old(free)[idx[k]]
      ensures r == 0 ==> free == Set3(old(free), idx[0], idx[1], idx[2], false)
    {
      idx, wakeups := [], [];
      for i := 0 to 3
        invariant |idx| == i && wakeups == [] && desc == old(desc) && |free| == NUM
        invariant forall k :: 0 <= k < i ==> idx[k] < NUM && old(free)[idx[k]] && !free[idx[k]]
        invariant forall k, j :: 0 <= k < j < i ==> idx[k] != idx[j]
        invariant free == Taking(old(free), idx)
        invariant |FreeSet(free)| == |FreeSet(old(free))| - i
      {
        ghost var was := free;
        var d := AllocDesc();
        if d < 0 {
          wakeups := GiveBack(idx, old(free));
          return -1, idx, wakeups;
        }
        TakeOne(was, d);
        TakingMore(old(free), idx, d);
        idx := idx + [d];
      }
      assert idx == [idx[0], idx[1], idx[2]];
      r := 0;
    }

    // virtio_disk_rw up to its second wait: one pass of the allocation loop and, if that finds three descriptors,
    // the formatting of the chain and its way into the avail ring. The caller holds b's sleep lock.
    method Start(b: nat, write: bool, blockno: nat) returns (r: Option<nat>, wakeups: seq<Chan>, ghost req: Request)
      requires Valid() && b in bufs && forall h :: h in fl.chains ==> fl.chains[h].buf != b
      modifies `free, `desc, `ops, `info, `busy, `avail, `availIdx, `fl
      ensures Valid()
      ensures r.None? <==> |FreeSet(old(free))| < 3
      ensures r.None? ==> fl == old(fl) && free == old(free) && busy == old(busy)
      ensures r.Some? ==> req == Request(req.d1, req.d2, b, write, blockno * 2, Posted, |old(fl).posted|, 0)
      ensures r.Some? ==> ThreeFree(old(free), r.value, req) && free == Set3(old(free), r.value, req.d1, req.d2, false)
      ensures r.Some? ==>
        r.value !in old(fl).chains && |old(fl).owner| == NUM && fl == Added(old(fl), r.value, req)
          && busy == old(busy) + {b}
      ensures forall c :: c in wakeups ==> c == FreeChan
    {
      hide Chained, AllFormatted, RingOk, AvailOk, UsedOk, BufsOk, WorkOk, FreeSet, Set3;
      Lengths();
      FreeAreZero();
      var ok, idx;
      ok, idx, wakeups := Alloc3Desc();
      if ok != 0 {
        return None, wakeups, Request(0, 0, b, write, 0, Posted, 0, 0);
      }
      req := Request(idx[1], idx[2], b, write, blockno * 2, Posted, |fl.posted|, 0);
      Submit(idx[0], idx[1], idx[2], b, write, blockno * 2, old(free), req);
      r := Some(idx[0]);
    }

    // From the formatting of the descriptors to the notification of the device.
    method Submit(i0: nat, i1: nat, i2: nat, b: nat, write: bool, sector: nat, ghost before: seq<bool>,
        ghost req: Request)
      requires Chained(before, fl.owner, fl.chains) && AllFormatted(before, desc, ops, fl.chains)
      requires RingOk(avail, fl.posted, fl.taken, availIdx, nextIdx) && AvailOk(fl.chains, fl.posted, fl.taken)
      requires RingOk(used, fl.completed, fl.seen, usedIdx, seenIdx) && UsedOk(fl.chains, fl.completed, fl.seen)
      requires BufsOk(fl.chains, info, busy) && WorkOk(fl.chains, working)
      requires b in bufs && Backed(fl.chains, bufs) && forall h :: h in fl.chains ==> fl.chains[h].buf != b
      requires req == Request(i1, i2, b, write, sector, Posted, |fl.posted|, 0)
      requires ThreeFree(before, i0, req) && free == Set3(before, i0, i1, i2, false)
      modifies `desc, `ops, `info, `busy, `avail, `availIdx, `fl
      ensures Valid() && i0 !in old(fl).chains && fl == Added(old(fl), i0, req) && busy == old(busy) + {b}
    {
      hide Chained, AllFormatted, RingOk, AvailOk, UsedOk, BufsOk, WorkOk, Formatted, Set3, InChain, ThreeFree;
      SubmitLengths(before, i0, req);
      PostChained(before, fl.owner, fl.chains, i0, req);
      Format(i0, i1, i2, b, write, sector, req);
      PostFormatted(before, old(desc), desc, old(ops), ops, fl.owner, fl.chains, i0, req);
      PostBufs(fl.chains, old(info), info, busy, i0, req, b);
      PostRings(i0, req);
      Publish(i0, b, req);
    }

    // From the record of the buffer to the notification.
    method Publish(i0: nat, b: nat, ghost req: Request)
      requires |avail| == NUM && |info| == NUM && |fl.owner| == NUM && i0 < NUM && req.d1 < NUM && req.d2 < NUM
      requires Chained(free, Set3(fl.owner, i0, req.d1, req.d2, Some(i0)), fl.chains[i0 := req])
      requires AllFormatted(free, desc, ops, fl.chains[i0 := req])
      requires RingOk(avail[availIdx % NUM := i0], fl.posted + [i0], fl.taken, (availIdx + 1) % WRAP, nextIdx)
      requires RingOk(used, fl.completed, fl.seen, usedIdx, seenIdx)
      requires AvailOk(fl.chains[i0 := req], fl.posted + [i0], fl.taken)
        && UsedOk(fl.chains[i0 := req], fl.completed, fl.seen)
      requires BufsOk(fl.chains[i0 := req], info[i0 := info[i0].(b := Some(b))], busy + {b})
        && WorkOk(fl.chains[i0 := req], working)
      requires Backed(fl.chains[i0 := req], bufs)
      modifies `info, `busy, `avail, `availIdx, `fl
      ensures Valid() && fl == Added(old(fl), i0, req) && busy == old(busy) + {b}
    {
      hide Chained, AllFormatted, RingOk, AvailOk, UsedOk, BufsOk, WorkOk, Set3;
      busy := busy + {b};
      info := info[i0 := info[i0].(b := Some(b))];
      avail := avail[availIdx % NUM := i0];
      availIdx := (availIdx + 1) % WRAP;
      fl := Added(fl, i0, req);
    }

    lemma SubmitLengths(before: seq<bool>, h: nat, r: Request)
      requires Chained(before, fl.owner, fl.chains) && AllFormatted(before, desc, ops, fl.chains)
        && BufsOk(fl.chains, info, busy)
      requires RingOk(avail, fl.posted, fl.taken, availIdx, nextIdx)
        && RingOk(used, fl.completed, fl.seen, usedIdx, seenIdx)
      requires ThreeFree(before, h, r)
      ensures |desc| == NUM && |ops| == NUM && |info| == NUM && |avail| == NUM && |fl.owner| == NUM
        && fl.seen <= |fl.completed|
      ensures |before| == NUM && h < NUM && r.d1 < NUM && r.d2 < NUM && h != r.d1 && h != r.d2 && r.d1 != r.d2
      ensures forall h :: h in fl.chains ==> h < NUM
    {}

    // The three descriptors, the request header and the status byte.
    method Format(i0: nat, i1: nat, i2: nat, b: nat, write: bool, sector: nat, ghost r: Request)
      requires |desc| == NUM && |ops| == NUM && |info| == NUM && i0 < NUM && i1 < NUM && i2 < NUM
      requires i0 != i1 && i0 != i2 && i1 != i2
      requires r.d1 == i1 && r.d2 == i2 && r.buf == b && r.write == write && r.sector == sector
      modifies `ops, `desc, `info
      ensures |desc| == NUM && |ops| == NUM && Formatted(desc, ops, i0, r)
      ensures forall i :: 0 <= i < NUM && !InChain(i0, r, i) ==> desc[i] == old(desc)[i]
      ensures forall i :: 0 <= i < NUM && i != i0 ==> ops[i] == old(ops)[i]
      ensures |info| == NUM && info == old(info)[i0 := old(info)[i0].(status := 0xff)]
    {
      ops := ops[i0 := OpHeader(write, sector)];
      desc := desc[i0 := Desc(Header(i0), 16, true, false, i1)];
      desc := desc[i1 := Desc(Data(b), 1024, true, !write, i2)];
      info := info[i0 := info[i0].(status := 0xff)];
      desc := desc[i2 := Desc(Status(i0), 1, false, true, 0)];
    }

    lemma Lengths()
      requires Valid()
      ensures |free| == NUM && |desc| == NUM && |ops| == NUM && |info| == NUM && |avail| == NUM && |used| == NUM
        && |fl.owner| == NUM
      ensures forall h :: h in fl.chains ==> h < NUM
      ensures fl.seen <= |fl.completed| && fl.taken <= |fl.posted|
    {}

    lemma FreeAreZero()
      requires Valid()
      ensures |free| == NUM && |desc| == NUM && forall i :: 0 <= i < NUM && free[i] ==> desc[i] == ZERO
    {}

    lemma PostRings(h: nat, r: Request)
      requires RingOk(avail, fl.posted, fl.taken, availIdx, nextIdx) && AvailOk(fl.chains, fl.posted, fl.taken)
        && UsedOk(fl.chains, fl.completed, fl.seen)
      requires h < NUM && h !in fl.chains && (forall g :: g in fl.chains ==> g < NUM) && r.stage.Posted?
        && r.at == |fl.posted|
      requires fl.seen <= |fl.completed| && WorkOk(fl.chains, working)
      ensures WorkOk(fl.chains[h := r], working)
      ensures |avail| == NUM
        && RingOk(avail[availIdx % NUM := h], fl.posted + [h], fl.taken, (availIdx + 1) % WRAP, nextIdx)
      ensures AvailOk(fl.chains[h := r], fl.posted + [h], fl.taken) && UsedOk(fl.chains[h := r], fl.completed, fl.seen)
    {
      RoomInAvail(fl.chains, fl.posted, fl.taken, h);
      Push(avail, fl.posted, fl.taken, availIdx, nextIdx, h);
    }

    // free_chain, on the chain of a request: exactly its three descriptors.
    method FreeChain(head: nat, ghost r: Request) returns (wakeups: seq<Chan>)
      requires |free| == NUM && |desc| == NUM && |ops| == NUM && Formatted(desc, ops, head, r)
      requires head != r.d1 && head != r.d2 && r.d1 != r.d2 && !free[head] && !free[r.d1] && !free[r.d2]
      modifies `free, `desc
      ensures free == Set3(old(free), head, r.d1, r.d2, true) && desc == Set3(old(desc), head, r.d1, r.d2, ZERO)
      ensures wakeups == [FreeChan, FreeChan, FreeChan]
    {
      var i := head;
      wakeups := [];
      ghost var chain := [head, r.d1, r.d2];
      ghost var n := 0;
      while true
        invariant 0 <= n < 3 && i == chain[n] && |free| == NUM && |desc| == NUM
        invariant forall k :: n <= k < 3 ==> desc[chain[k]] == old(desc)[chain[k]] && !free[chain[k]]
        invariant n == 0 ==> free == old(free) && desc == old(desc) && wakeups == []
        invariant n == 1 ==> free == old(free)[head := true] && desc == old(desc)[head := ZERO] && wakeups == [FreeChan]
        invariant n == 2 ==>
          free == old(free)[head := true][r.d1 := true] && desc == old(desc)[head := ZERO][r.d1 := ZERO]
        invariant n == 2 ==> wakeups == [FreeChan, FreeChan]
        decreases 3 - n
      {
        var more, next := desc[i].hasNext, desc[i].next;
        var w := FreeDesc(i);
        wakeups := wakeups + [w];
        if more {
          i, n := next, n + 1;
        } else {
          break;
        }
      }
    }

    // virtio_disk_rw once it finds b->disk cleared.
    method Finish(head: nat) returns (wakeups: seq<Chan>)
      requires Valid() && head in fl.chains && fl.chains[head].buf !in busy
      modifies `free, `desc, `info, `fl
      ensures Valid() && old(Owned(head)) && fl == Removed(old(fl), head)
      ensures free == Set3(old(free), head, old(fl).chains[head].d1, old(fl).chains[head].d2, true)
      ensures FreeChan in wakeups
    {
      hide Chained, AllFormatted, RingOk, AvailOk, UsedOk, BufsOk, WorkOk, Set3;
      ghost var r := fl.chains[head];
      ChainIsOwned(head);
      FreeChained(free, fl.owner, fl.chains, head);
      FreeFormatted(free, desc, ops, fl.owner, fl.chains, head);
      DoneRings(fl.chains, info, busy, working, fl.posted, fl.taken, fl.completed, fl.seen, head);
      info := info[head := info[head].(b := None)];
      wakeups := FreeChain(head, r);
      fl := Removed(fl, head);
    }

    ghost predicate Owned(head: nat)
      reads this
    {
      |free| == NUM && |desc| == NUM && |ops| == NUM && |info| == NUM && |fl.owner| == NUM && head in fl.chains
        && ChainOwned(fl.owner, head, fl.chains[head])
    }

    lemma ChainIsOwned(head: nat)
      requires Valid() && head in fl.chains
      ensures Owned(head) && Formatted(desc, ops, head, fl.chains[head])
      ensures !free[head] && !free[fl.chains[head].d1] && !free[fl.chains[head].d2]
    {
      assert ChainOwned(fl.owner, head, fl.chains[head]);
    }

    // The device takes the next entry of the avail ring: the oldest it has not taken, whatever the wraps.
    method Take() returns (h: nat)
      requires Valid() && nextIdx != availIdx
      modifies `nextIdx, `working, `fl
      ensures Valid() && old(fl).taken < |old(fl).posted| && h == old(fl).posted[old(fl).taken] && h in old(fl).chains
      ensures fl
        == old(fl).(taken := old(fl).taken + 1, chains := old(fl).chains[h := old(fl).chains[h].(stage := Taken)])
      ensures working == old(working) + {h}
    {
      hide Chained, AllFormatted, RingOk, AvailOk, UsedOk, BufsOk, WorkOk, Backed;
      Lengths();
      Front(avail, fl.posted, fl.taken, availIdx, nextIdx);
      h := avail[nextIdx % NUM];
      TakeRings(fl, info, busy, working, bufs, h);
      Restage(free, desc, ops, fl.owner, fl.chains, h, fl.chains[h].(stage := Taken));
      nextIdx := (nextIdx + 1) % WRAP;
      working := working + {h};
      fl := fl.(taken := fl.taken + 1, chains := fl.chains[h := fl.chains[h].(stage := Taken)]);
    }

    // The device finishes a chain it has taken, in any order: it follows the descriptors, moves the data,
    // writes the status byte and adds the head to the used ring.
    method Complete(h: nat)
      requires Valid() && h in working && h in fl.chains && fl.chains[h].sector in sectors
      modifies `working, `bufs, `sectors, `info, `used, `usedIdx, `fl
      ensures Valid() && working == old(working) - {h} && fl == Finished(old(fl), h)
      ensures Moved(old(fl).chains[h], old(bufs), old(sectors), bufs, sectors)
    {
      hide Chained, AllFormatted, RingOk, AvailOk, UsedOk, BufsOk, WorkOk, Backed, Moved, Formatted, ChainOwned;
      Lengths();
      ChainIsOwned(h);
      IsBacked(h);
      FinishRings(fl, used, usedIdx, seenIdx, info, busy, working, h);
      Restage(free, desc, ops, fl.owner, fl.chains, h, fl.chains[h].(stage := Used, done := |fl.completed|));
      var status := Transfer(h, fl.chains[h]);
      StillBacked(fl.chains, old(bufs), bufs, h, fl.chains[h].(stage := Used, done := |fl.completed|));
      Return(h, status);
    }

    // The device's status byte and its entry in the used ring.
    method Return(h: nat, status: nat)
      requires h in fl.chains && status == h && |info| == NUM && |used| == NUM && h < NUM
      requires Chained(free, fl.owner, Finished(fl, h).chains) && AllFormatted(free, desc, ops, Finished(fl, h).chains)
      requires RingOk(avail, fl.posted, fl.taken, availIdx, nextIdx)
        && AvailOk(Finished(fl, h).chains, fl.posted, fl.taken)
      requires RingOk(used[usedIdx % NUM := h], fl.completed + [h], fl.seen, (usedIdx + 1) % WRAP, seenIdx)
      requires UsedOk(Finished(fl, h).chains, fl.completed + [h], fl.seen)
      requires BufsOk(Finished(fl, h).chains, info[h := info[h].(status := 0)], busy)
      requires WorkOk(Finished(fl, h).chains, working - {h}) && Backed(Finished(fl, h).chains, bufs)
      modifies `working, `info, `used, `usedIdx, `fl
      ensures Valid() && working == old(working) - {h} && fl == Finished(old(fl), h)
    {
      hide Chained, AllFormatted, RingOk, AvailOk, UsedOk, BufsOk, WorkOk, Backed;
      working := working - {h};
      info := info[status := info[status].(status := 0)];
      used := used[usedIdx % NUM := h];
      usedIdx := (usedIdx + 1) % WRAP;
      fl := Finished(fl, h);
    }

    // What the descriptors of the chain make the device do.
    method Transfer(h: nat, ghost r: Request) returns (status: nat)
      requires |desc| == NUM && |ops| == NUM && Formatted(desc, ops, h, r) && r.buf in bufs && r.sector in sectors
      modifies `bufs, `sectors
      ensures Moved(r, old(bufs), old(sectors), bufs, sectors) && bufs.Keys == old(bufs).Keys && status == h
    {
      var header, data := desc[h], desc[desc[h].next];
      var op := ops[header.addr.i];
      if op.write {
        sectors := sectors[op.sector := bufs[data.addr.buf]];
      } else {
        bufs := bufs[data.addr.buf := sectors[op.sector]];
      }
      status := desc[data.next].addr.i;
    }

    lemma IsBacked(h: nat)
      requires Valid() && h in fl.chains
      ensures fl.chains[h].buf in bufs
    {}

    // One turn of virtio_disk_intr's loop; its panic on a bad status is the assertion.
    method Notice() returns (woken: Chan, ghost h: nat)
      requires Valid() && seenIdx != usedIdx
      modifies `busy, `seenIdx, `fl
      ensures Valid() && old(fl).seen < |old(fl).completed| && h == old(fl).completed[old(fl).seen]
        && h in old(fl).chains
      ensures fl == old(fl).(seen := old(fl).seen + 1, chains := old(fl).chains[h := old(fl).chains[h].(stage := Seen)])
      ensures old(fl).chains[h].buf in old(busy) && busy == old(busy) - {old(fl).chains[h].buf}
      ensures old(fl).chains[h].stage.Used? && woken == BufChan(old(fl).chains[h].buf)
    {
      hide Chained, AllFormatted, RingOk, AvailOk, UsedOk, BufsOk, WorkOk, Backed;
      Lengths();
      Front(used, fl.completed, fl.seen, usedIdx, seenIdx);
      var id := used[seenIdx % NUM];
      NoticeRings(fl, info, busy, working, bufs, id);
      Restage(free, desc, ops, fl.owner, fl.chains, id, fl.chains[id].(stage := Seen));
      assert info[id].status == 0;
      var b := info[id].b.value;
      busy := busy - {b};
      woken := BufChan(b);
      seenIdx := (seenIdx + 1) % WRAP;
      h := id;
      fl := fl.(seen := fl.seen + 1, chains := fl.chains[id := fl.chains[id].(stage := Seen)]);
    }

    // virtio_disk_intr: every request in the used ring is noticed, each wakes its own buffer, no other is touched.
    method Intr() returns (wakeups: seq<Chan>)
      requires Valid()
      modifies `busy, `seenIdx, `fl
      ensures Valid() && fl == old(fl).(seen := |old(fl).completed|, chains := Noticed(old(fl).chains))
      ensures forall b :: b in busy <==> b in old(busy) && BufChan(b) !in wakeups
      ensures forall h ::
        h in old(fl).chains ==> (BufChan(old(fl).chains[h].buf) in wakeups <==> old(fl).chains[h].stage.Used?)
    {
      hide Chained, AllFormatted, RingOk, AvailOk, UsedOk, BufsOk, WorkOk, Backed;
      wakeups := [];
      Lengths();
      SameBuf(fl.chains, info, busy);
      while seenIdx != usedIdx
        invariant Valid() && fl.completed == old(fl).completed && Noticed(fl.chains) == Noticed(old(fl).chains)
        invariant fl == old(fl).(seen := fl.seen, chains := fl.chains) && fl.seen <= |fl.completed|
        invariant forall b :: b in busy <==> b in old(busy) && BufChan(b) !in wakeups
        invariant SeenSoFar(old(fl).chains, fl.chains, wakeups)
        decreases |fl.completed| - fl.seen
      {
        ghost var was := fl.chains;
        var w, h := Notice();
        SeenOneMore(old(fl).chains, was, wakeups, h);
        wakeups := wakeups + [w];
      }
      Lengths();
      Front(used, fl.completed, fl.seen, usedIdx, seenIdx);
      AllNoticed(fl.chains, fl.completed, fl.seen);
    }
  }

  lemma DoneRings(chains: map<nat, Request>, info: seq<Info>, busy: set<nat>, working: set<nat>, posted: seq<nat>,
      taken: nat, completed: seq<nat>, seen: nat, h: nat)
    requires BufsOk(chains, info, busy) && AvailOk(chains, posted, taken) && UsedOk(chains, completed, seen)
      && WorkOk(chains, working)
    requires h in chains && chains[h].buf !in busy
    ensures h < |info| && BufsOk(chains - {h}, info[h := info[h].(b := None)], busy)
    ensures AvailOk(chains - {h}, posted, taken) && UsedOk(chains - {h}, completed, seen)
      && WorkOk(chains - {h}, working)
  {}

  // One block of data from the buffer to the disk or back, and nothing else.
  ghost predicate Moved(r: Request, bufs0: map<nat, Block>, sectors0: map<nat, Block>, bufs1: map<nat, Block>,
      sectors1: map<nat, Block>) {
    && r.buf in bufs0 && r.sector in sectors0
    && if r.write then sectors1 == sectors0[r.sector := bufs0[r.buf]] && bufs1 == bufs0
       else bufs1 == bufs0[r.buf := sectors0[r.sector]] && sectors1 == sectors0
  }

  ghost function Finished(f: Flight, h: nat): Flight
    requires h in f.chains
  {
    f.(chains := f.chains[h := f.chains[h].(stage := Used, done := |f.completed|)], completed := f.completed + [h])
  }

  lemma TakeRings(f: Flight, info: seq<Info>, busy: set<nat>, working: set<nat>, bufs: map<nat, Block>, h: nat)
    requires AvailOk(f.chains, f.posted, f.taken) && UsedOk(f.chains, f.completed, f.seen)
      && BufsOk(f.chains, info, busy)
    requires WorkOk(f.chains, working) && Backed(f.chains, bufs)
    requires f.taken < |f.posted| && f.posted[f.taken] == h
    ensures h in f.chains
    ensures var c := f.chains[h := f.chains[h].(stage := Taken)];
      && AvailOk(c, f.posted, f.taken + 1) && UsedOk(c, f.completed, f.seen) && BufsOk(c, info, busy)
      && WorkOk(c, working + {h}) && Backed(c, bufs)
  {}

  lemma FinishRings(f: Flight, used: seq<nat>, usedIdx: uint16, seenIdx: uint16, info: seq<Info>, busy: set<nat>,
      working: set<nat>, h: nat)
    requires AvailOk(f.chains, f.posted, f.taken) && UsedOk(f.chains, f.completed, f.seen)
      && BufsOk(f.chains, info, busy)
    requires WorkOk(f.chains, working) && h in working && RingOk(used, f.completed, f.seen, usedIdx, seenIdx)
    ensures h in f.chains && h < |info| && |used| == NUM
    ensures RingOk(used[usedIdx % NUM := h], f.completed + [h], f.seen, (usedIdx + 1) % WRAP, seenIdx)
    ensures var c := Finished(f, h).chains;
      && AvailOk(c, f.posted, f.taken) && UsedOk(c, f.completed + [h], f.seen)
      && BufsOk(c, info[h := info[h].(status := 0)], busy) && WorkOk(c, working - {h})
  {
    RoomInUsed(f.chains, f.completed, f.seen, h);
    Push(used, f.completed, f.seen, usedIdx, seenIdx, h);
    hide RingOk;
  }

  lemma StillBacked(chains: map<nat, Request>, bufs: map<nat, Block>, bufs1: map<nat, Block>, h: nat, r: Request)
    requires Backed(chains, bufs) && h in chains && r.buf == chains[h].buf && bufs.Keys <= bufs1.Keys
    ensures Backed(chains[h := r], bufs1)
  {}

  lemma NoticeRings(f: Flight, info: seq<Info>, busy: set<nat>, working: set<nat>, bufs: map<nat, Block>, h: nat)
    requires AvailOk(f.chains, f.posted, f.taken) && UsedOk(f.chains, f.completed, f.seen)
      && BufsOk(f.chains, info, busy)
    requires WorkOk(f.chains, working) && Backed(f.chains, bufs)
    requires f.seen < |f.completed| && f.completed[f.seen] == h
    ensures h in f.chains && f.chains[h].stage.Used? && h < |info| && info[h].status == 0
      && info[h].b == Some(f.chains[h].buf) && f.chains[h].buf in busy
    ensures var c := f.chains[h := f.chains[h].(stage := Seen)];
      && AvailOk(c, f.posted, f.taken) && UsedOk(c, f.completed, f.seen + 1)
      && BufsOk(c, info, busy - {f.chains[h].buf})
      && WorkOk(c, working) && Backed(c, bufs)
  {}

  // wakeups has the buffers of the requests noticed since was, and of no other.
  ghost predicate SeenSoFar(was: map<nat, Request>, chains: map<nat, Request>, wakeups: seq<Chan>) {
    && was.Keys == chains.Keys
    && (forall h, g :: h in was && g in was && was[h].buf == was[g].buf ==> h == g)
    && forall h :: h in was ==>
      && Restaged(was[h], chains[h])
      && (BufChan(was[h].buf) in wakeups <==> was[h].stage.Used? && chains[h].stage.Seen?)
      && (chains[h].stage.Used? ==> was[h].stage.Used?)
  }

  lemma SeenOneMore(was: map<nat, Request>, chains: map<nat, Request>, wakeups: seq<Chan>, h: nat)
    requires SeenSoFar(was, chains, wakeups) && h in chains && chains[h].stage.Used?
    ensures SeenSoFar(was, chains[h := chains[h].(stage := Seen)], wakeups + [BufChan(chains[h].buf)])
    ensures Noticed(chains[h := chains[h].(stage := Seen)]) == Noticed(chains)
  {
    assert was[h].buf == chains[h].buf;
  }

  lemma AllNoticed(chains: map<nat, Request>, completed: seq<nat>, seen: nat)
    requires UsedOk(chains, completed, seen) && seen == |completed|
    ensures Noticed(chains) == chains
    ensures forall h :: h in chains ==> !chains[h].stage.Used?
  {}

  lemma SameBuf(chains: map<nat, Request>, info: seq<Info>, busy: set<nat>)
    requires BufsOk(chains, info, busy)
    ensures forall h, g :: h in chains && g in chains && chains[h].buf == chains[g].buf ==> h == g
  {}

  lemma PostBufs(chains: map<nat, Request>, info: seq<Info>, info1: seq<Info>, busy: set<nat>, h: nat, r: Request,
      b: nat)
    requires BufsOk(chains, info, busy) && h !in chains && h < NUM && r.stage.Posted? && r.buf == b
    requires |info1| == NUM && info1 == info[h := info1[h]]
    requires forall g :: g in chains ==> chains[g].buf != b
    ensures BufsOk(chains[h := r], info1[h := info1[h].(b := Some(b))], busy + {b})
  {}

  function Taking(free: seq<bool>, idx: seq<nat>): (r: seq<bool>)
    ensures |r| == |free|
  {
    seq(|free|, i requires 0 <= i < |free| => free[i] && i !in idx)
  }

  lemma TakeOne(free: seq<bool>, d: nat)
    requires d < |free| && free[d]
    ensures |FreeSet(free[d := false])| == |FreeSet(free)| - 1
  {
    assert FreeSet(free[d := false]) == FreeSet(free) - {d};
  }

  lemma TakingMore(free: seq<bool>, idx: seq<nat>, d: nat)
    requires d < |free|
    ensures Taking(free, idx)[d := false] == Taking(free, idx + [d])
  {}

  lemma TakingBack(free: seq<bool>, idx: seq<nat>)
    requires 0 < |idx| && idx[0] < |free| && free[idx[0]] && idx[0] !in idx[1..]
    ensures Taking(free, idx)[idx[0] := true] == Taking(free, idx[1..])
  {}
}

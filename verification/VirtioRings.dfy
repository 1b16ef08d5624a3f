// The rings that kernel/virtio_disk.c shares with the disk (VIRTIO 1.1, sections 2.6 and 5.2), as values.
module VirtioRings {
  import opened Basics

  const NUM: nat := 8
  const WRAP: nat := 0x1_0000
  type uint16 = n: nat | n < WRAP

  // What a descriptor's address points to: a request header, a buffer's data, a status byte.
  datatype Addr = Null | Header(i: nat) | Data(buf: nat) | Status(i: nat)

  // flags, as its two bits NEXT and WRITE.
  datatype Desc = Desc(addr: Addr, len: nat, hasNext: bool, deviceWrites: bool, next: nat)

  const ZERO := Desc(Null, 0, false, false, 0)

  datatype Header = OpHeader(write: bool, sector: nat)
  datatype Info = Info(b: Option<nat>, status: nat)

  // A request from the time it is posted until its chain is freed: in the avail ring, with the device,
  // in the used ring, and seen by the interrupt handler.
  datatype Stage = Posted | Taken | Used | Seen

  // The chain from its head is head, d1, d2. at and done are its places in the histories of the two rings.
  datatype Request = Request(d1: nat, d2: nat, buf: nat, write: bool, sector: nat, stage: Stage, at: nat, done: nat)

  // owner names the chain that a descriptor belongs to, if it is not free.
  ghost predicate Chained(free: seq<bool>, owner: seq<Option<nat>>, chains: map<nat, Request>) {
    && |free| == NUM && |owner| == NUM
    && (forall i :: 0 <= i < NUM ==> (free[i] <==> owner[i].None?))
    && (forall h :: h in chains ==> ChainOwned(owner, h, chains[h]))
    && (forall i :: 0 <= i < NUM && owner[i].Some? ==> owner[i].value in chains)
    && forall i :: 0 <= i < NUM && owner[i].Some? ==> InChain(owner[i].value, chains[owner[i].value], i)
  }

  predicate InChain(h: nat, r: Request, i: nat) {
    i == h || i == r.d1 || i == r.d2
  }

  predicate ChainOwned(owner: seq<Option<nat>>, h: nat, r: Request)
    requires |owner| == NUM
  {
    && h < NUM && r.d1 < NUM && r.d2 < NUM && h != r.d1 && h != r.d2 && r.d1 != r.d2
    && owner[h] == Some(h) && owner[r.d1] == Some(h) && owner[r.d2] == Some(h)
  }

  // The three descriptors that the device reads, and the header.
  predicate Formatted(desc: seq<Desc>, ops: seq<Header>, h: nat, r: Request)
    requires |desc| == NUM && |ops| == NUM
  {
    && h < NUM && r.d1 < NUM && r.d2 < NUM
    && desc[h] == Desc(Header(h), 16, true, false, r.d1)
    && desc[r.d1] == Desc(Data(r.buf), 1024, true, !r.write, r.d2)
    && desc[r.d2] == Desc(Status(h), 1, false, true, 0)
    && ops[h] == OpHeader(r.write, r.sector)
  }

  ghost predicate AllFormatted(free: seq<bool>, desc: seq<Desc>, ops: seq<Header>, chains: map<nat, Request>) {
    && |free| == NUM && |desc| == NUM && |ops| == NUM
    && (forall h :: h in chains ==> Formatted(desc, ops, h, chains[h]))
    && forall i :: 0 <= i < NUM && free[i] ==> desc[i] == ZERO
  }

  // A ring with its 16-bit indices, against the unbounded history of its entries: those from lo on are still
  // in the ring, and are the requests at the given stage.
  ghost predicate RingOk(ring: seq<nat>, hist: seq<nat>, lo: nat, idx: uint16, last: uint16) {
    && |ring| == NUM && lo <= |hist| <= lo + NUM
    && idx == |hist| % WRAP && last == lo % WRAP
    && forall k :: lo <= k < |hist| ==> ring[k % NUM] == hist[k]
  }

  ghost predicate AvailOk(chains: map<nat, Request>, hist: seq<nat>, lo: nat) {
    && (forall k :: lo <= k < |hist| ==> hist[k] in chains && chains[hist[k]].stage.Posted? && chains[hist[k]].at == k)
    && forall h :: h in chains && chains[h].stage.Posted? ==> lo <= chains[h].at < |hist| && hist[chains[h].at] == h
  }

  ghost predicate UsedOk(chains: map<nat, Request>, hist: seq<nat>, lo: nat) {
    && (forall k :: lo <= k < |hist| ==> hist[k] in chains && chains[hist[k]].stage.Used? && chains[hist[k]].done == k)
    && forall h :: h in chains && chains[h].stage.Used? ==> lo <= chains[h].done < |hist| && hist[chains[h].done] == h
  }

  // b->disk, info[] and the buffers of the requests.
  ghost predicate BufsOk(chains: map<nat, Request>, info: seq<Info>, busy: set<nat>) {
    && |info| == NUM
    && (forall h :: h in chains ==> h < NUM && info[h].b == Some(chains[h].buf))
    && (forall h :: h in chains ==> (chains[h].buf in busy <==> !chains[h].stage.Seen?))
    && (forall h :: h in chains && (chains[h].stage.Used? || chains[h].stage.Seen?) ==> info[h].status == 0)
    && forall h, g :: h in chains && g in chains && chains[h].buf == chains[g].buf ==> h == g
  }

  // The chains the device has taken and not finished.
  ghost predicate WorkOk(chains: map<nat, Request>, working: set<nat>) {
    forall h :: h in working <==> h in chains && chains[h].stage.Taken?
  }

  function FreeSet(free: seq<bool>): set<nat> {
    set i: nat | i < |free| && free[i]
  }

  // The 16-bit indices differ exactly when the ring is not empty.
  lemma IndexWraps(n: nat, lo: nat)
    requires lo <= n <= lo + NUM
    ensures n % WRAP == lo % WRAP <==> n == lo
    ensures n % WRAP % NUM == n % NUM && lo % WRAP % NUM == lo % NUM
  {
    ModMod(n);
    ModMod(lo);
    if n % WRAP == lo % WRAP {
      assert n == n / WRAP * WRAP + n % WRAP && lo == lo / WRAP * WRAP + lo % WRAP;
      var q := n / WRAP - lo / WRAP;
      assert n - lo == q * WRAP;
      assert q == 0;
    }
  }

  lemma ModMod(n: nat)
    ensures n % WRAP % NUM == n % NUM && (n % WRAP + 1) % WRAP == (n + 1) % WRAP
  {
    assert n == n / WRAP * (WRAP / NUM) * NUM + n % WRAP;
  }

  // The entries of a history from lo on, as a set.
  ghost function Heads(hist: seq<nat>, lo: nat): (s: set<nat>)
    requires lo <= |hist|
    ensures forall h :: h in s <==> h in hist[lo..]
    decreases |hist| - lo
  {
    if lo == |hist| then {} else Heads(hist, lo + 1) + {hist[lo]}
  }

  lemma {:induction false} HeadsCount(hist: seq<nat>, lo: nat)
    requires lo <= |hist|
    requires forall k, j :: lo <= k < j < |hist| ==> hist[k] != hist[j]
    ensures |Heads(hist, lo)| == |hist| - lo
    decreases |hist| - lo
  {
    if lo < |hist| {
      HeadsCount(hist, lo + 1);
      assert hist[lo] !in Heads(hist, lo + 1);
    }
  }

  lemma {:induction false} Below(s: set<nat>, n: nat)
    requires forall x :: x in s ==> x < n
    ensures |s| <= n
  {
    if n > 0 {
      Below(s - {n - 1}, n - 1);
    }
  }

  // A ring has room for one more head: those still in it are all different, and fewer than NUM.
  lemma RoomInRing(hist: seq<nat>, lo: nat, h: nat)
    requires lo <= |hist| && h < NUM && forall k :: lo <= k < |hist| ==> hist[k] < NUM && hist[k] != h
    requires forall k, j :: lo <= k < j < |hist| ==> hist[k] != hist[j]
    ensures |hist| < lo + NUM
  {
    HeadsCount(hist, lo);
    Below(Heads(hist, lo) + {h}, NUM);
  }

  lemma RoomInAvail(chains: map<nat, Request>, hist: seq<nat>, lo: nat, h: nat)
    requires lo <= |hist| && AvailOk(chains, hist, lo) && h < NUM
    requires h in chains ==> !chains[h].stage.Posted?
    requires forall g :: g in chains ==> g < NUM
    ensures |hist| < lo + NUM
  {
    RoomInRing(hist, lo, h);
  }

  lemma RoomInUsed(chains: map<nat, Request>, hist: seq<nat>, lo: nat, h: nat)
    requires lo <= |hist| && UsedOk(chains, hist, lo) && h < NUM
    requires h in chains ==> !chains[h].stage.Used?
    requires forall g :: g in chains ==> g < NUM
    ensures |hist| < lo + NUM
  {
    RoomInRing(hist, lo, h);
  }

  // One more entry, in the slot that the code picks.
  lemma Push(ring: seq<nat>, hist: seq<nat>, lo: nat, idx: uint16, last: uint16, h: nat)
    requires RingOk(ring, hist, lo, idx, last) && |hist| < lo + NUM
    ensures RingOk(ring[idx % NUM := h], hist + [h], lo, (idx + 1) % WRAP, last)
  {
    ModMod(|hist|);
    var w := |hist|;
    forall k | lo <= k < w + 1 ensures ring[idx % NUM := h][k % NUM] == (hist + [h])[k] {
      if k < w {
        OtherSlot(k, w, NUM);
      }
    }
  }

  // The reader of a ring sees that it is not empty, and reads the oldest entry.
  lemma Front(ring: seq<nat>, hist: seq<nat>, lo: nat, idx: uint16, last: uint16)
    requires RingOk(ring, hist, lo, idx, last)
    ensures idx == last <==> lo == |hist|
    ensures lo < |hist| ==> ring[last % NUM] == hist[lo] && RingOk(ring, hist, lo + 1, idx, (last + 1) % WRAP)
  {
    IndexWraps(|hist|, lo);
    ModMod(lo);
  }

  // ----- posting a request, changing its stage, and taking its chain apart

  function Set3<T>(s: seq<T>, i: nat, j: nat, k: nat, v: T): (t: seq<T>)
    requires i < |s| && j < |s| && k < |s|
    ensures |t| == |s|
  {
    s[i := v][j := v][k := v]
  }

  predicate ThreeFree(free: seq<bool>, h: nat, r: Request) {
    |free| == NUM && h < NUM && r.d1 < NUM && r.d2 < NUM && h != r.d1 && h != r.d2 && r.d1 != r.d2 && free[h]
      && free[r.d1] && free[r.d2]
  }

  lemma PostChained(free: seq<bool>, owner: seq<Option<nat>>, chains: map<nat, Request>, h: nat, r: Request)
    requires Chained(free, owner, chains) && ThreeFree(free, h, r)
    ensures h !in chains
      && Chained(Set3(free, h, r.d1, r.d2, false), Set3(owner, h, r.d1, r.d2, Some(h)), chains[h := r])
  {
    var owner1 := Set3(owner, h, r.d1, r.d2, Some(h));
    assert h !in chains by {
      assert h in chains ==> ChainOwned(owner, h, chains[h]);
    }
    forall g | g in chains ensures ChainOwned(owner1, g, chains[g]) {
      assert ChainOwned(owner, g, chains[g]);
    }
    forall i | 0 <= i < NUM && owner1[i].Some?
      ensures owner1[i].value in chains[h := r] && InChain(owner1[i].value, chains[h := r][owner1[i].value], i)
    {
      assert owner[i].Some? ==> owner[i].value in chains && InChain(owner[i].value, chains[owner[i].value], i);
    }
    hide ChainOwned, InChain;
  }

  lemma PostFormatted(free: seq<bool>, desc: seq<Desc>, desc1: seq<Desc>, ops: seq<Header>, ops1: seq<Header>,
                      owner: seq<Option<nat>>, chains: map<nat, Request>, h: nat, r: Request)
    requires Chained(free, owner, chains) && ThreeFree(free, h, r) && AllFormatted(free, desc, ops, chains)
    requires |desc1| == NUM && |ops1| == NUM && Formatted(desc1, ops1, h, r)
    requires forall i :: 0 <= i < NUM && !InChain(h, r, i) ==> desc1[i] == desc[i]
    requires forall i :: 0 <= i < NUM && i != h ==> ops1[i] == ops[i]
    ensures AllFormatted(Set3(free, h, r.d1, r.d2, false), desc1, ops1, chains[h := r])
  {
    forall g | g in chains ensures g != h && Formatted(desc1, ops1, g, chains[g]) {
      assert ChainOwned(owner, g, chains[g]) && Formatted(desc, ops, g, chains[g]);
    }
  }

  // A change of r that keeps its descriptors, buffer and direction.
  predicate Restaged(r: Request, r1: Request) {
    r1.d1 == r.d1 && r1.d2 == r.d2 && r1.buf == r.buf && r1.write == r.write && r1.sector == r.sector
  }

  lemma Restage(free: seq<bool>, desc: seq<Desc>, ops: seq<Header>, owner: seq<Option<nat>>, chains: map<nat, Request>,
      h: nat, r1: Request)
    requires Chained(free, owner, chains) && AllFormatted(free, desc, ops, chains) && h in chains
      && Restaged(chains[h], r1)
    ensures Chained(free, owner, chains[h := r1]) && AllFormatted(free, desc, ops, chains[h := r1])
  {
    assert ChainOwned(owner, h, chains[h]) && Formatted(desc, ops, h, chains[h]);
  }

  lemma FreeChained(free: seq<bool>, owner: seq<Option<nat>>, chains: map<nat, Request>, h: nat)
    requires Chained(free, owner, chains) && h in chains
    ensures ChainOwned(owner, h, chains[h])
    ensures Chained(Set3(free, h, chains[h].d1, chains[h].d2, true), Set3(owner, h, chains[h].d1, chains[h].d2, None),
        chains - {h})
  {
    var owner1 := Set3(owner, h, chains[h].d1, chains[h].d2, None);
    assert ChainOwned(owner, h, chains[h]);
    forall g | g in chains - {h} ensures ChainOwned(owner1, g, (chains - {h})[g]) {
      assert ChainOwned(owner, g, chains[g]);
    }
    forall i | 0 <= i < NUM && owner1[i].Some?
      ensures owner1[i].value in chains - {h} && InChain(owner1[i].value, (chains - {h})[owner1[i].value], i)
    {
      assert owner[i].value in chains && InChain(owner[i].value, chains[owner[i].value], i);
    }
  }

  lemma FreeFormatted(free: seq<bool>, desc: seq<Desc>, ops: seq<Header>, owner: seq<Option<nat>>,
      chains: map<nat, Request>, h: nat)
    requires Chained(free, owner, chains) && AllFormatted(free, desc, ops, chains) && h in chains
    ensures ChainOwned(owner, h, chains[h])
    ensures AllFormatted(Set3(free, h, chains[h].d1, chains[h].d2, true),
        Set3(desc, h, chains[h].d1, chains[h].d2, ZERO), ops, chains - {h})
  {
    assert ChainOwned(owner, h, chains[h]);
    forall g | g in chains - {h} ensures Formatted(Set3(desc, h, chains[h].d1, chains[h].d2, ZERO), ops, g, chains[g]) {
      assert ChainOwned(owner, g, chains[g]) && Formatted(desc, ops, g, chains[g]);
    }
  }

  // The descriptors split into the free ones and three for each request under way.
  lemma {:induction false} Conservation(free: seq<bool>, owner: seq<Option<nat>>, chains: map<nat, Request>)
    requires Chained(free, owner, chains)
    ensures |FreeSet(free)| + 3 * |chains| == NUM
    decreases |chains|
  {
    if chains == map[] {
      AllFree(free, NUM);
    } else {
      var h :| h in chains;
      FreeChained(free, owner, chains, h);
      assert |chains - {h}| == |chains| - 1 by {
        assert (chains - {h}).Keys == chains.Keys - {h};
        assert |chains.Keys| == |chains| && |(chains - {h}).Keys| == |chains - {h}|;
      }
      ThreeMore(free, h, chains[h].d1, chains[h].d2);
      Conservation(Set3(free, h, chains[h].d1, chains[h].d2, true), Set3(owner, h, chains[h].d1, chains[h].d2, None),
          chains - {h});
    }
  }

  lemma {:induction false} AllFree(free: seq<bool>, n: nat)
    requires n <= |free| && forall i :: 0 <= i < n ==> free[i]
    ensures |FreeSet(free[..n])| == n
    ensures n == |free| ==> |FreeSet(free)| == n
  {
    if n > 0 {
      AllFree(free, n - 1);
      assert FreeSet(free[..n]) == FreeSet(free[..n - 1]) + {n - 1};
    }
    assert n == |free| ==> free[..n] == free;
  }

  lemma ThreeMore(free: seq<bool>, i: nat, j: nat, k: nat)
    requires i < |free| && j < |free| && k < |free| && i != j && i != k && j != k && !free[i] && !free[j] && !free[k]
    ensures |FreeSet(Set3(free, i, j, k, true))| == |FreeSet(free)| + 3
  {
    OneMore(free, i);
    OneMore(free[i := true], j);
    OneMore(free[i := true][j := true], k);
    hide FreeSet;
  }

  lemma OneMore(free: seq<bool>, d: nat)
    requires d < |free| && !free[d]
    ensures |FreeSet(free[d := true])| == |FreeSet(free)| + 1
  {
    assert FreeSet(free[d := true]) == FreeSet(free) + {d};
  }
}

// The sleeps of kernel/virtio_disk.c: virtio_disk_rw for three free descriptors and for its request, and the
// interrupt handler and the other callers that wake it. What the rings hold is in VirtioDisk; here a request is its
// buffer, and vdisk_lock protects the number of free descriptors and the set of buffers with b->disk == 1.
module VirtioWait {
  import opened Basics
  import opened SleepWakeup
  import VirtioDisk
  import VirtioRings

  type Chan = VirtioDisk.Chan
  type Buf = nat

  datatype Shared = Shared(free: nat, busy: set<Buf>)

  predicate Blocked(d: Shared, c: Chan) {
    match c
    case FreeChan => d.free < 3
    case BufChan(b) => b in d.busy
  }

  // Where a process is. In virtio_disk_rw: k descriptors taken by alloc3_desc; k still to give back after it failed;
  // between the free and the wakeup of free_desc; waiting for the device; k of the chain still to free.
  // In virtio_disk_intr: before the test of its loop, and before the wakeup for a buffer.
  datatype At =
    | Out
    | Alloc(b: Buf, k: nat)
    | Undo(b: Buf, k: nat)
    | UndoWake(b: Buf, k: nat)
    | Wait(b: Buf)
    | Chain(b: Buf, k: nat)
    | ChainWake(b: Buf, k: nat)
    | Intr
    | IntrWake(b: Buf)

  // Besides, the requests that the device works on, and those in the used ring, which need no lock to change.
  datatype State = State(m: Monitor<Shared, Chan>, at: seq<At>, flying: set<Buf>, used: seq<Buf>)

  datatype Event = CallRw(p: Pid, b: Buf) | CallIntr(p: Pid) | Go(p: Pid) | Complete(b: Buf)

  function Init(n: nat): State {
    var d := Shared(VirtioRings.NUM, {});
    State(Monitor(d, seq(n, _ => Away), None, d, {}), seq(n, _ => Out), {}, [])
  }

  function BufOf(a: At): Option<Buf> {
    match a
    case Alloc(b, _) => Some(b)
    case Undo(b, _) => Some(b)
    case UndoWake(b, _) => Some(b)
    case Wait(b) => Some(b)
    case Chain(b, _) => Some(b)
    case ChainWake(b, _) => Some(b)
    case _ => None
  }

  function Inner(p: Pid, a: At, d: Shared, used: seq<Buf>): SleepWakeup.Event<Shared, Chan> {
    match a
    case Alloc(b, k) =>
      if k >= 3 then Act(p, d.(busy := d.busy + {b}))
      else if d.free > 0 then Act(p, d.(free := d.free - 1))
      else if k > 0 then Act(p, d.(free := d.free + 1))
      else CallSleep(p, VirtioDisk.FreeChan)
    case Undo(b, k) => if k > 0 then Act(p, d.(free := d.free + 1)) else CallSleep(p, VirtioDisk.FreeChan)
    case UndoWake(_, _) => CallWakeup(p, VirtioDisk.FreeChan)
    case Wait(b) => if b in d.busy then CallSleep(p, VirtioDisk.BufChan(b)) else Act(p, d.(free := d.free + 1))
    case Chain(_, k) => if k > 0 then Act(p, d.(free := d.free + 1)) else Release(p)
    case ChainWake(_, _) => CallWakeup(p, VirtioDisk.FreeChan)
    case Intr => if used != [] then Act(p, d.(busy := d.busy - {used[0]})) else Release(p)
    case IntrWake(b) => CallWakeup(p, VirtioDisk.BufChan(b))
    case Out => Release(p)
  }

  function Next(p: Pid, a: At, f: Phase<Chan>, d: Shared, used: seq<Buf>): SleepWakeup.Event<Shared, Chan> {
    match f
    case Away => Acquire(p)
    case Woken => Acquire(p)
    case Waking(_, _) => Scan(p)
    case Parking(_) => LetGo(p)
    case Parked(_) => Mark(p)
    case Dozing(_) => SwitchAway(p)
    case Asleep(_) => SwitchAway(p) // not enabled
    case Inside => Inner(p, a, d, used)
  }

  function After(a: At, f: Phase<Chan>, d: Shared, used: seq<Buf>): At {
    if !f.Inside? then a
    else
      match a
      case Alloc(b, k) =>
        if k >= 3 then Wait(b) else if d.free > 0 then Alloc(b, k + 1) else if k > 0 then UndoWake(b, k - 1) else a
      case Undo(b, k) => if k > 0 then UndoWake(b, k - 1) else Alloc(b, 0)
      case UndoWake(b, k) => Undo(b, k)
      case Wait(b) => if b in d.busy then a else ChainWake(b, 2)
      case Chain(b, k) => if k > 0 then ChainWake(b, k - 1) else Out
      case ChainWake(b, k) => Chain(b, k)
      case Intr => if used != [] then IntrWake(used[0]) else Out
      case IntrWake(_) => Intr
      case Out => a
  }

  // No two callers have the same buffer: whoever calls virtio_disk_rw holds its sleep lock.
  predicate Enabled(s: State, e: Event) {
    && |s.at| == |s.m.phase|
    && match e
       case CallRw(p, b) => p < |s.at| && s.at[p].Out? && forall q :: 0 <= q < |s.at| ==> BufOf(s.at[q]) != Some(b)
       case CallIntr(p) => p < |s.at| && s.at[p].Out?
       case Go(p) => p < |s.at| && !s.at[p].Out? && SleepWakeup.Enabled(s.m, NextOf(s, p))
       case Complete(b) => b in s.flying
  }

  function NextOf(s: State, p: Pid): SleepWakeup.Event<Shared, Chan>
    requires p < |s.at| == |s.m.phase|
  {
    Next(p, s.at[p], s.m.phase[p], s.m.shared, s.used)
  }

  predicate Submits(a: At, f: Phase<Chan>) {
    f.Inside? && a.Alloc? && a.k >= 3
  }

  predicate Notices(a: At, f: Phase<Chan>, used: seq<Buf>) {
    f.Inside? && a.Intr? && used != []
  }

  function Step(s: State, e: Event): State
    requires Enabled(s, e)
  {
    match e
    case CallRw(p, b) => s.(at := s.at[p := Alloc(b, 0)])
    case CallIntr(p) => s.(at := s.at[p := Intr])
    case Complete(b) => s.(flying := s.flying - {b}, used := s.used + [b])
    case Go(p) =>
      var a, f := s.at[p], s.m.phase[p];
      State(SleepWakeup.Step(s.m, NextOf(s, p)), s.at[p := After(a, f, s.m.shared, s.used)],
            if Submits(a, f) then s.flying + {a.b} else s.flying,
            if Notices(a, f, s.used) then s.used[1..] else s.used)
  }

  // ----- each process and the section of vdisk_lock it is in

  predicate PlaceOk(a: At, f: Phase<Chan>) {
    match a
    case Out => f.Away?
    case Alloc(_, k) => k <= 3 && !f.Waking? && (k > 0 ==> f.Inside?) && SleepsAt(f, VirtioDisk.FreeChan)
    case Undo(_, k) => k < 3 && (f.Inside? || (f.Waking? && f.chan.FreeChan?))
    case UndoWake(_, k) => k < 3 && f.Inside?
    case Wait(b) => !f.Away? && !f.Waking? && SleepsAt(f, VirtioDisk.BufChan(b))
    case Chain(_, k) => k < 3 && (f.Inside? || (f.Waking? && f.chan.FreeChan?))
    case ChainWake(_, k) => k < 3 && f.Inside?
    case Intr => f.Away? || f.Inside? || (f.Waking? && f.chan.BufChan?)
    case IntrWake(_) => f.Inside?
  }

  predicate SleepsAt(f: Phase<Chan>, c: Chan) {
    f.Parking? || f.Parked? || f.Dozing? || f.Asleep? ==> f.chan == c
  }

  // What the section has done so far.
  ghost predicate SectionOk(m: Monitor<Shared, Chan>, a: At, f: Phase<Chan>) {
    match a
    case Alloc(_, k) => m.entry == m.shared.(free := m.shared.free + k)
    case Undo(_, k) => m.entry == m.shared.(free := m.shared.free + k) && m.entry.free < 3
    case UndoWake(_, k) => m.entry == m.shared.(free := m.shared.free + k) && m.entry.free < 3
    case Wait(_) => m.shared.free <= m.entry.free && m.entry.busy <= m.shared.busy
    case Chain(_, _) => m.entry.busy <= m.shared.busy && (f.Inside? ==> VirtioDisk.FreeChan in m.woken)
    case ChainWake(_, _) => m.entry.busy <= m.shared.busy
    case Intr => m.shared.free == m.entry.free &&
      forall c :: c in m.entry.busy && c !in m.shared.busy ==>
        VirtioDisk.BufChan(c) in m.woken || (f.Waking? && f.chan == VirtioDisk.BufChan(c))
    case IntrWake(b) => m.shared.free == m.entry.free &&
      forall c :: c in m.entry.busy && c !in m.shared.busy && c != b ==> VirtioDisk.BufChan(c) in m.woken
    case Out => true
  }

  // How many descriptors it holds.
  function Held(a: At): nat {
    match a
    case Alloc(_, k) => k
    case Undo(_, k) => k
    case UndoWake(_, k) => k
    case Wait(_) => 3
    case Chain(_, k) => k
    case ChainWake(_, k) => k
    case _ => 0
  }

  function HeldByAll(at: seq<At>): nat {
    if at == [] then 0 else HeldByAll(at[..|at| - 1]) + Held(at[|at| - 1])
  }

  lemma {:induction false} HeldUpdate(at: seq<At>, p: nat, a: At)
    requires p < |at|
    ensures HeldByAll(at[p := a]) == HeldByAll(at) - Held(at[p]) + Held(a)
  {
    var n := |at| - 1;
    if p < n {
      HeldUpdate(at[..n], p, a);
      assert at[p := a][..n] == at[..n][p := a];
    } else {
      assert at[p := a][..n] == at[..n];
    }
  }

  ghost predicate Places(s: State) {
    && |s.at| == |s.m.phase|
    && (forall p: Pid :: p < |s.at| ==> PlaceOk(s.at[p], s.m.phase[p]))
    && forall p: Pid :: p < |s.at| && HasLock(s.m.phase[p]) ==> SectionOk(s.m, s.at[p], s.m.phase[p])
  }

  // The buffers with b->disk == 1 are those with the device or in the used ring, and their callers wait for them.
  ghost predicate Requests(s: State) {
    && s.m.shared.busy == s.flying + (set b | b in s.used) && Distinct(s.used)
    && (forall b :: b in s.flying ==> b !in s.used)
    && (forall p, q :: 0 <= p < q < |s.at| && BufOf(s.at[p]).Some? ==> BufOf(s.at[p]) != BufOf(s.at[q]))
    && forall b :: b in s.m.shared.busy ==> Wait(b) in s.at
  }

  ghost predicate Inv(s: State) {
    && Places(s) && SleepWakeup.Inv(s.m, Blocked) && Requests(s)
    && s.m.shared.free + HeldByAll(s.at) == VirtioRings.NUM
  }

  lemma IsCareful(s: State, p: Pid)
    requires Places(s) && SleepWakeup.Inv(s.m, Blocked) && Enabled(s, Go(p))
    ensures Careful(s.m, NextOf(s, p), Blocked)
  {
    assert PlaceOk(s.at[p], s.m.phase[p]);
    assert HasLock(s.m.phase[p]) ==> SectionOk(s.m, s.at[p], s.m.phase[p]);
  }

  lemma GoerPlace(m: Monitor<Shared, Chan>, a: At, p: Pid, used: seq<Buf>)
    requires p < |m.phase| && !a.Out? && PlaceOk(a, m.phase[p])
    requires SleepWakeup.Enabled(m, Next(p, a, m.phase[p], m.shared, used))
    requires HasLock(m.phase[p]) ==> SectionOk(m, a, m.phase[p])
    ensures var m1, a1 := SleepWakeup.Step(m, Next(p, a, m.phase[p], m.shared, used)),
        After(a, m.phase[p], m.shared, used);
      PlaceOk(a1, m1.phase[p]) && (HasLock(m1.phase[p]) ==> SectionOk(m1, a1, m1.phase[p]))
  {}

  lemma PlacesGo(s: State, p: Pid)
    requires Places(s) && SleepWakeup.Inv(s.m, Blocked) && Enabled(s, Go(p))
    ensures Places(Step(s, Go(p)))
  {
    var e := NextOf(s, p);
    assert e.p == p;
    GoerPlace(s.m, s.at[p], p, s.used);
    var m1 := SleepWakeup.Step(s.m, e);
    LockInvStep(s.m, e);
    forall q: Pid | q < |s.at| && q != p
      ensures PlaceOk(s.at[q], m1.phase[q]) && (HasLock(m1.phase[q]) ==> SectionOk(m1, s.at[q], m1.phase[q]))
    {
      OthersPhase(s.m, e, q);
      assert PlaceOk(s.at[q], s.m.phase[q]);
    }
    hide SleepWakeup.Inv, SleepWakeup.Step, SleepWakeup.Enabled, SleepWakeup.LockInv, Next, After, PlaceOk, SectionOk;
  }

  // Descriptors taken are counted out, and back in.
  lemma GoerHeld(m: Monitor<Shared, Chan>, a: At, p: Pid, used: seq<Buf>)
    requires p < |m.phase| && !a.Out? && PlaceOk(a, m.phase[p])
    requires SleepWakeup.Enabled(m, Next(p, a, m.phase[p], m.shared, used))
    ensures var d1, a1 := SleepWakeup.Step(m, Next(p, a, m.phase[p], m.shared, used)).shared,
        After(a, m.phase[p], m.shared, used);
      && d1.free + Held(a1) == m.shared.free + Held(a)
      && d1.busy == (if Submits(a, m.phase[p]) then m.shared.busy + {a.b}
                     else if Notices(a, m.phase[p], used) then m.shared.busy - {used[0]} else m.shared.busy)
      && (BufOf(a1) == BufOf(a) || a1.Out? || a.Intr? || a.IntrWake?) && (a.Intr? || a.IntrWake? ==> BufOf(a1).None?)
      && (a.Wait? && a1 != a ==> a.b !in m.shared.busy) && (Submits(a, m.phase[p]) ==> a1 == Wait(a.b))
  {}

  lemma RequestsGo(s: State, p: Pid)
    requires Places(s) && Requests(s) && Enabled(s, Go(p))
    ensures Requests(Step(s, Go(p)))
    ensures Step(s, Go(p)).m.shared.free + HeldByAll(Step(s, Go(p)).at) == s.m.shared.free + HeldByAll(s.at)
  {
    var s1 := Step(s, Go(p));
    assert PlaceOk(s.at[p], s.m.phase[p]);
    GoerHeld(s.m, s.at[p], p, s.used);
    HeldUpdate(s.at, p, s1.at[p]);
    hide SleepWakeup.Step, SleepWakeup.Enabled, Next, After, PlaceOk, SectionOk, HeldByAll;
    RequestsMoved(s, s1, p);
  }

  lemma RequestsMoved(s: State, s1: State, p: Pid)
    requires Requests(s) && p < |s.at| == |s.m.phase| == |s1.at| && s1.at == s.at[p := s1.at[p]]
    requires var a, f := s.at[p], s.m.phase[p];
      && s1.m.shared.busy == (if Submits(a, f) then s.m.shared.busy + {a.b}
                              else if Notices(a, f, s.used) then s.m.shared.busy - {s.used[0]} else s.m.shared.busy)
      && s1.flying == (if Submits(a, f) then s.flying + {a.b} else s.flying)
      && s1.used == (if Notices(a, f, s.used) then s.used[1..] else s.used)
      && (BufOf(s1.at[p]) == BufOf(a) || BufOf(s1.at[p]).None?)
      && (a.Wait? && s1.at[p] != a ==> a.b !in s.m.shared.busy) && (Submits(a, f) ==> s1.at[p] == Wait(a.b))
    ensures Requests(s1)
  {
    var a, f := s.at[p], s.m.phase[p];
    if Submits(a, f) {
      NotWaiting(s, p);
    }
    forall b | b in s1.m.shared.busy ensures Wait(b) in s1.at {
      if Submits(a, f) && b == a.b {
        assert s1.at[p] == Wait(b);
      } else {
        var q :| 0 <= q < |s.at| && s.at[q] == Wait(b);
        assert s1.at[q] == Wait(b);
      }
    }
    if Notices(a, f, s.used) {
      assert s.used == [s.used[0]] + s.used[1..];
    }
  }

  lemma NotWaiting(s: State, p: Pid)
    requires Requests(s) && p < |s.at| && s.at[p].Alloc?
    ensures s.at[p].b !in s.m.shared.busy
  {
    forall q | 0 <= q < |s.at| ensures s.at[q] != Wait(s.at[p].b) {
      OneCaller(s, p, q);
    }
  }

  lemma OneCaller(s: State, p: nat, q: nat)
    requires Requests(s) && p < |s.at| && q < |s.at|
    ensures p != q && BufOf(s.at[p]).Some? ==> BufOf(s.at[p]) != BufOf(s.at[q])
  {}

  lemma GoStep(s: State, p: Pid)
    requires Inv(s) && Enabled(s, Go(p))
    ensures Inv(Step(s, Go(p)))
  {
    hide SleepWakeup.Inv, SleepWakeup.Step, SleepWakeup.Enabled, Places, Requests, HeldByAll, Next, After;
    IsCareful(s, p);
    assert |s.at| == |s.m.phase|;
    InvStep(s.m, NextOf(s, p), Blocked);
    PlacesGo(s, p);
    RequestsGo(s, p);
  }

  lemma CallStep(s: State, e: Event)
    requires Inv(s) && Enabled(s, e) && !e.Go?
    ensures Inv(Step(s, e))
  {
    hide SleepWakeup.Inv, HeldByAll;
    var s1 := Step(s, e);
    if e.Complete? {
      assert s1.used[|s.used|] == e.b && s1.used[..|s.used|] == s.used;
    } else {
      HeldUpdate(s.at, e.p, s1.at[e.p]);
      assert PlaceOk(s.at[e.p], s.m.phase[e.p]);
      forall b | b in s.m.shared.busy ensures Wait(b) in s1.at {
        var q :| 0 <= q < |s.at| && s.at[q] == Wait(b);
        assert s1.at[q] == Wait(b);
      }
    }
  }

  // ----- whole runs

  ghost predicate Legal(s: State, es: seq<Event>)
    decreases |es|
  {
    es == [] || (Enabled(s, es[0]) && Legal(Step(s, es[0]), es[1..]))
  }

  ghost function Exec(s: State, es: seq<Event>): State
    requires Legal(s, es)
    decreases |es|
  {
    if es == [] then s else Exec(Step(s, es[0]), es[1..])
  }

  lemma {:induction false} InvRun(s: State, es: seq<Event>)
    requires Inv(s) && Legal(s, es)
    ensures Inv(Exec(s, es))
    decreases |es|
  {
    hide Inv, Step, Enabled;
    if es != [] {
      if es[0].Go? {
        GoStep(s, es[0].p);
      } else {
        CallStep(s, es[0]);
      }
      InvRun(Step(s, es[0]), es[1..]);
    }
  }

  ghost predicate Reached(s: State) {
    exists n: nat, es :: Legal(Init(n), es) && Exec(Init(n), es) == s
  }

  lemma {:induction false} NoneHeld(n: nat)
    ensures HeldByAll(seq(n, _ => Out)) == 0
  {
    if n > 0 {
      NoneHeld(n - 1);
      assert seq(n, _ => Out)[..n - 1] == seq(n - 1, _ => Out);
    }
  }

  lemma InvInit(n: nat)
    ensures Inv(Init(n))
  {
    NoneHeld(n);
    hide HeldByAll;
  }

  lemma ReachedInv(s: State)
    requires Reached(s)
    ensures Inv(s)
  {
    var n: nat, es :| Legal(Init(n), es) && Exec(Init(n), es) == s;
    InvInit(n);
    hide Inv;
    InvRun(Init(n), es);
  }

  // With vdisk_lock free, whoever sleeps for descriptors lacks one of three, and whoever sleeps for its buffer
  // still has it with the device or in the used ring.
  lemma SleepersWait(s: State, p: Pid, c: Chan)
    requires Reached(s) && s.m.holder == None && p < |s.m.phase| && SleepsOn(s.m.phase[p], c)
    ensures c.FreeChan? ==> s.m.shared.free < 3
    ensures c.BufChan? ==> c.b in s.m.shared.busy && (c.b in s.flying || c.b in s.used)
  {
    ReachedInv(s);
    NoLostWakeup(s.m, Blocked, p, c);
  }

  // virtio_disk_rw goes on until it has submitted its request with three descriptors, waits until the device has
  // completed it and the interrupt handler has seen that, and comes back when it has freed all three.
  lemma RwReturns(s: State, e: Event, p: Pid)
    requires Reached(s) && Enabled(s, e) && p < |s.at| && BufOf(s.at[p]).Some?
    ensures |Step(s, e).at| == |s.at|
    ensures var a, s1, b := s.at[p], Step(s, e), BufOf(s.at[p]).value;
      match a
      case Wait(_) => s1.at[p] == a || (b !in s.flying && b !in s.used && b !in s.m.shared.busy && s1.at[p].ChainWake?)
      case Chain(_, k) => s1.at[p] == a || (if k > 0 then s1.at[p] == ChainWake(b, k - 1) else s1.at[p].Out?)
      case ChainWake(_, k) => s1.at[p] == a || s1.at[p] == Chain(b, k)
      case _ =>
        || s1.at[p].Alloc? || s1.at[p].Undo? || s1.at[p].UndoWake?
        || (s1.at[p] == Wait(b) && b in s1.flying && b in s1.m.shared.busy && Held(a) == 3)
  {
    ReachedInv(s);
    assert PlaceOk(s.at[p], s.m.phase[p]);
    hide HeldByAll, SleepWakeup.Inv, SectionOk;
  }

  // virtio_disk_intr comes back only when it has found the used ring empty.
  lemma IntrReturns(s: State, e: Event, p: Pid)
    requires Reached(s) && Enabled(s, e) && p < |s.at| && (s.at[p].Intr? || s.at[p].IntrWake?)
    ensures |Step(s, e).at| == |s.at|
    ensures var a1 := Step(s, e).at[p];
      a1.Intr? || a1.IntrWake? || (s.at[p].Intr? && a1.Out? && s.used == [])
  {
    ReachedInv(s);
    assert PlaceOk(s.at[p], s.m.phase[p]);
    hide HeldByAll, SleepWakeup.Inv, SectionOk;
  }

  // No descriptor is lost: those free and those held make up all of them.
  lemma DescriptorsKept(s: State)
    requires Reached(s)
    ensures s.m.shared.free + HeldByAll(s.at) == VirtioRings.NUM
  {
    ReachedInv(s);
  }

  // No deadlock: when no call can go on, the device still has a request to serve or an interrupt to raise.
  lemma NoDeadlock(s: State, p: Pid)
    requires Reached(s) && (forall q: Pid :: !Enabled(s, Go(q))) && p < |s.at| && !s.at[p].Out?
    ensures s.flying != {} || s.used != []
  {
    ReachedInv(s);
    if s.m.holder.Some? {
      var q := SomeoneMoves(s);
    } else {
      Stuck(s, p);
      SleepersWait(s, p, s.m.phase[p].chan);
      if s.m.phase[p].chan.FreeChan? {
        var q := Holder(s.at);
        Stuck(s, q);
        SleepersWait(s, q, s.m.phase[q].chan);
        assert PlaceOk(s.at[q], s.m.phase[q]);
      }
    }
  }

  lemma Stuck(s: State, p: Pid)
    requires Inv(s) && s.m.holder == None && p < |s.at| && !s.at[p].Out? && !Enabled(s, Go(p))
    ensures s.m.phase[p].Asleep?
  {
    assert PlaceOk(s.at[p], s.m.phase[p]);
  }

  lemma {:induction false} Holder(at: seq<At>) returns (q: nat)
    requires HeldByAll(at) > 0
    ensures q < |at| && Held(at[q]) > 0
  {
    var n := |at| - 1;
    if Held(at[n]) > 0 {
      q := n;
    } else {
      q := Holder(at[..n]);
    }
  }

  lemma SomeoneMoves(s: State) returns (p: Pid)
    requires Inv(s) && s.m.holder.Some?
    ensures Enabled(s, Go(p))
  {
    p := s.m.holder.value;
    assert HasLock(s.m.phase[p]) && PlaceOk(s.at[p], s.m.phase[p]);
    var f := s.m.phase[p];
    if f.Waking? && f.at < |s.m.phase| && f.at != p && HasOwnLock(s.m.phase[f.at]) {
      p := f.at;
      assert PlaceOk(s.at[p], s.m.phase[p]);
    }
  }
}

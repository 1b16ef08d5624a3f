// kernel/sleeplock.c: a long-term lock built from a spinlock lk, sleep and wakeup.
module SleepLock {
  import opened Basics
  import opened SleepWakeup

  // Channels are addresses; the lock sleeps on its own.
  type Chan = nat

  const LK: Chan := 1

  datatype Lock = Lock(locked: bool, pid: Option<Pid>)

  predicate Blocked(l: Lock, c: Chan) {
    c == LK && l.locked
  }

  // Where a process is: outside, in acquiresleep, past its assignments, between the two calls, in releasesleep
  // before and after its assignments, and after its wakeup.
  datatype At = Out | Try | Got | Owner | Drop | Cleared | Done

  datatype State = State(m: Monitor<Lock, Chan>, at: seq<At>)

  datatype Event = CallAcquire(p: Pid) | CallRelease(p: Pid) | Go(p: Pid)

  function Init(n: nat): State {
    var l := Lock(false, None);
    State(Monitor(l, seq(n, _ => Away), None, l, {}), seq(n, _ => Out))
  }

  predicate InCall(a: At) {
    !a.Out? && !a.Owner?
  }

  function Next(p: Pid, a: At, f: Phase<Chan>, l: Lock): SleepWakeup.Event<Lock, Chan>
    requires InCall(a)
  {
    match f
    case Away => Acquire(p)
    case Woken => Acquire(p)
    case Waking(_, _) => Scan(p)
    case Parking(_) => LetGo(p)
    case Parked(_) => Mark(p)
    case Dozing(_) => SwitchAway(p)
    case Asleep(_) => SwitchAway(p) // not enabled
    case Inside =>
      match a
      case Try => if l.locked then CallSleep(p, LK) else Act(p, Lock(true, Some(p)))
      case Drop => Act(p, Lock(false, None))
      case Cleared => CallWakeup(p, LK)
      case _ => Release(p)
  }

  function After(p: Pid, a: At, f: Phase<Chan>, l: Lock): At
    requires InCall(a)
  {
    match Next(p, a, f, l)
    case Act(_, _) => if a.Try? then Got else Cleared
    case CallWakeup(_, _) => Done
    case Release(_) => if a.Got? then Owner else Out
    case _ => a
  }

  // Only the owner calls releasesleep.
  predicate Enabled(s: State, e: Event) {
    && |s.at| == |s.m.phase| && e.p < |s.at|
    && match e
       case CallAcquire(p) => s.at[p].Out?
       case CallRelease(p) => s.at[p].Owner?
       case Go(p) => InCall(s.at[p]) && SleepWakeup.Enabled(s.m, Next(p, s.at[p], s.m.phase[p], s.m.shared))
  }

  function Step(s: State, e: Event): State
    requires Enabled(s, e)
  {
    match e
    case CallAcquire(p) => s.(at := s.at[p := Try])
    case CallRelease(p) => s.(at := s.at[p := Drop])
    case Go(p) =>
      var a, f, l := s.at[p], s.m.phase[p], s.m.shared;
      State(SleepWakeup.Step(s.m, Next(p, a, f, l)), s.at[p := After(p, a, f, l)])
  }

  predicate Owns(a: At) {
    a.Got? || a.Owner? || a.Drop?
  }

  predicate PlaceOk(a: At, f: Phase<Chan>) {
    && (a.Out? || a.Owner? ==> f.Away?)
    && (a.Got? || a.Cleared? ==> f.Inside?)
    && (a.Drop? ==> f.Away? || f.Inside?)
    && (a.Done? ==> f.Inside? || f.Waking?)
    && (a.Try? ==> !f.Waking?)
  }

  predicate SectionOk(m: Monitor<Lock, Chan>, a: At, f: Phase<Chan>) {
    match a
    case Try => m.shared == m.entry
    case Drop => m.shared == m.entry
    case Got => !m.entry.locked
    case Done => (f.Inside? ==> LK in m.woken) && (f.Waking? ==> f.chan == LK)
    case _ => true
  }

  ghost predicate LockInv(s: State) {
    && |s.at| == |s.m.phase|
    && Inv(s.m, Blocked)
    && (s.m.shared.locked <==> s.m.shared.pid.Some?)
    && (s.m.shared.locked ==> s.m.shared.pid.value < |s.at|)
    && (forall p: Pid :: p < |s.at| ==> (Owns(s.at[p]) <==> s.m.shared.pid == Some(p)))
    && (forall p: Pid :: p < |s.at| ==> PlaceOk(s.at[p], s.m.phase[p]))
    && forall p: Pid :: p < |s.at| && HasLock(s.m.phase[p]) ==> SectionOk(s.m, s.at[p], s.m.phase[p])
  }

  lemma IsCareful(s: State, p: Pid)
    requires LockInv(s) && Enabled(s, Go(p))
    ensures Careful(s.m, Next(p, s.at[p], s.m.phase[p], s.m.shared), Blocked)
  {}

  lemma GoerStep(m: Monitor<Lock, Chan>, a: At, p: Pid)
    requires p < |m.phase| && InCall(a) && PlaceOk(a, m.phase[p])
    requires SleepWakeup.Enabled(m, Next(p, a, m.phase[p], m.shared))
    requires HasLock(m.phase[p]) ==> SectionOk(m, a, m.phase[p])
    ensures var m1, a1 := SleepWakeup.Step(m, Next(p, a, m.phase[p], m.shared)), After(p, a, m.phase[p], m.shared);
      PlaceOk(a1, m1.phase[p]) && (HasLock(m1.phase[p]) ==> SectionOk(m1, a1, m1.phase[p]))
  {}

  // Who owns the lock, before and after.
  lemma OwnerStep(m: Monitor<Lock, Chan>, a: At, p: Pid)
    requires p < |m.phase| && InCall(a) && PlaceOk(a, m.phase[p])
    requires SleepWakeup.Enabled(m, Next(p, a, m.phase[p], m.shared))
    requires Owns(a) <==> m.shared.pid == Some(p)
    requires m.shared.locked <==> m.shared.pid.Some?
    ensures var l1, a1 := SleepWakeup.Step(m, Next(p, a, m.phase[p], m.shared)).shared,
        After(p, a, m.phase[p], m.shared);
      && (Owns(a1) <==> l1.pid == Some(p)) && (l1.locked <==> l1.pid.Some?)
      && (l1 == m.shared || m.shared.pid == Some(p) || m.shared.pid.None?)
      && (l1 == m.shared || l1.pid == Some(p) || l1.pid.None?)
  {}

  lemma GoStep(s: State, p: Pid)
    requires LockInv(s) && Enabled(s, Go(p))
    ensures LockInv(Step(s, Go(p)))
  {
    var e := Next(p, s.at[p], s.m.phase[p], s.m.shared);
    assert e.p == p;
    IsCareful(s, p);
    InvStep(s.m, e, Blocked);
    GoerStep(s.m, s.at[p], p);
    OwnerStep(s.m, s.at[p], p);
    LockInvStep(s.m, e);
    forall q: Pid | q < |s.at| && q != p
      ensures PlaceOk(s.at[q], SleepWakeup.Step(s.m, e).phase[q])
      ensures HasLock(SleepWakeup.Step(s.m, e).phase[q]) ==>
        SectionOk(SleepWakeup.Step(s.m, e), s.at[q], SleepWakeup.Step(s.m, e).phase[q])
    {
      OthersPhase(s.m, e, q);
    }
    hide Inv, SleepWakeup.Step, SleepWakeup.LockInv, SleepWakeup.Enabled, Next, After, PlaceOk, SectionOk, Owns;
  }

  lemma InvStepAny(s: State, e: Event)
    requires LockInv(s) && Enabled(s, e)
    ensures LockInv(Step(s, e))
  {
    if e.Go? {
      GoStep(s, e.p);
    }
    hide Inv;
  }

  ghost predicate Legal(s: State, es: seq<Event>)
    decreases |es|
  {
    es == [] || (Enabled(s, es[0]) && Legal(Step(s, es[0]), es[1..]))
  }

  ghost function Exec(s: State, es: seq<Event>): State
    requires Legal(s, es)
    decreases |es|
  {
    if es == [] then s else Exec(Step(s, es[0]), es[1..])
  }

  lemma {:induction false} InvRun(s: State, es: seq<Event>)
    requires LockInv(s) && Legal(s, es)
    ensures LockInv(Exec(s, es))
    decreases |es|
  {
    hide LockInv, Step, Enabled;
    if es != [] {
      InvStepAny(s, es[0]);
      InvRun(Step(s, es[0]), es[1..]);
    }
  }

  ghost predicate Reached(s: State) {
    exists n: nat, es :: Legal(Init(n), es) && Exec(Init(n), es) == s
  }

  lemma ReachedInv(s: State)
    requires Reached(s)
    ensures LockInv(s)
  {
    var n: nat, es :| Legal(Init(n), es) && Exec(Init(n), es) == s;
    InvRun(Init(n), es);
  }

  // Between acquiresleep and releasesleep there is one process at a time, and lk->pid names it.
  lemma MutualExclusion(s: State, p: Pid, q: Pid)
    requires Reached(s) && p < |s.at| && q < |s.at| && s.at[p].Owner? && Owns(s.at[q])
    ensures p == q && s.m.shared == Lock(true, Some(p))
  {
    ReachedInv(s);
  }

  // acquiresleep comes back only to an owner of the lock, and only an owner gets out, through releasesleep, which
  // comes back once the lock has been free.
  lemma CallsReturn(s: State, e: Event, p: Pid)
    requires Reached(s) && Enabled(s, e) && p < |s.at|
    ensures |Step(s, e).at| == |s.at|
    ensures var a, a1, l1 := s.at[p], Step(s, e).at[p], Step(s, e).m.shared;
      && (a.Out? ==> a1.Out? || a1.Try?)
      && (a.Try? || a.Got? ==> a1 == a || (a.Try? && a1.Got? && !s.m.shared.locked) || (a.Got? && a1.Owner?))
      && (a.Owner? ==> a1.Owner? || e == CallRelease(p))
      && (a.Drop? ==> a1.Drop? || (a1.Cleared? && l1 == Lock(false, None)))
      && (a.Cleared? || a.Done? ==> a1 == a || (a.Cleared? && a1.Done?) || (a.Done? && a1.Out?))
      && (a1.Got? || a1.Owner? ==> l1 == Lock(true, Some(p)))
  {
    ReachedInv(s);
    InvStepAny(s, e);
    assert PlaceOk(s.at[p], s.m.phase[p]) && (Owns(Step(s, e).at[p]) <==> Step(s, e).m.shared.pid == Some(p));
    hide Inv, SectionOk;
  }

  // With lk free, whoever sleeps in acquiresleep waits for a lock that someone owns.
  lemma WaiterMeansHeld(s: State, p: Pid)
    requires Reached(s) && s.m.holder == None && p < |s.m.phase|
    requires HasOwnLock(s.m.phase[p]) || s.m.phase[p].Asleep?
    ensures s.m.shared.locked && exists q: Pid :: q < |s.at| && q != p && Owns(s.at[q])
  {
    ReachedInv(s);
    NoLostWakeup(s.m, Blocked, p, s.m.phase[p].chan);
    assert Owns(s.at[s.m.shared.pid.value]);
    assert PlaceOk(s.at[p], s.m.phase[p]);
  }

  // No deadlock: when no call can go on, whoever is in one is asleep behind an owner outside any call.
  lemma NoDeadlock(s: State, p: Pid)
    requires Reached(s) && forall q: Pid :: !Enabled(s, Go(q))
    requires p < |s.at| && InCall(s.at[p])
    ensures exists q: Pid :: q < |s.at| && s.at[q].Owner?
  {
    ReachedInv(s);
    if s.m.holder.Some? {
      var q := SomeoneMoves(s);
    } else {
      assert PlaceOk(s.at[p], s.m.phase[p]);
      assert !Enabled(s, Go(p));
      WaiterMeansHeld(s, p);
      var q: Pid :| q < |s.at| && Owns(s.at[q]);
      assert PlaceOk(s.at[q], s.m.phase[q]);
      assert !Enabled(s, Go(q));
    }
  }

  lemma SomeoneMoves(s: State) returns (p: Pid)
    requires LockInv(s) && s.m.holder.Some?
    ensures Enabled(s, Go(p))
  {
    p := s.m.holder.value;
    assert HasLock(s.m.phase[p]) && PlaceOk(s.at[p], s.m.phase[p]);
    var f := s.m.phase[p];
    if f.Waking? && f.at < |s.m.phase| && f.at != p && HasOwnLock(s.m.phase[f.at]) {
      p := f.at;
      assert PlaceOk(s.at[p], s.m.phase[p]);
    }
  }
}

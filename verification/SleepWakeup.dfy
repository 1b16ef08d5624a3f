// sleep and wakeup of kernel/proc.c, step by step, under the lock lk that the caller passes to sleep.
//
// A process runs through acquire(lk), its own changes of the state that lk protects, wakeup and sleep, and release(lk).
// A spinlock is an atomic primitive. The sections of p->lock in wakeup and in kill are one step each, enabled
// while no one else holds that p->lock.
module SleepWakeup {
  import opened Basics

  type Pid = nat

  datatype Phase<C> =
    | Away                    // does not hold lk
    | Inside                  // holds lk
    | Waking(chan: C, at: nat) // in wakeup(chan), about to look at process at; holds lk
    | Parking(chan: C)        // in sleep: holds lk and its p->lock
    | Parked(chan: C)         // released lk, still holds its p->lock and is still RUNNING
    | Dozing(chan: C)         // SLEEPING, in sched: still holds its p->lock
    | Asleep(chan: C)         // SLEEPING, its p->lock is free
    | Woken                   // RUNNABLE: on its way to acquire(lk) at the end of sleep

  // entry and woken belong to the section of lk under way: the protected state when lk was taken, and the
  // channels whose wakeup has returned since.
  datatype Monitor<S, C> = Monitor(shared: S, phase: seq<Phase<C>>, holder: Option<Pid>, entry: S, woken: set<C>)

  datatype Event<S, C> =
    | Acquire(p: Pid)
    | Act(p: Pid, s: S)
    | CallWakeup(p: Pid, c: C)
    | Scan(p: Pid)
    | CallSleep(p: Pid, c: C)
    | LetGo(p: Pid)      // release(lk) inside sleep
    | Mark(p: Pid)       // p->state = SLEEPING
    | SwitchAway(p: Pid) // the scheduler releases p->lock
    | Release(p: Pid)
    | Kill(p: Pid)       // kill makes a sleeping process RUNNABLE

  predicate HasLock<C>(f: Phase<C>) {
    f.Inside? || f.Waking? || f.Parking?
  }

  predicate HasOwnLock<C>(f: Phase<C>) {
    f.Parking? || f.Parked? || f.Dozing?
  }

  // p has decided to sleep on c and has not been woken.
  predicate SleepsOn<C(==)>(f: Phase<C>, c: C) {
    (f.Parking? || f.Parked? || f.Dozing? || f.Asleep?) && f.chan == c
  }

  predicate Enabled<S, C>(m: Monitor<S, C>, e: Event<S, C>) {
    && e.p < |m.phase|
    && var f := m.phase[e.p];
      match e
      case Acquire(_) => (f.Away? || f.Woken?) && m.holder.None?
      case Act(_, _) => f.Inside?
      case CallWakeup(_, _) => f.Inside?
      case Scan(p) => f.Waking? && (f.at < |m.phase| && f.at != p ==> !HasOwnLock(m.phase[f.at]))
      case CallSleep(_, _) => f.Inside?
      case LetGo(_) => f.Parking?
      case Mark(_) => f.Parked?
      case SwitchAway(_) => f.Dozing?
      case Release(_) => f.Inside?
      case Kill(_) => f.Asleep?
  }

  function Set<S, C>(m: Monitor<S, C>, p: Pid, f: Phase<C>): Monitor<S, C>
    requires p < |m.phase|
  {
    m.(phase := m.phase[p := f])
  }

  function Step<S, C(==)>(m: Monitor<S, C>, e: Event<S, C>): Monitor<S, C>
    requires Enabled(m, e)
  {
    match e
    case Acquire(p) => Set(m, p, Inside).(holder := Some(p), entry := m.shared, woken := {})
    case Act(p, s) => m.(shared := s)
    case CallWakeup(p, c) => Set(m, p, Waking(c, 0))
    case Scan(p) =>
      var c, i := m.phase[p].chan, m.phase[p].at;
      if i >= |m.phase| then Set(m, p, Inside).(woken := m.woken + {c})
      else if i != p && m.phase[i] == Asleep(c) then Set(Set(m, i, Woken), p, Waking(c, i + 1))
      else Set(m, p, Waking(c, i + 1))
    case CallSleep(p, c) => Set(m, p, Parking(c))
    case LetGo(p) => Set(m, p, Parked(m.phase[p].chan)).(holder := None)
    case Mark(p) => Set(m, p, Dozing(m.phase[p].chan))
    case SwitchAway(p) => Set(m, p, Asleep(m.phase[p].chan))
    case Release(p) => Set(m, p, Away).(holder := None)
    case Kill(p) => Set(m, p, Woken)
  }

  // Every channel that the section has unblocked has had its wakeup, before or after the change.
  ghost predicate Settled<S(!new), C(!new)>(m: Monitor<S, C>, blocked: (S, C) -> bool) {
    forall c :: blocked(m.entry, c) && !blocked(m.shared, c) ==> c in m.woken
  }

  // What the code around sleep and wakeup must see to: it sleeps on c only while c is blocked,
  // and gives lk up only once settled.
  ghost predicate Careful<S(!new), C(!new)>(m: Monitor<S, C>, e: Event<S, C>, blocked: (S, C) -> bool) {
    match e
    case CallSleep(_, c) => blocked(m.shared, c) && Settled(m, blocked)
    case Release(_) => Settled(m, blocked)
    case _ => true
  }

  ghost predicate LockInv<S, C>(m: Monitor<S, C>) {
    && (m.holder.Some? ==> m.holder.value < |m.phase|)
    && forall p: Pid :: p < |m.phase| ==> (HasLock(m.phase[p]) <==> m.holder == Some(p))
  }

  // p, which sleeps on c, has good reason to.
  ghost predicate Justified<S, C>(m: Monitor<S, C>, blocked: (S, C) -> bool, p: Pid, c: C)
    requires LockInv(m)
  {
    if m.holder == None || m.holder == Some(p) then blocked(m.shared, c)
    else
      var f := m.phase[m.holder.value];
      blocked(m.entry, c) && c !in m.woken && (f.Waking? && f.chan == c ==> f.at <= p)
  }

  ghost predicate Inv<S(!new), C(!new)>(m: Monitor<S, C>, blocked: (S, C) -> bool) {
    && LockInv(m)
    && (forall p: Pid :: p < |m.phase| && m.phase[p].Parking? ==> Settled(m, blocked))
    && forall p: Pid, c :: p < |m.phase| && SleepsOn(m.phase[p], c) ==> Justified(m, blocked, p, c)
  }

  lemma LockInvStep<S, C>(m: Monitor<S, C>, e: Event<S, C>)
    requires LockInv(m) && Enabled(m, e)
    ensures LockInv(Step(m, e)) && |Step(m, e).phase| == |m.phase|
  {}

  lemma SharedAfter<S, C>(m: Monitor<S, C>, e: Event<S, C>)
    requires Enabled(m, e)
    ensures Step(m, e).shared == if e.Act? then e.s else m.shared
    ensures |Step(m, e).phase| == |m.phase|
  {}

  // A step seen by another process: it may be woken, and a section of lk is no one else's business.
  lemma OthersPhase<S, C>(m: Monitor<S, C>, e: Event<S, C>, q: Pid)
    requires LockInv(m) && Enabled(m, e) && q < |m.phase| && q != e.p
    ensures var f1 := Step(m, e).phase[q]; f1 == m.phase[q] || (m.phase[q].Asleep? && f1 == Woken)
    ensures HasLock(m.phase[q]) ==> Step(m, e) == m.(phase := Step(m, e).phase)
  {}

  lemma InvStep<S(!new), C(!new)>(m: Monitor<S, C>, e: Event<S, C>, blocked: (S, C) -> bool)
    requires Inv(m, blocked) && Enabled(m, e) && Careful(m, e, blocked)
    ensures Inv(Step(m, e), blocked)
  {
    LockInvStep(m, e);
    var m1 := Step(m, e);
    forall p: Pid, c | p < |m1.phase| && SleepsOn(m1.phase[p], c) ensures Justified(m1, blocked, p, c) {
      if SleepsOn(m.phase[p], c) {
        assert Justified(m, blocked, p, c);
      }
    }
  }

  // No wakeup is lost: while lk is free, whoever sleeps on c, or is about to, sleeps on something still blocked.
  lemma NoLostWakeup<S(!new), C(!new)>(m: Monitor<S, C>, blocked: (S, C) -> bool, p: Pid, c: C)
    requires Inv(m, blocked) && m.holder == None
    requires p < |m.phase| && SleepsOn(m.phase[p], c)
    ensures blocked(m.shared, c)
  {
    assert Justified(m, blocked, p, c);
  }
}

// fork, exit and wait of kernel/proc.c, step by step, over sleep and wakeup under wait_lock.
// A process sleeping in wait may be made RUNNABLE by kill at any time.
module ExitWait {
  import opened Basics
  import opened SleepWakeup

  // initproc is slot 0, the first that userinit's allocproc finds.
  const INIT: Pid := 0

  // What wait_lock protects. zombie[q] is p->state == ZOMBIE.
  datatype Tree = Tree(parent: seq<Option<Pid>>, zombie: seq<bool>)

  predicate ZombieChild(t: Tree, p: Pid, q: Pid) {
    q < |t.parent| && q < |t.zombie| && t.parent[q] == Some(p) && t.zombie[q]
  }

  // A process in wait sleeps on its own struct proc while it has no zombie child.
  ghost predicate Blocked(t: Tree, p: Pid) {
    forall q: Pid :: !ZombieChild(t, p, q)
  }

  // p->state together with where the process is in the code.
  datatype At =
    | Nobody                  // UNUSED
    | Embryo(forker: Pid)     // USED: allocated by fork, not yet RUNNABLE
    | Running                 // none of the below
    | Fork(child: Pid)        // in fork, before acquire(&wait_lock)
    | Adopt(child: Pid)       // before np->parent = p
    | Adopted(child: Pid)
    | Publish(child: Pid)     // wait_lock released, child not yet RUNNABLE
    | Exit                    // in exit, before acquire(&wait_lock)
    | Reparent(i: nat)        // in reparent, about to look at slot i
    | Rouse(i: nat)           // gave child i to init, about to wake init
    | Die                     // parent woken, about to set ZOMBIE
    | Bury                    // ZOMBIE, holds wait_lock and its own p->lock
    | Leaving                 // ZOMBIE, still holds its own p->lock until the switch
    | Dead                    // ZOMBIE
    | Wait                    // in wait, before acquire(&wait_lock)
    | Look(i: nat, kids: bool) // scanning, about to look at slot i
    | Reaped                  // has a result, about to release wait_lock

  datatype State = State(m: Monitor<Tree, Pid>, at: seq<At>)

  datatype Event =
    | CallFork(p: Pid, np: Pid)
    | ForkFails(p: Pid)        // uvmcopy failed: freeproc(np)
    | MakeRunnable(p: Pid)
    | CallExit(p: Pid)
    | LeaveCpu(p: Pid)         // the scheduler releases the p->lock of an exited process
    | CallWait(p: Pid)
    | CopyoutFails(p: Pid)
    | SeesKilled(p: Pid)
    | KilledAsleep(p: Pid)
    | Go(p: Pid)

  function Init(n: nat): State
    requires n > 0
  {
    var t := Tree(seq(n, _ => None), seq(n, _ => false));
    State(Monitor(t, seq(n, _ => Away), None, t, {}), seq(n, i => if i == INIT then Running else Nobody))
  }

  predicate IsZombie(a: At) {
    a.Bury? || a.Leaving? || a.Dead?
  }

  predicate Alive(a: At) {
    !a.Nobody? && !a.Embryo? && !IsZombie(a)
  }

  // In the part of fork, exit or wait that runs under wait_lock or is about to.
  predicate InCall(a: At) {
    a.Fork? || a.Adopt? || a.Adopted? || a.Exit? || a.Reparent? || a.Rouse? || a.Die? || a.Bury? || a.Wait? || a.Look?
      || a.Reaped?
  }

  predicate Sized(s: State) {
    0 < |s.at| == |s.m.phase| == |s.m.shared.parent| == |s.m.shared.zombie|
  }

  predicate TreeSized(t: Tree, n: nat) {
    n == |t.parent| == |t.zombie|
  }

  function SetParent(t: Tree, q: Pid, h: Option<Pid>): Tree
    requires q < |t.parent|
  {
    t.(parent := t.parent[q := h])
  }

  function Bereave(t: Tree, q: Pid): Tree
    requires q < |t.parent| == |t.zombie|
  {
    Tree(t.parent[q := None], t.zombie[q := false])
  }

  // The next step of the code of p in its call, as the monitor sees it.
  function Next(p: Pid, a: At, f: Phase<Pid>, t: Tree, n: nat): SleepWakeup.Event<Tree, Pid>
    requires InCall(a) && TreeSized(t, n) && p < n && (a.Adopt? ==> a.child < n)
  {
    match f
    case Away => Acquire(p)
    case Woken => Acquire(p)
    case Waking(_, _) => Scan(p)
    case Parking(_) => LetGo(p)
    case Parked(_) => Mark(p)
    case Dozing(_) => SwitchAway(p)
    case Asleep(_) => SwitchAway(p) // not enabled
    case Inside =>
      match a
      case Adopt(np) => Act(p, SetParent(t, np, Some(p)))
      case Reparent(i) =>
        if i >= n then (if t.parent[p].Some? then CallWakeup(p, t.parent[p].value) else Act(p, t))
        else if t.parent[i] == Some(p) then Act(p, SetParent(t, i, Some(INIT)))
        else Act(p, t)
      case Rouse(_) => CallWakeup(p, INIT)
      case Die => Act(p, t.(zombie := t.zombie[p := true]))
      case Look(i, kids) =>
        if i >= n then (if kids then CallSleep(p, p) else Release(p))
        else if t.parent[i] == Some(p) && t.zombie[i] then Act(p, Bereave(t, i))
        else Act(p, t)
      case _ => Release(p)
  }

  // Where that step takes p.
  function After(p: Pid, a: At, f: Phase<Pid>, t: Tree, n: nat): At
    requires InCall(a) && TreeSized(t, n) && p < n && (a.Adopt? ==> a.child < n)
  {
    match f
    case Away => (match a case Fork(np) => Adopt(np) case Exit => Reparent(0) case Wait => Look(0, false) case _ => a)
    case Inside =>
      (match a
       case Adopt(np) => Adopted(np)
       case Adopted(np) => Publish(np)
       case Reparent(i) => if i >= n then Die else if t.parent[i] == Some(p) then Rouse(i) else Reparent(i + 1)
       case Rouse(i) => Reparent(i + 1)
       case Die => Bury
       case Bury => Leaving
       case Look(i, kids) =>
         if i >= n then (if kids then Look(0, false) else Running)
         else if t.parent[i] == Some(p) then (if t.zombie[i] then Reaped else Look(i + 1, true))
         else Look(i + 1, kids)
       case _ => Running)
    case _ => a
  }

  // wait takes the p->lock of each child it looks at.
  predicate ChildLockFree(p: Pid, a: At, f: Phase<Pid>, t: Tree, at: seq<At>)
    requires TreeSized(t, |at|)
  {
    f.Inside? && a.Look? && a.i < |at| && t.parent[a.i] == Some(p) ==> !at[a.i].Leaving? && !at[a.i].Bury?
  }

  predicate GoEnabled(s: State, p: Pid) {
    && Sized(s) && p < |s.at|
    && var a, f, t := s.at[p], s.m.phase[p], s.m.shared;
      && InCall(a) && (a.Adopt? ==> a.child < |s.at|)
      && ChildLockFree(p, a, f, t, s.at)
      && SleepWakeup.Enabled(s.m, Next(p, a, f, t, |s.at|))
  }

  predicate Enabled(s: State, e: Event) {
    && Sized(s) && e.p < |s.at|
    && var a, f, t := s.at[e.p], s.m.phase[e.p], s.m.shared;
      match e
      case CallFork(p, np) => a.Running? && np < |s.at| && s.at[np].Nobody?
      case ForkFails(_) => a.Fork? && a.child < |s.at|
      case MakeRunnable(_) => a.Publish? && a.child < |s.at|
      case CallExit(p) => a.Running? && p != INIT
      case LeaveCpu(_) => a.Leaving?
      case CallWait(_) => a.Running?
      case CopyoutFails(p) =>
        f.Inside? && a.Look? && a.i < |s.at| && ZombieChild(t, p, a.i) && !s.at[a.i].Leaving? && !s.at[a.i].Bury?
      case SeesKilled(_) => f.Inside? && a.Look? && a.i >= |s.at|
      case KilledAsleep(_) => f.Asleep?
      case Go(p) => GoEnabled(s, p)
  }

  // The slot that p's step frees, if it is the one in which wait reaps a child.
  predicate Reaps(s: State, p: Pid, q: Pid) {
    && Sized(s) && p < |s.at| && q < |s.at|
    && s.m.phase[p].Inside? && s.at[p].Look? && s.at[p].i == q && ZombieChild(s.m.shared, p, q)
  }

  function Step(s: State, e: Event): State
    requires Enabled(s, e)
  {
    match e
    case CallFork(p, np) => s.(at := s.at[p := Fork(np)][np := Embryo(p)])
    case ForkFails(p) => s.(at := s.at[s.at[p].child := Nobody][p := Running])
    case MakeRunnable(p) => s.(at := s.at[s.at[p].child := Running][p := Running])
    case CallExit(p) => s.(at := s.at[p := Exit])
    case LeaveCpu(p) => s.(at := s.at[p := Dead])
    case CallWait(p) => s.(at := s.at[p := Wait])
    case CopyoutFails(p) => s.(at := s.at[p := Reaped])
    case SeesKilled(p) => s.(at := s.at[p := Reaped])
    case KilledAsleep(p) => s.(m := SleepWakeup.Step(s.m, Kill(p)))
    case Go(p) =>
      var a, f, t := s.at[p], s.m.phase[p], s.m.shared;
      var m1 := SleepWakeup.Step(s.m, Next(p, a, f, t, |s.at|));
      var at1 := s.at[p := After(p, a, f, t, |s.at|)];
      if a.Look? && Reaps(s, p, a.i) then State(m1, at1[a.i := Nobody]) else State(m1, at1)
  }

  // ----- the process tree

  ghost predicate TreeInv(s: State) {
    && Sized(s)
    && (forall q: Pid :: q < |s.at| ==> SlotOk(s, q))
    && Alive(s.at[INIT]) && s.m.shared.parent[INIT].None?
  }

  // One slot: zombies are exactly the processes past the assignment in exit; every parent is alive;
  // every process but init that has started has a parent.
  predicate SlotOk(s: State, q: Pid)
    requires Sized(s) && q < |s.at|
  {
    var a, h := s.at[q], s.m.shared.parent[q];
    && (s.m.shared.zombie[q] <==> IsZombie(a))
    && (h.Some? ==> h.value < |s.at| && h.value != q && Alive(s.at[h.value]))
    && (a.Nobody? ==> h.None?)
    && ((Alive(a) || IsZombie(a)) && q != INIT ==> h.Some?)
    && (a.Embryo? ==> a.forker < |s.at| && Child(s.at[a.forker]) == Some(q))
    && (a.Embryo? ==> h == if s.at[a.forker].Adopted? || s.at[a.forker].Publish? then Some(a.forker) else None)
    && (Child(a).Some? ==> Child(a).value < |s.at| && s.at[Child(a).value] == Embryo(q))
  }

  // The slot that a fork under way is filling.
  function Child(a: At): Option<Pid> {
    if a.Fork? || a.Adopt? || a.Adopted? || a.Publish? then Some(a.child) else None
  }

  // ----- each process and its section of wait_lock

  predicate PlaceOk(p: Pid, a: At, f: Phase<Pid>) {
    && (f.Away? <==> !InCall(a) || a.Fork? || a.Exit? || a.Wait?)
    && (f.Waking? ==> a.Reparent? || a.Die?)
    && (a.Adopt? || a.Adopted? || a.Rouse? || a.Bury? || a.Reaped? ==> f.Inside?)
    && (HasOwnLock(f) || f.Asleep? || f.Woken? ==> a == Look(0, false))
    && (HasOwnLock(f) || f.Asleep? ==> f.chan == p)
    && (a.Exit? || a.Reparent? || a.Rouse? || a.Die? ==> p != INIT)
  }

  ghost predicate SectionOk(m: Monitor<Tree, Pid>, p: Pid, a: At, f: Phase<Pid>, n: nat) {
    var t0, t := m.entry, m.shared;
    && TreeSized(t0, n) && TreeSized(t, n) && p < n
    && match a
       case Adopt(_) => t == t0
       case Reparent(i) =>
         && i <= n && t.zombie == t0.zombie && Orphaned(t0, t, p, i)
         && (f.Waking? ==> f.chan == INIT) && HandedOver(m, p, if f.Waking? then i - 1 else i)
       case Rouse(i) => i < n && t.zombie == t0.zombie && Orphaned(t0, t, p, i + 1) && HandedOver(m, p, i)
       case Die =>
         && t.zombie == t0.zombie && Orphaned(t0, t, p, n) && HandedOver(m, p, n)
         && (f.Waking? ==> t.parent[p] == Some(f.chan))
         && (f.Inside? && t.parent[p].Some? ==> t.parent[p].value in m.woken)
       case Bury =>
         && t.zombie == t0.zombie[p := true] && Orphaned(t0, t, p, n) && HandedOver(m, p, n)
         && (t.parent[p].Some? ==> t.parent[p].value in m.woken)
       case Look(i, kids) =>
         && i <= n && t == t0 && (forall q: Pid :: q < i ==> !ZombieChild(t, p, q))
         && (kids <==> exists q: Pid :: q < i && t.parent[q] == Some(p))
       case _ => Gentle(t0, t)
  }

  // Children of p below i are now init's; no other parent has changed.
  ghost predicate Orphaned(t0: Tree, t: Tree, p: Pid, i: nat)
    requires |t0.parent| == |t.parent|
  {
    forall q: Pid :: q < |t.parent| ==>
      t.parent[q] == if q < i && t0.parent[q] == Some(p) then Some(INIT) else t0.parent[q]
  }

  // Init has been woken since it got its first child from p.
  ghost predicate HandedOver(m: Monitor<Tree, Pid>, p: Pid, i: int) {
    INIT in m.woken || forall q: Pid :: q < |m.entry.parent| && q < i ==> m.entry.parent[q] != Some(p)
  }

  // Nobody has got a zombie child.
  ghost predicate Gentle(t0: Tree, t: Tree) {
    forall p: Pid, q: Pid :: ZombieChild(t, p, q) ==> ZombieChild(t0, p, q)
  }

  ghost predicate OneProc(s: State, q: Pid)
    requires Sized(s) && q < |s.at|
  {
    && PlaceOk(q, s.at[q], s.m.phase[q])
    && (HasLock(s.m.phase[q]) ==> SectionOk(s.m, q, s.at[q], s.m.phase[q], |s.at|))
  }

  ghost predicate ProcInv(s: State) {
    Sized(s) && forall p: Pid :: p < |s.at| ==> OneProc(s, p)
  }

  ghost predicate MonitorInv(s: State) {
    Inv(s.m, Blocked)
  }

  lemma BuriedSettled(m: Monitor<Tree, Pid>, p: Pid, n: nat)
    requires SectionOk(m, p, Bury, Inside, n)
    ensures Settled(m, Blocked)
  {
    forall c | Blocked(m.entry, c) && !Blocked(m.shared, c) ensures c in m.woken {
      var q: Pid :| ZombieChild(m.shared, c, q);
      assert !ZombieChild(m.entry, c, q);
    }
  }

  lemma GentleSettled(m: Monitor<Tree, Pid>)
    requires Gentle(m.entry, m.shared)
    ensures Settled(m, Blocked)
  {
    forall c | Blocked(m.entry, c) ensures Blocked(m.shared, c) {
      forall q: Pid ensures !ZombieChild(m.shared, c, q) {
        assert !ZombieChild(m.entry, c, q);
      }
    }
  }

  // fork, exit and wait use sleep and wakeup with care, although exit wakes the parent before it sets ZOMBIE.
  lemma IsCareful(s: State, p: Pid)
    requires MonitorInv(s) && ProcInv(s) && GoEnabled(s, p)
    ensures Careful(s.m, Next(p, s.at[p], s.m.phase[p], s.m.shared, |s.at|), Blocked)
  {
    var a, f := s.at[p], s.m.phase[p];
    assert OneProc(s, p);
    hide Inv, Settled, Orphaned, HandedOver, LockInv;
    if f.Inside? && a.Bury? {
      BuriedSettled(s.m, p, |s.at|);
    } else if f.Inside? && Gentle(s.m.entry, s.m.shared) {
      GentleSettled(s.m);
    }
  }

  lemma GoerPlace(m: Monitor<Tree, Pid>, p: Pid, a: At, n: nat)
    requires p < |m.phase| == n && TreeSized(m.shared, n) && InCall(a) && (a.Adopt? ==> a.child < n)
    requires PlaceOk(p, a, m.phase[p]) && SleepWakeup.Enabled(m, Next(p, a, m.phase[p], m.shared, n))
    ensures PlaceOk(p, After(p, a, m.phase[p], m.shared, n),
        SleepWakeup.Step(m, Next(p, a, m.phase[p], m.shared, n)).phase[p])
  {}

  lemma ExitSection(m: Monitor<Tree, Pid>, p: Pid, a: At, n: nat)
    requires p < |m.phase| == n && TreeSized(m.shared, n) && InCall(a) && (a.Adopt? ==> a.child < n)
    requires PlaceOk(p, a, m.phase[p]) && SleepWakeup.Enabled(m, Next(p, a, m.phase[p], m.shared, n))
    requires HasLock(m.phase[p]) ==> SectionOk(m, p, a, m.phase[p], n)
    requires a.Reparent? || a.Rouse? || a.Die?
    ensures var m1 := SleepWakeup.Step(m, Next(p, a, m.phase[p], m.shared, n));
      HasLock(m1.phase[p]) ==> SectionOk(m1, p, After(p, a, m.phase[p], m.shared, n), m1.phase[p], n)
  {
    hide ZombieChild;
  }

  lemma LookSection(m: Monitor<Tree, Pid>, p: Pid, a: At, n: nat)
    requires p < |m.phase| == n && TreeSized(m.shared, n) && InCall(a) && (a.Adopt? ==> a.child < n)
    requires PlaceOk(p, a, m.phase[p]) && SleepWakeup.Enabled(m, Next(p, a, m.phase[p], m.shared, n))
    requires HasLock(m.phase[p]) ==> SectionOk(m, p, a, m.phase[p], n)
    requires a.Look?
    ensures var m1 := SleepWakeup.Step(m, Next(p, a, m.phase[p], m.shared, n));
      HasLock(m1.phase[p]) ==> SectionOk(m1, p, After(p, a, m.phase[p], m.shared, n), m1.phase[p], n)
  {
    hide Orphaned, HandedOver;
  }

  lemma CalmSection(m: Monitor<Tree, Pid>, p: Pid, a: At, n: nat)
    requires p < |m.phase| == n && TreeSized(m.shared, n) && InCall(a) && (a.Adopt? ==> a.child < n)
    requires PlaceOk(p, a, m.phase[p]) && SleepWakeup.Enabled(m, Next(p, a, m.phase[p], m.shared, n))
    requires HasLock(m.phase[p]) ==> SectionOk(m, p, a, m.phase[p], n)
    requires a.Adopt? ==> !m.shared.zombie[a.child]
    requires !a.Reparent? && !a.Rouse? && !a.Die? && !a.Look?
    ensures var m1 := SleepWakeup.Step(m, Next(p, a, m.phase[p], m.shared, n));
      HasLock(m1.phase[p]) ==> SectionOk(m1, p, After(p, a, m.phase[p], m.shared, n), m1.phase[p], n)
  {}

  lemma GoerSection(m: Monitor<Tree, Pid>, p: Pid, a: At, n: nat)
    requires p < |m.phase| == n && TreeSized(m.shared, n) && InCall(a) && (a.Adopt? ==> a.child < n)
    requires PlaceOk(p, a, m.phase[p]) && SleepWakeup.Enabled(m, Next(p, a, m.phase[p], m.shared, n))
    requires HasLock(m.phase[p]) ==> SectionOk(m, p, a, m.phase[p], n)
    requires a.Adopt? ==> !m.shared.zombie[a.child]
    ensures var m1 := SleepWakeup.Step(m, Next(p, a, m.phase[p], m.shared, n));
      HasLock(m1.phase[p]) ==> SectionOk(m1, p, After(p, a, m.phase[p], m.shared, n), m1.phase[p], n)
  {
    if a.Reparent? || a.Rouse? || a.Die? {
      ExitSection(m, p, a, n);
    } else if a.Look? {
      LookSection(m, p, a, n);
    } else {
      CalmSection(m, p, a, n);
    }
    hide *;
  }

  lemma StepSizes(s: State, p: Pid)
    requires ProcInv(s) && GoEnabled(s, p)
    ensures Sized(Step(s, Go(p))) && |Step(s, Go(p)).at| == |s.at|
  {
    hide PlaceOk, SectionOk;
  }

  // A step of p leaves the others where they are, except for the dead child that p reaps.
  lemma OthersAt(s: State, p: Pid, q: Pid)
    requires TreeInv(s) && GoEnabled(s, p) && q < |s.at| && q != p
    ensures Sized(Step(s, Go(p))) && |Step(s, Go(p)).at| == |s.at|
    ensures Reaps(s, p, q) ==> s.at[q].Dead? && Step(s, Go(p)).at[q].Nobody?
    ensures !Reaps(s, p, q) ==> Step(s, Go(p)).at[q] == s.at[q]
  {
    assert SlotOk(s, q);
  }

  lemma OthersProc(s: State, p: Pid, q: Pid)
    requires LockInv(s.m) && TreeInv(s) && GoEnabled(s, p)
    requires q < |s.at| && q != p && OneProc(s, q)
    ensures Sized(Step(s, Go(p))) && |Step(s, Go(p)).at| == |s.at| && OneProc(Step(s, Go(p)), q)
  {
    var e := Next(p, s.at[p], s.m.phase[p], s.m.shared, |s.at|);
    assert e.p == p;
    OthersPhase(s.m, e, q);
    OthersAt(s, p, q);
    var s1 := Step(s, Go(p));
    assert s1.m == SleepWakeup.Step(s.m, e);
    hide LockInv, TreeInv, SleepWakeup.Step, SleepWakeup.Enabled, Next, After, Step, GoEnabled, Orphaned, HandedOver,
        Gentle, Reaps, ZombieChild;
  }

  lemma GoerProc(s: State, p: Pid)
    requires TreeInv(s) && GoEnabled(s, p) && OneProc(s, p)
    ensures Sized(Step(s, Go(p))) && |Step(s, Go(p)).at| == |s.at| && OneProc(Step(s, Go(p)), p)
  {
    var a, f, t, n := s.at[p], s.m.phase[p], s.m.shared, |s.at|;
    assert a.Adopt? ==> !t.zombie[a.child] by {
      assert SlotOk(s, p);
      if a.Adopt? {
        assert SlotOk(s, a.child);
      }
    }
    GoerPlace(s.m, p, a, n);
    GoerSection(s.m, p, a, n);
    assert Step(s, Go(p)).at[p] == After(p, a, f, t, n) by {
      assert SlotOk(s, p);
      hide After;
    }
    assert Step(s, Go(p)).m == SleepWakeup.Step(s.m, Next(p, a, f, t, n));
    hide TreeInv, SleepWakeup.Step, SleepWakeup.Enabled, Next, After, PlaceOk, SectionOk;
  }

  lemma ProcGo(s: State, p: Pid)
    requires MonitorInv(s) && ProcInv(s) && TreeInv(s) && GoEnabled(s, p)
    ensures ProcInv(Step(s, Go(p)))
  {
    assert LockInv(s.m);
    var s1 := Step(s, Go(p));
    assert OneProc(s, p);
    GoerProc(s, p);
    hide LockInv, Inv, TreeInv, Step, GoEnabled, PlaceOk, SectionOk;
    forall q: Pid | q < |s.at| ensures OneProc(s1, q) {
      assert OneProc(s, q);
      if q != p {
        OthersProc(s, p, q);
      }
    }
  }

  lemma KilledProc(s: State, p: Pid, q: Pid)
    requires LockInv(s.m) && Enabled(s, KilledAsleep(p)) && q < |s.at| && OneProc(s, q)
    ensures OneProc(Step(s, KilledAsleep(p)), q)
  {
    hide Orphaned, ZombieChild, Gentle;
  }

  lemma OtherProc(s: State, e: Event, q: Pid)
    requires TreeInv(s) && Enabled(s, e) && !e.Go? && !e.KilledAsleep? && q < |s.at| && OneProc(s, q) && OneProc(s, e.p)
    ensures Sized(Step(s, e)) && OneProc(Step(s, e), q)
  {
    hide Orphaned, HandedOver, ZombieChild, GoEnabled, Next, After, SleepWakeup.Step, SleepWakeup.Enabled;
    assert SlotOk(s, e.p);
    assert SlotOk(s, q);
  }

  lemma ProcOther(s: State, e: Event)
    requires MonitorInv(s) && ProcInv(s) && TreeInv(s) && Enabled(s, e) && !e.Go?
    ensures ProcInv(Step(s, e))
  {
    assert LockInv(s.m) && OneProc(s, e.p);
    var s1 := Step(s, e);
    OtherSizes(s, e);
    hide Inv, LockInv, TreeInv, Step, Enabled, OneProc;
    forall q: Pid | q < |s.at| ensures OneProc(s1, q) {
      assert OneProc(s, q);
      if e.KilledAsleep? {
        KilledProc(s, e.p, q);
      } else {
        OtherProc(s, e, q);
      }
    }
  }

  lemma OtherSizes(s: State, e: Event)
    requires Enabled(s, e) && !e.Go?
    ensures Sized(Step(s, e)) && |Step(s, e).at| == |s.at|
  {}

  // ----- the tree, step by step

  // The kinds of step of a process in a call.
  ghost predicate Quiet(a: At, a1: At) {
    a1 == a
    || (&& Child(a1) == Child(a) && !a1.Nobody? && !a1.Embryo? && !a.Nobody? && !a.Embryo?
        && (IsZombie(a1) <==> IsZombie(a))
        && ((a1.Adopted? || a1.Publish?) <==> (a.Adopted? || a.Publish?)))
  }

  lemma QuietTree(s: State, s1: State, p: Pid)
    requires TreeInv(s) && p < |s.at| && Sized(s1)
    requires s1.m.shared == s.m.shared && s1.at == s.at[p := s1.at[p]] && Quiet(s.at[p], s1.at[p])
    ensures TreeInv(s1)
  {
    forall q: Pid | q < |s.at| ensures SlotOk(s1, q) {
      assert SlotOk(s, q);
    }
  }

  // fork's own steps, on the parent and the slot it fills.
  lemma ForkTree(s: State, s1: State, p: Pid, np: Pid)
    requires TreeInv(s) && p < |s.at| && np < |s.at| && Sized(s1) && s1.m.shared == s.m.shared
    requires s.at[p].Running? && s.at[np].Nobody? && s1.at == s.at[p := Fork(np)][np := Embryo(p)]
    ensures TreeInv(s1)
  {
    forall q: Pid | q < |s.at| ensures SlotOk(s1, q) {
      assert SlotOk(s, q);
    }
  }

  lemma ForkFailsTree(s: State, s1: State, p: Pid, np: Pid)
    requires TreeInv(s) && p < |s.at| && np < |s.at| && Sized(s1) && s1.m.shared == s.m.shared
    requires s.at[p] == Fork(np) && s1.at == s.at[np := Nobody][p := Running]
    ensures TreeInv(s1)
  {
    assert SlotOk(s, p) && SlotOk(s, np);
    forall q: Pid | q < |s.at| ensures SlotOk(s1, q) {
      assert SlotOk(s, q);
    }
  }

  lemma RunnableTree(s: State, s1: State, p: Pid, np: Pid)
    requires TreeInv(s) && p < |s.at| && np < |s.at| && Sized(s1) && s1.m.shared == s.m.shared
    requires s.at[p] == Publish(np) && s1.at == s.at[np := Running][p := Running]
    ensures TreeInv(s1)
  {
    assert SlotOk(s, p) && SlotOk(s, np);
    forall q: Pid | q < |s.at| ensures SlotOk(s1, q) {
      assert SlotOk(s, q);
    }
  }

  lemma TreeOther(s: State, e: Event)
    requires TreeInv(s) && Enabled(s, e) && !e.Go?
    ensures TreeInv(Step(s, e))
  {
    var s1 := Step(s, e);
    OtherSizes(s, e);
    match e {
      case CallFork(p, np) => ForkTree(s, s1, p, np);
      case ForkFails(p) => ForkFailsTree(s, s1, p, s.at[p].child);
      case MakeRunnable(p) => RunnableTree(s, s1, p, s.at[p].child);
      case _ => QuietTree(s, s1, e.p);
    }
    hide TreeInv;
  }

  lemma AdoptTree(s: State, s1: State, p: Pid)
    requires TreeInv(s) && p < |s.at| && Sized(s1) && s.at[p].Adopt? && s.at[p].child < |s.at|
    requires s1.m.shared == SetParent(s.m.shared, s.at[p].child, Some(p)) && s1.at == s.at[p := Adopted(s.at[p].child)]
    ensures TreeInv(s1)
  {
    assert SlotOk(s, p);
    forall q: Pid | q < |s.at| ensures SlotOk(s1, q) {
      assert SlotOk(s, q);
    }
  }

  lemma HandTree(s: State, s1: State, p: Pid, i: nat)
    requires TreeInv(s) && p < |s.at| && Sized(s1) && s.at[p] == Reparent(i) && i < |s.at| && p != INIT
    requires s.m.shared.parent[i] == Some(p)
    requires s1.m.shared == SetParent(s.m.shared, i, Some(INIT)) && s1.at == s.at[p := Rouse(i)]
    ensures TreeInv(s1)
  {
    forall q: Pid | q < |s.at| ensures SlotOk(s1, q) {
      assert SlotOk(s, q);
      if s.at[q].Embryo? {
        assert SlotOk(s, s.at[q].forker);
      }
    }
  }

  lemma DieTree(s: State, s1: State, p: Pid)
    requires TreeInv(s) && p < |s.at| && Sized(s1) && s.at[p].Die? && p != INIT
    requires forall q: Pid :: q < |s.at| ==> s.m.shared.parent[q] != Some(p)
    requires s1.m.shared == s.m.shared.(zombie := s.m.shared.zombie[p := true]) && s1.at == s.at[p := Bury]
    ensures TreeInv(s1)
  {
    forall q: Pid | q < |s.at| ensures SlotOk(s1, q) {
      assert SlotOk(s, q);
    }
  }

  lemma ReapTree(s: State, s1: State, p: Pid, i: Pid)
    requires TreeInv(s) && p < |s.at| && Sized(s1) && s.at[p].Look? && i < |s.at| && ZombieChild(s.m.shared, p, i)
    requires s1.m.shared == Bereave(s.m.shared, i) && s1.at == s.at[p := Reaped][i := Nobody]
    ensures TreeInv(s1)
  {
    assert SlotOk(s, i);
    forall q: Pid | q < |s.at| ensures SlotOk(s1, q) {
      assert SlotOk(s, q);
      if s.at[q].Embryo? {
        assert SlotOk(s, s.at[q].forker);
      }
    }
  }

  lemma TreeGo(s: State, p: Pid)
    requires TreeInv(s) && GoEnabled(s, p) && OneProc(s, p)
    ensures TreeInv(Step(s, Go(p)))
  {
    var s1, a, f := Step(s, Go(p)), s.at[p], s.m.phase[p];
    SharedAfter(s.m, Next(p, a, f, s.m.shared, |s.at|));
    hide TreeInv, SleepWakeup.Step, SleepWakeup.Enabled;
    if f.Inside? && a.Adopt? {
      AdoptTree(s, s1, p);
    } else if f.Inside? && a.Reparent? && a.i < |s.at| && s.m.shared.parent[a.i] == Some(p) {
      HandTree(s, s1, p, a.i);
    } else if f.Inside? && a.Die? {
      DieTree(s, s1, p);
    } else if a.Look? && Reaps(s, p, a.i) {
      ReapTree(s, s1, p, a.i);
    } else {
      QuietTree(s, s1, p);
    }
  }

  // ----- whoever sleeps in wait has a child

  ghost predicate HasKid(t: Tree, p: Pid) {
    exists q: Pid :: q < |t.parent| && t.parent[q] == Some(p)
  }

  ghost predicate KidsInv(s: State) {
    Sized(s)
      && forall p: Pid :: p < |s.at| && (HasOwnLock(s.m.phase[p]) || s.m.phase[p].Asleep?) ==> HasKid(s.m.shared, p)
  }

  // Only the parent itself gives away or reaps its children.
  lemma KidsStay(s: State, p: Pid, q: Pid)
    requires TreeInv(s) && GoEnabled(s, p) && q < |s.at| && q != p && HasKid(s.m.shared, q)
    ensures HasKid(Step(s, Go(p)).m.shared, q)
  {
    var k: Pid :| k < |s.m.shared.parent| && s.m.shared.parent[k] == Some(q);
    assert SlotOk(s, p) && SlotOk(s, k);
    assert s.at[p].Adopt? ==> SlotOk(s, s.at[p].child);
    assert Step(s, Go(p)).m.shared.parent[k] == Some(q);
  }

  lemma KidsGo(s: State, p: Pid)
    requires MonitorInv(s) && TreeInv(s) && ProcInv(s) && KidsInv(s) && GoEnabled(s, p)
    ensures KidsInv(Step(s, Go(p)))
  {
    var s1, e := Step(s, Go(p)), Next(p, s.at[p], s.m.phase[p], s.m.shared, |s.at|);
    assert e.p == p && LockInv(s.m) && OneProc(s, p);
    StepSizes(s, p);
    forall q: Pid | q < |s.at| && (HasOwnLock(s1.m.phase[q]) || s1.m.phase[q].Asleep?) ensures HasKid(s1.m.shared, q) {
      if q != p {
        OthersPhase(s.m, e, q);
        KidsStay(s, p, q);
      } else {
        SleeperHasKid(s, p);
      }
    }
    hide *;
  }

  lemma SleeperHasKid(s: State, p: Pid)
    requires KidsInv(s) && GoEnabled(s, p) && OneProc(s, p)
    ensures var s1 := Step(s, Go(p));
      && Sized(s1) && p < |s1.at|
      && (HasOwnLock(s1.m.phase[p]) || s1.m.phase[p].Asleep? ==> HasKid(s1.m.shared, p))
  {
    hide Orphaned, HandedOver, Gentle;
  }

  lemma KidsOther(s: State, e: Event)
    requires KidsInv(s) && Enabled(s, e) && !e.Go?
    ensures KidsInv(Step(s, e))
  {
    hide HasKid;
  }

  // ----- whole runs

  ghost predicate WaitInv(s: State) {
    MonitorInv(s) && TreeInv(s) && ProcInv(s) && KidsInv(s)
  }

  lemma InvInit(n: nat)
    requires n > 0
    ensures WaitInv(Init(n))
  {}

  lemma MonitorStep(s: State, e: Event)
    requires MonitorInv(s) && ProcInv(s) && Enabled(s, e)
    ensures MonitorInv(Step(s, e))
  {
    match e
    case Go(p) =>
      IsCareful(s, p);
      hide Inv, SleepWakeup.Step, After, Next;
      InvStep(s.m, Next(p, s.at[p], s.m.phase[p], s.m.shared, |s.at|), Blocked);
    case KilledAsleep(p) =>
      hide Inv, SleepWakeup.Step;
      InvStep(s.m, Kill(p), Blocked);
    case _ =>
  }

  lemma WaitInvStep(s: State, e: Event)
    requires WaitInv(s) && Enabled(s, e)
    ensures WaitInv(Step(s, e))
  {
    MonitorStep(s, e);
    if e.Go? {
      assert OneProc(s, e.p);
      TreeGo(s, e.p);
      ProcGo(s, e.p);
      KidsGo(s, e.p);
    } else {
      TreeOther(s, e);
      ProcOther(s, e);
      KidsOther(s, e);
    }
    hide MonitorInv, TreeInv, ProcInv, KidsInv, Step;
  }

  ghost predicate Legal(s: State, es: seq<Event>)
    decreases |es|
  {
    es == [] || (Enabled(s, es[0]) && Legal(Step(s, es[0]), es[1..]))
  }

  ghost function Exec(s: State, es: seq<Event>): State
    requires Legal(s, es)
    decreases |es|
  {
    if es == [] then s else Exec(Step(s, es[0]), es[1..])
  }

  lemma {:induction false} InvRun(s: State, es: seq<Event>)
    requires WaitInv(s) && Legal(s, es)
    ensures WaitInv(Exec(s, es))
    decreases |es|
  {
    hide WaitInv, Step, Enabled;
    if es != [] {
      WaitInvStep(s, es[0]);
      InvRun(Step(s, es[0]), es[1..]);
    }
  }

  ghost predicate Reached(s: State) {
    exists n: nat, es :: 0 < n && Legal(Init(n), es) && Exec(Init(n), es) == s
  }

  lemma ReachedInv(s: State)
    requires Reached(s)
    ensures WaitInv(s)
  {
    var n: nat, es :| 0 < n && Legal(Init(n), es) && Exec(Init(n), es) == s;
    InvInit(n);
    InvRun(Init(n), es);
  }

  // Init never exits; every parent is neither UNUSED nor ZOMBIE; every process but init that has started,
  // zombies included, has a parent. So a zombie has no children.
  lemma FamilyTree(s: State, q: Pid)
    requires Reached(s) && q < |s.at|
    ensures Sized(s) && Alive(s.at[INIT])
    ensures s.m.shared.parent[q].Some? ==>
      s.m.shared.parent[q].value < |s.at| && Alive(s.at[s.m.shared.parent[q].value])
    ensures q != INIT && (Alive(s.at[q]) || IsZombie(s.at[q])) ==> s.m.shared.parent[q].Some?
    ensures IsZombie(s.at[q]) ==> !HasKid(s.m.shared, q)
  {
    ReachedInv(s);
    assert SlotOk(s, q);
    forall k: Pid | k < |s.at| && s.m.shared.parent[k] == Some(q) ensures Alive(s.at[q]) {
      assert SlotOk(s, k);
    }
  }

  // With wait_lock free, whoever sleeps in wait has children, and none of them is a zombie.
  lemma NoSleepingParent(s: State, p: Pid)
    requires Reached(s) && s.m.holder == None && p < |s.m.phase|
    requires HasOwnLock(s.m.phase[p]) || s.m.phase[p].Asleep?
    ensures HasKid(s.m.shared, p) && Blocked(s.m.shared, p)
  {
    ReachedInv(s);
    assert OneProc(s, p);
    NoLostWakeup(s.m, Blocked, p, p);
  }

  // p is in wait's scan of the table.
  predicate Scanning(s: State, p: Pid) {
    p < |s.at| && p < |s.m.phase| && s.m.phase[p].Inside? && s.at[p].Look?
  }

  // How the scan of p has ended, by the tree t that it has seen: a zombie child is reaped, who has only other
  // children goes to sleep, and who has none is back with -1.
  ghost predicate ScanResult(t: Tree, p: Pid, s1: State)
    requires Sized(s1) && p < |s1.at|
  {
    if !Blocked(t, p) then s1.at[p].Reaped? && exists q: Pid :: ZombieChild(t, p, q) && q < |s1.at| && s1.at[q].Nobody?
    else if HasKid(t, p) then s1.m.phase[p] == Parking(p) && s1.at[p] == Look(0, false)
    else s1.m.phase[p].Away? && s1.at[p].Running?
  }

  // How the event e of p may end it.
  ghost predicate ScanEnd(t: Tree, p: Pid, e: Event, s1: State)
    requires Sized(s1) && p < |s1.at|
  {
    || (e == Go(p) && ScanResult(t, p, s1))
    || (e == SeesKilled(p) && Blocked(t, p) && s1.at[p].Reaped?)
    || (e == CopyoutFails(p) && !Blocked(t, p) && s1.at[p].Reaped?)
  }

  // While p scans, the tree stays what it was when p took wait_lock, whoever else moves; a step of p takes the scan
  // one slot further or ends it.
  lemma ScanStep(s: State, e: Event, p: Pid)
    requires WaitInv(s) && Scanning(s, p) && Enabled(s, e)
    ensures var s1 := Step(s, e);
      && Sized(s1) && |s1.at| == |s.at| && s.m.shared == s.m.entry
      && if Scanning(s1, p) then
           s1.m.shared == s.m.shared && s1.at[p].i == s.at[p].i + (if e.p == p then 1 else 0)
         else ScanEnd(s.m.shared, p, e, s1)
  {
    assert OneProc(s, p) && SlotOk(s, p);
    if e.p != p {
      ScanAlone(s, e, p);
    } else if e.Go? {
      ScanGo(s, p);
    }
    hide SlotOk, Settled, Justified;
  }

  // The run es from s is one scan of p, to its end.
  ghost predicate ScansThrough(s: State, es: seq<Event>, p: Pid)
    requires Legal(s, es)
    decreases |es|
  {
    && es != []
    && if |es| == 1 then !Scanning(Step(s, es[0]), p)
       else Scanning(Step(s, es[0]), p) && ScansThrough(Step(s, es[0]), es[1..], p)
  }

  lemma {:induction false} ScanRun(s: State, es: seq<Event>, p: Pid)
    requires WaitInv(s) && Scanning(s, p) && Legal(s, es) && ScansThrough(s, es, p)
    ensures Sized(Exec(s, es)) && p < |Exec(s, es).at| && ScanEnd(s.m.shared, p, es[|es| - 1], Exec(s, es))
    decreases |es|
  {
    hide WaitInv, Step, Enabled, ScanEnd;
    ScanStep(s, es[0], p);
    if |es| > 1 {
      WaitInvStep(s, es[0]);
      ScanRun(Step(s, es[0]), es[1..], p);
    } else {
      assert Exec(s, es) == Step(s, es[0]);
    }
  }

  // In any interleaving a scan of wait ends by the tree it began with: unless p is killed while no child is a zombie,
  // or the copy of the status fails, it reaps a zombie child if there is one, sleeps if there are only other
  // children, and returns -1 if there are none.
  lemma WholeScan(s: State, es: seq<Event>, p: Pid)
    requires Reached(s) && Scanning(s, p) && Legal(s, es) && ScansThrough(s, es, p)
    ensures Sized(Exec(s, es)) && p < |Exec(s, es).at| && ScanEnd(s.m.shared, p, es[|es| - 1], Exec(s, es))
  {
    ReachedInv(s);
    ScanRun(s, es, p);
  }

  lemma ScanGo(s: State, p: Pid)
    requires Sized(s) && Scanning(s, p) && OneProc(s, p) && SlotOk(s, p) && GoEnabled(s, p)
    ensures var s1 := Step(s, Go(p));
      && Sized(s1) && |s1.at| == |s.at|
      && if Scanning(s1, p) then s1.at[p].i == s.at[p].i + 1 && s1.m.shared == s.m.shared
         else ScanResult(s.m.shared, p, s1)
  {
    var i := s.at[p].i;
    if i < |s.at| && ZombieChild(s.m.shared, p, i) {
      assert Reaps(s, p, i);
    }
  }

  lemma ScanAlone(s: State, e: Event, p: Pid)
    requires WaitInv(s) && Scanning(s, p) && Enabled(s, e) && e.p != p
    ensures var s1 := Step(s, e);
      Sized(s1) && |s1.at| == |s.at| && Scanning(s1, p) && s1.at[p] == s.at[p] && s1.m.shared == s.m.shared
  {
    assert SlotOk(s, p) && SlotOk(s, e.p) && OneProc(s, e.p);
    assert s.m.holder == Some(p) && !HasLock(s.m.phase[e.p]);
  }

  // The scan never gets stuck: it goes on, or a child of p that has exited leaves its stack.
  lemma ScanGoesOn(s: State, p: Pid)
    requires Reached(s) && Scanning(s, p)
    ensures Sized(s) && (Enabled(s, Go(p)) || (s.at[p].i < |s.at| && Enabled(s, LeaveCpu(s.at[p].i))))
  {
    ReachedInv(s);
    assert OneProc(s, p);
    if s.at[p].i < |s.at| {
      assert OneProc(s, s.at[p].i) && SlotOk(s, s.at[p].i);
    }
  }

  lemma NotScanning(s: State, e: Event, p: Pid)
    requires Enabled(s, e) && Sized(s) && p < |s.at| && !Scanning(s, p) && SlotOk(s, p) && SlotOk(s, e.p)
    requires PlaceOk(p, s.at[p], s.m.phase[p]) && (s.at[p].Wait? || s.at[p].Look? || s.at[p].Reaped?)
    requires e.Go? ==> GoEnabled(s, e.p)
    ensures p < |Step(s, e).at| && (Step(s, e).at[p].Running? ==> e == Go(p) && s.at[p].Reaped?)
  {
    hide SleepWakeup.Enabled, SleepWakeup.Step, Next;
  }

  // A call of wait is over only when it has a result, or when its caller has no children.
  lemma WaitReturns(s: State, e: Event, p: Pid)
    requires Reached(s) && Enabled(s, e) && p < |s.at| && (s.at[p].Wait? || s.at[p].Look? || s.at[p].Reaped?)
    requires Sized(Step(s, e)) && p < |Step(s, e).at| && Step(s, e).at[p].Running?
    ensures e == Go(p) && (s.at[p].Reaped? || !HasKid(s.m.shared, p))
  {
    hide Step, Blocked, HasKid, Reached, MonitorInv, KidsInv, SectionOk;
    ReachedInv(s);
    if Scanning(s, p) {
      hide WaitInv, Enabled;
      ScanStep(s, e, p);
    } else {
      assert OneProc(s, p) && SlotOk(s, p) && SlotOk(s, e.p);
      NotScanning(s, e, p);
    }
  }

  predicate InFork(a: At) {
    a.Fork? || a.Adopt? || a.Adopted? || a.Publish?
  }

  predicate InExit(a: At) {
    a.Exit? || a.Reparent? || a.Rouse? || a.Die?
  }

  // How a step leaves fork: with a child of its own that runs, or with none.
  predicate ForkEnd(s: State, e: Event, p: Pid, child: Pid, s1: State)
    requires Sized(s1) && p < |s1.at| && child < |s1.at|
  {
    || (e == ForkFails(p) && s1.at[p].Running? && s1.at[child].Nobody?)
    || (e == MakeRunnable(p) && s1.at[p].Running? && s1.at[child].Running? && s1.m.shared.parent[child] == Some(p))
  }

  lemma ForkReturns(s: State, e: Event, p: Pid)
    requires Reached(s) && Enabled(s, e) && p < |s.at| && InFork(s.at[p])
    ensures Sized(Step(s, e)) && |Step(s, e).at| == |s.at| && s.at[p].child < |s.at|
    ensures var a, s1 := s.at[p], Step(s, e);
      s.at[a.child] == Embryo(p) && ((InFork(s1.at[p]) && s1.at[p].child == a.child) || ForkEnd(s, e, p, a.child, s1))
  {
    hide MonitorInv, KidsInv, SectionOk, Reached;
    ReachedInv(s);
    assert OneProc(s, p) && SlotOk(s, p) && SlotOk(s, e.p) && SlotOk(s, s.at[p].child);
    hide ProcInv, TreeInv;
    if e.Go? {
      ForkGoes(s, e.p, p);
    } else {
      hide SleepWakeup.Step, SleepWakeup.Enabled, Next, After;
    }
  }

  lemma ForkGoes(s: State, q: Pid, p: Pid)
    requires Sized(s) && GoEnabled(s, q) && p < |s.at| && InFork(s.at[p]) && SlotOk(s, p)
    requires PlaceOk(p, s.at[p], s.m.phase[p])
    ensures var s1 := Step(s, Go(q));
      Sized(s1) && |s1.at| == |s.at| && InFork(s1.at[p]) && s1.at[p].child == s.at[p].child
  {
    SharedAfter(s.m, Next(q, s.at[q], s.m.phase[q], s.m.shared, |s.at|));
    hide SleepWakeup.Step, SleepWakeup.Enabled;
  }

  // exit does not come back, and its process is a zombie until its parent reaps it.
  lemma ExitNeverReturns(s: State, e: Event, p: Pid)
    requires Reached(s) && Enabled(s, e) && p < |s.at| && (InExit(s.at[p]) || IsZombie(s.at[p]))
    ensures |Step(s, e).at| == |s.at|
    ensures var a, a1 := s.at[p], Step(s, e).at[p];
      && (InExit(a) ==> InExit(a1) || a1.Bury?)
      && (IsZombie(a) ==> IsZombie(a1) || (e.Go? && Reaps(s, e.p, p) && a1.Nobody?))
  {
    hide MonitorInv, KidsInv, SectionOk, Reached;
    ReachedInv(s);
    assert OneProc(s, p) && SlotOk(s, p) && SlotOk(s, e.p);
    hide OneProc, SleepWakeup.Step, SleepWakeup.Enabled, ProcInv, TreeInv;
  }

  // wait reaps only a zombie child of the caller that is off its kernel stack, and empties its slot.
  lemma ReapedByParent(s: State, p: Pid, q: Pid)
    requires Reached(s) && Enabled(s, Go(p)) && Reaps(s, p, q)
    ensures s.m.shared.parent[q] == Some(p) && s.at[q].Dead?
    ensures var s1 := Step(s, Go(p)); s1.at[q].Nobody? && s1.m.shared.parent[q].None? && !s1.m.shared.zombie[q]
  {
    ReachedInv(s);
    assert SlotOk(s, q) && SlotOk(s, p);
  }

  // How often slot q has become ZOMBIE, and how often a wait has reaped it.
  ghost function Exits(s: State, es: seq<Event>, q: Pid): nat
    requires Legal(s, es)
    decreases |es|
  {
    if es == [] then 0
    else (if es[0] == Go(q) && s.m.phase[q].Inside? && s.at[q].Die? then 1 else 0) + Exits(Step(s, es[0]), es[1..], q)
  }

  ghost function Reapings(s: State, es: seq<Event>, q: Pid): nat
    requires Legal(s, es)
    decreases |es|
  {
    if es == [] then 0
    else (if es[0].Go? && Reaps(s, es[0].p, q) then 1 else 0) + Reapings(Step(s, es[0]), es[1..], q)
  }

  ghost predicate ZombieChange(s: State, e: Event, s1: State, q: Pid)
    requires Enabled(s, e) && Sized(s1) && q < |s.at| == |s1.at|
  {
    if e.Go? && Reaps(s, e.p, q) then s.m.shared.zombie[q] && !s1.m.shared.zombie[q]
    else if e == Go(q) && s.m.phase[q].Inside? && s.at[q].Die? then !s.m.shared.zombie[q] && s1.m.shared.zombie[q]
    else s1.m.shared.zombie[q] == s.m.shared.zombie[q]
  }

  lemma ZombieGo(s: State, p: Pid, q: Pid)
    requires SlotsOk(s, p, q) && GoEnabled(s, p)
    ensures Sized(Step(s, Go(p))) && |Step(s, Go(p)).at| == |s.at| && ZombieChange(s, Go(p), Step(s, Go(p)), q)
  {
    SharedAfter(s.m, Next(p, s.at[p], s.m.phase[p], s.m.shared, |s.at|));
    hide SleepWakeup.Step, SleepWakeup.Enabled, After;
  }

  predicate SlotsOk(s: State, p: Pid, q: Pid) {
    Sized(s) && p < |s.at| && q < |s.at| && SlotOk(s, p) && SlotOk(s, q)
  }

  lemma ZombieStep(s: State, e: Event, q: Pid)
    requires WaitInv(s) && Enabled(s, e) && q < |s.at|
    ensures Sized(Step(s, e)) && |Step(s, e).at| == |s.at| && ZombieChange(s, e, Step(s, e), q)
  {
    assert SlotsOk(s, e.p, q);
    hide MonitorInv, ProcInv, KidsInv, TreeInv, SlotsOk;
    if e.Go? {
      ZombieGo(s, e.p, q);
    }
  }

  // Each exit is reaped exactly once, or its slot is still a zombie.
  lemma {:induction false} ReapedOnce(s: State, es: seq<Event>, q: Pid)
    requires WaitInv(s) && Legal(s, es) && q < |s.at|
    ensures WaitInv(Exec(s, es)) && q < |Exec(s, es).at|
    ensures (if s.m.shared.zombie[q] then 1 else 0) + Exits(s, es, q)
         == Reapings(s, es, q) + if Exec(s, es).m.shared.zombie[q] then 1 else 0
    decreases |es|
  {
    InvRun(s, es);
    hide WaitInv, Step, Enabled, Reaps;
    if es != [] {
      ZombieStep(s, es[0], q);
      WaitInvStep(s, es[0]);
      ReapedOnce(Step(s, es[0]), es[1..], q);
    }
  }

  // No deadlock: when nothing in fork, exit or wait can go on, whoever is in them is asleep in wait,
  // with children none of which has exited.
  lemma NoDeadlock(s: State, p: Pid)
    requires Reached(s) && forall q: Pid :: !Enabled(s, Go(q)) && !Enabled(s, LeaveCpu(q))
    requires p < |s.at| && InCall(s.at[p])
    ensures Sized(s) && s.m.phase[p].Asleep? && HasKid(s.m.shared, p) && Blocked(s.m.shared, p)
  {
    ReachedInv(s);
    if s.m.holder.Some? {
      var e := SomeoneMoves(s);
    } else {
      FreeToGo(s, p);
      NoSleepingParent(s, p);
    }
  }

  lemma FreeToGo(s: State, p: Pid)
    requires WaitInv(s) && s.m.holder == None && p < |s.at| && InCall(s.at[p]) && !Enabled(s, Go(p))
    ensures s.m.phase[p].Asleep?
  {
    assert OneProc(s, p) && SlotOk(s, p);
  }

  lemma SomeoneMoves(s: State) returns (e: Event)
    requires WaitInv(s) && s.m.holder.Some?
    ensures (e.Go? || e.LeaveCpu?) && Enabled(s, e)
  {
    var p := s.m.holder.value;
    assert HasLock(s.m.phase[p]) && OneProc(s, p) && SlotOk(s, p);
    hide SectionOk, Justified, Settled, HasKid;
    var f, a := s.m.phase[p], s.at[p];
    if f.Waking? && f.at < |s.m.phase| && f.at != p && HasOwnLock(s.m.phase[f.at]) {
      assert OneProc(s, f.at) && SlotOk(s, f.at);
      e := Go(f.at);
    } else if !ChildLockFree(p, a, f, s.m.shared, s.at) {
      assert OneProc(s, a.i);
      e := LeaveCpu(a.i);
    } else {
      e := Go(p);
    }
  }
}

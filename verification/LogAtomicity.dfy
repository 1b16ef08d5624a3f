// What every run of the logging system guarantees: crash atomicity, whole operations, no panic, no lost wakeup.
module LogAtomicity {
  import opened Basics
  import opened LogFormat
  import opened LogRuns

  // ----- the history of a run, read off its events alone

  // Every log_write of the run.
  ghost function Issued(tr: seq<Event>): seq<Write> {
    if tr == [] then []
    else
      var e := tr[|tr| - 1];
      Issued(tr[..|tr| - 1]) + if e.LogWrite? then [Write(e.op, e.b, e.v)] else []
  }

  // The log_writes since the last header write or crash.
  ghost function Pending(tr: seq<Event>): seq<Write> {
    if tr == [] then []
    else
      match tr[|tr| - 1]
      case LogWrite(p, op, b, v) => Pending(tr[..|tr| - 1]) + [Write(op, b, v)]
      case WriteHeader => []
      case Crash => []
      case _ => Pending(tr[..|tr| - 1])
  }

  // The log_writes that a header write has committed, batch after batch.
  ghost function Durable(tr: seq<Event>): seq<Write> {
    if tr == [] then []
    else
      var before := tr[..|tr| - 1];
      if tr[|tr| - 1].WriteHeader? then Durable(before) + Pending(before) else Durable(before)
  }

  ghost function OpWrites(ws: seq<Write>, op: nat): seq<Write> {
    if ws == [] then []
    else
      var w := ws[|ws| - 1];
      OpWrites(ws[..|ws| - 1], op) + if w.op == op then [w] else []
  }

  lemma {:induction false} OpWritesConcat(u: seq<Write>, v: seq<Write>, op: nat)
    ensures OpWrites(u + v, op) == OpWrites(u, op) + OpWrites(v, op)
  {
    if v == [] {
      assert u + v == u;
    } else {
      OpWritesConcat(u, v[..|v| - 1], op);
      assert (u + v)[..|u + v| - 1] == u + v[..|v| - 1];
    }
  }

  lemma {:induction false} ApplyConcat(m: Disk, u: seq<Write>, v: seq<Write>)
    ensures Apply(m, u + v) == Apply(Apply(m, u), v)
  {
    if v == [] {
      assert u + v == u;
    } else {
      ApplyConcat(m, u, v[..|v| - 1]);
      assert (u + v)[..|u + v| - 1] == u + v[..|v| - 1];
    }
  }

  // ----- every reachable state satisfies the invariant, with the images that the history describes

  ghost function Images(base: Disk, tr: seq<Event>): Abs {
    Abs(Apply(base, Durable(tr)), Apply(base, Durable(tr) + Pending(tr)))
  }

  lemma ImagesStep(base: Disk, tr: seq<Event>)
    requires tr != []
    ensures Images(base, tr) == AbsStep(Images(base, tr[..|tr| - 1]), tr[|tr| - 1])
  {
    var before, e := tr[..|tr| - 1], tr[|tr| - 1];
    var d, p := Durable(before), Pending(before);
    match e
    case LogWrite(_, op, b, v) =>
      assert d + (p + [Write(op, b, v)]) == (d + p) + [Write(op, b, v)];
      ApplyConcat(base, d + p, [Write(op, b, v)]);
      assert Apply(Apply(base, d + p), [Write(op, b, v)]) ==
        if 0 <= b < |base| then Apply(base, d + p)[b := v] else Apply(base, d + p);
    case WriteHeader => assert (d + p) + [] == d + p;
    case Crash => assert d + [] == d;
    case _ =>
  }

  lemma {:induction false} RunInv(L: Layout, s0: State, tr: seq<Event>)
    requires Booted(L, s0) && Legal(L, s0, tr)
    ensures Inv(L, Exec(L, s0, tr), Images(Recovered(L, s0.disk), tr))
    decreases |tr|
  {
    if tr == [] {
      BootInv(L, s0, Images(Recovered(L, s0.disk), []));
    } else {
      var before := tr[..|tr| - 1];
      RunInv(L, s0, before);
      InvStep(L, Exec(L, s0, before), Images(Recovered(L, s0.disk), before), tr[|tr| - 1]);
      ImagesStep(Recovered(L, s0.disk), tr);
    }
  }

  // tr is a run of the booted machine, which ends in s.
  ghost predicate RunOf(L: Layout, s0: State, tr: seq<Event>, s: State) {
    Booted(L, s0) && Legal(L, s0, tr) && Exec(L, s0, tr) == s
  }

  // Wherever the machine stops, recovery yields exactly the committed batches on top of what was there at boot.
  lemma CrashSafe(L: Layout, s0: State, tr: seq<Event>, s: State)
    requires RunOf(L, s0, tr, s)
    ensures WellFormed(L, s.disk)
    ensures forall b :: L.Home(b) ==>
      Redo(L, s.disk, b) == Apply(Recovered(L, s0.disk), Durable(tr))[b]
  {
    RunInv(L, s0, tr);
    RecoversToIff(L, s.disk, Images(Recovered(L, s0.disk), tr).stable);
  }

  // When recovery has completed, and until the next commit, the home blocks themselves hold the committed batches.
  lemma RecoveryInstalls(L: Layout, s0: State, tr: seq<Event>, s: State)
    requires RunOf(L, s0, tr, s) && s.phase.Ready?
    ensures forall b :: L.Home(b) ==>
      |s.disk| == L.size &&
      s.disk[b] == Apply(Recovered(L, s0.disk), Durable(tr))[b]
  {
    RunInv(L, s0, tr);
    EmptyHeader(L, s.disk, Images(Recovered(L, s0.disk), tr).stable);
  }

  // Once recovery is over, bread returns the latest logged contents of any block that nobody is modifying,
  // whether or not its buffer is cached, before, during and after a commit: logged buffers stay pinned
  // until they are installed.
  lemma ReadsLatest(L: Layout, s0: State, tr: seq<Event>, s: State, b: int)
    requires RunOf(L, s0, tr, s) && !Recovering(s)
    requires L.Home(b) && b !in s.dirty
    ensures |s.disk| == L.size
    ensures Bread(s, b) == Apply(Recovered(L, s0.disk), Durable(tr) + Pending(tr))[b]
  {
    var a := Images(Recovered(L, s0.disk), tr);
    RunInv(L, s0, tr);
    hide CountInv, Redo, Encode, Durable, Pending;
    if s.phase.Install? && b in s.lh && b !in s.pinned {
      var i :| 0 <= i < |s.lh| && s.lh[i] == b;
      assert i < s.phase.done;
    }
  }

  // ----- operations are wholly in or wholly out

  // The writes of one operation: i issued, d durable, p pending.
  ghost predicate OpState(s: State, op: nat, i: seq<Write>, d: seq<Write>, p: seq<Write>) {
    && (op >= s.started ==> i == [])
    && ((d == [] && p == []) || (d == i && p == []) || (d == [] && p == i))
    && (IsRunning(s, op) ==> d == [] && p == i)
  }

  ghost predicate IsRunning(s: State, op: nat) {
    exists q :: 0 <= q < |s.procs| && s.procs[q].InOp? && s.procs[q].id == op
  }

  // Only begin_op starts an operation, under a fresh name.
  lemma StepRunning(L: Layout, s: State, e: Event, op: nat)
    requires Enabled(L, s, e) && IsRunning(Step(L, s, e), op)
    ensures IsRunning(s, op) || op == s.started
    ensures !e.Crash?
  {
    var q :| 0 <= q < |s.procs| && Step(L, s, e).procs[q].InOp? && Step(L, s, e).procs[q].id == op;
    assert s.procs[q].InOp? ==> s.procs[q].id == op;
  }

  lemma NobodyRunning(s: State, op: nat)
    requires Running(s.procs) == 0
    ensures !IsRunning(s, op)
  {
    if IsRunning(s, op) {
      var q :| 0 <= q < |s.procs| && s.procs[q].InOp? && s.procs[q].id == op;
      RunningMember(s.procs, q);
    }
  }

  lemma StartedGrows(L: Layout, s: State, e: Event)
    requires Enabled(L, s, e)
    ensures s.started <= Step(L, s, e).started
  {}

  lemma {:induction false} OpStateKept(L: Layout, s0: State, tr: seq<Event>, op: nat)
    requires Booted(L, s0) && Legal(L, s0, tr)
    ensures OpState(Exec(L, s0, tr), op, OpWrites(Issued(tr), op), OpWrites(Durable(tr), op),
      OpWrites(Pending(tr), op))
    decreases |tr|
  {
    if tr != [] {
      var before, e := tr[..|tr| - 1], tr[|tr| - 1];
      var s := Exec(L, s0, before);
      OpStateKept(L, s0, before, op);
      RunInv(L, s0, before);
      if IsRunning(Step(L, s, e), op) {
        StepRunning(L, s, e, op);
      }
      StartedGrows(L, s, e);
      if e.LogWrite? {
        OpWritesConcat(Pending(before), [Write(e.op, e.b, e.v)], op);
        OpWritesConcat(Issued(before), [Write(e.op, e.b, e.v)], op);
        if e.op == op {
          assert IsRunning(s, op) by { assert s.procs[e.p].InOp?; }
          assert op < s.started;
        }
      } else {
        assert Issued(tr) == Issued(before);
        if e.WriteHeader? {
          OpWritesConcat(Durable(before), Pending(before), op);
          NobodyRunning(s, op);
          NobodyRunning(Step(L, s, e), op);
        }
      }
    } else {
      NobodyRunning(s0, op) by { CountIdle(|s0.procs|); assert s0.procs == seq(|s0.procs|, (_: nat) => Idle); }
    }
  }

  // After any run, and hence after any crash, each operation's writes are all durable or none is; an
  // operation that is still running has none.
  lemma OpsAreAtomic(L: Layout, s0: State, tr: seq<Event>, s: State, op: nat)
    requires RunOf(L, s0, tr, s)
    ensures OpWrites(Durable(tr), op) == [] || OpWrites(Durable(tr), op) == OpWrites(Issued(tr), op)
    ensures IsRunning(s, op) ==> OpWrites(Durable(tr), op) == []
  {
    OpStateKept(L, s0, tr, op);
  }

  // ----- a finished commit has made everything durable

  ghost predicate BatchInv(s: State, pending: seq<Write>) {
    pending != [] ==> s.lh != [] && (s.phase.Ready? || s.phase.WriteLog? || s.phase.WriteHead?)
  }

  lemma BatchStep(L: Layout, s: State, e: Event, pending: seq<Write>)
    requires BatchInv(s, pending) && Enabled(L, s, e) && !e.WriteHeader? && !e.Crash?
    ensures BatchInv(Step(L, s, e), pending)
  {}

  lemma {:induction false} BatchKept(L: Layout, s0: State, tr: seq<Event>)
    requires Booted(L, s0) && Legal(L, s0, tr)
    ensures BatchInv(Exec(L, s0, tr), Pending(tr))
    decreases |tr|
  {
    if tr != [] {
      var before, e := tr[..|tr| - 1], tr[|tr| - 1];
      var s := Exec(L, s0, before);
      BatchKept(L, s0, before);
      RunInv(L, s0, before);
      if e.LogWrite? {
        RunningMember(s.procs, e.p);
        assert s.phase.Ready? && Step(L, s, e).lh != [];
      } else if !e.WriteHeader? && !e.Crash? {
        BatchStep(L, s, e, Pending(before));
      }
    }
  }

  // When end_op's commit is over, every log_write since the last crash is durable.
  lemma CommitIsDurable(L: Layout, s0: State, tr: seq<Event>, s: State)
    requires RunOf(L, s0, tr, s) && s.phase.Finish?
    ensures Pending(tr) == []
  {
    BatchKept(L, s0, tr);
  }

  // ----- no panic

  // With a log of at least LOGSIZE data blocks, an operation that has added fewer than MAXOPBLOCKS blocks
  // never makes log_write panic; and end_op never finds a commit in progress.
  lemma NoPanic(L: Layout, s0: State, tr: seq<Event>, s: State, p: nat)
    requires RunOf(L, s0, tr, s) && L.nlog - 1 >= LOGSIZE
    requires OpOf(s, p)
    ensures s.procs[p].added < MAXOPBLOCKS ==> !LogWritePanics(L, s)
    ensures !s.committing
  {
    RunInv(L, s0, tr);
    RunningMember(s.procs, p);
    ReservedMember(s.procs, p);
  }

  lemma {:induction false} ReservedMember(procs: seq<Proc>, p: nat)
    requires p < |procs|
    ensures Weight(procs[p]) <= Reserved(procs)
  {
    if p < |procs| - 1 {
      ReservedMember(procs[..|procs| - 1], p);
    }
  }

  // ----- no lost wakeup

  ghost predicate SleepInv(s: State) {
    forall p :: 0 <= p < |s.procs| && s.procs[p].Asleep? ==> !Recovering(s) && (s.committing || NoSpace(s))
  }

  lemma SleepStep(L: Layout, s: State, e: Event)
    requires SleepInv(s) && CountInv(L, s) && Enabled(L, s, e)
    ensures SleepInv(Step(L, s, e))
  {
    hide Reserved, Running;
    if e.EndOp? {
      RunningMember(s.procs, e.p);
      SleepEnd(s, e.p);
    } else if e.BeginOp? {
      SleepBegin(s, e.p, e.op);
    }
  }

  lemma SleepEnd(s: State, p: nat)
    requires SleepInv(s) && p < |s.procs| && !Recovering(s)
    ensures SleepInv(DoEnd(s, p))
  {
    hide Reserved, Running;
  }

  lemma SleepBegin(s: State, p: nat, op: nat)
    requires SleepInv(s) && p < |s.procs| && !Recovering(s)
    ensures SleepInv(DoBegin(s, p, op))
  {
    hide Reserved, Running;
  }

  lemma {:induction false} SleepKept(L: Layout, s0: State, tr: seq<Event>)
    requires Booted(L, s0) && Legal(L, s0, tr)
    ensures SleepInv(Exec(L, s0, tr))
    decreases |tr|
  {
    if tr != [] {
      SleepKept(L, s0, tr[..|tr| - 1]);
      RunInv(L, s0, tr[..|tr| - 1]);
      SleepStep(L, Exec(L, s0, tr[..|tr| - 1]), tr[|tr| - 1]);
    }
  }

  // A process asleep in begin_op still has a reason to sleep, and someone who will wake it: a commit is
  // running or some operation is.
  lemma NoLostWakeup(L: Layout, s0: State, tr: seq<Event>, s: State, p: nat)
    requires RunOf(L, s0, tr, s)
    requires p < |s.procs| && s.procs[p].Asleep?
    ensures s.committing || (|s.lh| + (s.outstanding + 1) * 10 > 30 && s.outstanding > 0)
  {
    SleepKept(L, s0, tr);
    RunInv(L, s0, tr);
  }

  // begin_op sleeps only during a commit, or if ten more blocks for every operation under way and for this one
  // would not fit behind those in the log; a quiet log lets it in.
  lemma BeginSleepsIff(L: Layout, s0: State, tr: seq<Event>, s: State, p: nat, op: nat)
    requires RunOf(L, s0, tr, s) && Enabled(L, s, BeginOp(p, op))
    ensures var s1 := Step(L, s, BeginOp(p, op));
      && p < |s1.procs| && (s1.procs[p].Asleep? || s1.procs[p] == InOp(op, 0))
      && (s1.procs[p].Asleep? <==> s.committing || |s.lh| + (s.outstanding + 1) * 10 > 30)
      && (s1.procs[p].Asleep? ==> s.committing || s.outstanding > 0)
      && s1.outstanding == s.outstanding + if s1.procs[p].Asleep? then 0 else 1
  {
    RunInv(L, s0, tr);
  }

  // ----- commits and recoveries never get stuck

  ghost predicate CommitterInv(s: State) {
    s.committing ==> exists p :: 0 <= p < |s.procs| && s.procs[p].Committer?
  }

  lemma CommitterStep(L: Layout, s: State, e: Event)
    requires CommitterInv(s) && Enabled(L, s, e)
    ensures CommitterInv(Step(L, s, e))
  {
    var s' := Step(L, s, e);
    if e.EndOp? && s'.committing {
      assert s'.procs[e.p].Committer?;
    } else if s'.committing {
      var p :| 0 <= p < |s.procs| && s.procs[p].Committer?;
      assert s'.procs[p].Committer?;
    }
  }

  lemma {:induction false} CommitterKept(L: Layout, s0: State, tr: seq<Event>)
    requires Booted(L, s0) && Legal(L, s0, tr)
    ensures CommitterInv(Exec(L, s0, tr))
    decreases |tr|
  {
    if tr != [] {
      CommitterKept(L, s0, tr[..|tr| - 1]);
      CommitterStep(L, Exec(L, s0, tr[..|tr| - 1]), tr[|tr| - 1]);
    }
  }

  // How many steps the running commit or recovery still has to make.
  ghost function StepsLeft(s: State): nat {
    match s.phase
    case Ready => 0
    case Finish => 1
    case ClearHead => 2
    case Install(t) => if t <= |s.lh| then 3 + |s.lh| - t else 0
    case WriteHead => 4 + |s.lh|
    case WriteLog(t) => if t <= |s.lh| then 6 + |s.lh| + |s.lh| - t else 0
    case RClear => 1
    case RInstall(t) => if t <= |s.lh| then 2 + |s.lh| - t else 0
    case ReadHead => 4 + LOGSIZE
  }

  // The next step of the running commit or recovery, done by process p if it is a commit's last.
  ghost function NextInternal(s: State, p: nat): Event {
    match s.phase
    case Ready => Crash
    case Finish => CommitDone(p)
    case ClearHead => EraseHeader
    case Install(t) => if t < |s.lh| then InstallBlock else InstallDone
    case WriteHead => Event.WriteHeader
    case WriteLog(t) => if t < |s.lh| then WriteLogBlock else WriteLogDone
    case RClear => RecoverErase
    case RInstall(t) => if t < |s.lh| then RecoverBlock else RecoverDone
    case ReadHead => RecoverHeader
  }

  // A commit or recovery that is under way can always make its next step, and is a step nearer its end.
  lemma InternalProgress(L: Layout, s0: State, tr: seq<Event>, s: State)
    requires RunOf(L, s0, tr, s) && !s.phase.Ready?
    ensures exists p: nat ::
      Enabled(L, s, NextInternal(s, p)) && StepsLeft(Step(L, s, NextInternal(s, p))) < StepsLeft(s)
  {
    RunInv(L, s0, tr);
    CommitterKept(L, s0, tr);
    NoLocksRunning(L, s);
    var p: nat :| s.committing ==> p < |s.procs| && s.procs[p].Committer?;
    InternalInBounds(L, s, Images(Recovered(L, s0.disk), tr));
    InternalEnabled(L, s, p);
    InternalNearer(L, s, p);
    assert Enabled(L, s, NextInternal(s, p));
  }

  lemma NoLocksRunning(L: Layout, s: State)
    requires LockInv(L, s) && CountInv(L, s) && s.phase != Ready
    ensures s.dirty == {} && s.held == map[]
  {
    NoLocks(L, s);
  }

  // What the next internal step looks at.
  ghost predicate InternalBounds(L: Layout, s: State) {
    && L.logstart + |s.lh| < |s.disk| && |s.lh| <= LOGSIZE
    && (forall i :: 0 <= i < |s.lh| ==> 0 <= s.lh[i] < |s.disk|)
    && (s.phase.WriteLog? || s.phase.Install? || s.phase.RInstall? ==> s.phase.done <= |s.lh|)
    && (s.phase.ReadHead? ==> HeaderFits(Bread(s, L.logstart)))
    && (s.phase.Finish? ==> s.committing)
  }

  lemma InternalInBounds(L: Layout, s: State, a: Abs)
    requires Inv(L, s, a) && s.phase != Ready && s.dirty == {}
    ensures InternalBounds(L, s)
  {
    hide Reserved, Running, Redo;
  }

  lemma InternalEnabled(L: Layout, s: State, p: nat)
    requires InternalBounds(L, s) && s.phase != Ready
    requires s.committing ==> p < |s.procs| && s.procs[p].Committer?
    ensures Enabled(L, s, NextInternal(s, p))
  {}

  lemma InternalNearer(L: Layout, s: State, p: nat)
    requires InternalBounds(L, s) && s.phase != Ready && Enabled(L, s, NextInternal(s, p))
    ensures StepsLeft(Step(L, s, NextInternal(s, p))) < StepsLeft(s)
  {}
}

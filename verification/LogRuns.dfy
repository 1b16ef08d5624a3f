// Whole runs of the logging system: any interleaving of begin_op, buffer reads and modifications,
// log_write, end_op, the steps of a commit, buffer-cache traffic, crashes and recovery.
// Each event is one critical section of log.lock, one step under a buffer's sleep lock, or one disk write.
module LogRuns {
  import opened Basics
  import opened LogFormat

  datatype Proc =
    | Idle                          // outside any FS system call
    | Asleep                        // in begin_op, sleeping on &log
    | Awake                         // in begin_op, woken, about to test again
    | InOp(id: nat, added: nat)     // between begin_op and end_op; has added this many new blocks to the log
    | Committer                     // in end_op, running commit()

  datatype Phase =
    | ReadHead | RInstall(done: nat) | RClear                                     // recover_from_log
    | Ready                                                                       // no commit running
    | WriteLog(done: nat) | WriteHead | Install(done: nat) | ClearHead | Finish   // commit

  datatype State = State(
    disk: Disk,
    cache: map<int, Block>,    // valid buffers
    held: map<int, nat>,       // buffers locked by an operation, and by which process
    dirty: set<int>,           // modified since the last log_write of that buffer
    pinned: set<int>,          // bpin'ed by log_write
    lh: seq<int>,              // log.lh.block[0..log.lh.n)
    outstanding: int,
    committing: bool,
    phase: Phase,
    procs: seq<Proc>,
    started: nat)              // names the operations in the order begin_op lets them through

  datatype Event =
    | BeginOp(p: nat, op: nat)           // one pass of begin_op's loop
    | Read(p: nat, b: int)               // bread inside an operation
    | Modify(p: nat, b: int, v: Block)
    | LogWrite(p: nat, op: nat, b: int, v: Block)
    | Release(p: nat, b: int)            // brelse
    | EndOp(p: nat)
    | Load(b: int) | Evict(b: int)       // other readers, and recycling of unused buffers
    | WriteLogBlock | WriteLogDone | WriteHeader | InstallBlock | InstallDone | EraseHeader
    | CommitDone(p: nat)
    | Crash
    | RecoverHeader | RecoverBlock | RecoverDone | RecoverErase

  // ----- counting over the process table

  function Weight(p: Proc): nat {
    if p.InOp? && p.added <= MAXOPBLOCKS then MAXOPBLOCKS - p.added else 0
  }

  // Log blocks still reserved for running operations.
  function Reserved(procs: seq<Proc>): nat {
    if procs == [] then 0 else Weight(procs[|procs| - 1]) + Reserved(procs[..|procs| - 1])
  }

  function Running(procs: seq<Proc>): nat {
    if procs == [] then 0
    else (if procs[|procs| - 1].InOp? then 1 else 0) + Running(procs[..|procs| - 1])
  }

  lemma {:induction false} CountUpdate(procs: seq<Proc>, p: nat, x: Proc)
    requires p < |procs|
    ensures Reserved(procs[p := x]) == Reserved(procs) - Weight(procs[p]) + Weight(x)
    ensures Running(procs[p := x]) ==
      Running(procs) - (if procs[p].InOp? then 1 else 0) + (if x.InOp? then 1 else 0)
  {
    var n := |procs| - 1;
    if p == n {
      assert procs[p := x][..n] == procs[..n];
    } else {
      CountUpdate(procs[..n], p, x);
      assert procs[p := x][..n] == procs[..n][p := x];
    }
  }

  lemma {:induction false} RunningMember(procs: seq<Proc>, p: nat)
    requires p < |procs| && procs[p].InOp?
    ensures Running(procs) >= 1
  {
    if p < |procs| - 1 {
      RunningMember(procs[..|procs| - 1], p);
    }
  }

  // wakeup(&log)
  function WakeAll(procs: seq<Proc>): (r: seq<Proc>)
    ensures |r| == |procs|
    ensures forall i :: 0 <= i < |r| ==> r[i] == if procs[i].Asleep? then Awake else procs[i]
    ensures Reserved(r) == Reserved(procs) && Running(r) == Running(procs)
  {
    if procs == [] then []
    else
      var n := |procs| - 1;
      var r := WakeAll(procs[..n]) + [if procs[n].Asleep? then Awake else procs[n]];
      assert r[..n] == WakeAll(procs[..n]);
      r
  }

  // ----- steps

  function Bread(s: State, b: int): Block
    requires b in s.cache || 0 <= b < |s.disk|
  {
    if b in s.cache then s.cache[b] else s.disk[b]
  }

  // bwrite of a cached buffer whose data is now v
  function Store(s: State, b: int, v: Block): State
    requires 0 <= b < |s.disk|
  {
    s.(disk := s.disk[b := v], cache := s.cache[b := v])
  }

  predicate NoSpace(s: State) {
    |s.lh| + (s.outstanding + 1) * MAXOPBLOCKS > LOGSIZE
  }

  predicate LogWritePanics(L: Layout, s: State) {
    || |s.lh| >= LOGSIZE || |s.lh| >= L.nlog - 1   // "too big a transaction"
    || s.outstanding < 1                           // "log_write outside of trans"
  }

  predicate OpOf(s: State, p: nat) {
    p < |s.procs| && s.procs[p].InOp?
  }

  predicate Holds(s: State, p: nat, b: int) {
    OpOf(s, p) && b in s.held && s.held[b] == p && b in s.cache
  }

  // What may happen next. Beyond the code's own control flow this states only what operations owe the log:
  // a buffer is modified and logged while locked, a modified buffer is logged before it is released, no
  // buffer is kept past end_op, and log_write is called only while the operation has added fewer than
  // MAXOPBLOCKS blocks.
  predicate Enabled(L: Layout, s: State, e: Event) {
    match e
    case BeginOp(p, op) =>
      !Recovering(s) && p < |s.procs| && (s.procs[p].Idle? || s.procs[p].Awake?) && op == s.started
    case Read(p, b) => OpOf(s, p) && L.Home(b) && b < |s.disk| && b !in s.held
    case Modify(p, b, v) => Holds(s, p, b)
    case LogWrite(p, op, b, v) =>
      && Holds(s, p, b) && s.cache[b] == v
      && s.procs[p].id == op && s.procs[p].added < MAXOPBLOCKS
      && !LogWritePanics(L, s)
    case Release(p, b) => Holds(s, p, b) && b !in s.dirty
    case EndOp(p) => OpOf(s, p) && (forall b :: b in s.held ==> s.held[b] != p) && !s.committing
    case Load(b) => 0 <= b < |s.disk| && b !in s.cache
    case Evict(b) => b in s.cache && b !in s.held && b !in s.pinned
    case WriteLogBlock => s.phase.WriteLog? && s.phase.done < |s.lh|
      && 0 <= s.lh[s.phase.done] < |s.disk| && L.logstart + 1 + s.phase.done < |s.disk|
    case WriteLogDone => s.phase.WriteLog? && s.phase.done >= |s.lh|
    case WriteHeader => s.phase.WriteHead? && L.logstart < |s.disk| && |s.lh| <= LOGSIZE
    case InstallBlock => s.phase.Install? && s.phase.done < |s.lh|
      && 0 <= s.lh[s.phase.done] < |s.disk| && L.logstart + 1 + s.phase.done < |s.disk|
    case InstallDone => s.phase.Install? && s.phase.done >= |s.lh|
    case EraseHeader => s.phase.ClearHead? && L.logstart < |s.disk| && |s.lh| <= LOGSIZE
    case CommitDone(p) => s.phase.Finish? && p < |s.procs| && s.procs[p].Committer?
    case Crash => true
    case RecoverHeader => s.phase.ReadHead? && L.logstart < |s.disk| && HeaderFits(Bread(s, L.logstart))
    case RecoverBlock => s.phase.RInstall? && s.phase.done < |s.lh|
      && 0 <= s.lh[s.phase.done] < |s.disk| && L.logstart + 1 + s.phase.done < |s.disk|
    case RecoverDone => s.phase.RInstall? && s.phase.done >= |s.lh|
    case RecoverErase => s.phase.RClear? && L.logstart < |s.disk| && |s.lh| <= LOGSIZE
  }

  predicate Recovering(s: State) {
    s.phase.ReadHead? || s.phase.RInstall? || s.phase.RClear?
  }

  function DoBegin(s: State, p: nat, op: nat): State
    requires p < |s.procs|
  {
    if s.committing || NoSpace(s) then s.(procs := s.procs[p := Asleep])
    else s.(outstanding := s.outstanding + 1, procs := s.procs[p := InOp(op, 0)],
              started := s.started + 1)
  }

  function DoLogWrite(s: State, p: nat, b: int): State
    requires OpOf(s, p)
  {
    var s1 := s.(dirty := s.dirty - {b});
    if IndexOf(s.lh, b) < |s.lh| then s1   // absorbed
    else s1.(lh := s.lh + [b], pinned := s.pinned + {b},
             procs := s.procs[p := s.procs[p].(added := s.procs[p].added + 1)])
  }

  function DoEnd(s: State, p: nat): State
    requires p < |s.procs|
  {
    var s1 := s.(outstanding := s.outstanding - 1);
    if s1.outstanding == 0 then
      s1.(committing := true, procs := s.procs[p := Committer],
          phase := if |s.lh| > 0 then WriteLog(0) else Finish)
    else s1.(procs := WakeAll(s.procs[p := Idle]))
  }

  // One iteration of write_log's loop.
  function DoWriteLog(L: Layout, s: State): State
    requires Enabled(L, s, WriteLogBlock)
  {
    var from := s.lh[s.phase.done];
    var to := L.logstart + 1 + s.phase.done;
    var s1 := s.(cache := s.cache[from := Bread(s, from)]);
    Store(s1, to, Bread(s, from)).(phase := WriteLog(s.phase.done + 1))
  }

  // One iteration of install_trans's loop.
  function DoInstall(L: Layout, s: State, next: Phase): State
    requires (s.phase.Install? || s.phase.RInstall?) && s.phase.done < |s.lh|
    requires 0 <= s.lh[s.phase.done] < |s.disk| && L.logstart + 1 + s.phase.done < |s.disk|
  {
    var from := L.logstart + 1 + s.phase.done;
    var to := s.lh[s.phase.done];
    var s1 := s.(cache := s.cache[from := Bread(s, from)]);
    Store(s1, to, Bread(s, from)).(phase := next)
  }

  function Boot(s: State): State {
    s.(cache := map[], held := map[], dirty := {}, pinned := {}, lh := [], outstanding := 0,
       committing := false, phase := ReadHead, procs := seq(|s.procs|, _ => Idle))
  }

  function Step(L: Layout, s: State, e: Event): State
    requires Enabled(L, s, e)
  {
    match e
    case BeginOp(p, op) => DoBegin(s, p, op)
    case Read(p, b) => s.(cache := s.cache[b := Bread(s, b)], held := s.held[b := p])
    case Modify(p, b, v) => s.(cache := s.cache[b := v], dirty := s.dirty + {b})
    case LogWrite(p, op, b, v) => DoLogWrite(s, p, b)
    case Release(p, b) => s.(held := s.held - {b})
    case EndOp(p) => DoEnd(s, p)
    case Load(b) => s.(cache := s.cache[b := s.disk[b]])
    case Evict(b) => s.(cache := s.cache - {b})
    case WriteLogBlock => DoWriteLog(L, s)
    case WriteLogDone => s.(phase := WriteHead)
    case WriteHeader => Store(s, L.logstart, Encode(Bread(s, L.logstart), s.lh)).(phase := Install(0))
    case InstallBlock =>
      DoInstall(L, s, Install(s.phase.done + 1)).(pinned := s.pinned - {s.lh[s.phase.done]})
    case InstallDone => s.(lh := [], phase := ClearHead)
    case EraseHeader => Store(s, L.logstart, Encode(Bread(s, L.logstart), s.lh)).(phase := Finish)
    case CommitDone(p) => s.(committing := false, phase := Ready, procs := WakeAll(s.procs[p := Idle]))
    case Crash => Boot(s)
    case RecoverHeader => s.(cache := s.cache[L.logstart := Bread(s, L.logstart)],
                             lh := Decode(Bread(s, L.logstart)), phase := RInstall(0))
    case RecoverBlock => DoInstall(L, s, RInstall(s.phase.done + 1))
    case RecoverDone => s.(lh := [], phase := RClear)
    case RecoverErase => Store(s, L.logstart, Encode(Bread(s, L.logstart), s.lh)).(phase := Ready)
  }

  // ----- runs

  ghost predicate Legal(L: Layout, s: State, tr: seq<Event>)
    decreases |tr|, 0
  {
    tr == [] ||
    (Legal(L, s, tr[..|tr| - 1]) && Enabled(L, Exec(L, s, tr[..|tr| - 1]), tr[|tr| - 1]))
  }

  ghost function Exec(L: Layout, s: State, tr: seq<Event>): State
    requires Legal(L, s, tr)
    decreases |tr|, 1
  {
    if tr == [] then s else Step(L, Exec(L, s, tr[..|tr| - 1]), tr[|tr| - 1])
  }

  // The machine just before initlog: anything on the disk, nothing in memory.
  ghost predicate Booted(L: Layout, s: State) {
    WellFormed(L, s.disk) && s == Boot(s)
  }

  // ----- what a run should mean: two disk images

  datatype Abs = Abs(stable: Disk, current: Disk)

  ghost function AbsStep(a: Abs, e: Event): Abs {
    match e
    case LogWrite(p, op, b, v) =>
      if 0 <= b < |a.current| then a.(current := a.current[b := v]) else a
    case WriteHeader => a.(stable := a.current)
    case Crash => a.(current := a.stable)
    case _ => a
  }

  ghost predicate LockInv(L: Layout, s: State) {
    && s.dirty <= s.held.Keys <= s.cache.Keys
    && (forall b :: b in s.held ==> L.Home(b) && OpOf(s, s.held[b]))
    && s.pinned <= s.cache.Keys
    && (forall b :: b in s.cache ==> 0 <= b < |s.disk|)
    && (forall b :: b in s.cache && b !in s.pinned && b !in s.dirty ==> s.cache[b] == s.disk[b])
  }

  ghost predicate CountInv(L: Layout, s: State) {
    && s.outstanding == Running(s.procs)
    && |s.lh| + Reserved(s.procs) <= LOGSIZE
    && (forall p :: 0 <= p < |s.procs| && s.procs[p].InOp? ==>
          s.procs[p].added <= MAXOPBLOCKS && s.procs[p].id < s.started)
    && (s.committing ==> s.outstanding == 0)
    && (s.committing <==> !Recovering(s) && s.phase != Ready)
    && (s.phase == Ready && s.outstanding == 0 ==> s.lh == [])
    && (Recovering(s) ==> s.outstanding == 0)
  }

  // Which logged blocks are still pinned in the cache.
  ghost predicate PinInv(s: State) {
    && (s.phase.Ready? || s.phase.WriteLog? || s.phase.WriteHead? ==> s.pinned == (set b | b in s.lh))
    && (s.phase.Install? ==> s.phase.done <= |s.lh| && s.pinned == Unpinned(s.lh, s.phase.done))
    && (s.phase.ClearHead? || s.phase.Finish? || Recovering(s) ==> s.pinned == {})
  }

  // Before the header is written: the disk holds the stable contents, the pinned buffers the rest.
  ghost predicate Collected(L: Layout, s: State, a: Abs)
    requires RecoversTo(L, s.disk, a.stable) && |a.current| == L.size
    requires LockInv(L, s)
  {
    && Header(L, s.disk) == []
    && (forall b :: b in s.pinned && b !in s.dirty ==> s.cache[b] == a.current[b])
    && (forall b :: 0 <= b < L.size && b !in s.lh ==> a.current[b] == a.stable[b])
  }

  // What each phase knows about the two disk images.
  ghost predicate PhaseInv(L: Layout, s: State, a: Abs)
    requires RecoversTo(L, s.disk, a.stable) && |a.current| == L.size
    requires Replayable(L, s.lh) && LockInv(L, s)
  {
    match s.phase
    case Ready => Collected(L, s, a)
    case WriteLog(t) =>
      && Collected(L, s, a) && t <= |s.lh|
      && (forall i :: 0 <= i < t ==> s.disk[L.logstart + 1 + i] == a.current[s.lh[i]])
    case WriteHead =>
      Collected(L, s, a) && Logged(L, s.disk, s.lh, a.current)
    case Install(t) =>
      && (forall b :: b in s.pinned ==> s.cache[b] == a.current[b])
      && t <= |s.lh| && s.lh == Header(L, s.disk) && a.current == a.stable
      && InstalledTo(L, s.disk, s.lh, t, a.stable)
    case RInstall(t) =>
      && t <= |s.lh| && s.lh == Header(L, s.disk) && a.current == a.stable
      && InstalledTo(L, s.disk, s.lh, t, a.stable)
    case ClearHead | RClear =>
      && s.lh == [] && HomeIs(L, s.disk, a.stable) && a.current == a.stable
    case Finish =>
      && s.lh == [] && Header(L, s.disk) == [] && a.current == a.stable
    case ReadHead =>
      && s.lh == [] && a.current == a.stable
  }

  ghost predicate Inv(L: Layout, s: State, a: Abs) {
    && RecoversTo(L, s.disk, a.stable)
    && |a.current| == L.size
    && Replayable(L, s.lh)
    && LockInv(L, s)
    && CountInv(L, s)
    && PinInv(s)
    && PhaseInv(L, s, a)
  }

  lemma BootInv(L: Layout, s: State, a: Abs)
    requires Booted(L, s) && RecoversTo(L, s.disk, a.stable) && a.current == a.stable
    ensures Inv(L, s, a)
  {
    CountIdle(|s.procs|);
    assert s.procs == seq(|s.procs|, (_: nat) => Idle);
  }

  lemma {:induction false} CountIdle(n: nat)
    ensures var ps := seq(n, (_: nat) => Idle); Reserved(ps) == 0 && Running(ps) == 0
  {
    if n > 0 {
      CountIdle(n - 1);
      assert seq(n, (_: nat) => Idle)[..n - 1] == seq(n - 1, (_: nat) => Idle);
    }
  }

  // ----- every step keeps the invariant

  lemma BeginCounts(L: Layout, s: State, p: nat, op: nat)
    requires CountInv(L, s) && Enabled(L, s, BeginOp(p, op))
    ensures CountInv(L, DoBegin(s, p, op))
  {
    CountUpdate(s.procs, p, Asleep);
    CountUpdate(s.procs, p, InOp(op, 0));
    ReservedBound(s.procs);
  }

  // A step that changes only log.lock's bookkeeping and lets no lock holder leave.
  ghost predicate SameBuffers(s: State, s': State) {
    && s'.disk == s.disk && s'.cache == s.cache && s'.held == s.held && s'.dirty == s.dirty
    && s'.pinned == s.pinned && s'.lh == s.lh
    && (forall b :: b in s.held && OpOf(s, s.held[b]) ==> OpOf(s', s.held[b]))
  }

  lemma KeepBuffers(L: Layout, s: State, s': State, a: Abs)
    requires Inv(L, s, a) && SameBuffers(s, s') && s'.phase == s.phase && CountInv(L, s')
    ensures Inv(L, s', a)
  {
    assert LockInv(L, s');
  }

  lemma InvBegin(L: Layout, s: State, a: Abs, p: nat, op: nat)
    requires Inv(L, s, a) && Enabled(L, s, BeginOp(p, op))
    ensures Inv(L, DoBegin(s, p, op), a)
  {
    BeginCounts(L, s, p, op);
    KeepBuffers(L, s, DoBegin(s, p, op), a);
  }

  lemma {:induction false} ReservedBound(procs: seq<Proc>)
    ensures Reserved(procs) <= Running(procs) * MAXOPBLOCKS
  {
    if procs != [] {
      ReservedBound(procs[..|procs| - 1]);
    }
  }

  // A step that only touches buffers: the log's own state and the disk stay as they are.
  ghost predicate SameLog(s: State, s': State) {
    && s'.disk == s.disk && s'.pinned == s.pinned && s'.lh == s.lh && s'.phase == s.phase
    && s'.outstanding == s.outstanding && s'.committing == s.committing
    && s'.procs == s.procs && s'.started == s.started
  }

  lemma KeepLog(L: Layout, s: State, s': State, a: Abs)
    requires Inv(L, s, a) && SameLog(s, s') && LockInv(L, s')
    requires forall b :: b in s'.pinned && b !in s'.dirty ==> b !in s.dirty && s'.cache[b] == s.cache[b]
    ensures Inv(L, s', a)
  {
    if Running(s.procs) == 0 {
      NoLocks(L, s');
    }
  }

  lemma InvBuffer(L: Layout, s: State, a: Abs, e: Event)
    requires Inv(L, s, a) && Enabled(L, s, e)
    requires e.Read? || e.Modify? || e.Release? || e.Load? || e.Evict?
    ensures Inv(L, Step(L, s, e), a)
  {
    BufferLocks(L, s, e);
    KeepLog(L, s, Step(L, s, e), a);
  }

  lemma BufferLocks(L: Layout, s: State, e: Event)
    requires LockInv(L, s) && |s.disk| == L.size && Enabled(L, s, e)
    requires e.Read? || e.Modify? || e.Release? || e.Load? || e.Evict?
    ensures LockInv(L, Step(L, s, e))
  {}

  lemma LogWriteCounts(L: Layout, s: State, p: nat, b: int)
    requires CountInv(L, s) && OpOf(s, p) && s.procs[p].added < MAXOPBLOCKS && !Recovering(s)
    ensures CountInv(L, DoLogWrite(s, p, b))
  {
    CountUpdate(s.procs, p, s.procs[p].(added := s.procs[p].added + 1));
    RunningMember(s.procs, p);
  }

  lemma LogWriteRecord(L: Layout, s: State, p: nat, op: nat, b: int, v: Block)
    requires LockInv(L, s) && Replayable(L, s.lh) && PinInv(s) && s.phase.Ready?
    requires Enabled(L, s, LogWrite(p, op, b, v))
    ensures var s' := DoLogWrite(s, p, b);
      LockInv(L, s') && Replayable(L, s'.lh) && PinInv(s')
  {
    var s' := DoLogWrite(s, p, b);
    if s'.lh != s.lh {
      AppendRecord(L, s.lh, b);
    }
    hide Replayable;
  }

  lemma AppendRecord(L: Layout, lh: seq<int>, b: int)
    requires Replayable(L, lh) && |lh| < L.Capacity() && L.Home(b) && b !in lh
    ensures Replayable(L, lh + [b]) && (set c | c in lh + [b]) == (set c | c in lh) + {b}
  {
    assert forall i :: 0 <= i < |lh| ==> (lh + [b])[i] == lh[i];
  }

  lemma LogWriteCollected(L: Layout, s: State, a: Abs, e: Event)
    requires RecoversTo(L, s.disk, a.stable) && |a.current| == L.size
    requires LockInv(L, s) && s.phase.Ready? && Enabled(L, s, e) && e.LogWrite? && PinInv(s)
    requires Collected(L, s, a) && LockInv(L, Step(L, s, e))
    ensures Collected(L, Step(L, s, e), AbsStep(a, e))
  {
    var s' := Step(L, s, e);
    assert s'.lh == s.lh || s'.lh == s.lh + [e.b];
  }

  lemma InvLogWrite(L: Layout, s: State, a: Abs, e: Event)
    requires Inv(L, s, a) && Enabled(L, s, e) && e.LogWrite?
    ensures Inv(L, Step(L, s, e), AbsStep(a, e))
  {
    var s' := Step(L, s, e);
    RunningMember(s.procs, e.p);
    LogWriteCounts(L, s, e.p, e.b);
    LogWriteRecord(L, s, e.p, e.op, e.b, e.v);
    LogWriteCollected(L, s, a, e);
  }

  lemma EndOpCounts(L: Layout, s: State, p: nat)
    requires CountInv(L, s) && OpOf(s, p) && !s.committing && !Recovering(s)
    ensures CountInv(L, DoEnd(s, p))
  {
    hide Reserved, Running, WakeAll;
    CountUpdate(s.procs, p, Committer);
    CountUpdate(s.procs, p, Idle);
    RunningMember(s.procs, p);
  }

  // When the last operation leaves, no buffer is locked and none is modified but unlogged.
  lemma NoLocks(L: Layout, s: State)
    requires LockInv(L, s) && Running(s.procs) == 0
    ensures s.held == map[] && s.dirty == {}
  {
    forall b | b in s.held ensures false {
      RunningMember(s.procs, s.held[b]);
    }
  }

  lemma InvEndOp(L: Layout, s: State, a: Abs, p: nat)
    requires Inv(L, s, a) && Enabled(L, s, EndOp(p))
    ensures Inv(L, DoEnd(s, p), a)
  {
    var s' := DoEnd(s, p);
    RunningMember(s.procs, p);
    EndOpCounts(L, s, p);
    EndOpLocks(L, s, p);
    EndOpPhase(L, s, a, p);
  }

  lemma EndOpPhase(L: Layout, s: State, a: Abs, p: nat)
    requires RecoversTo(L, s.disk, a.stable) && |a.current| == L.size && Replayable(L, s.lh)
    requires LockInv(L, s) && PinInv(s) && s.phase.Ready? && PhaseInv(L, s, a)
    requires p < |s.procs| && LockInv(L, DoEnd(s, p))
    ensures PinInv(DoEnd(s, p)) && PhaseInv(L, DoEnd(s, p), a)
  {
    hide Redo, Encode, Decode;
    if s.lh == [] {
      assert a.current == a.stable;
    }
  }

  lemma EndOpLocks(L: Layout, s: State, p: nat)
    requires LockInv(L, s) && Enabled(L, s, EndOp(p))
    ensures LockInv(L, DoEnd(s, p))
  {}

  // ----- commit

  // A step of a commit or of recovery leaves the process table and the reservations alone.
  lemma PhaseCounts(L: Layout, s: State, s': State)
    requires CountInv(L, s) && s'.procs == s.procs && s'.outstanding == s.outstanding
    requires s'.committing == s.committing && s'.started == s.started
    requires |s'.lh| <= |s.lh|
    requires s.phase != Ready && s'.phase != Ready && Recovering(s) == Recovering(s')
    ensures CountInv(L, s')
  {}

  // memmove and bwrite under the buffer's lock.
  lemma StoreLocks(L: Layout, s: State, b: int, v: Block)
    requires LockInv(L, s) && 0 <= b < |s.disk|
    ensures LockInv(L, Store(s, b, v))
  {}

  lemma WriteLogLocks(L: Layout, s: State)
    requires LockInv(L, s) && Enabled(L, s, WriteLogBlock) && s.lh[s.phase.done] in s.pinned
    ensures LockInv(L, DoWriteLog(L, s))
    ensures DoWriteLog(L, s) ==
      Store(s, L.logstart + 1 + s.phase.done, s.cache[s.lh[s.phase.done]]).(phase := WriteLog(s.phase.done + 1))
  {
    var from := s.lh[s.phase.done];
    assert s.cache[from := s.cache[from]] == s.cache;
    StoreLocks(L, s, L.logstart + 1 + s.phase.done, s.cache[from]);
  }

  lemma InvWriteLog(L: Layout, s: State, a: Abs)
    requires Inv(L, s, a) && Enabled(L, s, WriteLogBlock)
    ensures Inv(L, DoWriteLog(L, s), a)
  {
    var t := s.phase.done;
    var s' := DoWriteLog(L, s);
    NoLocks(L, s);
    assert s.lh[t] in s.pinned;
    WriteLogLocks(L, s);
    PhaseCounts(L, s, s');
    hide LockInv, CountInv, Redo, DoWriteLog, Collected;
    WriteLogPhase(L, s, a, s');
  }

  lemma WriteLogPhase(L: Layout, s: State, a: Abs, s': State)
    requires RecoversTo(L, s.disk, a.stable) && |a.current| == L.size && Replayable(L, s.lh) && LockInv(L, s)
    requires s.phase.WriteLog? && s.phase.done < |s.lh| && s.lh[s.phase.done] in s.pinned && s.dirty == {}
    requires PinInv(s) && PhaseInv(L, s, a) && LockInv(L, s')
    requires s' ==
      Store(s, L.logstart + 1 + s.phase.done, s.cache[s.lh[s.phase.done]]).(phase := WriteLog(s.phase.done + 1))
    ensures RecoversTo(L, s'.disk, a.stable) && PinInv(s') && PhaseInv(L, s', a)
  {
    assert s.pinned <= s.cache.Keys;
    hide LockInv, Redo;
    WriteUnusedLogBlock(L, s.disk, 1 + s.phase.done, s.cache[s.lh[s.phase.done]], a.stable);
    assert Collected(L, s', a);
  }

  lemma InvWriteHeader(L: Layout, s: State, a: Abs)
    requires Inv(L, s, a) && Enabled(L, s, WriteHeader)
    ensures Inv(L, Step(L, s, WriteHeader), AbsStep(a, WriteHeader))
  {
    var s' := Step(L, s, WriteHeader);
    NoLocks(L, s);
    StoreLocks(L, s, L.logstart, Encode(Bread(s, L.logstart), s.lh));
    assert LockInv(L, s');
    PhaseCounts(L, s, s');
    LogFormat.WriteHeader(L, s.disk, Bread(s, L.logstart), s.lh, a.current);
    assert s.pinned == Unpinned(s.lh, 0);
  }

  // install_trans's loop body, shared by commit and recovery, leaves the caches agreeing with the disk.
  lemma InstallLocks(L: Layout, s: State, next: Phase)
    requires LockInv(L, s) && s.held == map[] && s.dirty == {} && L.Valid() && |s.disk| == L.size
    requires (s.phase.Install? || s.phase.RInstall?) && s.phase.done < |s.lh| < L.nlog
    requires L.Home(s.lh[s.phase.done]) && L.logstart + 1 + s.phase.done !in s.pinned
    ensures var s' := DoInstall(L, s, next);
      LockInv(L, s'.(pinned := s.pinned - {s.lh[s.phase.done]}))
      && s'.disk == s.disk[s.lh[s.phase.done] := s.disk[L.logstart + 1 + s.phase.done]]
  {}

  lemma InstallDisk(L: Layout, s: State, a: Abs, d': Disk)
    requires RecoversTo(L, s.disk, a.stable) && Header(L, s.disk) == s.lh
    requires (s.phase.Install? || s.phase.RInstall?) && s.phase.done < |s.lh| <= L.Capacity()
    requires InstalledTo(L, s.disk, s.lh, s.phase.done, a.stable)
    requires 0 <= s.lh[s.phase.done] < |s.disk|
    requires d' == s.disk[s.lh[s.phase.done] := s.disk[L.logstart + 1 + s.phase.done]]
    ensures RecoversTo(L, d', a.stable) && Header(L, d') == s.lh
    ensures InstalledTo(L, d', s.lh, s.phase.done + 1, a.stable)
  {
    InstallOne(L, s.disk, s.phase.done, a.stable);
  }

  // The invariant after one iteration, from its parts.
  lemma InstallParts(L: Layout, s: State, s': State, a: Abs)
    requires Inv(L, s, a) && Enabled(L, s, InstallBlock)
    requires s'.phase == Install(s.phase.done + 1) && s'.lh == s.lh
    requires RecoversTo(L, s'.disk, a.stable) && Header(L, s'.disk) == s.lh
    requires InstalledTo(L, s'.disk, s.lh, s.phase.done + 1, a.stable)
    requires LockInv(L, s') && CountInv(L, s') && s'.pinned == Unpinned(s.lh, s.phase.done + 1)
    requires forall b :: b in s'.pinned ==> b in s.pinned && s'.cache[b] == s.cache[b]
    ensures Inv(L, s', a)
  {}

  lemma InvInstall(L: Layout, s: State, a: Abs)
    requires Inv(L, s, a) && Enabled(L, s, InstallBlock)
    ensures Inv(L, Step(L, s, InstallBlock), a)
  {
    var s1 := DoInstall(L, s, Install(s.phase.done + 1));
    var s' := s1.(pinned := s.pinned - {s.lh[s.phase.done]});
    assert s' == Step(L, s, InstallBlock);
    NoLocks(L, s);
    InstallLocks(L, s, s'.phase);
    InstallDisk(L, s, a, s'.disk);
    PhaseCounts(L, s, s');
    Unpin(s.lh, s.phase.done);
    InstallParts(L, s, s', a);
  }

  lemma InvInstallDone(L: Layout, s: State, a: Abs, e: Event)
    requires Inv(L, s, a) && Enabled(L, s, e) && (e.InstallDone? || e.RecoverDone?)
    ensures Inv(L, Step(L, s, e), a)
  {
    NoLocks(L, s);
    FullyInstalled(L, s.disk, s.lh, a.stable);
  }

  lemma InvErase(L: Layout, s: State, a: Abs, e: Event)
    requires Inv(L, s, a) && Enabled(L, s, e) && (e.EraseHeader? || e.RecoverErase?)
    ensures Inv(L, Step(L, s, e), a)
  {
    NoLocks(L, s);
    ClearHeader(L, s.disk, Bread(s, L.logstart), a.stable);
    assert LockInv(L, Step(L, s, e));
  }

  lemma InvCommitDone(L: Layout, s: State, a: Abs, p: nat)
    requires Inv(L, s, a) && Enabled(L, s, CommitDone(p))
    ensures Inv(L, Step(L, s, CommitDone(p)), a)
  {
    CommitDoneCounts(L, s, p);
    NoLocks(L, s);
    hide CountInv, Redo, Encode, Decode;
  }

  lemma CommitDoneCounts(L: Layout, s: State, p: nat)
    requires CountInv(L, s) && Enabled(L, s, CommitDone(p)) && s.lh == []
    ensures CountInv(L, Step(L, s, CommitDone(p)))
  {
    hide Reserved, Running, WakeAll;
    CountUpdate(s.procs, p, Idle);
  }

  // ----- crash and recovery

  lemma InvCrash(L: Layout, s: State, a: Abs)
    requires Inv(L, s, a)
    ensures Inv(L, Boot(s), AbsStep(a, Crash))
  {
    BootInv(L, Boot(s), AbsStep(a, Crash));
  }

  lemma InvRecoverHeader(L: Layout, s: State, a: Abs)
    requires Inv(L, s, a) && Enabled(L, s, RecoverHeader)
    ensures Inv(L, Step(L, s, RecoverHeader), a)
  {
    NoLocks(L, s);
    ReservedBound(s.procs);
    assert LockInv(L, Step(L, s, RecoverHeader));
  }

  lemma InvRecoverBlock(L: Layout, s: State, a: Abs)
    requires Inv(L, s, a) && Enabled(L, s, RecoverBlock)
    ensures Inv(L, Step(L, s, RecoverBlock), a)
  {
    var s' := Step(L, s, RecoverBlock);
    NoLocks(L, s);
    InstallLocks(L, s, s'.phase);
    assert s.pinned - {s.lh[s.phase.done]} == s.pinned;
    InstallDisk(L, s, a, s'.disk);
    PhaseCounts(L, s, s');
  }

  lemma InvWriteLogDone(L: Layout, s: State, a: Abs)
    requires Inv(L, s, a) && Enabled(L, s, WriteLogDone)
    ensures Inv(L, Step(L, s, WriteLogDone), a)
  {}

  lemma InvPhaseStep(L: Layout, s: State, a: Abs, e: Event)
    requires Inv(L, s, a) && Enabled(L, s, e)
    requires e.WriteLogBlock? || e.WriteLogDone? || e.WriteHeader? || e.InstallBlock? || e.InstallDone?
      || e.EraseHeader?
      || e.CommitDone?
    ensures Inv(L, Step(L, s, e), AbsStep(a, e))
  {
    hide Inv, Enabled, Redo, Encode, DoBegin, DoEnd, DoLogWrite, DoWriteLog, DoInstall;
    match e
    case WriteLogBlock => InvWriteLog(L, s, a);
    case WriteLogDone => InvWriteLogDone(L, s, a);
    case WriteHeader => InvWriteHeader(L, s, a);
    case InstallBlock => InvInstall(L, s, a);
    case InstallDone => InvInstallDone(L, s, a, e);
    case EraseHeader => InvErase(L, s, a, e);
    case CommitDone(p) => InvCommitDone(L, s, a, p);
  }

  lemma InvRecoveryStep(L: Layout, s: State, a: Abs, e: Event)
    requires Inv(L, s, a) && Enabled(L, s, e)
    requires e.Crash? || e.RecoverHeader? || e.RecoverBlock? || e.RecoverDone? || e.RecoverErase?
    ensures Inv(L, Step(L, s, e), AbsStep(a, e))
  {
    hide Inv, Enabled, Redo, Encode, DoBegin, DoEnd, DoLogWrite, DoWriteLog, DoInstall;
    match e
    case Crash => InvCrash(L, s, a);
    case RecoverHeader => InvRecoverHeader(L, s, a);
    case RecoverBlock => InvRecoverBlock(L, s, a);
    case RecoverDone => InvInstallDone(L, s, a, e);
    case RecoverErase => InvErase(L, s, a, e);
  }

  lemma InvStep(L: Layout, s: State, a: Abs, e: Event)
    requires Inv(L, s, a) && Enabled(L, s, e)
    ensures Inv(L, Step(L, s, e), AbsStep(a, e))
  {
    if e.BeginOp? {
      InvBegin(L, s, a, e.p, e.op);
    } else if e.LogWrite? {
      InvLogWrite(L, s, a, e);
    } else if e.EndOp? {
      InvEndOp(L, s, a, e.p);
    } else if e.Read? || e.Modify? || e.Release? || e.Load? || e.Evict? {
      InvBuffer(L, s, a, e);
    } else if e.Crash? || e.RecoverHeader? || e.RecoverBlock? || e.RecoverDone? || e.RecoverErase? {
      InvRecoveryStep(L, s, a, e);
    } else {
      InvPhaseStep(L, s, a, e);
    }
    hide Inv, Enabled, Redo, Encode, DoLogWrite, DoWriteLog, DoInstall;
  }
}

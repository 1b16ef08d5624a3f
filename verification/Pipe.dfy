// kernel/pipe.c: a ring of 512 bytes with 32-bit counters between any number of readers and writers.
// No one is killed, and user buffers can be read and written.
module Pipe {
  import opened Basics
  import opened SleepWakeup

  const PIPESIZE: nat := 512
  const WORD: nat := 0x1_0000_0000
  type uint = n: nat | n < WORD

  datatype Chan = NRead | NWrite

  datatype Ring = Ring(data: seq<int>, nread: uint, nwrite: uint, readopen: bool, writeopen: bool)

  predicate Full(r: Ring) {
    r.nwrite == (r.nread + PIPESIZE) % WORD
  }

  predicate Empty(r: Ring) {
    r.nread == r.nwrite
  }

  // The conditions under which pipewrite and piperead sleep.
  predicate Blocked(r: Ring, c: Chan) {
    match c
    case NRead => Empty(r) && r.writeopen
    case NWrite => Full(r) && r.readopen
  }

  function Store(r: Ring, b: int): Ring
    requires |r.data| == PIPESIZE
  {
    r.(data := r.data[r.nwrite % PIPESIZE := b], nwrite := (r.nwrite + 1) % WORD)
  }

  function Take(r: Ring): Ring {
    r.(nread := (r.nread + 1) % WORD)
  }

  function Shut(r: Ring, writable: bool): Ring {
    if writable then r.(writeopen := false) else r.(readopen := false)
  }

  // Where a process is in the code: before its acquire, at the top of its loop, after the wakeup that precedes
  // sleep, in the copy loop of piperead, and after its last wakeup.
  datatype At = Enter | Top | Full2 | Copy | Leave

  // What a process is doing with the pipe. base is what it had written before this call.
  datatype Call =
    | Idle
    | Write(bytes: seq<int>, i: nat, base: seq<int>)
    | Read(n: nat, got: seq<int>)
    | Close(writable: bool)

  datatype Local = Local(call: Call, at: At)

  // sent and taken are the histories of the ring: every byte stored, with its writer, and every byte taken, with
  // its reader. writers and readers say whether the file of that end still exists.
  datatype State = State(m: Monitor<Ring, Chan>, local: seq<Local>, sent: seq<(Pid, int)>, taken: seq<(Pid, int)>,
      writers: bool, readers: bool, freed: bool)

  datatype Event =
    | StartWrite(p: Pid, bytes: seq<int>)
    | StartRead(p: Pid, n: nat)
    | StartClose(p: Pid, writable: bool)
    | CopyinFails(p: Pid)
    | Go(p: Pid)

  function Init(n: nat, data: seq<int>): State
    requires |data| == PIPESIZE
  {
    var r := Ring(data, 0, 0, true, true);
    State(Monitor(r, seq(n, _ => Away), None, r, {}), seq(n, _ => Local(Idle, Leave)), [], [], true, true, false)
  }

  predicate Shaped(s: State) {
    |s.local| == |s.m.phase| && |s.m.shared.data| == PIPESIZE
  }

  // The next step of the code of a process, as the monitor sees it.
  function Next(p: Pid, l: Local, f: Phase<Chan>, r: Ring): SleepWakeup.Event<Ring, Chan>
    requires |r.data| == PIPESIZE && !l.call.Idle?
  {
    match f
    case Away => Acquire(p)
    case Woken => Acquire(p)
    case Waking(_, _) => Scan(p)
    case Parking(_) => LetGo(p)
    case Parked(_) => Mark(p)
    case Dozing(_) => SwitchAway(p)
    case Asleep(_) => SwitchAway(p) // not enabled
    case Inside =>
      match (l.at, l.call)
      case (Leave, _) => Release(p)
      case (Full2, _) => CallSleep(p, NWrite)
      case (_, Write(bytes, i, _)) =>
        if i >= |bytes| then CallWakeup(p, NRead)
        else if !r.readopen then Release(p)
        else if Full(r) then CallWakeup(p, NRead)
        else Act(p, Store(r, bytes[i]))
      case (at, Read(n, got)) =>
        if !at.Copy? && Empty(r) && r.writeopen then CallSleep(p, NRead)
        else if |got| < n && !Empty(r) then Act(p, Take(r))
        else CallWakeup(p, NWrite)
      case (at, Close(w)) => if at.Copy? then CallWakeup(p, if w then NRead else NWrite) else Act(p, Shut(r, w))
  }

  // Where that step takes the process.
  function After(p: Pid, l: Local, f: Phase<Chan>, r: Ring): Local
    requires |r.data| == PIPESIZE && !l.call.Idle?
  {
    match Next(p, l, f, r)
    case Acquire(_) => if l.at.Enter? then l.(at := Top) else l
    case Release(_) => Local(Idle, Leave)
    case CallSleep(_, _) => l.(at := Top)
    case CallWakeup(_, _) => l.(at := if l.call.Write? && l.call.i < |l.call.bytes| then Full2 else Leave)
    case Act(_, _) =>
      (match l.call
       case Write(bytes, i, base) => l.(call := Write(bytes, i + 1, base))
       case Read(n, got) => Local(Read(n, got + [Head(r)]), Copy)
       case _ => l.(at := Copy))
    case _ => l
  }

  function NextOf(s: State, p: Pid): SleepWakeup.Event<Ring, Chan>
    requires Shaped(s) && p < |s.local| && !s.local[p].call.Idle?
  {
    Next(p, s.local[p], s.m.phase[p], s.m.shared)
  }

  function Head(r: Ring): int
    requires |r.data| == PIPESIZE
  {
    r.data[r.nread % PIPESIZE]
  }

  predicate Enabled(s: State, e: Event) {
    && Shaped(s) && e.p < |s.local|
    && var l, r := s.local[e.p], s.m.shared;
       match e
       case StartWrite(_, _) => l.call.Idle? && s.writers
       case StartRead(_, _) => l.call.Idle? && s.readers
       case StartClose(_, true) =>
         l.call.Idle? && s.writers && forall q: Pid :: q < |s.local| ==> !s.local[q].call.Write?
       case StartClose(_, false) =>
         l.call.Idle? && s.readers && forall q: Pid :: q < |s.local| ==> !s.local[q].call.Read?
       case CopyinFails(p) =>
         l.call.Write? && l.at.Top? && l.call.i < |l.call.bytes| && s.m.phase[p].Inside? && r.readopen && !Full(r)
       case Go(p) => !l.call.Idle? && SleepWakeup.Enabled(s.m, NextOf(s, p))
  }

  function Step(s: State, e: Event): State
    requires Enabled(s, e)
  {
    match e
    case StartWrite(p, bytes) => s.(local := s.local[p := Local(Write(bytes, 0, By(s.sent, p)), Enter)])
    case StartRead(p, n) => s.(local := s.local[p := Local(Read(n, []), Enter)])
    case StartClose(p, w) =>
      var s1 := s.(local := s.local[p := Local(Close(w), Enter)]);
      if w then s1.(writers := false) else s1.(readers := false)
    case CopyinFails(p) =>
      s.(local := s.local[p := s.local[p].(at := Leave)], m := SleepWakeup.Step(s.m, CallWakeup(p, NRead)))
    case Go(p) =>
      var next, call, r := NextOf(s, p), s.local[p].call, s.m.shared;
      var s1 := s.(local := s.local[p := After(p, s.local[p], s.m.phase[p], r)], m := SleepWakeup.Step(s.m, next));
      if next.Act? && call.Write? && call.i < |call.bytes| then s1.(sent := s.sent + [(p, call.bytes[call.i])])
      else if next.Act? && call.Read? then s1.(taken := s.taken + [(p, Head(r))])
      else if next.Release? && call.Close? && !r.readopen && !r.writeopen then s1.(freed := true)
      else s1
  }

  // The bytes of p, in order.
  function By(h: seq<(Pid, int)>, p: Pid): seq<int> {
    if h == [] then []
    else By(h[..|h| - 1], p) + if h[|h| - 1].0 == p then [h[|h| - 1].1] else []
  }

  // ----- the ring: what has been taken is what was sent first, and the rest is in data

  ghost predicate RingInv(s: State) {
    var r, w, n := s.m.shared, |s.sent|, |s.taken|;
    && Shaped(s) && n <= w <= n + PIPESIZE
    && r.nwrite == w % WORD && r.nread == n % WORD
    && (forall k :: 0 <= k < n ==> s.taken[k].1 == s.sent[k].1)
    && forall k :: n <= k < w ==> s.sent[k].1 == r.data[k % PIPESIZE]
  }

  // The 32-bit counters tell full from empty although they wrap.
  lemma Counters(s: State)
    requires RingInv(s)
    ensures Full(s.m.shared) <==> |s.sent| == |s.taken| + PIPESIZE
    ensures Empty(s.m.shared) <==> |s.sent| == |s.taken|
    ensures s.m.shared.nwrite % PIPESIZE == |s.sent| % PIPESIZE
    ensures s.m.shared.nread % PIPESIZE == |s.taken| % PIPESIZE
  {
    var w, n := |s.sent|, |s.taken|;
    Wrap(w);
    Wrap(n);
    Apart(n, w - n);
    Apart(w, n + PIPESIZE - w);
  }

  lemma Apart(n: nat, d: nat)
    requires d < WORD
    ensures (n + d) % WORD == n % WORD <==> d == 0
  {
    if (n + d) % WORD == n % WORD {
      var q := (n + d) / WORD - n / WORD;
      assert n + d == (n + d) / WORD * WORD + (n + d) % WORD && n == n / WORD * WORD + n % WORD;
      assert d == q * WORD;
      assert q == 0;
    }
  }

  lemma Wrap(k: nat)
    ensures k % WORD % PIPESIZE == k % PIPESIZE
    ensures (k + 1) % WORD == (k % WORD + 1) % WORD
    ensures (k + PIPESIZE) % WORD == (k % WORD + PIPESIZE) % WORD
  {
    assert k == k / WORD * WORD + k % WORD;
    assert k / WORD * WORD == k / WORD * (WORD / PIPESIZE) * PIPESIZE;
  }

  lemma StoreKeeps(s: State, s1: State, p: Pid, b: int)
    requires RingInv(s) && !Full(s.m.shared) && Shaped(s1)
    requires s1.m.shared == Store(s.m.shared, b) && s1.sent == s.sent + [(p, b)] && s1.taken == s.taken
    ensures RingInv(s1)
  {
    Counters(s);
    var w, n := |s.sent|, |s.taken|;
    assert s1.m.shared.nwrite == (w + 1) % WORD by { Wrap(w); }
    var o := w % PIPESIZE;
    assert s1.m.shared.data == s.m.shared.data[o := b];
    forall k | n <= k < w + 1 ensures s1.sent[k].1 == s1.m.shared.data[k % PIPESIZE] {
      if k < w {
        OtherSlot(k, w, PIPESIZE);
      }
    }
  }

  lemma TakeKeeps(s: State, s1: State, p: Pid)
    requires RingInv(s) && !Empty(s.m.shared) && Shaped(s1)
    requires s1.m.shared == Take(s.m.shared) && s1.taken == s.taken + [(p, Head(s.m.shared))] && s1.sent == s.sent
    ensures RingInv(s1)
  {
    Counters(s);
    Wrap(|s.taken|);
  }

  // ----- each process and the section of pi->lock it is in

  predicate OnSleepPath(f: Phase<Chan>) {
    HasOwnLock(f) || f.Asleep? || f.Woken?
  }

  // Where a process can be in the code, and in sleep or wakeup, at the same time.
  predicate PlaceOk(l: Local, f: Phase<Chan>) {
    && (f.Away? <==> l.call.Idle? || l.at.Enter?)
    && (f.Waking? ==> (l.at.Leave? && !l.call.Idle?) || l.at.Full2?)
    && (OnSleepPath(f) ==> l.at.Top? && !l.call.Close?)
    && (l.at.Full2? ==> l.call.Write? && l.call.i < |l.call.bytes|)
    && (l.at.Copy? ==> !l.call.Write?)
    && (l.call.Read? && (l.at.Enter? || l.at.Top?) ==> l.call.got == [])
    && (HasOwnLock(f) || f.Asleep? ==> f.chan == if l.call.Write? then NWrite else NRead)
  }

  // What the process holding pi->lock has done to the ring since it took the lock.
  predicate SectionOk(m: Monitor<Ring, Chan>, l: Local, f: Phase<Chan>) {
    var r0, r := m.entry, m.shared;
    match l.call
    case Idle => true
    case Write(_, _, _) =>
      && r.nread == r0.nread && r.readopen == r0.readopen && r.writeopen == r0.writeopen
      && (Full(r0) ==> r == r0) && (r == r0 || r.readopen)
      && (l.at.Full2? ==> Full(r) && r.readopen)
      && (f.Inside? && (l.at.Full2? || l.at.Leave?) ==> NRead in m.woken)
      && (f.Waking? ==> f.chan == NRead)
    case Read(n, got) =>
      && r.readopen == r0.readopen && r.writeopen == r0.writeopen && r.nwrite == r0.nwrite
      && (got == [] ==> r == r0) && (l.at.Leave? ==> |got| >= n || Empty(r))
      && (if l.at.Top? then r == r0 else !(Empty(r0) && r0.writeopen))
      && (f.Inside? && l.at.Leave? ==> NWrite in m.woken)
      && (f.Waking? ==> f.chan == NWrite)
    case Close(w) =>
      var c := if w then NRead else NWrite;
      && (if l.at.Top? then r == r0 else r == Shut(r0, w))
      && (f.Inside? && l.at.Leave? ==> c in m.woken)
      && (f.Waking? ==> f.chan == c)
  }

  ghost predicate ProcInv(s: State) {
    && Shaped(s)
    && (forall p: Pid :: p < |s.local| ==> PlaceOk(s.local[p], s.m.phase[p]))
    && forall p: Pid :: p < |s.local| && HasLock(s.m.phase[p]) ==> SectionOk(s.m, s.local[p], s.m.phase[p])
  }

  ghost predicate MonitorInv(s: State) {
    Inv(s.m, Blocked)
  }

  // Both sides of careful use: pipewrite and piperead sleep only when they must, and wake whom they free.
  lemma IsCareful(s: State, p: Pid)
    requires MonitorInv(s) && ProcInv(s) && Enabled(s, Go(p))
    ensures Careful(s.m, NextOf(s, p), Blocked)
  {}

  lemma GoerPlace(m: Monitor<Ring, Chan>, l: Local, p: Pid)
    requires p < |m.phase| && |m.shared.data| == PIPESIZE && !l.call.Idle?
    requires PlaceOk(l, m.phase[p]) && SleepWakeup.Enabled(m, Next(p, l, m.phase[p], m.shared))
    ensures PlaceOk(After(p, l, m.phase[p], m.shared), SleepWakeup.Step(m, Next(p, l, m.phase[p], m.shared)).phase[p])
  {
    hide Store, Take, Shut;
  }

  lemma GoerSection(m: Monitor<Ring, Chan>, l: Local, p: Pid)
    requires p < |m.phase| && |m.shared.data| == PIPESIZE && !l.call.Idle?
    requires PlaceOk(l, m.phase[p]) && SleepWakeup.Enabled(m, Next(p, l, m.phase[p], m.shared))
    requires HasLock(m.phase[p]) ==> SectionOk(m, l, m.phase[p])
    ensures var m1 := SleepWakeup.Step(m, Next(p, l, m.phase[p], m.shared));
      HasLock(m1.phase[p]) ==> SectionOk(m1, After(p, l, m.phase[p], m.shared), m1.phase[p])
  {
    hide Head, HasOwnLock;
    if l.call.Read? {
      hide Full, Store, Shut;
    } else {
      hide Empty, Take;
    }
  }

  lemma OthersStep(s: State, e: SleepWakeup.Event<Ring, Chan>, q: Pid)
    requires MonitorInv(s) && ProcInv(s) && SleepWakeup.Enabled(s.m, e)
    requires q < |s.local| && q != e.p
    ensures var m1 := SleepWakeup.Step(s.m, e);
      && PlaceOk(s.local[q], m1.phase[q])
      && (HasLock(m1.phase[q]) ==> SectionOk(m1, s.local[q], m1.phase[q]))
  {
    OthersPhase(s.m, e, q);
    hide Settled, Justified, SleepWakeup.Step;
  }

  lemma ProcStep(s: State, e: Event)
    requires MonitorInv(s) && ProcInv(s) && Enabled(s, e)
    ensures ProcInv(Step(s, e))
  {
    hide PlaceOk, SectionOk, Settled, Justified, SleepWakeup.Step, SleepWakeup.Enabled, After, Next, By;
    var s1 := Step(s, e);
    match e
    case Go(p) =>
      GoStep(s, p);
    case CopyinFails(p) =>
      CopyinStep(s, p);
    case _ =>
      StartStep(s, e);
  }

  lemma GoStep(s: State, p: Pid)
    requires MonitorInv(s) && ProcInv(s) && Enabled(s, Go(p))
    ensures ProcInv(Step(s, Go(p)))
  {
    hide PlaceOk, SectionOk, Settled, Justified, Inv, LockInv, SleepWakeup.Step, After, Next, By;
    var e := NextOf(s, p);
    LockInvOf(s);
    LockInvStep(s.m, e);
    KeepsData(s, p);
    GoerPlace(s.m, s.local[p], p);
    GoerSection(s.m, s.local[p], p);
    forall q: Pid | q < |s.local| && q != p
      ensures var m1 := SleepWakeup.Step(s.m, e);
        && PlaceOk(s.local[q], m1.phase[q])
        && (HasLock(m1.phase[q]) ==> SectionOk(m1, s.local[q], m1.phase[q]))
    {
      assert e.p == p by { NextPid(s, p); }
      OthersStep(s, e, q);
    }
  }

  lemma LockInvOf(s: State)
    requires MonitorInv(s)
    ensures LockInv(s.m)
  {}

  lemma NextPid(s: State, p: Pid)
    requires Enabled(s, Go(p))
    ensures NextOf(s, p).p == p
  {}

  lemma KeepsData(s: State, p: Pid)
    requires Enabled(s, Go(p))
    ensures |SleepWakeup.Step(s.m, NextOf(s, p)).shared.data| == PIPESIZE
  {}

  lemma CopyinStep(s: State, p: Pid)
    requires MonitorInv(s) && ProcInv(s) && Enabled(s, CopyinFails(p))
    ensures ProcInv(Step(s, CopyinFails(p)))
  {
    hide Settled, Justified;
    forall q: Pid | q < |s.local| && q != p
      ensures var m1 := SleepWakeup.Step(s.m, CallWakeup(p, NRead));
        && PlaceOk(s.local[q], m1.phase[q])
        && (HasLock(m1.phase[q]) ==> SectionOk(m1, s.local[q], m1.phase[q]))
    {
      OthersStep(s, CallWakeup(p, NRead), q);
    }
  }

  lemma StartStep(s: State, e: Event)
    requires MonitorInv(s) && ProcInv(s) && Enabled(s, e) && !e.Go? && !e.CopyinFails?
    ensures ProcInv(Step(s, e))
  {
    hide Settled, Justified, By;
  }

  // ----- what each call has written or read

  ghost predicate HistoryOk(s: State, p: Pid)
    requires p < |s.local|
  {
    match s.local[p].call
    case Write(bytes, i, base) => i <= |bytes| && By(s.sent, p) == base + bytes[..i]
    case Read(n, got) =>
      && |got| <= n && |got| <= |s.taken|
      && forall k: nat :: k < |got| ==> s.taken[|s.taken| - |got| + k] == (p, got[k])
    case _ => true
  }

  ghost predicate HistoryInv(s: State) {
    forall p: Pid :: p < |s.local| ==> HistoryOk(s, p)
  }

  lemma ByOne(h: seq<(Pid, int)>, p: Pid, x: (Pid, int))
    ensures By(h + [x], p) == By(h, p) + if x.0 == p then [x.1] else []
  {
    assert (h + [x])[..|h|] == h;
  }

  // The four kinds of step that a process in a call takes.
  ghost predicate Stores(s: State, s1: State, p: Pid)
    requires Shaped(s) && Shaped(s1) && p < |s.local| == |s1.local|
  {
    var l := s.local[p];
    && l.call.Write? && l.call.i < |l.call.bytes| && l.at.Top? && s1.local[p] == l.(call := l.call.(i := l.call.i + 1))
    && !Full(s.m.shared) && s1.m.shared == Store(s.m.shared, l.call.bytes[l.call.i])
    && s1.sent == s.sent + [(p, l.call.bytes[l.call.i])] && s1.taken == s.taken && s1.freed == s.freed
  }

  ghost predicate Takes(s: State, s1: State, p: Pid)
    requires Shaped(s) && Shaped(s1) && p < |s.local| == |s1.local|
  {
    var l := s.local[p];
    && l.call.Read? && |l.call.got| < l.call.n && HasLock(s.m.phase[p])
    && s1.local[p] == Local(Read(l.call.n, l.call.got + [Head(s.m.shared)]), Copy)
    && !Empty(s.m.shared) && s1.m.shared == Take(s.m.shared)
    && s1.taken == s.taken + [(p, Head(s.m.shared))] && s1.sent == s.sent && s1.freed == s.freed
  }

  ghost predicate Shuts(s: State, s1: State, p: Pid)
    requires Shaped(s) && Shaped(s1) && p < |s.local| == |s1.local|
  {
    var l := s.local[p];
    && l.call.Close? && l.at.Top? && s1.local[p] == l.(at := Copy) && s1.m.shared == Shut(s.m.shared, l.call.writable)
    && s1.taken == s.taken && s1.sent == s.sent && s1.freed == s.freed
  }

  ghost predicate Moves(s: State, s1: State, p: Pid)
    requires Shaped(s) && Shaped(s1) && p < |s.local| == |s1.local|
  {
    var l, l1, r := s.local[p], s1.local[p], s.m.shared;
    && s1.m.shared == r && s1.taken == s.taken && s1.sent == s.sent
    && (l1.call == l.call || l1.call.Idle?)
    && (l1.call == l.call && l.call.Close? ==> ((l.at.Enter? || l.at.Top?) <==> (l1.at.Enter? || l1.at.Top?)))
    && (l1.call.Idle? ==> HasLock(s.m.phase[p]) && (l.call.Close? ==> l.at.Leave?))
    && (s1.freed <==> s.freed || (l1.call.Idle? && l.call.Close? && !r.readopen && !r.writeopen))
  }

  lemma GoCases(s: State, p: Pid) returns (s1: State)
    requires ProcInv(s) && Enabled(s, Go(p))
    ensures s1 == Step(s, Go(p)) && Shaped(s1) && |s1.local| == |s.local|
    ensures s1.local == s.local[p := s1.local[p]] && s1.writers == s.writers && s1.readers == s.readers
    ensures Stores(s, s1, p) || Takes(s, s1, p) || Shuts(s, s1, p) || Moves(s, s1, p)
  {
    hide SectionOk, Full, Empty, Store, Take, Shut, By, Head;
    s1 := Step(s, Go(p));
    var e, l, l1 := NextOf(s, p), s.local[p], After(p, s.local[p], s.m.phase[p], s.m.shared);
    assert PlaceOk(l, s.m.phase[p]);
    Kinds(p, l, s.m.phase[p], s.m.shared);
    SharedAfter(s.m, e);
    KeepsData(s, p);
    hide ProcInv, PlaceOk, LockInv, Next, After, SleepWakeup.Step, SleepWakeup.Enabled;
    assert s1.local == s.local[p := l1] && s1.writers == s.writers && s1.readers == s.readers;
  }

  lemma Kinds(p: Pid, l: Local, f: Phase<Chan>, r: Ring)
    requires |r.data| == PIPESIZE && !l.call.Idle? && PlaceOk(l, f)
    ensures var e, l1 := Next(p, l, f, r), After(p, l, f, r);
      match e
      case Act(_, r1) =>
        (match l.call
         case Write(bytes, i, base) =>
           i < |bytes| && l.at.Top? && l1 == l.(call := Write(bytes, i + 1, base)) && !Full(r)
             && r1 == Store(r, bytes[i])
         case Read(n, got) =>
           |got| < n && f.Inside? && l1 == Local(Read(n, got + [Head(r)]), Copy) && !Empty(r) && r1 == Take(r)
         case Close(w) => l.at.Top? && l1 == l.(at := Copy) && r1 == Shut(r, w)
         case Idle => false)
      case Release(_) => l1.call.Idle? && f.Inside? && (l.call.Close? ==> l.at.Leave?)
      case _ => l1.call == l.call && (l.call.Close? ==> ((l.at.Enter? || l.at.Top?) <==> (l1.at.Enter? || l1.at.Top?)))
  {
    hide Full, Empty, Store, Take, Shut, Head;
  }

  lemma OthersGotNothing(s: State, p: Pid, q: Pid)
    requires ProcInv(s) && LockInv(s.m) && p < |s.local| && q < |s.local| && p != q
    requires HasLock(s.m.phase[p])
    ensures s.local[q].call.Read? ==> s.local[q].call.got == []
  {
    assert !HasLock(s.m.phase[q]);
    assert PlaceOk(s.local[q], s.m.phase[q]);
  }

  lemma StoreHistory(s: State, s1: State, p: Pid, q: Pid)
    requires Shaped(s) && Shaped(s1) && p < |s.local| == |s1.local| && q < |s.local|
      && s1.local == s.local[p := s1.local[p]]
    requires Stores(s, s1, p) && HistoryOk(s, q)
    ensures HistoryOk(s1, q)
  {
    hide By, Full, Store;
    ByOne(s.sent, q, s1.sent[|s.sent|]);
  }

  lemma TakeHistory(s: State, s1: State, p: Pid, q: Pid)
    requires Shaped(s) && Shaped(s1) && p < |s.local| == |s1.local| && q < |s.local|
      && s1.local == s.local[p := s1.local[p]]
    requires Takes(s, s1, p) && HistoryOk(s, q)
    requires q != p && s.local[q].call.Read? ==> s.local[q].call.got == []
    ensures HistoryOk(s1, q)
  {
    hide By, Empty, Take, Head;
  }

  lemma HistoryGo(s: State, p: Pid)
    requires MonitorInv(s) && ProcInv(s) && HistoryInv(s) && Enabled(s, Go(p))
    ensures HistoryInv(Step(s, Go(p)))
  {
    var s1 := GoCases(s, p);
    LockInvOf(s);
    hide MonitorInv, NextOf, SleepWakeup.Enabled, SleepWakeup.Step, Step, LockInv, ProcInv, By;
    forall q: Pid | q < |s1.local| ensures HistoryOk(s1, q) {
      assert HistoryOk(s, q);
      if Stores(s, s1, p) {
        StoreHistory(s, s1, p, q);
      } else if Takes(s, s1, p) {
        if q != p {
          OthersGotNothing(s, p, q);
        }
        TakeHistory(s, s1, p, q);
      }
    }
  }

  lemma HistoryStep(s: State, e: Event)
    requires MonitorInv(s) && ProcInv(s) && HistoryInv(s) && Enabled(s, e)
    ensures HistoryInv(Step(s, e))
  {
    if e.Go? {
      HistoryGo(s, e.p);
    } else {
      var s1 := Step(s, e);
      hide Inv, Justified, Settled, SleepWakeup.Step, By;
      forall q: Pid | q < |s1.local| ensures HistoryOk(s1, q) {
        assert HistoryOk(s, q);
      }
    }
  }

  // ----- the two ends

  ghost predicate EndsInv(s: State) {
    && (s.writers ==> s.m.shared.writeopen) && (s.readers ==> s.m.shared.readopen)
    && FreedOk(s)
    && (forall p: Pid :: p < |s.local| ==> EndOk(s, s.local[p]))
    && OneCloser(s)
    && (!s.writers && s.m.shared.writeopen ==> Closing(s, true))
    && (!s.readers && s.m.shared.readopen ==> Closing(s, false))
  }

  ghost predicate FreedOk(s: State) {
    s.freed ==> !s.writers && !s.readers && forall p: Pid :: p < |s.local| ==> s.local[p].call.Idle?
  }

  ghost predicate OneCloser(s: State) {
    forall p: Pid, q: Pid :: p < q < |s.local| ==> !Same(s.local[p].call, s.local[q].call)
  }

  predicate Closing(s: State, w: bool) {
    exists p: Pid :: p < |s.local| && s.local[p].call == Close(w)
  }

  predicate Same(c: Call, d: Call) {
    c.Close? && c == d
  }

  predicate EndOk(s: State, l: Local) {
    match l.call
    case Idle => true
    case Write(_, _, _) => s.writers
    case Read(_, _) => s.readers
    case Close(true) => !s.writers && (s.m.shared.writeopen <==> l.at.Enter? || l.at.Top?)
    case Close(false) => !s.readers && (s.m.shared.readopen <==> l.at.Enter? || l.at.Top?)
  }

  lemma StillClosing(s: State, s1: State, p: Pid, w: bool)
    requires p < |s.local| == |s1.local| && s1.local == s.local[p := s1.local[p]]
    requires Closing(s, w) && (s.local[p].call == Close(w) ==> s1.local[p].call == Close(w))
    ensures Closing(s1, w)
  {
    var q: Pid :| q < |s.local| && s.local[q].call == Close(w);
    assert s1.local[q].call == Close(w);
  }

  lemma EndsGo(s: State, p: Pid)
    requires MonitorInv(s) && ProcInv(s) && EndsInv(s) && Enabled(s, Go(p))
    ensures EndsInv(Step(s, Go(p)))
  {
    var s1 := GoCases(s, p);
    FreedGo(s, p);
    OneCloserGo(s, s1, p);
    hide Inv, SleepWakeup.Step, Step, Enabled, ProcInv, By, Full, Empty, Store, Take, Head, Closing, FreedOk, OneCloser;
    assert EndOk(s, s.local[p]);
    forall w: bool | (if w then !s1.writers && s1.m.shared.writeopen else !s1.readers && s1.m.shared.readopen)
      ensures Closing(s1, w)
    {
      StillClosing(s, s1, p, w);
    }
    forall q: Pid | q < |s.local| ensures EndOk(s1, s1.local[q]) {
      assert EndOk(s, s.local[q]);
    }
  }

  lemma FreedGo(s: State, p: Pid)
    requires MonitorInv(s) && ProcInv(s) && EndsInv(s) && Enabled(s, Go(p))
    ensures FreedOk(Step(s, Go(p)))
  {
    var s1 := GoCases(s, p);
    LockInvOf(s);
    if s1.freed && !s.freed {
      forall q: Pid | q < |s.local| && q != p ensures s.local[q].call.Idle? {
        OnlyOneLeft(s, p, q);
      }
      OnlyOneLeft2(s, p);
    }
    hide Inv, SleepWakeup.Step, Step, ProcInv, By, Full, Empty, Store, Take, Shut, Head, Closing, OneCloser, EndOk,
        NextOf, SleepWakeup.Enabled;
    assert FreedOk(s) && !s.local[p].call.Idle?;
    assert !s.freed;
  }

  lemma OneCloserGo(s: State, s1: State, p: Pid)
    requires OneCloser(s) && p < |s.local| == |s1.local| && s1.local == s.local[p := s1.local[p]]
    requires s1.local[p].call.Close? ==> s1.local[p].call == s.local[p].call
    ensures OneCloser(s1)
  {
    forall q: Pid, q1: Pid | q < q1 < |s.local| ensures !Same(s1.local[q].call, s1.local[q1].call) {
      assert !Same(s.local[q].call, s.local[q1].call);
    }
  }

  // A closer that finds both ends closed is the last one.
  lemma OnlyOneLeft(s: State, p: Pid, q: Pid)
    requires LockInv(s.m) && ProcInv(s) && EndsInv(s) && p < |s.local| && q < |s.local| && p != q
    requires s.local[p].call.Close? && s.local[p].at.Leave? && HasLock(s.m.phase[p])
    requires !s.m.shared.readopen && !s.m.shared.writeopen
    ensures s.local[q].call.Idle? && !s.writers && !s.readers
  {
    assert EndOk(s, s.local[q]) && EndOk(s, s.local[p]);
    assert !HasLock(s.m.phase[q]);
    assert PlaceOk(s.local[q], s.m.phase[q]);
    hide SectionOk;
  }

  lemma OnlyOneLeft2(s: State, p: Pid)
    requires EndsInv(s) && p < |s.local| && !s.m.shared.readopen && !s.m.shared.writeopen
    ensures !s.writers && !s.readers
  {}

  lemma EndsStep(s: State, e: Event)
    requires MonitorInv(s) && ProcInv(s) && EndsInv(s) && Enabled(s, e)
    ensures EndsInv(Step(s, e))
  {
    if e.Go? {
      EndsGo(s, e.p);
    } else {
      EndsStart(s, e);
    }
  }

  lemma EndsStart(s: State, e: Event)
    requires EndsInv(s) && Enabled(s, e) && !e.Go?
    ensures EndsInv(Step(s, e))
  {
    var s1 := Step(s, e);
    hide By, Closing, SleepWakeup.Step;
    forall q: Pid | q < |s.local| ensures EndOk(s1, s1.local[q]) {
      assert EndOk(s, s.local[q]);
    }
    forall w: bool | (if w then !s1.writers && s1.m.shared.writeopen else !s1.readers && s1.m.shared.readopen)
      ensures Closing(s1, w)
    {
      if e == StartClose(e.p, w) {
        NowClosing(s1, e.p, w);
      } else {
        StillClosing(s, s1, e.p, w);
      }
    }
    forall q: Pid, q1: Pid | q < q1 < |s.local| ensures !Same(s1.local[q].call, s1.local[q1].call) {
      assert EndOk(s, s.local[q]) && EndOk(s, s.local[q1]);
    }
  }

  lemma NowClosing(s: State, p: Pid, w: bool)
    requires p < |s.local| && s.local[p].call == Close(w)
    ensures Closing(s, w)
  {}

  // ----- whole runs

  ghost predicate PipeInv(s: State) {
    MonitorInv(s) && RingInv(s) && ProcInv(s) && HistoryInv(s) && EndsInv(s)
  }

  lemma InvInit(n: nat, data: seq<int>)
    requires |data| == PIPESIZE
    ensures PipeInv(Init(n, data))
  {}

  lemma RingStep(s: State, e: Event)
    requires RingInv(s) && ProcInv(s) && Enabled(s, e)
    ensures RingInv(Step(s, e))
  {
    if e.Go? {
      var s1 := GoCases(s, e.p);
      hide Step, Enabled, ProcInv, Full, Empty, Store, Take, Head, RingInv;
      if Stores(s, s1, e.p) {
        StoreKeeps(s, s1, e.p, s.local[e.p].call.bytes[s.local[e.p].call.i]);
      } else if Takes(s, s1, e.p) {
        TakeKeeps(s, s1, e.p);
      } else {
        QuietKeeps(s, s1);
      }
    }
  }

  lemma QuietKeeps(s: State, s1: State)
    requires RingInv(s) && Shaped(s1) && s1.sent == s.sent && s1.taken == s.taken
    requires s1.m.shared == s.m.shared || exists w :: s1.m.shared == Shut(s.m.shared, w)
    ensures RingInv(s1)
  {}

  lemma MonitorStep(s: State, e: Event)
    requires MonitorInv(s) && ProcInv(s) && Enabled(s, e)
    ensures MonitorInv(Step(s, e))
  {
    match e
    case Go(p) =>
      IsCareful(s, p);
      hide Inv, SleepWakeup.Step, After, Next, By;
      InvStep(s.m, NextOf(s, p), Blocked);
    case CopyinFails(p) =>
      hide Inv, SleepWakeup.Step;
      InvStep(s.m, CallWakeup(p, NRead), Blocked);
    case _ =>
  }

  lemma PipeInvStep(s: State, e: Event)
    requires PipeInv(s) && Enabled(s, e)
    ensures PipeInv(Step(s, e))
  {
    hide MonitorInv, RingInv, ProcInv, HistoryInv, EndsInv, Step, Enabled;
    MonitorStep(s, e);
    RingStep(s, e);
    ProcStep(s, e);
    HistoryStep(s, e);
    EndsStep(s, e);
  }

  ghost predicate Legal(s: State, es: seq<Event>)
    decreases |es|
  {
    es == [] || (Enabled(s, es[0]) && Legal(Step(s, es[0]), es[1..]))
  }

  ghost function Exec(s: State, es: seq<Event>): State
    requires Legal(s, es)
    decreases |es|
  {
    if es == [] then s else Exec(Step(s, es[0]), es[1..])
  }

  lemma {:induction false} InvRun(s: State, es: seq<Event>)
    requires PipeInv(s) && Legal(s, es)
    ensures PipeInv(Exec(s, es))
    decreases |es|
  {
    hide PipeInv, Step, Enabled;
    if es != [] {
      PipeInvStep(s, es[0]);
      InvRun(Step(s, es[0]), es[1..]);
    }
  }

  // The state after a run of n processes on a new pipe.
  ghost predicate Reached(s: State) {
    exists n: nat, data, es :: |data| == PIPESIZE && Legal(Init(n, data), es) && Exec(Init(n, data), es) == s
  }

  lemma ReachedInv(s: State)
    requires Reached(s)
    ensures PipeInv(s)
  {
    var n: nat, data, es :| |data| == PIPESIZE && Legal(Init(n, data), es) && Exec(Init(n, data), es) == s;
    InvInit(n, data);
    InvRun(Init(n, data), es);
  }

  // Readers together get the bytes in the order in which writers together put them, at most 512 behind.
  lemma Fifo(s: State)
    requires Reached(s)
    ensures |s.taken| <= |s.sent| <= |s.taken| + PIPESIZE
    ensures forall k :: 0 <= k < |s.taken| ==> s.taken[k].1 == s.sent[k].1
  {
    ReachedInv(s);
  }

  // A write has put exactly its first i bytes, in order, after all that its process wrote before;
  // a read has got consecutive bytes, no other reader's in between.
  lemma CallsAreOrdered(s: State, p: Pid)
    requires Reached(s) && p < |s.local|
    ensures HistoryOk(s, p)
  {
    ReachedInv(s);
  }

  // A read that returns has got all it asked for, or has left the ring empty; if it has got nothing although it
  // asked for something, the write end is closed.
  lemma ReadReturns(s: State, p: Pid)
    requires Reached(s) && Enabled(s, Go(p)) && s.local[p].call.Read? && Step(s, Go(p)).local[p].call.Idle?
    ensures |s.local[p].call.got| == s.local[p].call.n || |s.sent| == |s.taken|
    ensures |s.local[p].call.got| == 0 < s.local[p].call.n ==> |s.sent| == |s.taken| && !s.m.shared.writeopen
  {
    ReachedInv(s);
    Counters(s);
    assert HistoryOk(s, p) && PlaceOk(s.local[p], s.m.phase[p]);
    hide EndsInv, RingInv, MonitorInv, By;
  }

  // The last call that p began, or the failing copyin in it.
  ghost predicate CopyinFailed(es: seq<Event>, p: Pid, before: bool) {
    if es == [] then before
    else CopyinFailed(es[1..], p, if es[0].p == p && !es[0].Go? then es[0].CopyinFails? else before)
  }

  // A write on its way out has put all its bytes, unless copyin has failed.
  ghost predicate LeavesDone(s: State, p: Pid, failed: bool) {
    p < |s.local| && s.local[p].call.Write? && s.local[p].at.Leave? ==>
      s.local[p].call.i >= |s.local[p].call.bytes| || failed
  }

  lemma LeavesStep(s: State, e: Event, p: Pid, failed: bool)
    requires PipeInv(s) && Enabled(s, e) && LeavesDone(s, p, failed)
    ensures LeavesDone(Step(s, e), p, if e.p == p && !e.Go? then e.CopyinFails? else failed)
  {
    hide SleepWakeup.Step, SleepWakeup.Enabled, Store, Take, Shut, Head, By, RingInv, HistoryInv, EndsInv, MonitorInv;
  }

  lemma {:induction false} LeavesRun(s: State, es: seq<Event>, p: Pid, failed: bool)
    requires PipeInv(s) && Legal(s, es) && LeavesDone(s, p, failed)
    ensures LeavesDone(Exec(s, es), p, CopyinFailed(es, p, failed))
    decreases |es|
  {
    hide PipeInv, Step, Enabled, LeavesDone;
    if es != [] {
      LeavesStep(s, es[0], p, failed);
      PipeInvStep(s, es[0]);
      LeavesRun(Step(s, es[0]), es[1..], p, if es[0].p == p && !es[0].Go? then es[0].CopyinFails? else failed);
    }
  }

  // A write that returns has put all its bytes, or has found the read end closed, or copyin has failed in this call.
  lemma WriteReturns(n: nat, data: seq<int>, es: seq<Event>, p: Pid)
    requires |data| == PIPESIZE && Legal(Init(n, data), es)
    requires var s := Exec(Init(n, data), es);
      Enabled(s, Go(p)) && s.local[p].call.Write? && Step(s, Go(p)).local[p].call.Idle?
    ensures var s := Exec(Init(n, data), es);
      || s.local[p].call.i == |s.local[p].call.bytes|
      || (if s.local[p].at.Leave? then CopyinFailed(es, p, false) else !s.m.shared.readopen)
  {
    var s := Exec(Init(n, data), es);
    InvInit(n, data);
    InvRun(Init(n, data), es);
    LeavesRun(Init(n, data), es, p, false);
    WriteEnds(s, p);
  }

  lemma WriteEnds(s: State, p: Pid)
    requires PipeInv(s) && Enabled(s, Go(p)) && s.local[p].call.Write? && Step(s, Go(p)).local[p].call.Idle?
    ensures s.local[p].call.i <= |s.local[p].call.bytes|
    ensures !s.local[p].at.Leave? ==> s.local[p].call.i < |s.local[p].call.bytes| && !s.m.shared.readopen
  {
    assert HistoryOk(s, p) && PlaceOk(s.local[p], s.m.phase[p]);
    hide EndsInv, RingInv, MonitorInv, By;
  }

  // With pi->lock free, a reader asleep means an empty pipe with the write end open,
  // a writer asleep means a full pipe with the read end open.
  lemma SleepersWait(s: State, p: Pid)
    requires Reached(s) && s.m.holder == None && p < |s.m.phase|
    requires HasOwnLock(s.m.phase[p]) || s.m.phase[p].Asleep?
    ensures Shaped(s)
    ensures s.local[p].call.Read? ==> |s.sent| == |s.taken| && s.m.shared.writeopen
    ensures s.local[p].call.Write? ==> |s.sent| == |s.taken| + PIPESIZE && s.m.shared.readopen
    ensures s.local[p].call.Read? || s.local[p].call.Write?
  {
    ReachedInv(s);
    assert PlaceOk(s.local[p], s.m.phase[p]);
    var c := s.m.phase[p].chan;
    assert SleepsOn(s.m.phase[p], c);
    NoLostWakeup(s.m, Blocked, p, c);
    Counters(s);
  }

  // Nothing touches the pipe once it has been given to kfree.
  lemma FreedIsDead(s: State, e: Event)
    requires Reached(s) && s.freed
    ensures !Enabled(s, e)
  {
    ReachedInv(s);
  }

  // No deadlock: when no call can go on, everyone in a call is a reader of an empty pipe that can still be
  // written, or everyone is a writer of a full pipe that can still be read.
  lemma NoDeadlock(s: State)
    requires Reached(s) && forall p: Pid :: !Enabled(s, Go(p))
    ensures Shaped(s) && forall p: Pid :: p < |s.local| && !s.local[p].call.Idle? ==> s.m.phase[p].Asleep?
    ensures forall p: Pid :: p < |s.local| && s.local[p].call.Read? ==> |s.sent| == |s.taken| && s.writers
    ensures forall p: Pid :: p < |s.local| && s.local[p].call.Write? ==> |s.sent| == |s.taken| + PIPESIZE && s.readers
  {
    ReachedInv(s);
    NoHolder(s);
    forall p: Pid | p < |s.local| && !s.local[p].call.Idle?
      ensures s.m.phase[p].Asleep?
      ensures s.local[p].call.Read? ==> |s.sent| == |s.taken| && s.writers
      ensures s.local[p].call.Write? ==> |s.sent| == |s.taken| + PIPESIZE && s.readers
    {
      AllAsleep(s, p);
      SleepersWait(s, p);
      NoneClosing(s);
    }
  }

  lemma NoHolder(s: State)
    requires PipeInv(s) && forall p: Pid :: !Enabled(s, Go(p))
    ensures s.m.holder == None
  {
    if s.m.holder.Some? {
      var p := SomeoneMoves(s);
    }
  }

  // While pi->lock is held, its holder can go on, or the process whose p->lock the holder waits for can.
  lemma SomeoneMoves(s: State) returns (p: Pid)
    requires PipeInv(s) && s.m.holder.Some?
    ensures Enabled(s, Go(p))
  {
    p := s.m.holder.value;
    assert HasLock(s.m.phase[p]) && PlaceOk(s.local[p], s.m.phase[p]);
    var f := s.m.phase[p];
    if f.Waking? && f.at < |s.m.phase| && f.at != p && HasOwnLock(s.m.phase[f.at]) {
      p := f.at;
      assert PlaceOk(s.local[p], s.m.phase[p]);
    }
  }

  lemma AllAsleep(s: State, p: Pid)
    requires PipeInv(s) && s.m.holder == None && !Enabled(s, Go(p))
    requires p < |s.local| && !s.local[p].call.Idle?
    ensures s.m.phase[p].Asleep?
  {
    assert !HasLock(s.m.phase[p]);
  }

  lemma NoneClosing(s: State)
    requires PipeInv(s) && s.m.holder == None && forall p: Pid :: !Enabled(s, Go(p))
    ensures s.m.shared.writeopen ==> s.writers
    ensures s.m.shared.readopen ==> s.readers
  {
    forall p: Pid | p < |s.local| ensures !s.local[p].call.Close? {
      assert PlaceOk(s.local[p], s.m.phase[p]);
      if s.local[p].call.Close? {
        AllAsleep(s, p);
      }
    }
  }
}

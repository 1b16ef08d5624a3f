// lab8-lyjae/wc_mt_overlap.c: one producer and n consumers around a ring of 64 chunks.
// A step is a section of the mutex, from its lock to its unlock or to pthread_cond_wait, or work between sections.
// A wait may end without a signal. A read that would run past the end of its malloc'ed buffer is no step: what the
// program does from there on is undefined. FitsIff says for which files that never happens.
module Pipeline {
  import opened Basics
  import opened WordCount

  const CHUNK_SIZE: nat := 65536
  const SPARE: nat := 256
  const CAPACITY: nat := 64

  datatype Chunk = Chunk(data: string, startsInsideWord: bool)

  // What the chunk counts for.
  function Value(c: Chunk): nat {
    Words(if c.startsInsideWord then c.data[Leading(c.data)..] else c.data)
  }

  // Between two reads; with a chunk to put, not waiting or waiting for not_full; gone.
  datatype Producer = Reading | Holding(chunk: Chunk) | Blocked(chunk: Chunk) | Finished

  // About to lock for the next chunk; waiting for not_empty; with a chunk to count; gone.
  datatype Consumer = Ready | Waiting | Counting(chunk: Chunk) | Ended

  // pos and prevEnds are the producer's; put and got are the histories of the ring.
  datatype State = State(
    file: string, pos: nat, prevEnds: bool, producer: Producer, consumers: seq<Consumer>,
    ring: seq<Chunk>, inn: nat, out: nat, count: nat, done: bool, total: nat,
    put: seq<Chunk>, got: seq<Chunk>)

  datatype Event =
    | Read
    | Put(w: nat)        // signals consumer w, if any waits
    | Finish
    | Get(c: nat)
    | Add(c: nat)
    | WakeProducer       // spurious
    | WakeConsumer(c: nat)

  function Init(file: string, n: nat, ring: seq<Chunk>): State {
    State(file, 0, false, Reading, seq(n, _ => Ready), ring, 0, 0, 0, false, 0, [], [])
  }

  // fread of CHUNK_SIZE bytes, then byte by byte while the last one is of a word.
  function ChunkEnd(file: string, pos: nat): (e: nat)
    requires pos < |file|
    ensures pos < e <= |file| && (e == |file| || !IsWordChar(file[e - 1]))
  {
    Extend(file, if pos + CHUNK_SIZE < |file| then pos + CHUNK_SIZE else |file|)
  }

  function Extend(file: string, e: nat): (e1: nat)
    requires 0 < e <= |file|
    ensures e <= e1 <= |file| && (e1 == |file| || !IsWordChar(file[e1 - 1]))
    ensures forall k :: e - 1 <= k < e1 - 1 ==> IsWordChar(file[k])
    decreases |file| - e
  {
    if IsWordChar(file[e - 1]) && e < |file| then Extend(file, e + 1) else e
  }

  // The chunk at pos stays inside the producer's buffer.
  predicate ReadFits(file: string, pos: nat) {
    pos < |file| && ChunkEnd(file, pos) - pos <= CHUNK_SIZE + SPARE
  }

  predicate SomeoneWaits(s: State) {
    exists c :: 0 <= c < |s.consumers| && s.consumers[c].Waiting?
  }

  predicate Sized(s: State) {
    |s.ring| == CAPACITY && s.inn < CAPACITY && s.out < CAPACITY && s.pos <= |s.file|
  }

  predicate Enabled(s: State, e: Event) {
    && Sized(s)
    && match e
       case Read => s.producer.Reading? && ReadFits(s.file, s.pos)
       case Put(w) =>
         && s.producer.Holding?
         && (s.count != CAPACITY && SomeoneWaits(s) ==> w < |s.consumers| && s.consumers[w].Waiting?)
       case Finish => s.producer.Reading? && s.pos == |s.file|
       case Get(c) => c < |s.consumers| && s.consumers[c].Ready?
       case Add(c) => c < |s.consumers| && s.consumers[c].Counting?
       case WakeProducer => s.producer.Blocked?
       case WakeConsumer(c) => c < |s.consumers| && s.consumers[c].Waiting?
  }

  function WakeAll(cs: seq<Consumer>): (r: seq<Consumer>)
    ensures |r| == |cs|
  {
    seq(|cs|, i requires 0 <= i < |cs| => if cs[i].Waiting? then Ready else cs[i])
  }

  function Step(s: State, e: Event): State
    requires Enabled(s, e)
  {
    match e
    case Read =>
      var end := ChunkEnd(s.file, s.pos);
      var data := s.file[s.pos..end];
      s.(pos := end, prevEnds := IsWordChar(data[|data| - 1]), producer := Holding(Chunk(data, s.prevEnds)))
    case Put(w) =>
      if s.count == CAPACITY then s.(producer := Blocked(s.producer.chunk))
      else s.(ring := s.ring[s.inn := s.producer.chunk], inn := (s.inn + 1) % CAPACITY, count := s.count + 1,
              producer := Reading, put := s.put + [s.producer.chunk],
              consumers := if SomeoneWaits(s) then s.consumers[w := Ready] else s.consumers)
    case Finish => s.(done := true, producer := Finished, consumers := WakeAll(s.consumers))
    case Get(c) =>
      if s.count == 0 then s.(consumers := s.consumers[c := if s.done then Ended else Waiting])
      else s.(consumers := s.consumers[c := Counting(s.ring[s.out])], out := (s.out + 1) % CAPACITY,
          count := s.count - 1,
              got := s.got + [s.ring[s.out]],
              producer := if s.producer.Blocked? then Holding(s.producer.chunk) else s.producer)
    case Add(c) => s.(consumers := s.consumers[c := Ready], total := s.total + Value(s.consumers[c].chunk))
    case WakeProducer => s.(producer := Holding(s.producer.chunk))
    case WakeConsumer(c) => s.(consumers := s.consumers[c := Ready])
  }

  // ----- the ring

  ghost predicate RingInv(s: State) {
    && Sized(s) && |s.got| <= |s.put| && s.count == |s.put| - |s.got| <= CAPACITY
    && s.inn == |s.put| % CAPACITY && s.out == |s.got| % CAPACITY
    && (forall k :: 0 <= k < |s.got| ==> s.got[k] == s.put[k])
    && forall k :: |s.got| <= k < |s.put| ==> s.ring[k % CAPACITY] == s.put[k]
  }

  lemma NextSlot(k: nat)
    ensures (k % CAPACITY + 1) % CAPACITY == (k + 1) % CAPACITY
  {}

  lemma PutRing(s: State, s1: State, c: Chunk)
    requires RingInv(s) && s.count < CAPACITY && Sized(s1)
    requires s1.ring == s.ring[s.inn := c] && s1.inn == (s.inn + 1) % CAPACITY && s1.count == s.count + 1
    requires s1.put == s.put + [c] && s1.got == s.got && s1.out == s.out
    ensures RingInv(s1)
  {
    var w := |s.put|;
    NextSlot(w);
    forall k | |s.got| <= k < w + 1 ensures s1.ring[k % CAPACITY] == s1.put[k] {
      if k < w {
        OtherSlot(k, w, CAPACITY);
      }
    }
  }

  lemma RingStep(s: State, e: Event)
    requires RingInv(s) && Enabled(s, e)
    ensures RingInv(Step(s, e))
  {
    hide SomeoneWaits, WakeAll, Value, IsWordChar;
    if e.Put? && s.count != CAPACITY {
      PutRing(s, Step(s, e), s.producer.chunk);
    } else if e.Get? && s.count > 0 {
      GetRing(s, Step(s, e));
    } else {
      SameRing(s, Step(s, e));
    }
    hide RingInv;
  }

  lemma GetRing(s: State, s1: State)
    requires RingInv(s) && s.count > 0 && Sized(s1)
    requires s1.ring == s.ring && s1.out == (s.out + 1) % CAPACITY && s1.count == s.count - 1 && s1.inn == s.inn
    requires s1.got == s.got + [s.ring[s.out]] && s1.put == s.put
    ensures RingInv(s1)
  {}

  lemma SameRing(s: State, s1: State)
    requires RingInv(s) && Sized(s1)
    requires s1.ring == s.ring && s1.out == s.out && s1.count == s.count && s1.inn == s.inn && s1.got == s.got
      && s1.put == s.put
    ensures RingInv(s1)
  {}

  // ----- what has been counted and what is left

  function SumOf(cs: seq<Consumer>, f: Consumer -> nat): nat {
    if cs == [] then 0 else SumOf(cs[..|cs| - 1], f) + f(cs[|cs| - 1])
  }

  lemma {:induction false} SumUpdate(cs: seq<Consumer>, c: nat, x: Consumer, f: Consumer -> nat)
    requires c < |cs|
    ensures SumOf(cs[c := x], f) == SumOf(cs, f) - f(cs[c]) + f(x)
  {
    var n := |cs| - 1;
    if c < n {
      SumUpdate(cs[..n], c, x, f);
      assert cs[c := x][..n] == cs[..n][c := x];
    } else {
      assert cs[c := x][..n] == cs[..n];
    }
  }

  lemma WakeAllLast(cs: seq<Consumer>)
    requires cs != []
    ensures WakeAll(cs)[..|cs| - 1] == WakeAll(cs[..|cs| - 1])
    ensures WakeAll(cs)[|cs| - 1] == if cs[|cs| - 1].Waiting? then Ready else cs[|cs| - 1]
  {}

  lemma {:induction false} SumWakeSame(cs: seq<Consumer>, f: Consumer -> nat)
    requires f(Ready) == f(Waiting)
    ensures SumOf(WakeAll(cs), f) == SumOf(cs, f)
  {
    if cs != [] {
      WakeAllLast(cs);
      SumWakeSame(cs[..|cs| - 1], f);
      hide WakeAll;
    }
  }

  // Waking everyone adds at most one for each.
  lemma {:induction false} SumWakeMore(cs: seq<Consumer>, f: Consumer -> nat)
    requires f(Ready) <= f(Waiting) + 1
    ensures SumOf(WakeAll(cs), f) <= SumOf(cs, f) + |cs|
  {
    if cs != [] {
      WakeAllLast(cs);
      SumWakeMore(cs[..|cs| - 1], f);
      hide WakeAll;
    }
  }

  function HeldBy(c: Consumer): nat {
    if c.Counting? then Value(c.chunk) else 0
  }

  function SumChunks(cs: seq<Chunk>): nat {
    if cs == [] then 0 else SumChunks(cs[..|cs| - 1]) + Value(cs[|cs| - 1])
  }

  lemma SumOneMore(cs: seq<Chunk>, c: Chunk)
    ensures SumChunks(cs + [c]) == SumChunks(cs) + Value(c)
  {
    assert (cs + [c])[..|cs|] == cs;
  }

  function InHand(p: Producer): nat {
    if p.Holding? || p.Blocked? then Value(p.chunk) else 0
  }

  // No chunk ends in a word that goes on: only the last can end in one at all.
  ghost predicate CutInv(s: State) {
    && s.pos <= |s.file|
    && (s.prevEnds ==> s.pos == |s.file|)
    && (0 < s.pos < |s.file| ==> !IsWordChar(s.file[s.pos - 1]))
    && (s.producer.Holding? || s.producer.Blocked? ==> !s.producer.chunk.startsInsideWord)
    && forall k :: 0 <= k < |s.put| ==> !s.put[k].startsInsideWord
  }

  ghost predicate CountInv(s: State) {
    && s.pos <= |s.file|
    && SumChunks(s.put) + InHand(s.producer) == Words(s.file[..s.pos])
    && s.total + SumOf(s.consumers, HeldBy) == SumChunks(s.got)
  }

  lemma CutStep(s: State, e: Event)
    requires CutInv(s) && Enabled(s, e)
    ensures CutInv(Step(s, e))
  {
    hide SomeoneWaits, WakeAll, Value, IsWordChar;
  }

  lemma ReadCounts(s: State)
    requires CutInv(s) && CountInv(s) && Enabled(s, Read)
    ensures CountInv(Step(s, Read))
  {
    var end := ChunkEnd(s.file, s.pos);
    var a, b := s.file[..s.pos], s.file[s.pos..end];
    assert a + b == s.file[..end];
    WordsConcat(a, b);
  }

  lemma PutCounts(s: State, w: nat)
    requires CountInv(s) && Enabled(s, Put(w))
    ensures CountInv(Step(s, Put(w)))
  {
    hide Value, Words, SomeoneWaits, SumOf, SumChunks;
    if s.count != CAPACITY {
      SumOneMore(s.put, s.producer.chunk);
      if SomeoneWaits(s) {
        assert s.consumers[w] == Waiting;
        SumUpdate(s.consumers, w, Ready, HeldBy);
      }
    }
  }

  lemma ConsumerCounts(s: State, e: Event)
    requires CountInv(s) && Enabled(s, e) && (e.Get? || e.Add? || e.WakeConsumer?)
    ensures CountInv(Step(s, e))
  {
    hide Value, Words, SomeoneWaits, SumOf, SumChunks, WakeAll;
    var s1 := Step(s, e);
    SumUpdate(s.consumers, e.c, s1.consumers[e.c], HeldBy);
    if e.Get? && s.count > 0 {
      SumOneMore(s.got, s.ring[s.out]);
    }
  }

  lemma CountStep(s: State, e: Event)
    requires CutInv(s) && CountInv(s) && Enabled(s, e)
    ensures CountInv(Step(s, e))
  {
    hide Value, Words, SomeoneWaits;
    match e
    case Read => ReadCounts(s);
    case Put(w) => PutCounts(s, w);
    case Finish => SumWakeSame(s.consumers, HeldBy);
    case WakeProducer =>
    case _ => ConsumerCounts(s, e);
  }

  // ----- waiting

  predicate Awake(c: Consumer) {
    c.Ready? || c.Counting?
  }

  predicate SomeoneAwake(s: State) {
    exists c :: 0 <= c < |s.consumers| && Awake(s.consumers[c])
  }

  ghost predicate WaitInv(s: State) {
    && |s.consumers| > 0
    && (s.producer.Blocked? ==> s.count == CAPACITY)
    && (s.done <==> s.producer.Finished?) && (s.done ==> s.pos == |s.file|)
    && (s.done ==> forall c :: 0 <= c < |s.consumers| ==> !s.consumers[c].Waiting?)
    && (forall c :: 0 <= c < |s.consumers| && s.consumers[c].Ended? ==> s.done && s.count == 0)
    && (s.count > 0 ==> SomeoneAwake(s))
  }

  lemma WaitStep(s: State, e: Event)
    requires WaitInv(s) && Enabled(s, e)
    ensures WaitInv(Step(s, e))
  {
    hide Value, IsWordChar;
    var s1 := Step(s, e);
    if s1.count > 0 {
      StillAwake(s, e);
    }
    hide SomeoneAwake;
  }

  lemma StillAwake(s: State, e: Event)
    requires WaitInv(s) && Enabled(s, e) && Step(s, e).count > 0
    ensures SomeoneAwake(Step(s, e))
  {
    hide Value, IsWordChar;
    var s1 := Step(s, e);
    if e.Get? || e.Add? || e.WakeConsumer? {
      assert Awake(s1.consumers[e.c]);
    } else if e.Put? && s.count != CAPACITY {
      if SomeoneWaits(s) {
        assert Awake(s1.consumers[e.w]);
      } else {
        assert !s.consumers[0].Waiting? && !s.consumers[0].Ended?;
        assert Awake(s1.consumers[0]);
      }
    } else {
      var c :| 0 <= c < |s.consumers| && Awake(s.consumers[c]);
      assert Awake(s1.consumers[c]);
    }
  }

  // ----- every step that no spurious wakeup makes brings the end nearer

  function Weight(c: Consumer): nat {
    match c case Counting(_) => 2 case Ready => 1 case _ => 0
  }

  function ProducerWeight(p: Producer, n: nat): nat {
    match p case Holding(_) => n + 7 case Blocked(_) => n + 6 case Reading => n + 1 case Finished => 0
  }

  function Measure(s: State): nat
    requires s.pos <= |s.file|
  {
    7 * (|s.file| - s.pos) + ProducerWeight(s.producer, |s.consumers|) + 3 * s.count + SumOf(s.consumers, Weight)
  }

  predicate Spurious(e: Event) {
    e.WakeProducer? || e.WakeConsumer?
  }

  lemma Decreases(s: State, e: Event)
    requires WaitInv(s) && Enabled(s, e)
    ensures Step(s, e).pos <= |s.file| == |Step(s, e).file| && |Step(s, e).consumers| == |s.consumers|
    ensures if Spurious(e) then Measure(Step(s, e)) <= Measure(s) + 1 else Measure(Step(s, e)) < Measure(s)
  {
    hide Value, IsWordChar;
    var s1 := Step(s, e);
    match e
    case Put(w) =>
      if s.count != CAPACITY && SomeoneWaits(s) {
        SumUpdate(s.consumers, w, Ready, Weight);
      }
    case Finish => SumWakeMore(s.consumers, Weight);
    case Get(c) => SumUpdate(s.consumers, c, s1.consumers[c], Weight);
    case Add(c) => SumUpdate(s.consumers, c, Ready, Weight);
    case WakeConsumer(c) => SumUpdate(s.consumers, c, Ready, Weight);
    case _ =>
  }

  // ----- whole runs

  ghost predicate PipelineInv(s: State) {
    RingInv(s) && CutInv(s) && CountInv(s) && WaitInv(s)
  }

  lemma InvInit(file: string, n: nat, ring: seq<Chunk>)
    requires n > 0 && |ring| == CAPACITY
    ensures PipelineInv(Init(file, n, ring)) && Measure(Init(file, n, ring)) <= 7 * |file| + 2 * n + 1
  {
    NoneHeld(n);
  }

  lemma {:induction false} NoneHeld(n: nat)
    ensures SumOf(seq(n, _ => Ready), HeldBy) == 0 && SumOf(seq(n, _ => Ready), Weight) == n
  {
    if n > 0 {
      NoneHeld(n - 1);
      var cs: seq<Consumer> := seq(n, _ => Ready);
      assert cs[..n - 1] == seq(n - 1, _ => Ready);
    }
  }

  lemma PipelineStep(s: State, e: Event)
    requires PipelineInv(s) && Enabled(s, e)
    ensures PipelineInv(Step(s, e))
  {
    hide RingInv, CutInv, CountInv, WaitInv, Step, Enabled;
    RingStep(s, e);
    CutStep(s, e);
    CountStep(s, e);
    WaitStep(s, e);
  }

  ghost predicate Legal(s: State, es: seq<Event>)
    decreases |es|
  {
    es == [] || (Enabled(s, es[0]) && Legal(Step(s, es[0]), es[1..]))
  }

  ghost function Exec(s: State, es: seq<Event>): State
    requires Legal(s, es)
    decreases |es|
  {
    if es == [] then s else Exec(Step(s, es[0]), es[1..])
  }

  ghost function SpuriousOnes(es: seq<Event>): nat {
    if es == [] then 0 else (if Spurious(es[0]) then 1 else 0) + SpuriousOnes(es[1..])
  }

  lemma {:induction false} RunFrom(s: State, es: seq<Event>)
    requires PipelineInv(s) && Legal(s, es)
    ensures PipelineInv(Exec(s, es)) && Exec(s, es).file == s.file && Exec(s, es).pos <= |s.file|
    ensures |es| + Measure(Exec(s, es)) <= Measure(s) + 2 * SpuriousOnes(es)
    decreases |es|
  {
    if es == [] {
      assert s.pos <= |s.file|;
    } else {
      PipelineStep(s, es[0]);
      Decreases(s, es[0]);
      SameFile(s, es[0]);
      hide PipelineInv, Step, Enabled, Measure;
      RunFrom(Step(s, es[0]), es[1..]);
    }
  }

  lemma SameFile(s: State, e: Event)
    requires Enabled(s, e)
    ensures Step(s, e).file == s.file
  {}

  // s is reached on a file, with n consumers, by es.
  ghost predicate Reached(file: string, n: nat, ring: seq<Chunk>, es: seq<Event>, s: State) {
    n > 0 && |ring| == CAPACITY && Legal(Init(file, n, ring), es) && Exec(Init(file, n, ring), es) == s
  }

  lemma ReachedInv(file: string, n: nat, ring: seq<Chunk>, es: seq<Event>, s: State)
    requires Reached(file, n, ring, es, s)
    ensures PipelineInv(s) && s.file == file
    ensures |es| <= 7 * |file| + 2 * n + 1 + 2 * SpuriousOnes(es)
  {
    InvInit(file, n, ring);
    RunFrom(Init(file, n, ring), es);
  }

  predicate AllEnded(s: State) {
    s.producer.Finished? && forall c :: 0 <= c < |s.consumers| ==> s.consumers[c].Ended?
  }

  // Once every thread is gone the total is the number of words of the file, and no read overran its buffer.
  lemma TotalIsWords(file: string, n: nat, ring: seq<Chunk>, es: seq<Event>, s: State)
    requires Reached(file, n, ring, es, s) && AllEnded(s)
    ensures FileFits(file) && s.total == Words(file)
  {
    ReachedInv(file, n, ring, es, s);
    FitRun(Init(file, n, ring), es);
    NothingHeld(s.consumers);
    assert s.consumers[0].Ended?;
    assert s.got == s.put;
    assert s.file[..s.pos] == file;
  }

  lemma {:induction false} NothingHeld(cs: seq<Consumer>)
    requires forall c :: 0 <= c < |cs| ==> cs[c].Ended?
    ensures SumOf(cs, HeldBy) == 0
  {
    if cs != [] {
      NothingHeld(cs[..|cs| - 1]);
    }
  }

  // Each chunk is taken once, in the order of the file, and none is marked as starting inside a word.
  lemma ChunksInOrder(file: string, n: nat, ring: seq<Chunk>, es: seq<Event>, s: State)
    requires Reached(file, n, ring, es, s)
    ensures |s.got| <= |s.put| && forall k :: 0 <= k < |s.got| ==> s.got[k] == s.put[k]
    ensures forall k :: 0 <= k < |s.put| ==> !s.put[k].startsInsideWord
    ensures s.total + SumOf(s.consumers, HeldBy) == SumChunks(s.got)
  {
    ReachedInv(file, n, ring, es, s);
  }

  // No deadlock on a file that fits: unless all are gone, a thread that does not wait can go on.
  lemma NoDeadlock(file: string, n: nat, ring: seq<Chunk>, es: seq<Event>, s: State) returns (e: Event)
    requires Reached(file, n, ring, es, s) && FileFits(file) && !AllEnded(s)
    ensures Enabled(s, e) && !Spurious(e)
  {
    ReachedInv(file, n, ring, es, s);
    if s.pos < |file| {
      ReadsFit(file, n, ring, es, s);
    }
    hide Value, Words;
    if s.producer.Reading? {
      e := if s.pos < |s.file| then Read else Finish;
    } else if s.producer.Holding? {
      e := Put(0);
      if SomeoneWaits(s) {
        var w :| 0 <= w < |s.consumers| && s.consumers[w].Waiting?;
        e := Put(w);
      }
    } else {
      var c: nat :| c < |s.consumers| && (s.producer.Blocked? ==> Awake(s.consumers[c]))
        && (s.producer.Finished? ==> !s.consumers[c].Ended?);
      e := if s.consumers[c].Ready? then Get(c) else Add(c);
    }
  }

  // Every run ends: with k spurious wakeups it has at most 7 * size + 2 * n + 1 + 2 * k steps.
  lemma RunsEnd(file: string, n: nat, ring: seq<Chunk>, es: seq<Event>, s: State)
    requires Reached(file, n, ring, es, s)
    ensures |es| <= 7 * |file| + 2 * n + 1 + 2 * SpuriousOnes(es)
  {
    ReachedInv(file, n, ring, es, s);
  }

  // What a consumer adds for its chunk.
  method CountChunk(chunk: Chunk) returns (wc: nat)
    ensures wc == Value(chunk)
  {
    wc := CountWordsInChunk(chunk.data, chunk.startsInsideWord);
  }

  // ----- which files the program can count

  // From pos on: the 256 spare bytes and the last byte that fread got are all of one word, which goes on.
  predicate Overruns(file: string, pos: nat) {
    && pos + CHUNK_SIZE + SPARE < |file|
    && forall k :: pos + CHUNK_SIZE - 1 <= k < pos + CHUNK_SIZE + SPARE ==> IsWordChar(file[k])
  }

  // The producer's reads from pos on, one after the other, all stay inside their buffers.
  predicate FitsFrom(file: string, pos: nat)
    requires pos <= |file|
    decreases |file| - pos
  {
    pos == |file| || (!Overruns(file, pos) && FitsFrom(file, ChunkEnd(file, pos)))
  }

  predicate FileFits(file: string) {
    FitsFrom(file, 0)
  }

  lemma {:induction false} ReadFitsIff(file: string, pos: nat)
    requires pos < |file|
    ensures ReadFits(file, pos) <==> !Overruns(file, pos)
  {
    var lo, e := pos + CHUNK_SIZE, ChunkEnd(file, pos);
    if lo < |file| && e <= lo + SPARE < |file| {
      assert !IsWordChar(file[e - 1]);
    }
  }

  // What is left to read fits exactly if the whole file does: no read that was made went too far.
  ghost predicate FitInv(s: State) {
    s.pos <= |s.file| && (FileFits(s.file) <==> FitsFrom(s.file, s.pos))
  }

  lemma FitStep(s: State, e: Event)
    requires FitInv(s) && Enabled(s, e)
    ensures FitInv(Step(s, e))
  {
    hide IsWordChar, Value, WakeAll, SomeoneWaits, Overruns;
    if e.Read? {
      ReadFitsIff(s.file, s.pos);
    }
  }

  lemma {:induction false} FitRun(s: State, es: seq<Event>)
    requires FitInv(s) && Legal(s, es)
    ensures FitInv(Exec(s, es)) && Exec(s, es).file == s.file
    decreases |es|
  {
    if es != [] {
      FitStep(s, es[0]);
      SameFile(s, es[0]);
      hide FitInv, Step, Enabled;
      FitRun(Step(s, es[0]), es[1..]);
    }
  }

  // On a file that fits, every read the producer comes to stays inside its buffer.
  lemma ReadsFit(file: string, n: nat, ring: seq<Chunk>, es: seq<Event>, s: State)
    requires Reached(file, n, ring, es, s) && FileFits(file) && s.pos < |file|
    ensures s.file == file && ReadFits(file, s.pos)
  {
    FitRun(Init(file, n, ring), es);
    ReadFitsIff(file, s.pos);
  }

  // On any other some run comes to a read that does not.
  lemma OverrunReached(file: string, n: nat, ring: seq<Chunk>) returns (es: seq<Event>, s: State)
    requires n > 0 && |ring| == CAPACITY && !FileFits(file)
    ensures Reached(file, n, ring, es, s) && s.producer.Reading? && s.pos < |file| && !ReadFits(file, s.pos)
  {
    es, s := OverrunFrom(Init(file, n, ring));
  }

  // One chunk read, put, taken and counted at a time, by the first consumer.
  lemma {:induction false} OverrunFrom(s0: State) returns (es: seq<Event>, s: State)
    requires Quiet(s0) && !FitsFrom(s0.file, s0.pos)
    ensures Legal(s0, es) && Exec(s0, es) == s
    ensures s.file == s0.file && s.producer.Reading? && s.pos < |s.file| && !ReadFits(s.file, s.pos)
    decreases |s0.file| - s0.pos
  {
    ReadFitsIff(s0.file, s0.pos);
    if Overruns(s0.file, s0.pos) {
      es, s := [], s0;
    } else {
      var s4 := OneRound(s0);
      hide Quiet, Overruns, IsWordChar, Step, Enabled, ReadFits;
      es, s := OverrunFrom(s4);
      es := Round() + es;
      assert Round() + es[4..] == es;
    }
  }

  // Nothing in the ring, nobody waiting.
  predicate Quiet(s: State) {
    Sized(s) && s.producer.Reading? && s.count == 0 && |s.consumers| > 0 && s.consumers[0].Ready? && !SomeoneWaits(s)
  }

  function Round(): seq<Event> {
    [Read, Put(0), Get(0), Add(0)]
  }

  lemma OneRound(s: State) returns (s4: State)
    requires Quiet(s) && ReadFits(s.file, s.pos)
    ensures Quiet(s4) && s4.file == s.file && s4.pos == ChunkEnd(s.file, s.pos)
    ensures forall es {:trigger Legal(s4, es)} ::
      Legal(s4, es) ==> Legal(s, Round() + es) && Exec(s, Round() + es) == Exec(s4, es)
  {
    hide Value, IsWordChar, WakeAll;
    var s1 := Step(s, Read);
    var s2 := Step(s1, Put(0));
    var s3 := Step(s2, Get(0));
    s4 := Step(s3, Add(0));
    forall es | Legal(s4, es) ensures Legal(s, Round() + es) && Exec(s, Round() + es) == Exec(s4, es) {
      LegalCons(s3, Add(0), es);
      LegalCons(s2, Get(0), [Add(0)] + es);
      LegalCons(s1, Put(0), [Get(0)] + ([Add(0)] + es));
      LegalCons(s, Read, [Put(0)] + ([Get(0)] + ([Add(0)] + es)));
      assert [Read] + ([Put(0)] + ([Get(0)] + ([Add(0)] + es))) == Round() + es;
    }
  }

  lemma LegalCons(s: State, e: Event, es: seq<Event>)
    requires Enabled(s, e) && Legal(Step(s, e), es)
    ensures Legal(s, [e] + es) && Exec(s, [e] + es) == Exec(Step(s, e), es)
  {
    assert ([e] + es)[1..] == es;
  }

  // In every run every read stays inside its buffer exactly if the file fits.
  lemma FitsIff(file: string, n: nat, ring: seq<Chunk>)
    requires n > 0 && |ring| == CAPACITY
    ensures FileFits(file) <==>
      forall es, s :: Reached(file, n, ring, es, s) && s.producer.Reading? && s.pos < |file| ==> ReadFits(file, s.pos)
  {
    if FileFits(file) {
      forall es, s | Reached(file, n, ring, es, s) && s.pos < |file| ensures ReadFits(file, s.pos) {
        ReadsFit(file, n, ring, es, s);
      }
    } else {
      var es, s := OverrunReached(file, n, ring);
    }
  }

  // A file that does not: one word of 65793 characters.
  lemma LongWordOverruns()
    ensures var file := seq(CHUNK_SIZE + SPARE + 1, _ => 'a'); !FileFits(file) && Words(file) == 1
  {
    var file := seq(CHUNK_SIZE + SPARE + 1, _ => 'a');
    assert Overruns(file, 0);
    OneWord(file);
  }

  lemma {:induction false} OneWord(s: string)
    requires s != [] && forall k :: 0 <= k < |s| ==> IsWordChar(s[k])
    ensures Words(s) == 1
  {
    var n := |s| - 1;
    if n > 0 {
      OneWord(s[..n]);
    }
  }
}

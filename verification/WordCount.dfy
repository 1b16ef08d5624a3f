// Counting words: the loops of lab8-lyjae/wc_mt.c and wc_mt_overlap.c against one definition, and wc_mt.c's split.
module WordCount {
  // isalnum in the C locale.
  predicate IsWordChar(c: char) {
    '0' <= c <= '9' || 'A' <= c <= 'Z' || 'a' <= c <= 'z'
  }

  // A word starts at each word character that does not follow another.
  predicate StartsAt(s: string, k: nat)
    requires k < |s|
  {
    IsWordChar(s[k]) && (k == 0 || !IsWordChar(s[k - 1]))
  }

  function Words(s: string): nat {
    if s == [] then 0
    else Words(s[..|s| - 1]) + if StartsAt(s, |s| - 1) then 1 else 0
  }

  function Starts(s: string): set<nat> {
    set k: nat | k < |s| && StartsAt(s, k)
  }

  lemma {:induction false} WordsAreStarts(s: string)
    ensures Words(s) == |Starts(s)|
  {
    if s != [] {
      var n := |s| - 1;
      WordsAreStarts(s[..n]);
      assert Starts(s) == Starts(s[..n]) + if StartsAt(s, n) then {n} else {};
    } else {
      assert Starts(s) == {};
    }
  }

  // No word crosses from a to b.
  predicate Apart(a: string, b: string) {
    a == [] || b == [] || !IsWordChar(a[|a| - 1]) || !IsWordChar(b[0])
  }

  lemma {:induction false} WordsConcat(a: string, b: string)
    requires Apart(a, b)
    ensures Words(a + b) == Words(a) + Words(b)
    decreases |b|
  {
    if b == [] {
      assert a + b == a;
    } else {
      var n := |b| - 1;
      WordsConcat(a, b[..n]);
      assert (a + b)[..|a + b| - 1] == a + b[..n];
    }
  }

  // A word that goes on from a into b is counted once too often when the two are counted apart.
  lemma {:induction false} WordsCut(a: string, b: string)
    requires !Apart(a, b)
    ensures Words(a + b) == Words(a) + Words(b) - 1
    decreases |b|
  {
    var n := |b| - 1;
    assert (a + b)[..|a + b| - 1] == a + b[..n];
    if n == 0 {
      assert a + b[..n] == a;
    } else {
      WordsCut(a, b[..n]);
    }
  }

  // Counting in two parts is right exactly when no word crosses the cut.
  lemma CutIff(a: string, b: string)
    ensures Words(a + b) == Words(a) + Words(b) <==> Apart(a, b)
  {
    if Apart(a, b) {
      WordsConcat(a, b);
    } else {
      WordsCut(a, b);
    }
  }

  lemma OneMore(s: string, lo: nat, i: nat)
    requires lo <= i < |s|
    ensures Words(s[lo..i + 1]) == Words(s[lo..i]) + if IsWordChar(s[i]) && (i == lo || !IsWordChar(s[i - 1])) then 1
      else 0
  {
    var t := s[lo..i + 1];
    assert t[..|t| - 1] == s[lo..i];
  }

  // The thread function of wc_mt.c.
  method CountWords(buffer: string, start: nat, end: nat) returns (count: nat)
    requires start <= end <= |buffer|
    ensures count == Words(buffer[start..end])
  {
    var inWord := false;
    count := 0;
    for i := start to end
      invariant count == Words(buffer[start..i])
      invariant inWord <==> i > start && IsWordChar(buffer[i - 1])
    {
      OneMore(buffer, start, i);
      if IsWordChar(buffer[i]) {
        if !inWord {
          count := count + 1;
        }
        inWord := true;
      } else {
        inWord := false;
      }
    }
  }

  // The word at the front of a chunk that an earlier chunk has counted.
  function Leading(s: string): (n: nat)
    ensures n <= |s| && (forall k :: 0 <= k < n ==> IsWordChar(s[k])) && (n < |s| ==> !IsWordChar(s[n]))
  {
    if s == [] || !IsWordChar(s[0]) then 0 else 1 + Leading(s[1..])
  }

  // count_words_in_chunk of wc_mt_overlap.c.
  method CountWordsInChunk(buf: string, startsInsideWord: bool) returns (count: nat)
    ensures count == Words(if startsInsideWord then buf[Leading(buf)..] else buf)
  {
    hide Words, StartsAt;
    count := 0;
    var inWord, i := false, 0;
    if startsInsideWord {
      while i < |buf| && IsWordChar(buf[i])
        invariant i <= |buf| && Leading(buf) == i + Leading(buf[i..])
      {
        assert buf[i..][1..] == buf[i + 1..];
        i := i + 1;
      }
    }
    ghost var from := i;
    assert from == if startsInsideWord then Leading(buf) else 0;
    NoWords(buf, from);
    while i < |buf|
      invariant from <= i <= |buf| && count == Words(buf[from..i])
      invariant inWord <==> i > from && IsWordChar(buf[i - 1])
    {
      OneMore(buf, from, i);
      if IsWordChar(buf[i]) {
        if !inWord {
          count := count + 1;
        }
        inWord := true;
      } else {
        inWord := false;
      }
      i := i + 1;
    }
    assert buf[from..|buf|] == buf[from..];
    assert buf[0..] == buf;
  }

  lemma NoWords(s: string, i: nat)
    requires i <= |s|
    ensures Words(s[i..i]) == 0
  {}

  // Skipping the front of a chunk puts right what counting apart gets wrong.
  lemma {:induction false} SkipLeading(a: string, b: string)
    requires a != [] && IsWordChar(a[|a| - 1])
    ensures Words(a + b) == Words(a) + Words(b[Leading(b)..])
  {
    var n := Leading(b);
    assert b == b[..n] + b[n..];
    AllWord(a, b[..n]);
    assert a + b == (a + b[..n]) + b[n..];
    WordsConcat(a + b[..n], b[n..]);
  }

  lemma {:induction false} AllWord(a: string, b: string)
    requires a != [] && IsWordChar(a[|a| - 1]) && forall k :: 0 <= k < |b| ==> IsWordChar(b[k])
    ensures Words(a + b) == Words(a)
    decreases |b|
  {
    if b == [] {
      assert a + b == a;
    } else {
      var n := |b| - 1;
      AllWord(a, b[..n]);
      assert (a + b)[..|a + b| - 1] == a + b[..n];
    }
  }

  // ----- wc_mt.c: the ranges of the threads

  datatype Range = Range(start: nat, end: nat)

  // Where an edge at i ends up: at the next character that is not of a word.
  function Edge(s: string, i: nat): (e: nat)
    requires i <= |s|
    ensures i <= e <= |s| && (e < |s| ==> !IsWordChar(s[e])) && forall k :: i <= k < e ==> IsWordChar(s[k])
    decreases |s| - i
  {
    if i < |s| && IsWordChar(s[i]) then Edge(s, i + 1) else i
  }

  method MoveEdge(s: string, i: nat) returns (e: nat)
    requires i <= |s|
    ensures e == Edge(s, i)
  {
    e := i;
    while e < |s| && IsWordChar(s[e])
      invariant i <= e <= |s| && Edge(s, e) == Edge(s, i)
    {
      e := e + 1;
    }
  }

  lemma {:induction false} EdgeMonotone(s: string, i: nat, j: nat)
    requires i <= j <= |s|
    ensures Edge(s, i) <= Edge(s, j)
    decreases j - i
  {
    if i < j {
      EdgeMonotone(s, i + 1, j);
    }
  }

  // Where thread i's range begins, and the one before it ends.
  function Border(s: string, i: nat, n: nat): (e: nat)
    requires i <= n && n > 0
    ensures e <= |s| && (0 < i && e < |s| ==> !IsWordChar(s[e]))
  {
    Within(i, n, |s| / n, |s|);
    if i == 0 then 0 else if i == n then |s| else Edge(s, i * (|s| / n))
  }

  lemma BordersAscend(s: string, i: nat, n: nat)
    requires i < n
    ensures Border(s, i, n) <= Border(s, i + 1, n)
  {
    Within(i + 1, n, |s| / n, |s|);
    if 0 < i && i + 1 < n {
      EdgeMonotone(s, i * (|s| / n), (i + 1) * (|s| / n));
    }
  }

  // The ranges lie one behind the other, cover the buffer, and none but the first starts at a word character.
  ghost predicate Tiles(s: string, args: seq<Range>) {
    && (forall i :: 0 <= i < |args| ==> args[i].start <= args[i].end <= |s|)
    && (|args| > 0 ==> args[0].start == 0)
    && (forall i :: 0 < i < |args| ==> args[i].start == args[i - 1].end)
    && forall i :: 0 < i < |args| && args[i].start < |s| ==> !IsWordChar(s[args[i].start])
  }

  function End(args: seq<Range>): nat {
    if args == [] then 0 else args[|args| - 1].end
  }

  function Sum(s: string, args: seq<Range>): nat
    requires forall i :: 0 <= i < |args| ==> args[i].start <= args[i].end <= |s|
  {
    if args == [] then 0
    else Sum(s, args[..|args| - 1]) + Words(s[args[|args| - 1].start..args[|args| - 1].end])
  }

  lemma {:induction false} SumIsWords(s: string, args: seq<Range>)
    requires Tiles(s, args)
    ensures Sum(s, args) == Words(s[..End(args)])
    decreases |args|
  {
    if args != [] {
      var n := |args| - 1;
      SumIsWords(s, args[..n]);
      var a, b := s[..args[n].start], s[args[n].start..args[n].end];
      assert a + b == s[..args[n].end];
      assert End(args[..n]) == args[n].start;
      assert Apart(a, b);
      WordsConcat(a, b);
    }
  }

  // The first loop of main in wc_mt.c, up to the start of each thread: any thread count, any buffer.
  method SplitRanges(buffer: string, numThreads: nat) returns (args: seq<Range>)
    requires numThreads > 0
    ensures |args| == numThreads && Tiles(buffer, args) && End(args) == |buffer|
  {
    hide Tiles, End, Border;
    args := [];
    NoRanges(buffer, numThreads);
    var block := |buffer| / numThreads;
    for i := 0 to numThreads
      invariant |args| == i && Tiles(buffer, args) && End(args) == Border(buffer, i, numThreads)
    {
      var r := OneRange(buffer, i, numThreads, block);
      BordersAscend(buffer, i, numThreads);
      TilesMore(buffer, args, r);
      args := args + [r];
    }
    AllCovered(buffer, numThreads);
  }

  // The body of the loop for thread i.
  method OneRange(buffer: string, i: nat, numThreads: nat, block: nat) returns (r: Range)
    requires i < numThreads && block == |buffer| / numThreads
    ensures r == Range(Border(buffer, i, numThreads), Border(buffer, i + 1, numThreads))
  {
    hide Edge;
    Within(i + 1, numThreads, block, |buffer|);
    var start, end := i * block, if i == numThreads - 1 then |buffer| else (i + 1) * block;
    if i != 0 {
      start := MoveEdge(buffer, start);
    }
    if i != numThreads - 1 {
      end := MoveEdge(buffer, end);
    }
    r := Range(start, end);
  }

  lemma AllCovered(s: string, n: nat)
    requires n > 0
    ensures Border(s, n, n) == |s|
  {}

  lemma NoRanges(s: string, n: nat)
    requires n > 0
    ensures Tiles(s, []) && End([]) == Border(s, 0, n)
  {}

  lemma TilesMore(s: string, args: seq<Range>, r: Range)
    requires Tiles(s, args) && r.start <= r.end <= |s| && r.start == End(args)
    requires args != [] && r.start < |s| ==> !IsWordChar(s[r.start])
    ensures Tiles(s, args + [r]) && End(args + [r]) == r.end
  {}

  lemma Within(i: nat, n: nat, block: nat, size: nat)
    requires 0 < n && i <= n && block == size / n
    ensures i * block <= n * block <= size && (i > 0 ==> (i - 1) * block <= i * block)
  {}

  // main of wc_mt.c: the threads share nothing but the buffer, and are joined one by one.
  method CountInThreads(buffer: string, numThreads: nat) returns (total: nat)
    requires numThreads > 0
    ensures total == Words(buffer)
  {
    var args := SplitRanges(buffer, numThreads);
    total := 0;
    for i := 0 to numThreads
      invariant total == Sum(buffer, args[..i])
    {
      var count := CountWords(buffer, args[i].start, args[i].end);
      total := total + count;
      assert args[..i + 1][..i] == args[..i];
    }
    assert args[..numThreads] == args;
    SumIsWords(buffer, args);
    assert buffer[..|buffer|] == buffer;
  }
}

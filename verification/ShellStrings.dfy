// nulterminate of user/sh.c: after it every argument and file name reads as its token.
module ShellStrings {
  import opened ShellGrammar

  // All of a token is of word characters, and what follows it is not.
  predicate SpanOk(s: string, p: Span) {
    && p.q < p.eq <= |s| && (forall k :: p.q <= k < p.eq ==> !IsSpace(s[k]) && !IsSymbol(s[k]))
    && (p.eq < |s| ==> IsSpace(s[p.eq]) || IsSymbol(s[p.eq]))
  }

  // The tokens of a command: its arguments and file names.
  function Spans(c: Cmd): seq<Span> {
    match c
    case Exec(argv) => argv
    case Redirected(d, r) => Spans(d) + [r.file]
    case Pipe(l, r) => Spans(l) + Spans(r)
    case List(l, r) => Spans(l) + Spans(r)
    case Back(d) => Spans(d)
  }

  ghost predicate SpansOk(s: string, ps: seq<Span>) {
    forall k :: 0 <= k < |ps| ==> SpanOk(s, ps[k])
  }

  function Files(rs: seq<Redir>): seq<Span> {
    seq(|rs|, i requires 0 <= i < |rs| => rs[i].file)
  }

  lemma WordOk(s: string, i: nat)
    requires i <= |s| && GetToken(s, i).kind.Word?
    ensures SpanOk(s, GetToken(s, i).span)
  {}

  lemma {:induction false} RedirsOk(s: string, i: nat)
    requires i <= |s|
    ensures Redirs(s, i).Ok? ==> SpansOk(s, Files(Redirs(s, i).value))
    decreases |s| - i
  {
    hide SpanOk, GetToken, Skip;
    if Sees(s, i, "<>") {
      SkipBounds(s, i);
      var t := GetToken(s, Skip(s, i));
      var f := GetToken(s, t.next);
      if f.kind.Word? {
        WordOk(s, t.next);
        RedirsOk(s, f.next);
        var rest := Redirs(s, f.next);
        if rest.Ok? {
          FilesCons(s, Redir(f.span, ModeOf(t.kind)), rest.value);
        }
      }
    }
  }

  lemma FilesCons(s: string, r: Redir, rest: seq<Redir>)
    requires SpanOk(s, r.file) && SpansOk(s, Files(rest))
    ensures SpansOk(s, Files([r] + rest))
  {
    hide SpanOk;
    assert Files([r] + rest) == [r.file] + Files(rest);
  }

  lemma SkipBounds(s: string, i: nat)
    requires i <= |s|
    ensures i <= Skip(s, i) <= |s|
      && (Sees(s, i, "<>") || Sees(s, i, "&") || Sees(s, i, ";") || Sees(s, i, "|") ==> Skip(s, i) < |s|)
  {}

  lemma {:induction false} WrapOk(s: string, c: Cmd, rs: seq<Redir>)
    requires SpansOk(s, Spans(c)) && SpansOk(s, Files(rs))
    ensures SpansOk(s, Spans(Wrap(c, rs)))
    decreases |rs|
  {
    hide SpanOk;
    if rs != [] {
      var n := |rs| - 1;
      assert Files(rs)[n] == rs[n].file;
      forall k | 0 <= k < n ensures SpanOk(s, Files(rs[..n])[k]) {
        assert Files(rs)[k] == rs[k].file;
      }
      WrapOk(s, c, rs[..n]);
    }
  }

  lemma FilesConcat(s: string, rs: seq<Redir>, more: seq<Redir>)
    requires SpansOk(s, Files(rs)) && SpansOk(s, Files(more))
    ensures SpansOk(s, Files(rs + more))
  {
    hide SpanOk;
    assert Files(rs + more) == Files(rs) + Files(more);
  }

  lemma {:induction false} ExecTailOk(s: string, i: nat, argv: seq<Span>, rs: seq<Redir>)
    requires i <= |s| && SpansOk(s, argv) && SpansOk(s, Files(rs))
    ensures ExecTail(s, i, argv, rs).Ok? ==> SpansOk(s, Spans(ExecTail(s, i, argv, rs).value))
    decreases |s| - i
  {
    hide SpanOk, GetToken, Skip, Wrap, Files;
    WrapOk(s, Exec(argv), rs);
    SkipBounds(s, i);
    var t := GetToken(s, Skip(s, i));
    if !Sees(s, i, "|)&;") && t.kind.Word? && |argv| + 1 < MAXARGS {
      WordOk(s, Skip(s, i));
      RedirsOk(s, t.next);
      var more := Redirs(s, t.next);
      if more.Ok? {
        FilesConcat(s, rs, more.value);
        ExecTailOk(s, more.pos, argv + [t.span], rs + more.value);
      }
    }
  }

  lemma {:induction false} ExecOfOk(s: string, i: nat)
    requires i <= |s|
    ensures ExecOf(s, i).Ok? ==> SpansOk(s, Spans(ExecOf(s, i).value))
    decreases |s| - i, 1
  {
    hide SpanOk, Wrap, Files, LineOf, ExecTail, SpansOk, Spans;
    SkipBounds(s, i);
    if Sees(s, i, "(") {
      var c := LineOf(s, GetToken(s, Skip(s, i)).next);
      LineOfOk(s, GetToken(s, Skip(s, i)).next);
      if c.Ok? && Sees(s, c.pos, ")") {
        var j := GetToken(s, Skip(s, c.pos)).next;
        RedirsOk(s, j);
        if Redirs(s, j).Ok? {
          WrapOk(s, c.value, Redirs(s, j).value);
        }
      }
    } else {
      RedirsOk(s, Skip(s, i));
      var rs := Redirs(s, Skip(s, i));
      if rs.Ok? {
        NoSpans(s);
        ExecTailOk(s, rs.pos, [], rs.value);
      }
    }
  }

  lemma NoSpans(s: string)
    ensures SpansOk(s, [])
  {}

  lemma Both(s: string, a: seq<Span>, b: seq<Span>)
    requires SpansOk(s, a) && SpansOk(s, b)
    ensures SpansOk(s, a + b)
  {
    hide SpanOk;
  }

  lemma {:induction false} PipeOfOk(s: string, i: nat)
    requires i <= |s|
    ensures PipeOf(s, i).Ok? ==> SpansOk(s, Spans(PipeOf(s, i).value))
    decreases |s| - i, 2
  {
    hide SpanOk, ExecOf, GetToken, Skip, SpansOk;
    ExecOfOk(s, i);
    var c := ExecOf(s, i);
    if c.Ok? && Sees(s, c.pos, "|") {
      SkipBounds(s, c.pos);
      PipeOfOk(s, GetToken(s, Skip(s, c.pos)).next);
      var d := PipeOf(s, GetToken(s, Skip(s, c.pos)).next);
      if d.Ok? {
        Both(s, Spans(c.value), Spans(d.value));
      }
    }
  }

  lemma {:induction false} LineTailOk(s: string, i: nat, c: Cmd)
    requires i <= |s| && SpansOk(s, Spans(c))
    ensures LineTail(s, i, c).Ok? ==> SpansOk(s, Spans(LineTail(s, i, c).value))
    decreases |s| - i, 2
  {
    hide SpanOk, GetToken, Skip, SpansOk, LineOf;
    SkipBounds(s, i);
    var j := GetToken(s, Skip(s, i)).next;
    if Sees(s, i, "&") {
      LineTailOk(s, j, Back(c));
    } else if Sees(s, i, ";") {
      LineOfOk(s, j);
      if LineOf(s, j).Ok? {
        Both(s, Spans(c), Spans(LineOf(s, j).value));
      }
    }
  }

  lemma {:induction false} LineOfOk(s: string, i: nat)
    requires i <= |s|
    ensures LineOf(s, i).Ok? ==> SpansOk(s, Spans(LineOf(s, i).value))
    decreases |s| - i, 3
  {
    hide SpanOk, PipeOf, LineTail, SpansOk, Spans;
    PipeOfOk(s, i);
    var c := PipeOf(s, i);
    if c.Ok? {
      LineTailOk(s, c.pos, c.value);
    }
  }

  // ----- termination of the strings, in place

  // The positions behind the tokens.
  function Stoppers(c: Cmd): set<nat> {
    match c
    case Exec(argv) => set k: nat | k < |argv| :: argv[k].eq
    case Redirected(d, r) => Stoppers(d) + {r.file.eq}
    case Pipe(l, r) => Stoppers(l) + Stoppers(r)
    case List(l, r) => Stoppers(l) + Stoppers(r)
    case Back(d) => Stoppers(d)
  }

  predicate StopAt(ps: seq<Span>, i: nat) {
    exists k: nat :: k < |ps| && ps[k].eq == i
  }

  lemma {:induction false} StoppersAre(c: Cmd, i: nat)
    ensures i in Stoppers(c) <==> StopAt(Spans(c), i)
    decreases c
  {
    hide StopAt;
    match c
    case Exec(argv) => ExecStops(argv, i);
    case Redirected(d, r) =>
      StoppersAre(d, i);
      Sub(Spans(d), [r.file], i);
      OneStop(r.file, i);
    case Pipe(l, r) =>
      StoppersAre(l, i);
      StoppersAre(r, i);
      Sub(Spans(l), Spans(r), i);
    case List(l, r) =>
      StoppersAre(l, i);
      StoppersAre(r, i);
      Sub(Spans(l), Spans(r), i);
    case Back(d) => StoppersAre(d, i);
  }

  lemma ExecStops(argv: seq<Span>, i: nat)
    ensures i in Stoppers(Exec(argv)) <==> StopAt(argv, i)
  {}

  lemma OneStop(p: Span, i: nat)
    ensures StopAt([p], i) <==> p.eq == i
  {
    assert [p][0] == p;
  }

  lemma Sub(a: seq<Span>, b: seq<Span>, i: nat)
    ensures StopAt(a + b, i) <==> StopAt(a, i) || StopAt(b, i)
  {
    if k: nat :| k < |a + b| && (a + b)[k].eq == i {
      assert if k < |a| then a[k].eq == i else b[k - |a|].eq == i;
    }
    if k: nat :| k < |a| && a[k].eq == i {
      assert (a + b)[k].eq == i;
    }
    if k: nat :| k < |b| && b[k].eq == i {
      assert (a + b)[|a| + k].eq == i;
    }
  }

  // Every terminator has its place in a buffer of n characters.
  predicate Fits(c: Cmd, n: nat) {
    match c
    case Exec(argv) => forall k :: 0 <= k < |argv| ==> argv[k].eq < n
    case Redirected(d, r) => Fits(d, n) && r.file.eq < n
    case Pipe(l, r) => Fits(l, n) && Fits(r, n)
    case List(l, r) => Fits(l, n) && Fits(r, n)
    case Back(d) => Fits(d, n)
  }

  lemma {:induction false} ParsedFits(s: string, c: Cmd)
    requires SpansOk(s, Spans(c))
    ensures Fits(c, |s| + 1)
    decreases c
  {
    match c
    case Exec(_) =>
    case Redirected(d, r) =>
      var ps := Spans(d) + [r.file];
      assert forall k :: 0 <= k < |Spans(d)| ==> ps[k] == Spans(d)[k];
      assert ps[|Spans(d)|] == r.file;
      ParsedFits(s, d);
    case Pipe(l, r) =>
      Halves(s, Spans(l), Spans(r));
      ParsedFits(s, l);
      ParsedFits(s, r);
    case List(l, r) =>
      Halves(s, Spans(l), Spans(r));
      ParsedFits(s, l);
      ParsedFits(s, r);
    case Back(d) => ParsedFits(s, d);
  }

  lemma Halves(s: string, a: seq<Span>, b: seq<Span>)
    requires SpansOk(s, a + b)
    ensures SpansOk(s, a) && SpansOk(s, b)
  {
    hide SpanOk;
    assert forall k :: 0 <= k < |a| ==> (a + b)[k] == a[k];
    assert forall k :: 0 <= k < |b| ==> (a + b)[|a| + k] == b[k];
  }

  method Nulterminate(buf: array<char>, c: Cmd)
    requires Fits(c, buf.Length)
    modifies buf
    ensures forall i: nat :: i < buf.Length ==> buf[i] == if i in Stoppers(c) then '\0' else old(buf[i])
    decreases c
  {
    match c
    case Exec(argv) =>
      for k := 0 to |argv|
        invariant forall i: nat :: i < buf.Length ==> buf[i] == if i in StopsBelow(argv, k) then '\0' else old(buf[i])
      {
        buf[argv[k].eq] := '\0';
      }
    case Redirected(d, r) =>
      Nulterminate(buf, d);
      buf[r.file.eq] := '\0';
    case Pipe(l, r) =>
      Nulterminate(buf, l);
      Nulterminate(buf, r);
    case List(l, r) =>
      Nulterminate(buf, l);
      Nulterminate(buf, r);
    case Back(d) =>
      Nulterminate(buf, d);
  }

  ghost function StopsBelow(argv: seq<Span>, n: nat): set<nat>
    requires n <= |argv|
  {
    set k: nat | k < n :: argv[k].eq
  }

  // The C string at q.
  function CString(b: string, q: nat): string
    requires q <= |b|
    decreases |b| - q
  {
    if q == |b| || b[q] == '\0' then [] else [b[q]] + CString(b, q + 1)
  }

  lemma {:induction false} CStringIs(b: string, q: nat, eq: nat)
    requires q <= eq < |b| && b[eq] == '\0' && forall k :: q <= k < eq ==> b[k] != '\0'
    ensures CString(b, q) == b[q..eq]
    decreases eq - q
  {
    if q < eq {
      CStringIs(b, q + 1, eq);
      assert b[q..eq] == [b[q]] + b[q + 1..eq];
    }
  }

  // No terminator falls inside a token: each reads as what was typed.
  lemma TokensRead(s: string, c: Cmd, b: string, k: nat)
    requires '\0' !in s && Parse(s) == Ok(c, |s|) && k < |Spans(c)| && |b| == |s| + 1
    requires forall i: nat :: i <= |s| ==> b[i] == if i in Stoppers(c) || i == |s| then '\0' else s[i]
    ensures var p := Spans(c)[k]; SpanOk(s, p) && CString(b, p.q) == s[p.q..p.eq]
  {
    LineOfOk(s, 0);
    var p := Spans(c)[k];
    assert SpanOk(s, p);
    forall i | p.q <= i < p.eq ensures b[i] == s[i] && s[i] != '\0' {
      assert s[i] in s;
      StoppersAre(c, i);
      assert forall j: nat :: j < |Spans(c)| ==> SpanOk(s, Spans(c)[j]);
    }
    StoppersAre(c, p.eq);
    CStringIs(b, p.q, p.eq);
    assert b[p.q..p.eq] == s[p.q..p.eq];
  }

  // parsecmd's last step, on the line with its NUL: every token of the command becomes a C string.
  method TerminateLine(buf: array<char>, s: string, c: Cmd)
    requires '\0' !in s && Parse(s) == Ok(c, |s|) && buf.Length == |s| + 1 && buf[..] == s + ['\0']
    modifies buf
    ensures forall k ::
      0 <= k < |Spans(c)| ==>
        SpanOk(s, Spans(c)[k]) && CString(buf[..], Spans(c)[k].q) == s[Spans(c)[k].q..Spans(c)[k].eq]
  {
    LineOfOk(s, 0);
    ParsedFits(s, c);
    assert forall i: nat :: i <= |s| ==> buf[i] == (s + ['\0'])[i] by {
      assert forall i: nat :: i <= |s| ==> buf[i] == buf[..][i];
    }
    Nulterminate(buf, c);
    forall k: nat | k < |Spans(c)|
      ensures SpanOk(s, Spans(c)[k]) && CString(buf[..], Spans(c)[k].q) == s[Spans(c)[k].q..Spans(c)[k].eq]
    {
      TokensRead(s, c, buf[..], k);
    }
  }
}

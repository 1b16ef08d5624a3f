// The parser takes exactly the sentences of the shell's grammar, and gives each the command that it means.
module ShellRoundTrip {
  import opened Basics
  import opened ShellGrammar
  import opened ShellSyntax

  // ----- the parser's view of the tokens

  lemma {:induction false} SkipTwice(s: string, i: nat)
    requires i <= |s|
    ensures Skip(s, Skip(s, i)) == Skip(s, i)
  {}

  lemma SkipTokens(s: string, i: nat)
    requires i <= |s|
    ensures Tokens(s, Skip(s, i)) == Tokens(s, i) && GetToken(s, Skip(s, i)) == GetToken(s, i)
  {
    SkipTwice(s, i);
    hide Skip, WordEnd, Text;
    assert GetToken(s, Skip(s, i)) == GetToken(s, i);
    hide GetToken;
  }

  predicate IsToken(w: string) {
    IsWord(w) || w == ">>" || (|w| == 1 && IsSymbol(w[0]))
  }

  function KindOf(w: string): Kind
    requires w != []
  {
    if w == ">>" then Two else if IsSymbol(w[0]) then Symbol(w[0]) else Word
  }

  lemma TokenIsFirst(s: string, i: nat)
    requires i <= |s| && Skip(s, i) < |s|
    ensures var q, t := Skip(s, i), GetToken(s, i);
      && (IsSymbol(s[q]) && !(s[q] == '>' && q + 1 < |s| && s[q + 1] == '>') ==>
            t == Token(Symbol(s[q]), Span(q, q + 1), Skip(s, q + 1)))
      && (s[q] == '>' && q + 1 < |s| && s[q + 1] == '>' ==> t == Token(Two, Span(q, q + 2), Skip(s, q + 2)))
      && (!IsSymbol(s[q]) ==> t == Token(Word, Span(q, WordEnd(s, q)), Skip(s, WordEnd(s, q))))
  {
    hide Skip, WordEnd, IsSpace;
  }

  lemma NotAtEnd(s: string, i: nat)
    requires i <= |s| && !GetToken(s, i).kind.End?
    ensures Skip(s, i) < |s|
  {
    hide Skip, WordEnd;
  }

  lemma TwoText(s: string, q: nat)
    requires q + 1 < |s| && s[q] == '>' && s[q + 1] == '>'
    ensures Text(s, Span(q, q + 2)) == ">>"
  {}

  lemma OneText(s: string, q: nat)
    requires q < |s|
    ensures Text(s, Span(q, q + 1)) == [s[q]]
  {}

  lemma WordText(s: string, q: nat)
    requires q < |s| && !IsSpace(s[q]) && !IsSymbol(s[q])
    ensures var w := Text(s, Span(q, WordEnd(s, q))); IsWord(w) && w[0] == s[q] && q < WordEnd(s, q)
  {
    var e := WordEnd(s, q);
    assert q < e;
    hide WordEnd, IsSpace, IsSymbol;
    var w := s[q..e];
    forall k | 0 <= k < |w| ensures !IsSpace(w[k]) && !IsSymbol(w[k]) {
      assert w[k] == s[q + k];
    }
  }

  lemma WordKind(w: string)
    requires IsWord(w)
    ensures KindOf(w) == Word && !IsSymbol(w[0])
  {}

  // The first token and where it ends.
  lemma FirstToken(s: string, i: nat)
    requires i <= |s| && Tokens(s, i) != []
    ensures var t, w := GetToken(s, i), Tokens(s, i)[0];
      && i < t.next <= |s| && Tokens(s, t.next) == Tokens(s, i)[1..] && w == Text(s, t.span)
      && w != [] && IsToken(w) && t.kind == KindOf(w) && w[0] == s[Skip(s, i)]
  {
    TokenIs(s, i);
    NotAtEnd(s, i);
    TokenIsFirst(s, i);
    hide Tokens, GetToken, Skip, WordEnd, Text;
    var q := Skip(s, i);
    if q + 1 < |s| && s[q] == '>' && s[q + 1] == '>' {
      TwoText(s, q);
    } else if IsSymbol(s[q]) {
      OneText(s, q);
    } else {
      WordText(s, q);
      WordKind(Text(s, Span(q, WordEnd(s, q))));
    }
  }

  lemma TokenIs(s: string, i: nat)
    requires i <= |s| && Tokens(s, i) != []
    ensures var t := GetToken(s, i);
      !t.kind.End? && Tokens(s, i)[0] == Text(s, t.span) && Tokens(s, t.next) == Tokens(s, i)[1..]
  {
    hide GetToken, Text;
    var t := GetToken(s, i);
    assert Tokens(s, i) == [Text(s, t.span)] + Tokens(s, t.next);
  }

  lemma SeesToken(s: string, i: nat, toks: string)
    requires i <= |s|
    ensures Sees(s, i, toks) <==> Heads(Tokens(s, i), toks)
  {
    SkipTokens(s, i);
    if Tokens(s, i) != [] {
      FirstToken(s, i);
    }
  }

  lemma NoToken(s: string, i: nat)
    requires i <= |s|
    ensures Tokens(s, i) == [] <==> Skip(s, i) == |s|
    ensures Tokens(s, i) == [] <==> GetToken(s, i).kind.End?
  {}

  // ----- a sentence is parsed, and read as what it means

  lemma Rest1(w: string, ts: seq<string>)
    ensures ([w] + ts)[0] == w && ([w] + ts)[1..] == ts
  {}

  ghost predicate RedirsRead(s: string, rs: seq<Redir>, ps: seq<Redirect>) {
    |rs| == |ps| && forall k :: 0 <= k < |rs| ==> ps[k] == Redirect(rs[k].mode, Text(s, rs[k].file))
  }

  lemma RedirsCons(s: string, i: nat, rest: Parsed<seq<Redir>>)
    requires i <= |s| && Sees(s, i, "<>")
    requires GetToken(s, GetToken(s, Skip(s, i)).next).kind.Word?
    requires Redirs(s, GetToken(s, GetToken(s, Skip(s, i)).next).next) == rest
    ensures var t := GetToken(s, Skip(s, i)); var f := GetToken(s, t.next);
      Redirs(s, i) == if rest.Panic? then Panic else Ok([Redir(f.span, ModeOf(t.kind))] + rest.value, rest.pos)
  {
    hide GetToken, Skip, Sees;
  }

  lemma RedirsNil(s: string, i: nat)
    requires i <= |s| && !Sees(s, i, "<>")
    ensures Redirs(s, i) == Ok([], Skip(s, i))
  {
    hide GetToken, Skip, Sees;
  }

  lemma {:induction false} RedirsParse(s: string, i: nat, ps: seq<Redirect>, rest: seq<string>)
    returns (rs: seq<Redir>, j: nat)
    requires i <= |s| && Tokens(s, i) == RedirectTokens(ps) + rest && RedirectsFit(ps) && !Heads(rest, "<>")
    ensures Redirs(s, i) == Ok(rs, j) && j <= |s| && Tokens(s, j) == rest && RedirsRead(s, rs, ps)
    decreases |ps|
  {
    hide GetToken, Skip, Sees, Tokens, Redirs, Text;
    SeesToken(s, i, "<>");
    SkipTokens(s, i);
    if ps == [] {
      RedirsNil(s, i);
      rs, j := [], Skip(s, i);
      SkipBound(s, i);
      assert [] + rest == rest;
    } else {
      var more := RedirectTokens(ps[1..]) + rest;
      assert Tokens(s, i) == [Sign(ps[0].mode)] + ([ps[0].file] + more);
      Rest1(Sign(ps[0].mode), [ps[0].file] + more);
      FirstToken(s, i);
      var t := GetToken(s, i);
      Rest1(ps[0].file, more);
      FirstToken(s, t.next);
      var f := GetToken(s, t.next);
      assert IsWord(ps[0].file);
      hide RedirectTokens;
      rs, j := RedirsParse(s, f.next, ps[1..], more[|RedirectTokens(ps[1..])|..]);
      RedirsCons(s, i, Redirs(s, f.next));
      rs := [Redir(f.span, ModeOf(t.kind))] + rs;
    }
  }

  lemma SkipBound(s: string, i: nat)
    requires i <= |s|
    ensures i <= Skip(s, i) <= |s|
  {}

  // What ends a simple command, a pipeline, a line.
  predicate EndsTerm(ts: seq<string>) {
    ts == [] || Heads(ts, "|)&;")
  }

  predicate EndsPipeline(ts: seq<string>) {
    ts == [] || Heads(ts, ")&;")
  }

  predicate EndsLine(ts: seq<string>) {
    ts == [] || Heads(ts, ")")
  }

  lemma TailStops(s: string, i: nat, argv: seq<Span>, rs: seq<Redir>) returns (j: nat)
    requires i <= |s| && EndsTerm(Tokens(s, i))
    ensures ExecTail(s, i, argv, rs) == Ok(Wrap(Exec(argv), rs), j) && j <= |s| && Tokens(s, j) == Tokens(s, i)
  {
    hide Redirs, Wrap;
    SeesToken(s, i, "|)&;");
    SkipTokens(s, i);
    NoToken(s, i);
    j := if Tokens(s, i) != [] then Skip(s, i) else GetToken(s, Skip(s, i)).next;
    hide GetToken, Skip, Sees, Tokens;
  }

  // A word and the redirections behind it.
  lemma TailGoesOn(s: string, i: nat, argv: seq<Span>, rs: seq<Redir>, more: seq<Redir>, j: nat)
    requires i <= |s| && Tokens(s, i) != [] && IsWord(Tokens(s, i)[0]) && |argv| + 1 < MAXARGS && j <= |s|
    requires Redirs(s, GetToken(s, i).next) == Ok(more, j)
    ensures ExecTail(s, i, argv, rs) == ExecTail(s, j, argv + [GetToken(s, i).span], rs + more)
  {
    SeesToken(s, i, "|)&;");
    SkipTokens(s, i);
    FirstToken(s, i);
    hide GetToken, Skip, Sees, Tokens, Redirs, Wrap;
  }

  lemma {:induction false} ArgsParse(s: string, i: nat, argv: seq<Span>, rs: seq<Redir>, args: seq<Arg>,
      rest: seq<string>)
    returns (argv': seq<Span>, rs': seq<Redir>, j: nat)
    requires i <= |s| && Tokens(s, i) == ArgTokens(args) + rest && ArgsFit(args) && EndsTerm(rest)
    requires |argv| + |args| < MAXARGS
    ensures ExecTail(s, i, argv, rs) == Ok(Wrap(Exec(argv + argv'), rs + rs'), j) && j <= |s| && Tokens(s, j) == rest
    ensures Texts(s, argv') == Words(args) && RedirsRead(s, rs', Behind(args))
    decreases |args|
  {
    hide GetToken, Skip, Sees, Tokens, Redirs, Text, Wrap, ExecTail, RedirsRead, ArgTokens, RedirectTokens, Words,
        Behind, Texts, ArgsFit, EndsTerm, IsWord, RedirectsFit;
    if args == [] {
      NothingMore(s, argv, rs);
      assert [] + rest == rest;
      j := TailStops(s, i, argv, rs);
      argv', rs' := [], [];
    } else {
      var a := args[0];
      var tail := ArgTokens(args[1..]) + rest;
      ArgsParts(args);
      assert Tokens(s, i) == [a.word] + (RedirectTokens(a.redirects) + tail);
      Rest1(a.word, RedirectTokens(a.redirects) + tail);
      FirstToken(s, i);
      ArgsHead(args[1..], rest);
      var t := GetToken(s, i);
      var more, k := RedirsParse(s, t.next, a.redirects, tail);
      TailGoesOn(s, i, argv, rs, more, k);
      argv', rs', j := ArgsParse(s, k, argv + [t.span], rs + more, args[1..], rest);
      MoreRead(s, t.span, argv', more, a.redirects, rs', Behind(args[1..]));
      Regroup(argv, t.span, argv', rs, more, rs');
      argv', rs' := [t.span] + argv', more + rs';
    }
  }

  lemma ArgsParts(args: seq<Arg>)
    requires args != []
    ensures ArgTokens(args) == [args[0].word] + (RedirectTokens(args[0].redirects) + ArgTokens(args[1..]))
    ensures Words(args) == [args[0].word] + Words(args[1..]) && Behind(args) == args[0].redirects + Behind(args[1..])
    ensures ArgsFit(args) ==> IsWord(args[0].word) && RedirectsFit(args[0].redirects) && ArgsFit(args[1..])
  {}

  lemma NothingMore(s: string, argv: seq<Span>, rs: seq<Redir>)
    ensures argv + [] == argv && rs + [] == rs && Texts(s, []) == [] && RedirsRead(s, [], [])
    ensures ArgTokens([]) == [] && Words([]) == [] && Behind([]) == []
  {}

  lemma MoreRead(s: string, t: Span, argv: seq<Span>, rs: seq<Redir>, ps: seq<Redirect>, rs1: seq<Redir>,
      ps1: seq<Redirect>)
    requires RedirsRead(s, rs, ps) && RedirsRead(s, rs1, ps1)
    ensures Texts(s, [t] + argv) == [Text(s, t)] + Texts(s, argv) && RedirsRead(s, rs + rs1, ps + ps1)
  {
    RedirsReadJoin(s, rs, ps, rs1, ps1);
  }

  lemma Regroup(argv: seq<Span>, t: Span, argv1: seq<Span>, rs: seq<Redir>, more: seq<Redir>, rs1: seq<Redir>)
    ensures argv + [t] + argv1 == argv + ([t] + argv1) && rs + more + rs1 == rs + (more + rs1)
  {}

  lemma ArgsHead(args: seq<Arg>, rest: seq<string>)
    requires ArgsFit(args) && EndsTerm(rest)
    ensures !Heads(ArgTokens(args) + rest, "<>(")
    ensures !Heads(ArgTokens(args) + rest, "<>") && !Heads(ArgTokens(args) + rest, "(")
  {
    if args == [] {
      assert ArgTokens(args) + rest == rest;
    }
  }

  lemma ReadWrap(s: string, c: Cmd, rs: seq<Redir>, ps: seq<Redirect>)
    requires RedirsRead(s, rs, ps)
    ensures Read(s, Wrap(c, rs)) == Wrapped(Read(s, c), ps)
    decreases |rs|
  {
    if rs != [] {
      ReadWrap(s, c, rs[..|rs| - 1], ps[..|ps| - 1]);
    }
  }

  lemma RedirsReadJoin(s: string, rs: seq<Redir>, ps: seq<Redirect>, rs1: seq<Redir>, ps1: seq<Redirect>)
    requires RedirsRead(s, rs, ps) && RedirsRead(s, rs1, ps1)
    ensures RedirsRead(s, rs + rs1, ps + ps1)
  {}

  // The parser's functions, unfolded once.
  lemma LineIs(s: string, i: nat, c: Cmd, j: nat)
    requires i <= |s| && PipeOf(s, i) == Ok(c, j)
    ensures j <= |s| && LineOf(s, i) == LineTail(s, j, c)
  {
    hide PipeOf, LineTail;
  }

  lemma PipeIs(s: string, i: nat, c: Cmd, j: nat)
    requires i <= |s| && ExecOf(s, i) == Ok(c, j)
    ensures j <= |s| && PipeOf(s, i) ==
      if !Sees(s, j, "|") then Ok(c, Skip(s, j))
      else var d := PipeOf(s, GetToken(s, Skip(s, j)).next); if d.Panic? then Panic else Ok(Pipe(c, d.value), d.pos)
  {
    hide ExecOf, Sees, GetToken;
  }

  lemma BlockIs(s: string, i: nat, c: Cmd, j: nat)
    requires i <= |s| && Sees(s, i, "(") && LineOf(s, GetToken(s, Skip(s, i)).next) == Ok(c, j) && j <= |s|
      && Sees(s, j, ")")
    ensures ExecOf(s, i) == var rs := Redirs(s, GetToken(s, Skip(s, j)).next); if rs.Panic? then Panic
      else Ok(Wrap(c, rs.value), rs.pos)
  {
    hide LineOf, Sees, GetToken, Redirs, Wrap, Skip;
  }

  lemma TailIs(s: string, i: nat, c: Cmd)
    requires i <= |s|
    ensures LineTail(s, i, c) ==
      if Sees(s, i, "&") then LineTail(s, GetToken(s, Skip(s, i)).next, Back(c))
      else if !Sees(s, i, ";") then Ok(c, Skip(s, i))
      else var d := LineOf(s, GetToken(s, Skip(s, i)).next); if d.Panic? then Panic else Ok(List(c, d.value), d.pos)
  {
    hide LineOf, Sees, GetToken, Skip;
  }

  lemma SimpleIs(s: string, i: nat, rs: seq<Redir>, j: nat)
    requires i <= |s| && !Sees(s, i, "(") && Redirs(s, Skip(s, i)) == Ok(rs, j)
    ensures j <= |s| && ExecOf(s, i) == ExecTail(s, j, [], rs)
  {
    hide LineOf, Sees, GetToken, Redirs, Wrap, Skip, ExecTail;
  }

  // The next token is this symbol.
  lemma SymbolAt(s: string, i: nat, c: char, rest: seq<string>)
    requires i <= |s| && Tokens(s, i) == [[c]] + rest
    ensures forall toks :: Sees(s, i, toks) <==> c in toks
    ensures var k := GetToken(s, Skip(s, i)).next; i < k <= |s| && Tokens(s, k) == rest
  {
    Rest1([c], rest);
    FirstToken(s, i);
    SkipTokens(s, i);
    forall toks ensures Sees(s, i, toks) <==> c in toks {
      SeesToken(s, i, toks);
    }
  }

  lemma {:induction false} TermParse(s: string, i: nat, t: Term, rest: seq<string>) returns (c: Cmd, j: nat)
    requires i <= |s| && Tokens(s, i) == TermTokens(t) + rest && TermFits(t) && EndsTerm(rest)
    ensures ExecOf(s, i) == Ok(c, j) && j <= |s| && Tokens(s, j) == rest && Read(s, c) == TermMeaning(t)
    decreases t, 0
  {
    hide GetToken, Skip, Sees, Tokens, Redirs, Text, Wrap, ExecTail, LineOf, ExecOf;
    match t
    case Simple(front, args) =>
      c, j := SimpleParse(s, i, front, args, rest);
    case Block(line, ps) =>
      var tail := [")"] + (RedirectTokens(ps) + rest);
      assert Tokens(s, i) == [['(']] + (LineTokens(line) + tail);
      SymbolAt(s, i, '(', LineTokens(line) + tail);
      var d, k := LineParse(s, GetToken(s, Skip(s, i)).next, line, tail);
      SymbolAt(s, k, ')', RedirectTokens(ps) + rest);
      BlockIs(s, i, d, k);
      var rs;
      rs, j := RedirsParse(s, GetToken(s, Skip(s, k)).next, ps, rest);
      c := Wrap(d, rs);
      ReadWrap(s, d, rs, ps);
  }

  lemma SimpleParse(s: string, i: nat, front: seq<Redirect>, args: seq<Arg>, rest: seq<string>) returns (c: Cmd, j: nat)
    requires i <= |s| && Tokens(s, i) == TermTokens(Simple(front, args)) + rest && TermFits(Simple(front, args))
      && EndsTerm(rest)
    ensures ExecOf(s, i) == Ok(c, j) && j <= |s| && Tokens(s, j) == rest
      && Read(s, c) == TermMeaning(Simple(front, args))
  {
    hide GetToken, Skip, Sees, Tokens, Redirs, Text, Wrap, ExecTail, LineOf, ExecOf, Words, Behind, RedirsRead, Texts,
        Wrapped;
    var tail := ArgTokens(args) + rest;
    assert Tokens(s, i) == RedirectTokens(front) + tail;
    ArgsHead(args, rest);
    NoParen(front, tail);
    SeesToken(s, i, "(");
    SkipBound(s, i);
    SkipTokens(s, i);
    var rs, k := RedirsParse(s, Skip(s, i), front, tail);
    SimpleIs(s, i, rs, k);
    var argv, more;
    argv, more, j := ArgsParse(s, k, [], rs, args, rest);
    assert [] + argv == argv;
    c := Wrap(Exec(argv), rs + more);
    RedirsReadJoin(s, rs, front, more, Behind(args));
    ReadWrap(s, Exec(argv), rs + more, front + Behind(args));
  }

  lemma NoParen(front: seq<Redirect>, tail: seq<string>)
    requires !Heads(tail, "(")
    ensures !Heads(RedirectTokens(front) + tail, "(")
  {
    if front == [] {
      assert RedirectTokens(front) + tail == tail;
    }
  }

  lemma {:induction false} PipelineParse(s: string, i: nat, p: Pipeline, rest: seq<string>) returns (c: Cmd, j: nat)
    requires i <= |s| && Tokens(s, i) == PipelineTokens(p) + rest && PipelineFits(p) && EndsPipeline(rest)
    ensures PipeOf(s, i) == Ok(c, j) && j <= |s| && Tokens(s, j) == rest && Read(s, c) == PipelineMeaning(p)
    decreases p, 0
  {
    hide GetToken, Skip, Sees, Tokens, Text, ExecOf, PipeOf, TermTokens, TermMeaning, TermFits;
    match p
    case One(t) =>
      var k;
      c, k := TermParse(s, i, t, rest);
      PipeIs(s, i, c, k);
      SeesToken(s, k, "|");
      SkipTokens(s, k);
      SkipBound(s, k);
      j := Skip(s, k);
    case Piped(t, p1) =>
      var tail := PipelineTokens(p1) + rest;
      assert Tokens(s, i) == TermTokens(t) + (["|"] + tail);
      var c1, k := TermParse(s, i, t, ["|"] + tail);
      PipeIs(s, i, c1, k);
      SymbolAt(s, k, '|', tail);
      var c2;
      c2, j := PipelineParse(s, GetToken(s, Skip(s, k)).next, p1, rest);
      c := Pipe(c1, c2);
  }

  // What is behind the first pipeline of l, with n times & to come.
  function TailTokens(l: Line, n: nat): seq<string> {
    Amps(n) + if l.rest.Some? then [";"] + LineTokens(l.rest.value) else []
  }

  function TailMeaning(l: Line, t: Tree, n: nat): Tree {
    if l.rest.Some? then TList(Backs(t, n), LineMeaning(l.rest.value)) else Backs(t, n)
  }

  lemma {:induction false} TailParse(s: string, i: nat, l: Line, c: Cmd, n: nat, rest: seq<string>)
    returns (d: Cmd, j: nat)
    requires i <= |s| && Tokens(s, i) == TailTokens(l, n) + rest && LineFits(l) && EndsLine(rest)
    ensures LineTail(s, i, c) == Ok(d, j) && j <= |s| && Tokens(s, j) == rest
      && Read(s, d) == TailMeaning(l, Read(s, c), n)
    decreases l, n
  {
    hide GetToken, Skip, Sees, Tokens, Text, LineOf, PipelineTokens, LineTail;
    TailIs(s, i, c);
    if n > 0 {
      var tail := TailTokens(l, n - 1) + rest;
      assert Tokens(s, i) == [['&']] + tail;
      SymbolAt(s, i, '&', tail);
      d, j := TailParse(s, GetToken(s, Skip(s, i)).next, l, Back(c), n - 1, rest);
    } else if l.rest.Some? {
      var tail := LineTokens(l.rest.value) + rest;
      assert Tokens(s, i) == [[';']] + tail;
      SymbolAt(s, i, ';', tail);
      var e;
      e, j := LineParse(s, GetToken(s, Skip(s, i)).next, l.rest.value, rest);
      d := List(c, e);
    } else {
      assert [] + rest == rest;
      SeesToken(s, i, "&");
      SeesToken(s, i, ";");
      SkipTokens(s, i);
      SkipBound(s, i);
      d, j := c, Skip(s, i);
    }
  }

  // A sentence that the line or a closing parenthesis ends.
  lemma {:induction false} LineParse(s: string, i: nat, l: Line, rest: seq<string>) returns (c: Cmd, j: nat)
    requires i <= |s| && Tokens(s, i) == LineTokens(l) + rest && LineFits(l) && EndsLine(rest)
    ensures LineOf(s, i) == Ok(c, j) && j <= |s| && Tokens(s, j) == rest && Read(s, c) == LineMeaning(l)
    decreases l, l.amps + 1
  {
    hide GetToken, Skip, Sees, Tokens, Text, LineOf, PipelineTokens, LineTail;
    var tail := TailTokens(l, l.amps) + rest;
    assert Tokens(s, i) == PipelineTokens(l.pipeline) + tail;
    TailHead(l, l.amps, rest);
    var d, k := PipelineParse(s, i, l.pipeline, tail);
    LineIs(s, i, d, k);
    c, j := TailParse(s, k, l, d, l.amps, rest);
  }

  lemma TailHead(l: Line, n: nat, rest: seq<string>)
    requires EndsLine(rest)
    ensures EndsPipeline(TailTokens(l, n) + rest)
  {
    if n == 0 && l.rest.None? {
      assert TailTokens(l, n) + rest == rest;
    }
  }

  // Whatever the space between them, the tokens of a sentence are parsed to the command that it means.
  lemma SentenceParses(s: string, l: Line)
    requires Tokens(s, 0) == LineTokens(l) && LineFits(l)
    ensures Parse(s).Ok? && Read(s, Parse(s).value) == LineMeaning(l)
  {
    hide Tokens, Skip, LineOf, LineTokens;
    assert LineTokens(l) + [] == LineTokens(l);
    var c, j := LineParse(s, 0, l, []);
    NoToken(s, j);
  }
}

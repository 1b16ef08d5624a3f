// The other direction: what the parser takes is a sentence. So a line is either a sentence, and parsed to what it
// means, or a panic.
module ShellSentences {
  import opened Basics
  import opened ShellGrammar
  import opened ShellSyntax
  import opened ShellRoundTrip

  lemma {:induction false} RedirsSound(s: string, i: nat) returns (ps: seq<Redirect>)
    requires i <= |s| && Redirs(s, i).Ok?
    ensures Tokens(s, i) == RedirectTokens(ps) + Tokens(s, Redirs(s, i).pos)
    ensures RedirectsFit(ps) && RedirsRead(s, Redirs(s, i).value, ps)
    decreases |s| - i
  {
    hide GetToken, Skip, Sees, Tokens, Redirs, Text;
    SeesToken(s, i, "<>");
    SkipTokens(s, i);
    if !Sees(s, i, "<>") {
      RedirsNil(s, i);
      ps := [];
      assert [] + Tokens(s, i) == Tokens(s, i);
    } else {
      FileThere(s, i);
      var t := GetToken(s, i);
      var f := GetToken(s, t.next);
      RedirsCons(s, i, Redirs(s, f.next));
      SignThere(s, i);
      WordFirst(s, t.next);
      hide Sign, ModeOf, IsWord;
      var more := RedirsSound(s, f.next);
      ps := [Redirect(ModeOf(t.kind), Text(s, f.span))] + more;
      assert ps[1..] == more;
      assert Tokens(s, i) == [Sign(ModeOf(t.kind))] + ([Text(s, f.span)] + Tokens(s, f.next));
    }
  }

  lemma SignThere(s: string, i: nat)
    requires i <= |s| && Sees(s, i, "<>")
    ensures var t := GetToken(s, i);
      i < t.next <= |s| && Tokens(s, i) == [Sign(ModeOf(t.kind))] + Tokens(s, t.next)
  {
    hide GetToken, Skip, Sees, Tokens, Text;
    SeesToken(s, i, "<>");
    FirstToken(s, i);
    SignOf(Tokens(s, i)[0]);
    assert Tokens(s, i) == [Tokens(s, i)[0]] + Tokens(s, i)[1..];
  }

  lemma SignOf(w: string)
    requires w != [] && IsToken(w) && (w[0] == '<' || w[0] == '>')
    ensures Sign(ModeOf(KindOf(w))) == w
  {
    assert IsSymbol(w[0]);
    assert |w| == 1 ==> w == [w[0]];
  }

  lemma FileThere(s: string, i: nat)
    requires i <= |s| && Redirs(s, i).Ok? && Sees(s, i, "<>")
    ensures GetToken(s, GetToken(s, Skip(s, i)).next).kind.Word?
      && Redirs(s, GetToken(s, GetToken(s, Skip(s, i)).next).next).Ok?
  {
    hide GetToken, Skip, Sees;
  }

  // What the next turn of parseexec's loop has found, if it is not the last.
  lemma TailTurn(s: string, i: nat, argv: seq<Span>, rs: seq<Redir>)
    requires i <= |s| && ExecTail(s, i, argv, rs).Ok? && !EndsTerm(Tokens(s, i))
    ensures var t := GetToken(s, i);
      && t.kind.Word? && |argv| + 1 < MAXARGS && i < t.next && Redirs(s, t.next).Ok?
      && ExecTail(s, i, argv, rs) == ExecTail(s, Redirs(s, t.next).pos, argv + [t.span], rs + Redirs(s, t.next).value)
  {
    SeesToken(s, i, "|)&;");
    SkipTokens(s, i);
    NoToken(s, i);
    hide GetToken, Skip, Sees, Tokens, Redirs, Wrap;
  }

  lemma {:induction false} ArgsSound(s: string, i: nat, argv: seq<Span>, rs: seq<Redir>)
    returns (args: seq<Arg>, argv': seq<Span>, rs': seq<Redir>)
    requires i <= |s| && ExecTail(s, i, argv, rs).Ok? && |argv| < MAXARGS
    ensures ExecTail(s, i, argv, rs).value == Wrap(Exec(argv + argv'), rs + rs')
    ensures Tokens(s, i) == ArgTokens(args) + Tokens(s, ExecTail(s, i, argv, rs).pos)
    ensures ArgsFit(args) && |argv| + |args| < MAXARGS
    ensures Texts(s, argv') == Words(args) && RedirsRead(s, rs', Behind(args))
    decreases |s| - i
  {
    hide GetToken, Skip, Sees, Tokens, Redirs, Text, Wrap, ExecTail, RedirsRead, EndsTerm;
    if EndsTerm(Tokens(s, i)) {
      var j := TailStops(s, i, argv, rs);
      args, argv', rs' := [], [], [];
      NothingMore(s, argv, rs);
      assert [] + Tokens(s, i) == Tokens(s, i);
    } else {
      TailTurn(s, i, argv, rs);
      WordFirst(s, i);
      var t := GetToken(s, i);
      var more := Redirs(s, t.next);
      var ps := RedirsSound(s, t.next);
      var rest := Tokens(s, ExecTail(s, i, argv, rs).pos);
      args, argv', rs' := ArgsSound(s, more.pos, argv + [t.span], rs + more.value);
      MoreRead(s, t.span, argv', more.value, ps, rs', Behind(args));
      Regroup(argv, t.span, argv', rs, more.value, rs');
      ArgsCons(Arg(Text(s, t.span), ps), args, rest);
      hide ArgTokens, RedirectTokens, Words, Behind, Texts, RedirectsFit, IsWord;
      args, argv', rs' := [Arg(Text(s, t.span), ps)] + args, [t.span] + argv', more.value + rs';
    }
  }

  lemma WordFirst(s: string, i: nat)
    requires i <= |s| && GetToken(s, i).kind.Word?
    ensures var t := GetToken(s, i);
      Tokens(s, i) == [Text(s, t.span)] + Tokens(s, t.next) && IsWord(Text(s, t.span))
  {
    NoToken(s, i);
    FirstToken(s, i);
    hide GetToken, Tokens, Text;
    assert Tokens(s, i) == [Tokens(s, i)[0]] + Tokens(s, i)[1..];
  }

  lemma ArgsCons(a: Arg, args: seq<Arg>, rest: seq<string>)
    ensures ArgTokens([a] + args) + rest == [a.word] + (RedirectTokens(a.redirects) + (ArgTokens(args) + rest))
    ensures Words([a] + args) == [a.word] + Words(args) && Behind([a] + args) == a.redirects + Behind(args)
  {
    hide RedirectTokens, ArgTokens, Words, Behind;
    var all := [a] + args;
    assert all[0] == a && all[1..] == args;
    ArgsParts(all);
    Regroup3([a.word], RedirectTokens(a.redirects), ArgTokens(args), rest);
  }

  lemma Regroup3(a: seq<string>, b: seq<string>, c: seq<string>, d: seq<string>)
    ensures a + (b + c) + d == a + (b + (c + d))
  {}

  // A symbol that the parser has seen and takes.
  lemma SymbolTaken(s: string, i: nat, c: char)
    requires i <= |s| && Sees(s, i, [c]) && IsSymbol(c) && c != '<' && c != '>'
    ensures var k := GetToken(s, Skip(s, i)).next; i < k <= |s| && Tokens(s, i) == [[c]] + Tokens(s, k)
  {
    hide GetToken, Skip, Tokens, Sees, Text;
    SeesToken(s, i, [c]);
    FirstToken(s, i);
    SkipTokens(s, i);
    assert Tokens(s, i)[0] == [c];
  }

  lemma {:induction false} TermSound(s: string, i: nat) returns (t: Term)
    requires i <= |s| && ExecOf(s, i).Ok?
    ensures Tokens(s, i) == TermTokens(t) + Tokens(s, ExecOf(s, i).pos)
    ensures TermFits(t) && Read(s, ExecOf(s, i).value) == TermMeaning(t)
    decreases |s| - i, 1
  {
    hide GetToken, Skip, Sees, Tokens, Redirs, Text, Wrap, ExecTail, LineOf, ExecOf;
    if Sees(s, i, "(") {
      SymbolTaken(s, i, '(');
      BlockParts(s, i);
      var k := GetToken(s, Skip(s, i)).next;
      var c := LineOf(s, k);
      var line := LineSound(s, k);
      SymbolTaken(s, c.pos, ')');
      var m := GetToken(s, Skip(s, c.pos)).next;
      BlockIs(s, i, c.value, c.pos);
      var ps := RedirsSound(s, m);
      t := Block(line, ps);
      ReadWrap(s, c.value, Redirs(s, m).value, ps);
      var rest := Tokens(s, ExecOf(s, i).pos);
      assert TermTokens(t) + rest == ["("] + (LineTokens(line) + ([")"] + (RedirectTokens(ps) + rest)));
    } else {
      t := SimpleSound(s, i);
    }
  }

  lemma BlockParts(s: string, i: nat)
    requires i <= |s| && ExecOf(s, i).Ok? && Sees(s, i, "(")
    ensures var c := LineOf(s, GetToken(s, Skip(s, i)).next);
      c.Ok? && Sees(s, c.pos, ")") && Redirs(s, GetToken(s, Skip(s, c.pos)).next).Ok?
  {
    hide GetToken, Skip, Sees, Redirs, Wrap, LineOf;
  }

  lemma SimpleSound(s: string, i: nat) returns (t: Term)
    requires i <= |s| && ExecOf(s, i).Ok? && !Sees(s, i, "(")
    ensures Tokens(s, i) == TermTokens(t) + Tokens(s, ExecOf(s, i).pos)
    ensures TermFits(t) && Read(s, ExecOf(s, i).value) == TermMeaning(t)
  {
    hide GetToken, Skip, Sees, Tokens, Redirs, Text, Wrap, ExecTail, LineOf, Words, Behind, RedirsRead, Texts, Wrapped;
    SkipBound(s, i);
    SkipTokens(s, i);
    var rs := Redirs(s, Skip(s, i));
    assert rs.Ok?;
    SimpleIs(s, i, rs.value, rs.pos);
    hide ExecOf;
    var front := RedirsSound(s, Skip(s, i));
    var args, argv, more := ArgsSound(s, rs.pos, [], rs.value);
    t := Simple(front, args);
    assert [] + argv == argv;
    RedirsReadJoin(s, rs.value, front, more, Behind(args));
    ReadWrap(s, Exec(argv), rs.value + more, front + Behind(args));
    var rest := Tokens(s, ExecOf(s, i).pos);
    assert RedirectTokens(front) + (ArgTokens(args) + rest) == TermTokens(t) + rest;
  }

  lemma {:induction false} PipelineSound(s: string, i: nat) returns (p: Pipeline)
    requires i <= |s| && PipeOf(s, i).Ok?
    ensures Tokens(s, i) == PipelineTokens(p) + Tokens(s, PipeOf(s, i).pos)
    ensures PipelineFits(p) && Read(s, PipeOf(s, i).value) == PipelineMeaning(p)
    decreases |s| - i, 2
  {
    hide GetToken, Skip, Sees, Tokens, Text, ExecOf, TermTokens, TermMeaning, TermFits;
    var c := ExecOf(s, i);
    assert c.Ok?;
    PipeIs(s, i, c.value, c.pos);
    hide PipeOf;
    var t := TermSound(s, i);
    if Sees(s, c.pos, "|") {
      SymbolTaken(s, c.pos, '|');
      var p1 := PipelineSound(s, GetToken(s, Skip(s, c.pos)).next);
      p := Piped(t, p1);
      var rest := Tokens(s, PipeOf(s, i).pos);
      assert PipelineTokens(p) + rest == TermTokens(t) + (["|"] + (PipelineTokens(p1) + rest));
    } else {
      SkipTokens(s, c.pos);
      p := One(t);
    }
  }

  lemma {:induction false} TailSound(s: string, i: nat, c: Cmd, p: Pipeline) returns (l: Line)
    requires i <= |s| && LineTail(s, i, c).Ok? && PipelineFits(p)
    ensures l.pipeline == p && LineFits(l)
    ensures Tokens(s, i) == TailTokens(l, l.amps) + Tokens(s, LineTail(s, i, c).pos)
    ensures Read(s, LineTail(s, i, c).value) == TailMeaning(l, Read(s, c), l.amps)
    decreases |s| - i, 0
  {
    hide GetToken, Skip, Sees, Tokens, Text, LineOf, PipelineTokens, LineTail;
    TailIs(s, i, c);
    var rest := Tokens(s, LineTail(s, i, c).pos);
    if Sees(s, i, "&") {
      SymbolTaken(s, i, '&');
      var l1 := TailSound(s, GetToken(s, Skip(s, i)).next, Back(c), p);
      l := l1.(amps := l1.amps + 1);
      assert TailTokens(l, l1.amps) == TailTokens(l1, l1.amps);
      assert TailTokens(l, l.amps) + rest == ["&"] + (TailTokens(l1, l1.amps) + rest);
    } else if Sees(s, i, ";") {
      SymbolTaken(s, i, ';');
      var l1 := LineSound(s, GetToken(s, Skip(s, i)).next);
      l := Line(p, 0, Some(l1));
      assert TailTokens(l, 0) + rest == [";"] + (LineTokens(l1) + rest);
    } else {
      SkipTokens(s, i);
      l := Line(p, 0, None);
      assert TailTokens(l, 0) + rest == rest;
    }
  }

  lemma {:induction false} LineSound(s: string, i: nat) returns (l: Line)
    requires i <= |s| && LineOf(s, i).Ok?
    ensures Tokens(s, i) == LineTokens(l) + Tokens(s, LineOf(s, i).pos)
    ensures LineFits(l) && Read(s, LineOf(s, i).value) == LineMeaning(l)
    decreases |s| - i, 3
  {
    hide GetToken, Skip, Sees, Tokens, Text, PipelineTokens, LineTail, PipeOf;
    var c := PipeOf(s, i);
    assert c.Ok?;
    LineIs(s, i, c.value, c.pos);
    hide LineOf;
    var p := PipelineSound(s, i);
    l := TailSound(s, c.pos, c.value, p);
    LineParts(l);
    hide LineTokens, TailTokens, LineMeaning, TailMeaning;
    var rest := Tokens(s, LineOf(s, i).pos);
    assert LineTokens(l) + rest == PipelineTokens(p) + (TailTokens(l, l.amps) + rest);
  }

  lemma LineParts(l: Line)
    ensures LineTokens(l) == PipelineTokens(l.pipeline) + TailTokens(l, l.amps)
    ensures LineMeaning(l) == TailMeaning(l, PipelineMeaning(l.pipeline), l.amps)
  {}

  // The line s is the sentence l, with space between the tokens as it likes.
  ghost predicate Spells(s: string, l: Line) {
    LineFits(l) && LineTokens(l) == Tokens(s, 0)
  }

  // The parser takes exactly the sentences; all other lines make it panic.
  lemma ParsesIff(s: string)
    ensures Parse(s).Ok? <==> exists l :: Spells(s, l)
  {
    if Parse(s).Ok? {
      var l := LineSound(s, 0);
      NoToken(s, LineOf(s, 0).pos);
      hide Tokens, Skip, LineOf, LineTokens;
      assert LineTokens(l) + [] == LineTokens(l);
      assert Spells(s, l);
    } else if l :| Spells(s, l) {
      SentenceParses(s, l);
    }
  }

  // ----- what that says of some lines

  lemma TailFull(s: string, i: nat, argv: seq<Span>, rs: seq<Redir>)
    requires i <= |s| && Tokens(s, i) != [] && IsWord(Tokens(s, i)[0]) && |argv| + 1 >= MAXARGS
    ensures ExecTail(s, i, argv, rs).Panic?
  {
    SeesToken(s, i, "|)&;");
    SkipTokens(s, i);
    FirstToken(s, i);
    hide GetToken, Skip, Sees, Tokens, Redirs, Wrap;
  }

  lemma {:induction false} ArgsPanic(s: string, i: nat, argv: seq<Span>, rs: seq<Redir>, args: seq<Arg>)
    requires i <= |s| && Tokens(s, i) == ArgTokens(args) && ArgsFit(args)
    requires |argv| < MAXARGS <= |argv| + |args|
    ensures ExecTail(s, i, argv, rs).Panic?
    decreases |args|
  {
    hide GetToken, Skip, Sees, Tokens, Redirs, Text, Wrap, ExecTail, RedirsRead;
    ArgsParts(args);
    var a, tail := args[0], ArgTokens(args[1..]);
    Rest1(a.word, RedirectTokens(a.redirects) + tail);
    if |argv| + 1 >= MAXARGS {
      TailFull(s, i, argv, rs);
    } else {
      FirstToken(s, i);
      ArgsHead(args[1..], []);
      assert tail + [] == tail;
      var t := GetToken(s, i);
      var more, k := RedirsParse(s, t.next, a.redirects, tail);
      TailGoesOn(s, i, argv, rs, more, k);
      ArgsPanic(s, k, argv + [t.span], rs + more, args[1..]);
    }
  }

  // A simple command, with redirections wherever they stand, is taken if it has at most nine arguments.
  lemma SimpleIff(s: string, front: seq<Redirect>, args: seq<Arg>)
    requires Tokens(s, 0) == RedirectTokens(front) + ArgTokens(args) && RedirectsFit(front) && ArgsFit(args)
    ensures Parse(s).Ok? <==> |args| < MAXARGS
    ensures Parse(s).Ok? ==> Read(s, Parse(s).value) == Wrapped(TExec(Words(args)), front + Behind(args))
  {
    if |args| < MAXARGS {
      OneLine(Simple(front, args));
      assert TermTokens(Simple(front, args)) == RedirectTokens(front) + ArgTokens(args);
      assert TermMeaning(Simple(front, args)) == Wrapped(TExec(Words(args)), front + Behind(args));
      hide Tokens, Parse, Read, LineTokens, LineMeaning;
      SentenceParses(s, Line(One(Simple(front, args)), 0, None));
    } else {
      hide Tokens, Parse, Read, RedirectTokens, ArgTokens;
      SimplePanics(s, front, args);
    }
  }

  lemma OneLine(t: Term)
    ensures var l := Line(One(t), 0, None);
      LineTokens(l) == TermTokens(t) && LineMeaning(l) == TermMeaning(t) && (TermFits(t) ==> LineFits(l))
  {
    hide TermTokens, TermMeaning, TermFits;
    assert TermTokens(t) + [] + [] == TermTokens(t);
  }

  lemma ExecPanics(s: string)
    requires ExecOf(s, 0).Panic?
    ensures Parse(s).Panic?
  {
    hide ExecOf, LineTail, Skip, Sees, GetToken;
    assert PipeOf(s, 0).Panic?;
    assert LineOf(s, 0).Panic?;
  }

  lemma SimplePanics(s: string, front: seq<Redirect>, args: seq<Arg>)
    requires Tokens(s, 0) == RedirectTokens(front) + ArgTokens(args) && RedirectsFit(front) && ArgsFit(args)
    requires |args| >= MAXARGS
    ensures Parse(s).Panic?
  {
    hide GetToken, Skip, Sees, Tokens, Redirs, Text, Wrap, ExecTail, RedirsRead, Parse, ExecOf;
    var tail := ArgTokens(args);
    ArgsHead(args, []);
    assert tail + [] == tail;
    NoParen(front, tail);
    SeesToken(s, 0, "(");
    SkipBound(s, 0);
    SkipTokens(s, 0);
    var rs, k := RedirsParse(s, Skip(s, 0), front, tail);
    SimpleIs(s, 0, rs, k);
    ArgsPanic(s, k, [], rs, args);
    hide ExecOf, Parse, ArgTokens, RedirectTokens;
    ExecPanics(s);
  }

  // A command of these words alone.
  function Plain(words: seq<string>): Term {
    Simple([], seq(|words|, i requires 0 <= i < |words| => Arg(words[i], [])))
  }

  lemma {:induction false} PlainIs(words: seq<string>)
    requires |words| < MAXARGS && forall k :: 0 <= k < |words| ==> IsWord(words[k])
    ensures TermTokens(Plain(words)) == words && TermFits(Plain(words)) && TermMeaning(Plain(words)) == TExec(words)
    decreases |words|
  {
    PlainArgs(words);
  }

  lemma {:induction false} PlainArgs(words: seq<string>)
    ensures ArgTokens(Plain(words).args) == words && Words(Plain(words).args) == words
    ensures Behind(Plain(words).args) == []
  {
    if words != [] {
      PlainArgs(words[1..]);
      assert Plain(words).args[1..] == Plain(words[1..]).args;
      ArgsParts(Plain(words).args);
      assert RedirectTokens([]) == [];
    }
  }

  predicate AllWords(words: seq<string>) {
    |words| < MAXARGS && forall k :: 0 <= k < |words| ==> IsWord(words[k])
  }

  // Pipes associate to the right.
  lemma PipeChain(s: string, a: seq<string>, b: seq<string>, c: seq<string>)
    requires AllWords(a) && AllWords(b) && AllWords(c) && Tokens(s, 0) == a + ["|"] + (b + ["|"] + c)
    ensures Parse(s).Ok? && Read(s, Parse(s).value) == TPipe(TExec(a), TPipe(TExec(b), TExec(c)))
  {
    PlainIs(a);
    PlainIs(b);
    PlainIs(c);
    var x, y, z := Plain(a), Plain(b), Plain(c);
    hide Plain, TermTokens, TermMeaning, TermFits, Tokens, Read, Parse, LineTokens, LineMeaning, LineFits,
        PipelineTokens, PipelineMeaning, PipelineFits;
    PipeParts(y, One(z));
    PipeParts(z, One(z));
    PipeParts(x, Piped(y, One(z)));
    LineIsJoin(Piped(x, Piped(y, One(z))), 0, None);
    SentenceParses(s, Line(Piped(x, Piped(y, One(z))), 0, None));
  }

  // So do lists.
  lemma ListChain(s: string, a: seq<string>, b: seq<string>, c: seq<string>)
    requires AllWords(a) && AllWords(b) && AllWords(c) && Tokens(s, 0) == a + ([";"] + (b + ([";"] + c)))
    ensures Parse(s).Ok? && Read(s, Parse(s).value) == TList(TExec(a), TList(TExec(b), TExec(c)))
  {
    PlainIs(a);
    PlainIs(b);
    PlainIs(c);
    var x, y, z := Plain(a), Plain(b), Plain(c);
    hide Plain, TermTokens, TermMeaning, TermFits, Tokens, Read, Parse, LineTokens, LineMeaning, LineFits,
        PipelineTokens, PipelineMeaning, PipelineFits;
    PipeParts(x, One(x));
    PipeParts(y, One(y));
    OneLine(z);
    var l := Line(One(y), 0, Some(Line(One(z), 0, None)));
    LineIsJoin(One(y), 0, Some(Line(One(z), 0, None)));
    LineIsJoin(One(x), 0, Some(l));
    SentenceParses(s, Line(One(x), 0, Some(l)));
  }

  // & takes the whole pipeline before it, and not what the ; behind it goes on with.
  lemma BackChain(s: string, a: seq<string>, b: seq<string>, c: seq<string>)
    requires AllWords(a) && AllWords(b) && AllWords(c)
    requires Tokens(s, 0) == a + ["|"] + b + (["&"] + ([";"] + c))
    ensures Parse(s).Ok? && Read(s, Parse(s).value) == TList(TBack(TPipe(TExec(a), TExec(b))), TExec(c))
  {
    PlainIs(a);
    PlainIs(b);
    PlainIs(c);
    var x, y, z := Plain(a), Plain(b), Plain(c);
    hide Plain, TermTokens, TermMeaning, TermFits, Tokens, Read, Parse, LineTokens, LineMeaning, LineFits,
        PipelineTokens, PipelineMeaning, PipelineFits;
    PipeParts(y, One(y));
    PipeParts(x, One(y));
    OneLine(z);
    NoAmps([]);
    LineIsJoin(Piped(x, One(y)), 1, Some(Line(One(z), 0, None)));
    SentenceParses(s, Line(Piped(x, One(y)), 1, Some(Line(One(z), 0, None))));
  }

  lemma PipeParts(t: Term, p: Pipeline)
    ensures PipelineTokens(Piped(t, p)) == TermTokens(t) + ["|"] + PipelineTokens(p)
    ensures PipelineMeaning(Piped(t, p)) == TPipe(TermMeaning(t), PipelineMeaning(p))
    ensures PipelineTokens(One(t)) == TermTokens(t) && PipelineMeaning(One(t)) == TermMeaning(t)
    ensures TermFits(t) ==> PipelineFits(One(t)) && (PipelineFits(p) ==> PipelineFits(Piped(t, p)))
  {}

  lemma LineIsJoin(p: Pipeline, n: nat, rest: Option<Line>)
    ensures LineTokens(Line(p, n, rest)) ==
      PipelineTokens(p) + (Amps(n) + if rest.Some? then [";"] + LineTokens(rest.value) else [])
    ensures rest.None? && n == 0 ==> LineTokens(Line(p, n, rest)) == PipelineTokens(p)
    ensures rest.Some? && n == 0 ==>
      LineTokens(Line(p, n, rest)) == PipelineTokens(p) + ([";"] + LineTokens(rest.value))
    ensures LineMeaning(Line(p, n, rest)) == var t := Backs(PipelineMeaning(p), n);
      if rest.Some? then TList(t, LineMeaning(rest.value)) else t
    ensures PipelineFits(p) && (rest.Some? ==> LineFits(rest.value)) ==> LineFits(Line(p, n, rest))
  {
    LineParts(Line(p, n, rest));
    NoAmps(PipelineTokens(p));
    hide PipelineTokens, PipelineMeaning, PipelineFits, Amps;
  }

  lemma NoAmps(ts: seq<string>)
    ensures Amps(0) == [] && ts + [] == ts && Amps(1) == ["&"] && forall us: seq<string> :: [] + us == us
  {}

  // ----- nothing but &, ; and ) can follow &

  predicate PairOk(a: string, b: string) {
    a == "&" ==> b == "&" || b == ";" || b == ")"
  }

  predicate PairsOk(ts: seq<string>) {
    forall k :: 0 < k < |ts| ==> PairOk(ts[k - 1], ts[k])
  }

  predicate LastOk(ts: seq<string>) {
    ts != [] ==> ts[|ts| - 1] != "&"
  }

  lemma JoinOk(a: seq<string>, b: seq<string>)
    requires PairsOk(a) && PairsOk(b) && LastOk(a)
    ensures PairsOk(a + b) && (LastOk(b) ==> LastOk(a + b))
  {}

  lemma WordNotAmp(w: string)
    requires IsWord(w)
    ensures w != "&"
  {
    assert !IsSymbol(w[0]);
  }

  lemma {:induction false} RedirectsOk(rs: seq<Redirect>)
    requires RedirectsFit(rs)
    ensures PairsOk(RedirectTokens(rs)) && LastOk(RedirectTokens(rs))
    decreases |rs|
  {
    if rs != [] {
      RedirectsOk(rs[1..]);
      WordNotAmp(rs[0].file);
      JoinOk([Sign(rs[0].mode), rs[0].file], RedirectTokens(rs[1..]));
    }
  }

  lemma {:induction false} ArgsOk(args: seq<Arg>)
    requires ArgsFit(args)
    ensures PairsOk(ArgTokens(args)) && LastOk(ArgTokens(args))
    decreases |args|
  {
    if args != [] {
      ArgsOk(args[1..]);
      ArgsParts(args);
      WordNotAmp(args[0].word);
      RedirectsOk(args[0].redirects);
      JoinOk(RedirectTokens(args[0].redirects), ArgTokens(args[1..]));
      JoinOk([args[0].word], RedirectTokens(args[0].redirects) + ArgTokens(args[1..]));
    }
  }

  lemma {:induction false} TermOk(t: Term)
    requires TermFits(t)
    ensures PairsOk(TermTokens(t)) && LastOk(TermTokens(t))
    decreases t
  {
    match t
    case Simple(front, args) =>
      RedirectsOk(front);
      ArgsOk(args);
      JoinOk(RedirectTokens(front), ArgTokens(args));
    case Block(line, rs) =>
      LineOk(line);
      RedirectsOk(rs);
      hide LineTokens;
      JoinOk(["("], LineTokens(line));
      assert PairsOk(["("] + LineTokens(line) + [")"]);
      JoinOk(["("] + LineTokens(line) + [")"], RedirectTokens(rs));
  }

  lemma {:induction false} PipelineOk(p: Pipeline)
    requires PipelineFits(p)
    ensures PairsOk(PipelineTokens(p)) && LastOk(PipelineTokens(p))
    decreases p
  {
    TermOk(p.term);
    if p.Piped? {
      PipelineOk(p.rest);
      JoinOk(TermTokens(p.term), ["|"]);
      JoinOk(TermTokens(p.term) + ["|"], PipelineTokens(p.rest));
    }
  }

  lemma {:induction false} AmpsOk(n: nat)
    ensures |Amps(n)| == n && forall k :: 0 <= k < n ==> Amps(n)[k] == "&"
  {
    if n > 0 {
      AmpsOk(n - 1);
    }
  }

  lemma {:induction false} LineOk(l: Line)
    requires LineFits(l)
    ensures PairsOk(LineTokens(l))
    decreases l
  {
    PipelineOk(l.pipeline);
    AmpsOk(l.amps);
    JoinOk(PipelineTokens(l.pipeline), Amps(l.amps));
    if l.rest.Some? {
      LineOk(l.rest.value);
      JoinOk([";"], LineTokens(l.rest.value));
      assert PairsOk(PipelineTokens(l.pipeline) + Amps(l.amps) + ([";"] + LineTokens(l.rest.value)));
    }
  }

  // So a & b makes the parser panic, and only a & ; b does what one might mean by it.
  lemma BackThenCommand(s: string, k: nat)
    requires 0 < k < |Tokens(s, 0)| && !PairOk(Tokens(s, 0)[k - 1], Tokens(s, 0)[k])
    ensures Parse(s).Panic?
  {
    ParsesIff(s);
    if Parse(s).Ok? {
      var l :| Spells(s, l);
      LineOk(l);
    }
  }
}

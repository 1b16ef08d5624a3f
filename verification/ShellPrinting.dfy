// Every command can be written down: printing it as a sentence and parsing that gives it back.
module ShellPrinting {
  import opened Basics
  import opened ShellGrammar
  import opened ShellSyntax
  import opened ShellRoundTrip
  import opened ShellSentences

  // ----- from tokens to a line and back

  function Spaced(ts: seq<string>): string {
    if ts == [] then [] else " " + ts[0] + Spaced(ts[1..])
  }

  predicate AllTokens(ts: seq<string>) {
    forall k :: 0 <= k < |ts| ==> IsToken(ts[k])
  }

  // w is in s at i, with space or the end behind it.
  predicate Stands(s: string, i: nat, w: string) {
    && i + |w| <= |s| && s[i..i + |w|] == w && w != []
    && (i + |w| < |s| ==> IsSpace(s[i + |w|]))
  }

  lemma {:induction false} WordAt(s: string, i: nat, j: nat)
    requires i <= j <= |s| && (j < |s| ==> IsSpace(s[j]))
    requires forall k :: i <= k < j ==> !IsSpace(s[k]) && !IsSymbol(s[k])
    ensures WordEnd(s, i) == j
    decreases j - i
  {
    hide IsSpace, IsSymbol;
    if i < j {
      WordAt(s, i + 1, j);
    }
  }

  lemma TokenAt(s: string, i: nat, w: string)
    requires Stands(s, i, w) && IsToken(w)
    ensures !IsSpace(s[i])
    ensures var t := GetToken(s, i); !t.kind.End? && Text(s, t.span) == w && t.next == Skip(s, i + |w|)
  {
    assert s[i] == w[0] && (|w| > 1 ==> s[i + 1] == w[1]);
    if IsWord(w) {
      assert !IsSpace(w[0]) && !IsSymbol(w[0]);
      WordChars(s, i, w);
      WordAt(s, i, i + |w|);
    }
    assert Skip(s, i) == i;
    hide Skip, WordEnd;
    assert GetToken(s, i).span == Span(i, i + |w|);
  }

  lemma WordChars(s: string, i: nat, w: string)
    requires Stands(s, i, w) && IsWord(w)
    ensures forall k :: i <= k < i + |w| ==> !IsSpace(s[k]) && !IsSymbol(s[k])
  {
    forall k | i <= k < i + |w| ensures !IsSpace(s[k]) && !IsSymbol(s[k]) {
      assert s[k] == w[k - i];
    }
  }

  lemma {:induction false} SpacedTokens(s: string, i: nat, ts: seq<string>)
    requires i <= |s| && s[i..] == Spaced(ts) && AllTokens(ts)
    ensures Tokens(s, i) == ts
    decreases |ts|
  {
    hide GetToken, Text, IsToken;
    if ts == [] {
      NoToken(s, i);
    } else {
      var w, rest := ts[0], Spaced(ts[1..]);
      assert IsToken(w);
      FirstSpaced(s, i, w, rest, ts[1..]);
      TokenAt(s, i + 1, w);
      SkipTokens(s, i);
      SkipTokens(s, i + 1);
      SkipTokens(s, i + 1 + |w|);
      OneSpace(s, i);
      SpacedTokens(s, i + 1 + |w|, ts[1..]);
      hide Skip;
    }
  }

  lemma OneSpace(s: string, i: nat)
    requires i + 1 < |s| && s[i] == ' ' && !IsSpace(s[i + 1])
    ensures Skip(s, i) == i + 1 == Skip(s, i + 1)
  {}

  lemma FirstSpaced(s: string, i: nat, w: string, rest: string, ts: seq<string>)
    requires i <= |s| && s[i..] == " " + w + rest && rest == Spaced(ts) && IsToken(w)
    ensures i + 1 < |s| && s[i] == ' ' && Stands(s, i + 1, w) && s[i + 1 + |w|..] == rest && i + 1 + |w| <= |s|
  {
    var u := s[i..];
    assert u[0] == ' ' && u[1..1 + |w|] == w && u[1 + |w|..] == rest;
    assert s[i + 1..i + 1 + |w|] == w;
    assert rest != [] ==> rest[0] == ' ' && s[i + 1 + |w|] == rest[0];
  }

  lemma {:induction false} RedirectsAreTokens(rs: seq<Redirect>)
    requires RedirectsFit(rs)
    ensures AllTokens(RedirectTokens(rs))
    decreases |rs|
  {
    if rs != [] {
      RedirectsAreTokens(rs[1..]);
    }
  }

  lemma {:induction false} ArgsAreTokens(args: seq<Arg>)
    requires ArgsFit(args)
    ensures AllTokens(ArgTokens(args))
    decreases |args|
  {
    if args != [] {
      ArgsAreTokens(args[1..]);
      RedirectsAreTokens(args[0].redirects);
      ArgsParts(args);
    }
  }

  lemma {:induction false} TermIsTokens(t: Term)
    requires TermFits(t)
    ensures AllTokens(TermTokens(t))
    decreases t
  {
    match t
    case Simple(front, args) =>
      RedirectsAreTokens(front);
      ArgsAreTokens(args);
    case Block(line, rs) =>
      LineIsTokens(line);
      RedirectsAreTokens(rs);
  }

  lemma {:induction false} PipelineIsTokens(p: Pipeline)
    requires PipelineFits(p)
    ensures AllTokens(PipelineTokens(p))
    decreases p
  {
    TermIsTokens(p.term);
    if p.Piped? {
      PipelineIsTokens(p.rest);
    }
  }

  lemma {:induction false} LineIsTokens(l: Line)
    requires LineFits(l)
    ensures AllTokens(LineTokens(l))
    decreases l
  {
    PipelineIsTokens(l.pipeline);
    AmpsOk(l.amps);
    if l.rest.Some? {
      LineIsTokens(l.rest.value);
    }
  }

  // A sentence written with a blank before each token is parsed to what it means.
  lemma SentenceRoundTrip(l: Line)
    requires LineFits(l)
    ensures var s := Spaced(LineTokens(l)); Parse(s).Ok? && Read(s, Parse(s).value) == LineMeaning(l)
  {
    var s := Spaced(LineTokens(l));
    LineIsTokens(l);
    SpacedTokens(s, 0, LineTokens(l));
    SentenceParses(s, l);
  }

  // ----- a sentence for every command

  // At most nine arguments for a command, and nothing but words.
  predicate Proper(t: Tree) {
    match t
    case TExec(args) => AllWords(args)
    case TRedirected(c, f, _) => Proper(c) && IsWord(f)
    case TPipe(l, r) => Proper(l) && Proper(r)
    case TList(l, r) => Proper(l) && Proper(r)
    case TBack(c) => Proper(c)
  }

  // With more parentheses than it may take.
  function Sentence(t: Tree): Line {
    match t
    case TExec(args) => Line(One(Plain(args)), 0, None)
    case TRedirected(c, f, m) => Line(One(Block(Sentence(c), [Redirect(m, f)])), 0, None)
    case TPipe(l, r) => Line(Piped(Block(Sentence(l), []), One(Block(Sentence(r), []))), 0, None)
    case TList(l, r) => Line(One(Block(Sentence(l), [])), 0, Some(Sentence(r)))
    case TBack(c) => Line(One(Block(Sentence(c), [])), 1, None)
  }

  lemma BlockMeans(l: Line, rs: seq<Redirect>)
    requires LineFits(l) && RedirectsFit(rs) && |rs| <= 1
    ensures TermFits(Block(l, rs)) && PipelineFits(One(Block(l, rs)))
    ensures TermMeaning(Block(l, rs))
      == if rs == [] then LineMeaning(l) else TRedirected(LineMeaning(l), rs[0].file, rs[0].mode)
    ensures PipelineMeaning(One(Block(l, rs))) == TermMeaning(Block(l, rs))
  {
    hide LineFits, LineMeaning;
    assert rs != [] ==> Wrapped(LineMeaning(l), rs[..|rs| - 1]) == LineMeaning(l);
  }

  lemma {:induction false} SentenceMeans(t: Tree)
    requires Proper(t)
    ensures LineFits(Sentence(t)) && LineMeaning(Sentence(t)) == t
    decreases t
  {
    hide LineFits, LineMeaning, TermFits, TermMeaning, PipelineFits, PipelineMeaning, Plain;
    match t
    case TExec(args) =>
      PlainIs(args);
      OneLine(Plain(args));
    case TRedirected(c, f, m) =>
      SentenceMeans(c);
      BlockMeans(Sentence(c), [Redirect(m, f)]);
      OneLine(Block(Sentence(c), [Redirect(m, f)]));
    case TPipe(l, r) =>
      SentenceMeans(l);
      SentenceMeans(r);
      BlockMeans(Sentence(l), []);
      BlockMeans(Sentence(r), []);
      PipeParts(Block(Sentence(l), []), One(Block(Sentence(r), [])));
      LineIsJoin(Piped(Block(Sentence(l), []), One(Block(Sentence(r), []))), 0, None);
    case TList(l, r) =>
      SentenceMeans(l);
      SentenceMeans(r);
      BlockMeans(Sentence(l), []);
      LineIsJoin(One(Block(Sentence(l), [])), 0, Some(Sentence(r)));
    case TBack(c) =>
      SentenceMeans(c);
      BlockMeans(Sentence(c), []);
      LineIsJoin(One(Block(Sentence(c), [])), 1, None);
  }

  function Print(t: Tree): string {
    Spaced(LineTokens(Sentence(t)))
  }

  // Every command with at most nine arguments each is what its printing is parsed to.
  lemma PrintThenParse(t: Tree)
    requires Proper(t)
    ensures Parse(Print(t)).Ok? && Read(Print(t), Parse(Print(t)).value) == t
  {
    SentenceMeans(t);
    SentenceRoundTrip(Sentence(t));
  }
}

// What a line of user/sh.c says, by its tokens alone: the sentences that the shell takes, and the command that each
// of them means.
module ShellSyntax {
  import opened Basics
  import opened ShellGrammar

  // ----- tokens

  // The text that a span covers.
  function Text(s: string, p: Span): string {
    if p.q <= p.eq <= |s| then s[p.q..p.eq] else []
  }

  // The tokens of s from i on, whatever space is between them.
  function Tokens(s: string, i: nat): seq<string>
    requires i <= |s|
    decreases |s| - i
  {
    var t := GetToken(s, i);
    if t.kind.End? then [] else [Text(s, t.span)] + Tokens(s, t.next)
  }

  predicate IsWord(w: string) {
    w != [] && forall k :: 0 <= k < |w| ==> !IsSpace(w[k]) && !IsSymbol(w[k])
  }

  // The first token is there, and starts with one of toks.
  predicate Heads(ts: seq<string>, toks: string) {
    ts != [] && ts[0] != [] && ts[0][0] in toks
  }

  // ----- sentences

  datatype Redirect = Redirect(mode: Mode, file: string)

  // A word of a simple command, and the redirections behind it.
  datatype Arg = Arg(word: string, redirects: seq<Redirect>)

  datatype Term = Simple(front: seq<Redirect>, args: seq<Arg>) | Block(line: Line, redirects: seq<Redirect>)

  datatype Pipeline = One(term: Term) | Piped(term: Term, rest: Pipeline)

  // A pipeline, a number of &, and perhaps ; and another line.
  datatype Line = Line(pipeline: Pipeline, amps: nat, rest: Option<Line>)

  function Sign(m: Mode): string {
    match m case In => "<" case Out => ">" case Append => ">>"
  }

  function RedirectTokens(rs: seq<Redirect>): seq<string> {
    if rs == [] then [] else [Sign(rs[0].mode), rs[0].file] + RedirectTokens(rs[1..])
  }

  function ArgTokens(args: seq<Arg>): seq<string> {
    if args == [] then [] else [args[0].word] + RedirectTokens(args[0].redirects) + ArgTokens(args[1..])
  }

  function TermTokens(t: Term): seq<string> {
    match t
    case Simple(front, args) => RedirectTokens(front) + ArgTokens(args)
    case Block(line, rs) => ["("] + LineTokens(line) + [")"] + RedirectTokens(rs)
  }

  function PipelineTokens(p: Pipeline): seq<string> {
    match p
    case One(t) => TermTokens(t)
    case Piped(t, rest) => TermTokens(t) + ["|"] + PipelineTokens(rest)
  }

  function Amps(n: nat): seq<string> {
    if n == 0 then [] else ["&"] + Amps(n - 1)
  }

  function LineTokens(l: Line): seq<string> {
    PipelineTokens(l.pipeline) + Amps(l.amps) + if l.rest.Some? then [";"] + LineTokens(l.rest.value) else []
  }

  predicate RedirectsFit(rs: seq<Redirect>) {
    forall k :: 0 <= k < |rs| ==> IsWord(rs[k].file)
  }

  predicate ArgsFit(args: seq<Arg>) {
    forall k :: 0 <= k < |args| ==> IsWord(args[k].word) && RedirectsFit(args[k].redirects)
  }

  // A simple command has at most nine arguments.
  predicate TermFits(t: Term) {
    match t
    case Simple(front, args) => RedirectsFit(front) && ArgsFit(args) && |args| < MAXARGS
    case Block(line, rs) => LineFits(line) && RedirectsFit(rs)
  }

  predicate PipelineFits(p: Pipeline) {
    TermFits(p.term) && (p.Piped? ==> PipelineFits(p.rest))
  }

  predicate LineFits(l: Line) {
    PipelineFits(l.pipeline) && (l.rest.Some? ==> LineFits(l.rest.value))
  }

  // ----- meanings

  // A command with its words spelled out.
  datatype Tree =
    | TExec(args: seq<string>)
    | TRedirected(cmd: Tree, file: string, mode: Mode)
    | TPipe(left: Tree, right: Tree)
    | TList(left: Tree, right: Tree)
    | TBack(cmd: Tree)

  function Read(s: string, c: Cmd): Tree {
    match c
    case Exec(argv) => TExec(Texts(s, argv))
    case Redirected(d, r) => TRedirected(Read(s, d), Text(s, r.file), r.mode)
    case Pipe(l, r) => TPipe(Read(s, l), Read(s, r))
    case List(l, r) => TList(Read(s, l), Read(s, r))
    case Back(d) => TBack(Read(s, d))
  }

  function Texts(s: string, argv: seq<Span>): seq<string> {
    seq(|argv|, i requires 0 <= i < |argv| => Text(s, argv[i]))
  }

  function Words(args: seq<Arg>): seq<string> {
    if args == [] then [] else [args[0].word] + Words(args[1..])
  }

  // The redirections behind the words, from left to right.
  function Behind(args: seq<Arg>): seq<Redirect> {
    if args == [] then [] else args[0].redirects + Behind(args[1..])
  }

  // The last redirection is the outermost.
  function Wrapped(t: Tree, rs: seq<Redirect>): Tree {
    if rs == [] then t else TRedirected(Wrapped(t, rs[..|rs| - 1]), rs[|rs| - 1].file, rs[|rs| - 1].mode)
  }

  function TermMeaning(t: Term): Tree {
    match t
    case Simple(front, args) => Wrapped(TExec(Words(args)), front + Behind(args))
    case Block(line, rs) => Wrapped(LineMeaning(line), rs)
  }

  // Pipes associate to the right.
  function PipelineMeaning(p: Pipeline): Tree {
    match p
    case One(t) => TermMeaning(t)
    case Piped(t, rest) => TPipe(TermMeaning(t), PipelineMeaning(rest))
  }

  function Backs(t: Tree, n: nat): Tree
    decreases n
  {
    if n == 0 then t else Backs(TBack(t), n - 1)
  }

  // So do lists; & takes the whole pipeline, and nothing of the list.
  function LineMeaning(l: Line): Tree {
    var t := Backs(PipelineMeaning(l.pipeline), l.amps);
    if l.rest.Some? then TList(t, LineMeaning(l.rest.value)) else t
  }
}

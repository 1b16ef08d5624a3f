// What the parser of user/sh.c makes of a line, as functions of the line and a position in it.
// A line has no NUL before its end.
module ShellGrammar {
  const MAXARGS := 10

  predicate IsSpace(c: char) {
    c == ' ' || c == '\t' || c == '\r' || c == '\n' || c == '\U{000B}'
  }

  predicate IsSymbol(c: char) {
    c == '<' || c == '|' || c == '>' || c == '&' || c == ';' || c == '(' || c == ')'
  }

  // A token by its first character and the one behind its last.
  datatype Span = Span(q: nat, eq: nat)

  datatype Mode = In | Out | Append

  datatype Redir = Redir(file: Span, mode: Mode)

  datatype Cmd =
    | Exec(argv: seq<Span>)
    | Redirected(cmd: Cmd, redir: Redir)
    | Pipe(left: Cmd, right: Cmd)
    | List(left: Cmd, right: Cmd)
    | Back(cmd: Cmd)

  // Panic ends the parsing process.
  datatype Parsed<T> = Panic | Ok(value: T, pos: nat)

  datatype Kind = End | Symbol(c: char) | Two | Word

  datatype Token = Token(kind: Kind, span: Span, next: nat)

  function Skip(s: string, i: nat): (j: nat)
    requires i <= |s|
    ensures i <= j <= |s| && (j < |s| ==> !IsSpace(s[j])) && forall k :: i <= k < j ==> IsSpace(s[k])
    decreases |s| - i
  {
    if i < |s| && IsSpace(s[i]) then Skip(s, i + 1) else i
  }

  function WordEnd(s: string, i: nat): (j: nat)
    requires i <= |s|
    ensures i <= j <= |s| && (j < |s| ==> IsSpace(s[j]) || IsSymbol(s[j]))
    ensures forall k :: i <= k < j ==> !IsSpace(s[k]) && !IsSymbol(s[k])
    decreases |s| - i
  {
    if i < |s| && !IsSpace(s[i]) && !IsSymbol(s[i]) then WordEnd(s, i + 1) else i
  }

  // gettoken.
  function GetToken(s: string, i: nat): (t: Token)
    requires i <= |s|
    ensures t.span.q <= t.span.eq <= t.next <= |s| && i <= t.span.q
    ensures !t.kind.End? ==> i < t.next && t.span.q < t.span.eq
    ensures t.kind.End? ==> t.next == |s|
  {
    var q := Skip(s, i);
    if q == |s| then Token(End, Span(q, q), q)
    else if s[q] == '>' then
      if q + 1 < |s| && s[q + 1] == '>' then Token(Two, Span(q, q + 2), Skip(s, q + 2))
      else Token(Symbol('>'), Span(q, q + 1), Skip(s, q + 1))
    else if IsSymbol(s[q]) then Token(Symbol(s[q]), Span(q, q + 1), Skip(s, q + 1))
    else Token(Word, Span(q, WordEnd(s, q)), Skip(s, WordEnd(s, q)))
  }

  // peek: is the next character one of toks? It moves to Skip(s, i).
  predicate Sees(s: string, i: nat, toks: string)
    requires i <= |s|
  {
    Skip(s, i) < |s| && s[Skip(s, i)] in toks
  }

  function ModeOf(k: Kind): Mode {
    if k.Two? then Append else if k == Symbol('<') then In else Out
  }

  // parseredirs.
  function Redirs(s: string, i: nat): (r: Parsed<seq<Redir>>)
    requires i <= |s|
    ensures r.Ok? ==> i <= r.pos <= |s|
    decreases |s| - i
  {
    if !Sees(s, i, "<>") then Ok([], Skip(s, i))
    else
      var t := GetToken(s, Skip(s, i));
      var f := GetToken(s, t.next);
      if !f.kind.Word? then Panic
      else
        var rest := Redirs(s, f.next);
        if rest.Panic? then Panic else Ok([Redir(f.span, ModeOf(t.kind))] + rest.value, rest.pos)
  }

  function Wrap(c: Cmd, rs: seq<Redir>): Cmd {
    if rs == [] then c else Redirected(Wrap(c, rs[..|rs| - 1]), rs[|rs| - 1])
  }

  // The loop of parseexec, with what it has collected.
  function ExecTail(s: string, i: nat, argv: seq<Span>, rs: seq<Redir>): (r: Parsed<Cmd>)
    requires i <= |s|
    ensures r.Ok? ==> i <= r.pos <= |s|
    decreases |s| - i
  {
    if Sees(s, i, "|)&;") then Ok(Wrap(Exec(argv), rs), Skip(s, i))
    else
      var t := GetToken(s, Skip(s, i));
      if t.kind.End? then Ok(Wrap(Exec(argv), rs), t.next)
      else if !t.kind.Word? || |argv| + 1 >= MAXARGS then Panic
      else
        var more := Redirs(s, t.next);
        if more.Panic? then Panic else ExecTail(s, more.pos, argv + [t.span], rs + more.value)
  }

  function ExecOf(s: string, i: nat): (r: Parsed<Cmd>)
    requires i <= |s|
    ensures r.Ok? ==> i <= r.pos <= |s|
    decreases |s| - i, 1
  {
    if Sees(s, i, "(") then BlockOf(s, i)
    else
      var rs := Redirs(s, Skip(s, i));
      if rs.Panic? then Panic else ExecTail(s, rs.pos, [], rs.value)
  }

  function BlockOf(s: string, i: nat): (r: Parsed<Cmd>)
    requires i <= |s| && Sees(s, i, "(")
    ensures r.Ok? ==> i <= r.pos <= |s|
    decreases |s| - i, 0
  {
    var c := LineOf(s, GetToken(s, Skip(s, i)).next);
    if c.Panic? || !Sees(s, c.pos, ")") then Panic
    else
      var rs := Redirs(s, GetToken(s, Skip(s, c.pos)).next);
      if rs.Panic? then Panic else Ok(Wrap(c.value, rs.value), rs.pos)
  }

  function PipeOf(s: string, i: nat): (r: Parsed<Cmd>)
    requires i <= |s|
    ensures r.Ok? ==> i <= r.pos <= |s|
    decreases |s| - i, 2
  {
    var c := ExecOf(s, i);
    if c.Panic? then Panic
    else if !Sees(s, c.pos, "|") then Ok(c.value, Skip(s, c.pos))
    else
      var d := PipeOf(s, GetToken(s, Skip(s, c.pos)).next);
      if d.Panic? then Panic else Ok(Pipe(c.value, d.value), d.pos)
  }

  // parseline after its first pipe.
  function LineTail(s: string, i: nat, c: Cmd): (r: Parsed<Cmd>)
    requires i <= |s|
    ensures r.Ok? ==> i <= r.pos <= |s|
    decreases |s| - i, 2
  {
    if Sees(s, i, "&") then LineTail(s, GetToken(s, Skip(s, i)).next, Back(c))
    else if !Sees(s, i, ";") then Ok(c, Skip(s, i))
    else
      var d := LineOf(s, GetToken(s, Skip(s, i)).next);
      if d.Panic? then Panic else Ok(List(c, d.value), d.pos)
  }

  function LineOf(s: string, i: nat): (r: Parsed<Cmd>)
    requires i <= |s|
    ensures r.Ok? ==> i <= r.pos <= |s|
    decreases |s| - i, 3
  {
    var c := PipeOf(s, i);
    if c.Panic? then Panic else LineTail(s, c.pos, c.value)
  }

  // parsecmd: all of the line, or a panic for what is left over.
  function Parse(s: string): Parsed<Cmd> {
    var c := LineOf(s, 0);
    if c.Panic? || Skip(s, c.pos) != |s| then Panic else Ok(c.value, |s|)
  }
}

// The parser of user/sh.c: recursive descent that moves a shared cursor, and nulterminate.
module ShellParser {
  import opened Basics
  import opened ShellGrammar

  // ps, with the line s from the start and es its end.
  class Cursor {
    const s: string
    var pos: nat

    ghost predicate Valid()
      reads this
    {
      pos <= |s|
    }

    constructor (line: string)
      ensures Valid() && s == line && pos == 0
    {
      s := line;
      pos := 0;
    }

    method SkipSpace()
      requires Valid()
      modifies this
      ensures Valid() && pos == Skip(s, old(pos))
    {
      while pos < |s| && IsSpace(s[pos])
        invariant pos <= |s| && Skip(s, pos) == Skip(s, old(pos))
      {
        pos := pos + 1;
      }
    }

    method Gettoken() returns (t: Token)
      requires Valid()
      modifies this
      ensures Valid() && t == GetToken(s, old(pos)) && pos == t.next
    {
      SkipSpace();
      var q, kind := pos, End;
      if pos < |s| {
        if s[pos] == '>' {
          pos := pos + 1;
          kind := Symbol('>');
          if pos < |s| && s[pos] == '>' {
            pos := pos + 1;
            kind := Two;
          }
        } else if IsSymbol(s[pos]) {
          kind := Symbol(s[pos]);
          pos := pos + 1;
        } else {
          kind := Word;
          while pos < |s| && !IsSpace(s[pos]) && !IsSymbol(s[pos])
            invariant q <= pos <= |s| && WordEnd(s, pos) == WordEnd(s, q)
          {
            pos := pos + 1;
          }
        }
      }
      var eq := pos;
      SkipSpace();
      t := Token(kind, Span(q, eq), pos);
    }

    method Peek(toks: string) returns (r: bool)
      requires Valid()
      modifies this
      ensures Valid() && r == Sees(s, old(pos), toks) && pos == Skip(s, old(pos))
    {
      SkipSpace();
      r := pos < |s| && s[pos] in toks;
    }

    // None is a panic.
    method Parseredirs() returns (rs: Option<seq<Redir>>)
      requires Valid()
      modifies this
      ensures Valid() && rs == Value(Redirs(s, old(pos))) && (rs.Some? ==> pos == Redirs(s, old(pos)).pos)
    {
      hide GetToken, Skip;
      var got: seq<Redir> := [];
      NoneYet(Redirs(s, pos));
      while true
        invariant Valid()
        invariant Before(got, Redirs(s, pos)) == Redirs(s, old(pos))
        decreases |s| - pos
      {
        ghost var p := pos;
        var more := Peek("<>");
        if !more {
          assert got + [] == got;
          return Some(got);
        }
        var tok := Gettoken();
        var file := Gettoken();
        if !file.kind.Word? {
          return None;
        }
        OneMore(got, Redir(file.span, ModeOf(tok.kind)), Redirs(s, pos));
        got := got + [Redir(file.span, ModeOf(tok.kind))];
      }
    }

    method Parseexec() returns (c: Option<Cmd>)
      requires Valid()
      modifies this
      ensures Valid() && c == Value(ExecOf(s, old(pos))) && (c.Some? ==> pos == ExecOf(s, old(pos)).pos)
      decreases |s| - pos, 1
    {
      hide GetToken, Skip, Redirs, LineOf;
      ghost var p0 := pos;
      SkipStays(s, pos);
      var block := Peek("(");
      if block {
        c := Parseblock();
        return;
      }
      var argv: seq<Span> := [];
      var rs := Parseredirs();
      if rs.None? {
        return None;
      }
      var ret := rs.value;
      while true
        invariant Valid() && ExecTail(s, pos, argv, ret) == ExecOf(s, p0)
        decreases |s| - pos
      {
        SkipStays(s, pos);
        var stop := Peek("|)&;");
        if stop {
          break;
        }
        var tok := Gettoken();
        if tok.kind.End? {
          break;
        }
        if !tok.kind.Word? {
          return None;
        }
        argv := argv + [tok.span];
        if |argv| >= MAXARGS {
          return None;
        }
        var more := Parseredirs();
        if more.None? {
          return None;
        }
        ret := ret + more.value;
      }
      c := Some(Wrap(Exec(argv), ret));
    }

    method Parseblock() returns (c: Option<Cmd>)
      requires Valid() && Sees(s, pos, "(")
      modifies this
      ensures Valid() && c == Value(BlockOf(s, old(pos))) && (c.Some? ==> pos == BlockOf(s, old(pos)).pos)
      decreases |s| - pos, 0
    {
      hide GetToken, Skip, Redirs, LineOf;
      ghost var p0 := pos;
      SkipStays(s, pos);
      var open := Peek("(");
      var _ := Gettoken();
      ParenToken(s, p0);
      c := Parseline();
      if c.None? {
        return;
      }
      var close := Peek(")");
      if !close {
        return None;
      }
      var _ := Gettoken();
      var rs := Parseredirs();
      c := if rs.None? then None else Some(Wrap(c.value, rs.value));
    }

    method Parsepipe() returns (c: Option<Cmd>)
      requires Valid()
      modifies this
      ensures Valid() && c == Value(PipeOf(s, old(pos))) && (c.Some? ==> pos == PipeOf(s, old(pos)).pos)
      decreases |s| - pos, 2
    {
      hide GetToken, Skip, ExecOf;
      c := Parseexec();
      if c.None? {
        return;
      }
      var bar := Peek("|");
      if bar {
        var _ := Gettoken();
        var right := Parsepipe();
        c := if right.None? then None else Some(Pipe(c.value, right.value));
      }
    }

    method Parseline() returns (c: Option<Cmd>)
      requires Valid()
      modifies this
      ensures Valid() && c == Value(LineOf(s, old(pos))) && (c.Some? ==> pos == LineOf(s, old(pos)).pos)
      decreases |s| - pos, 3
    {
      hide GetToken, Skip, PipeOf;
      ghost var p0 := pos;
      c := Parsepipe();
      if c.None? {
        return;
      }
      while true
        invariant Valid() && c.Some? && LineTail(s, pos, c.value) == LineOf(s, p0) && p0 <= pos
        decreases |s| - pos
      {
        ghost var p := pos;
        var amp := Peek("&");
        if !amp {
          TailSkip(s, p, c.value);
          break;
        }
        var _ := Gettoken();
        c := Some(Back(c.value));
      }
      SkipStays(s, pos);
      var semi := Peek(";");
      if semi {
        var _ := Gettoken();
        var right := Parseline();
        c := if right.None? then None else Some(List(c.value, right.value));
      }
    }
  }

  // parsecmd, up to nulterminate.
  method Parsecmd(line: string) returns (c: Option<Cmd>)
    ensures c == Value(Parse(line))
  {
    var ps := new Cursor(line);
    c := ps.Parseline();
    if c.Some? {
      var _ := ps.Peek("");
      if ps.pos != |line| {
        c := None;
      }
    }
  }

  lemma SkipStays(s: string, i: nat)
    requires i <= |s|
    ensures Skip(s, Skip(s, i)) == Skip(s, i)
  {}

  lemma ParenToken(s: string, i: nat)
    requires i <= |s| && Sees(s, i, "(")
    ensures GetToken(s, Skip(s, i)).next > Skip(s, i)
  {}

  lemma TailSkip(s: string, i: nat, c: Cmd)
    requires i <= |s| && !Sees(s, i, "&")
    ensures LineTail(s, Skip(s, i), c) == LineTail(s, i, c)
  {
    SkipStays(s, i);
    hide LineOf, GetToken, Skip;
  }

  function Value<T>(r: Parsed<T>): Option<T> {
    match r case Panic => None case Ok(v, _) => Some(v)
  }

  function Before(got: seq<Redir>, r: Parsed<seq<Redir>>): Parsed<seq<Redir>> {
    match r case Panic => Panic case Ok(v, p) => Ok(got + v, p)
  }

  lemma NoneYet(r: Parsed<seq<Redir>>)
    ensures Before([], r) == r
  {
    if r.Ok? {
      assert [] + r.value == r.value;
    }
  }

  lemma OneMore(got: seq<Redir>, x: Redir, r: Parsed<seq<Redir>>)
    ensures Before(got + [x], r) == Before(got, Before([x], r))
  {
    if r.Ok? {
      assert got + [x] + r.value == got + ([x] + r.value);
    }
  }
}

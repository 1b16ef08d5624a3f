// The loop of user/grep.c: lines out of a buffer of 1024 bytes that reads of any size fill, and which of them it
// prints. The input may hold NUL characters, at which strchr stops.
module GrepLines {
  import opened Matcher = Grep

  const ROOM: nat := 1023

  // The first newline from p on, or the length of s.
  function Newline(s: string, p: nat): (q: nat)
    requires p <= |s|
    ensures p <= q <= |s| && (q < |s| ==> s[q] == '\n') && '\n' !in s[p..q]
    decreases |s| - p
  {
    if p == |s| || s[p] == '\n' then p else
      var q := Newline(s, p + 1);
      assert s[p..q] == [s[p]] + s[p + 1..q];
      q
  }

  // strchr of a newline from p on; a NUL ends the search. The length of s stands for none.
  function Strchr(s: string, p: nat): (q: nat)
    requires p <= |s|
    ensures p <= q <= |s|
    ensures q < |s| ==> q == Newline(s, p) && '\0' !in s[p..q]
    ensures q == |s| ==> Newline(s, p) == |s| || '\0' in s[p..Newline(s, p)]
    decreases |s| - p
  {
    if p == |s| || s[p] == '\0' then |s|
    else if s[p] == '\n' then p
    else
      var q, r := Strchr(s, p + 1), Newline(s, p + 1);
      assert s[p..r] == [s[p]] + s[p + 1..r] && (q < |s| ==> s[p..q] == [s[p]] + s[p + 1..q]);
      q
  }

  // The complete lines of s that match, newlines included.
  ghost function Selected(re: string, s: string): string
    decreases |s|
  {
    var q := Newline(s, 0);
    if q == |s| then []
    else (if Found(Parse(re), s[..q]) then s[..q + 1] else []) + Selected(re, s[q + 1..])
  }

  // The line, without its newline, can be found in the buffer.
  predicate Fits(line: string) {
    |line| < ROOM && '\0' !in line
  }

  // How far grep gets: up to the first line that it cannot find in the buffer, or else up to the last newline.
  function Cut(s: string): (c: nat)
    ensures c <= |s|
    decreases |s|
  {
    var q := Newline(s, 0);
    if q == |s| || !Fits(s[..q]) then 0 else q + 1 + Cut(s[q + 1..])
  }

  lemma {:induction false} CutAtLine(s: string)
    ensures AtLine(s[..Cut(s)])
    decreases |s|
  {
    hide Fits, AtLine;
    var q := Newline(s, 0);
    if q < |s| && Fits(s[..q]) {
      var rest := s[q + 1..];
      CutAtLine(rest);
      OneMore(s, q, Cut(rest));
    } else {
      EmptyAtLine();
    }
  }

  lemma EmptyAtLine()
    ensures AtLine([])
  {}

  lemma OneMore(s: string, q: nat, c: nat)
    requires q < |s| && s[q] == '\n' && c <= |s[q + 1..]| && AtLine(s[q + 1..][..c])
    ensures AtLine(s[..q + 1 + c])
  {
    assert c > 0 ==> s[q + c] == s[q + 1..][..c][c - 1];
  }

  predicate AtLine(a: string) {
    a == [] || a[|a| - 1] == '\n'
  }

  // What a line contributes.
  ghost function Line(re: string, line: string): string {
    if Found(Parse(re), line) then line + "\n" else []
  }

  ghost predicate FirstLine(s: string, q: int) {
    0 <= q < |s| && s[q] == '\n' && '\n' !in s[..q]
  }

  lemma {:induction false} NewlineFrom(s: string, p: nat, q: nat)
    requires p <= q < |s| && s[q] == '\n' && forall i :: p <= i < q ==> s[i] != '\n'
    ensures Newline(s, p) == q
    decreases q - p
  {
    if p < q {
      NewlineFrom(s, p + 1, q);
    }
  }

  lemma {:induction false} NewlineAfter(s: string, p: nat, e: nat)
    requires p <= e <= |s| && forall i :: p <= i < e ==> s[i] != '\n'
    ensures Newline(s, p) >= e
    decreases e - p
  {
    if p < e {
      NewlineAfter(s, p + 1, e);
    }
  }

  lemma SelectedUncons(re: string, s: string, q: nat)
    requires FirstLine(s, q)
    ensures Selected(re, s) == Line(re, s[..q]) + Selected(re, s[q + 1..])
    ensures Fits(s[..q]) ==> Cut(s) == q + 1 + Cut(s[q + 1..])
  {
    hide Found, Parse;
    forall i | 0 <= i < q ensures s[i] != '\n' {
      assert s[i] == s[..q][i];
    }
    NewlineFrom(s, 0, q);
    assert s[..q] + "\n" == s[..q + 1];
  }

  lemma FirstOf(a: string) returns (q: nat)
    requires a != [] && AtLine(a)
    ensures FirstLine(a, q)
  {
    q := Newline(a, 0);
    assert a[|a| - 1] in a[0..|a|];
    assert a[0..q] == a[..q];
  }

  lemma {:induction false} SelectedConcat(re: string, a: string, b: string)
    requires AtLine(a)
    ensures Selected(re, a + b) == Selected(re, a) + Selected(re, b)
    decreases |a|
  {
    hide Found, Parse, Selected, Newline, Line;
    if a == [] {
      NothingYet(re);
      assert a + b == b;
    } else {
      var q := FirstOf(a);
      var rest := a[q + 1..];
      assert (a + b)[..q] == a[..q] && (a + b)[q + 1..] == rest + b;
      SelectedUncons(re, a, q);
      SelectedUncons(re, a + b, q);
      SelectedConcat(re, rest, b);
      assert Line(re, a[..q]) + (Selected(re, rest) + Selected(re, b))
        == (Line(re, a[..q]) + Selected(re, rest)) + Selected(re, b);
    }
  }

  // One more line.
  lemma NextLine(re: string, input: string, done: nat, q: nat)
    requires done + q < |input| && AtLine(input[..done]) && Fits(input[done..done + q])
    requires FirstLine(input[done..], q)
    ensures AtLine(input[..done + q + 1]) && Cut(input[done..]) == q + 1 + Cut(input[done + q + 1..])
    ensures Selected(re, input[..done + q + 1]) == Selected(re, input[..done]) + Line(re, input[done..done + q])
  {
    hide Selected, Cut, Newline, Line;
    var rest, line := input[done..], input[done..done + q + 1];
    assert rest[..q] == input[done..done + q] && rest[q + 1..] == input[done + q + 1..];
    SelectedUncons(re, rest, q);
    assert line[..q] == rest[..q] && line[q + 1..] == [];
    SelectedUncons(re, line, q);
    NothingYet(re);
    SelectedConcat(re, input[..done], line);
    assert input[..done] + line == input[..done + q + 1];
    assert Line(re, rest[..q]) + [] == Line(re, rest[..q]);
  }

  method Grep(re: string, input: string) returns (out: string)
    ensures out == Selected(re, input[..Cut(input)])
  {
    hide Selected, Cut, Found, Parse, Newline, Strchr, FirstLine, AtLine;
    out := [];
    var buf, pos := [], 0;
    ghost var done := 0;
    NothingYet(re);
    while true
      invariant done <= pos <= |input| && buf == input[done..pos] && |buf| <= ROOM && Strchr(buf, 0) == |buf|
      invariant out == Selected(re, input[..done]) && AtLine(input[..done]) && done + Cut(input[done..]) == Cut(input)
      decreases |input| - pos
    {
      var most := if |input| - pos < ROOM - |buf| then |input| - pos else ROOM - |buf|;
      var n: nat :| n <= most && (most > 0 ==> n > 0);
      if n == 0 {
        break;
      }
      buf := buf + input[pos..pos + n];
      pos := pos + n;
      var p;
      p, out := PrintLines(re, buf, out, input, done);
      StrchrRest(buf, p);
      buf := buf[p..];
      done := done + p;
    }
    Stuck(input, done, pos);
  }

  // The inner loop, over the lines in the buffer, which holds the input from base on.
  method PrintLines(re: string, buf: string, out0: string, ghost input: string, ghost base: nat)
    returns (p: nat, out: string)
    requires base + |buf| <= |input| && buf == input[base..base + |buf|] && |buf| <= ROOM
    requires out0 == Selected(re, input[..base]) && AtLine(input[..base])
    ensures p <= |buf| && Strchr(buf, p) == |buf|
    ensures out == Selected(re, input[..base + p]) && AtLine(input[..base + p])
    ensures Cut(input[base..]) == p + Cut(input[base + p..])
  {
    hide Selected, Cut, Found, Parse, Newline, Strchr, FirstLine, AtLine;
    p, out := 0, out0;
    while true
      invariant 0 <= p <= |buf|
      invariant out == Selected(re, input[..base + p]) && AtLine(input[..base + p])
      invariant Cut(input[base..]) == p + Cut(input[base + p..])
      decreases |buf| - p
    {
      var q := Strchr(buf, p);
      if q == |buf| {
        break;
      }
      BufferLine(input, base, buf, p, q);
      NextLine(re, input, base + p, q - p);
      var matched := Match(re, buf[p..q]);
      assert Line(re, buf[p..q]) == if matched then buf[p..q + 1] else [];
      if matched {
        out := out + buf[p..q + 1];
      }
      p := q + 1;
    }
  }

  lemma BufferLine(input: string, base: nat, buf: string, p: nat, q: nat)
    requires base + |buf| <= |input| && buf == input[base..base + |buf|] && p <= q < |buf|
    requires buf[q] == '\n' && '\n' !in buf[p..q]
    ensures buf[p..q] == input[base + p..base + q] && FirstLine(input[base + p..], q - p)
    ensures buf[p..q + 1] == buf[p..q] + "\n"
  {
    forall i | p <= i <= q ensures buf[i] == input[base + i] {}
    assert buf[p..q] == input[base + p..base + q];
    var rest := input[base + p..];
    assert rest[..q - p] == input[base + p..base + q] && rest[q - p] == input[base + q];
  }

  lemma {:induction false} StrchrRest(buf: string, p: nat)
    requires p <= |buf| && Strchr(buf, p) == |buf|
    ensures Strchr(buf[p..], 0) == |buf[p..]|
  {
    var rest := buf[p..];
    if Strchr(rest, 0) < |rest| {
      var q := Strchr(rest, 0);
      assert rest[0..q] == buf[p..p + q];
      NewlineFrom(buf, p, p + q) by {
        assert forall i :: p <= i < p + q ==> buf[i] == rest[0..q][i - p];
      }
    }
  }

  lemma NothingYet(re: string)
    ensures Selected(re, []) == [] && AtLine([])
  {
    assert Newline([], 0) == 0;
  }

  lemma Stuck(input: string, done: nat, pos: nat)
    requires done <= pos <= |input| && Strchr(input[done..pos], 0) == pos - done
    requires pos == |input| || pos - done >= ROOM
    ensures Cut(input[done..]) == 0
  {
    var rest, buf := input[done..], input[done..pos];
    assert buf == rest[..pos - done];
    if Newline(rest, 0) < |rest| && Fits(rest[..Newline(rest, 0)]) {
      StrchrSees(rest, pos - done);
    }
  }

  lemma StrchrSees(s: string, m: nat)
    requires Newline(s, 0) < m <= |s| && '\0' !in s[..Newline(s, 0)]
    ensures Strchr(s[..m], 0) < m
  {
    var q, buf := Newline(s, 0), s[..m];
    assert buf[0..q] == s[..q];
    NoBreak(s, 0, q);
    NewlineFrom(buf, 0, q);
    hide *;
  }

  // ----- which inputs grep prints completely

  // One line of s without its newline.
  ghost predicate LineAt(s: string, p: nat, q: nat) {
    p <= q < |s| && (p == 0 || s[p - 1] == '\n') && s[q] == '\n' && '\n' !in s[p..q]
  }

  // Every line that ends in a newline fits.
  ghost predicate AllFit(s: string) {
    forall p: nat, q: nat :: LineAt(s, p, q) ==> Fits(s[p..q])
  }

  lemma LineShift(s: string, n: nat, p: nat, q: nat)
    requires FirstLine(s, n)
    ensures LineAt(s[n + 1..], p, q) <==> LineAt(s, n + 1 + p, n + 1 + q)
    ensures LineAt(s[n + 1..], p, q) ==> s[n + 1..][p..q] == s[n + 1 + p..n + 1 + q]
  {
    if q < |s[n + 1..]| && p <= q {
      assert s[n + 1..][p..q] == s[n + 1 + p..n + 1 + q];
    }
  }

  lemma LineFirst(s: string, n: nat, p: nat, q: nat)
    requires FirstLine(s, n) && LineAt(s, p, q) && p <= n
    ensures p == 0 && q == n
  {
    assert s[0..n] == s[..n];
    NoBreak(s, 0, n);
    NoBreak(s, p, q);
  }

  lemma NoBreak(s: string, p: nat, q: nat)
    requires p <= q <= |s| && '\n' !in s[p..q]
    ensures forall i :: p <= i < q ==> s[i] != '\n'
  {
    forall i | p <= i < q ensures s[i] != '\n' {
      assert s[i] == s[p..q][i - p];
    }
  }

  lemma AllFitUncons(s: string, n: nat)
    requires FirstLine(s, n)
    ensures AllFit(s) <==> Fits(s[..n]) && AllFit(s[n + 1..])
  {
    var rest := s[n + 1..];
    assert s[0..n] == s[..n];
    if AllFit(s) {
      assert LineAt(s, 0, n);
      forall p: nat, q: nat | LineAt(rest, p, q) ensures Fits(rest[p..q]) {
        LineShift(s, n, p, q);
      }
    }
    if Fits(s[..n]) && AllFit(rest) {
      forall p: nat, q: nat | LineAt(s, p, q) ensures Fits(s[p..q]) {
        if p <= n {
          LineFirst(s, n, p, q);
        } else {
          LineShift(s, n, p - n - 1, q - n - 1);
        }
      }
    }
  }

  lemma {:induction false} AllFitIff(s: string)
    ensures AllFit(s) <==> '\n' !in s[Cut(s)..]
    decreases |s|
  {
    var n := Newline(s, 0);
    if n == |s| {
      assert s[0..n] == s[Cut(s)..] == s;
    } else {
      assert s[0..n] == s[..n];
      AllFitUncons(s, n);
      if Fits(s[..n]) {
        var rest := s[n + 1..];
        AllFitIff(rest);
        assert s[Cut(s)..] == rest[Cut(rest)..];
      } else {
        assert s[Cut(s)..] == s && s[n] in s;
      }
    }
  }

  // Every text contains the empty string.
  lemma EmptyPattern(text: string)
    ensures Found(Parse([]), text)
  {
    NoAtoms(text[0..0]);
  }

  lemma {:induction false} NoneSelected(re: string, s: string)
    ensures '\n' !in s ==> Selected(re, s) == []
    ensures '\n' in s ==> Selected([], s) != []
  {
    var q := Newline(s, 0);
    assert q == |s| ==> s[0..q] == s;
    if q < |s| {
      EmptyPattern(s[..q]);
    }
  }

  // grep prints every matching line that ends in a newline, whatever the pattern, exactly if all of these fit.
  lemma PrintsIff(s: string)
    ensures (forall re :: Selected(re, s[..Cut(s)]) == Selected(re, s)) <==> AllFit(s)
  {
    hide Selected, Cut, Newline, AtLine, AllFit;
    CutAtLine(s);
    AllFitIff(s);
    var a, b := s[..Cut(s)], s[Cut(s)..];
    assert s == a + b;
    forall re ensures Selected(re, s) == Selected(re, a) + Selected(re, b) && (AllFit(s) ==> Selected(re, b) == []) {
      SelectedConcat(re, a, b);
      NoneSelected(re, b);
    }
    if AllFit(s) {
      forall re ensures Selected(re, s[..Cut(s)]) == Selected(re, s) {
        assert Selected(re, a) + [] == Selected(re, a);
      }
    } else {
      NoneSelected([], b);
      assert Selected([], s[..Cut(s)]) != Selected([], s);
    }
  }

  // The matching lines, with the last one even if it ends without a newline.
  ghost function Wanted(re: string, s: string): string
    decreases |s|
  {
    var q := Newline(s, 0);
    if q == |s| then if s != [] && Found(Parse(re), s) then s else []
    else (if Found(Parse(re), s[..q]) then s[..q + 1] else []) + Wanted(re, s[q + 1..])
  }

  lemma {:induction false} WantedAtLine(re: string, s: string)
    requires AtLine(s)
    ensures Wanted(re, s) == Selected(re, s)
    decreases |s|
  {
    hide Found, Parse;
    var q := Newline(s, 0);
    if q < |s| {
      WantedAtLine(re, s[q + 1..]);
    } else {
      NoBreak(s, 0, q);
    }
  }

  lemma {:induction false} WantedAll(s: string)
    ensures Wanted([], s) == s
    decreases |s|
  {
    var q := Newline(s, 0);
    if q == |s| {
      EmptyPattern(s);
    } else {
      EmptyPattern(s[..q]);
      WantedAll(s[q + 1..]);
      hide Found, Parse;
      assert s == s[..q + 1] + s[q + 1..];
    }
  }

  // grep prints every matching line, whatever the pattern, exactly if the input is empty or ends in a newline and
  // every line fits.
  lemma PrintsAllIff(s: string)
    ensures (forall re :: Selected(re, s[..Cut(s)]) == Wanted(re, s)) <==> AtLine(s) && AllFit(s)
  {
    hide Selected, Wanted, Cut, Newline, AtLine, AllFit;
    var a := s[..Cut(s)];
    CutAtLine(s);
    PrintsIff(s);
    if AtLine(s) {
      forall re ensures Wanted(re, s) == Selected(re, s) {
        WantedAtLine(re, s);
      }
      assert (forall re :: Selected(re, s[..Cut(s)]) == Selected(re, s)) <==>
        (forall re :: Selected(re, s[..Cut(s)]) == Wanted(re, s));
    } else {
      WantedAll(s);
      WantedAtLine([], a);
      WantedAll(a);
      assert Selected([], s[..Cut(s)]) != Wanted([], s);
    }
  }

  // A line of 1023 characters is lost, with all that follows; so are one with a NUL, and a last one without a newline.
  lemma LongLineLost()
    ensures var s := seq(ROOM, _ => 'b') + "\n"; Selected("b", s) == s && Selected("b", s[..Cut(s)]) == []
  {
    var b := seq(ROOM, _ => 'b');
    var s := b + "\n";
    assert FirstLine(s, ROOM) && s[..ROOM] == b;
    SelectedUncons("b", s, ROOM);
    HasB(b);
    NothingYet("b");
    NewlineFrom(s, 0, ROOM);
  }

  lemma NulLost()
    ensures var s := "b\0\n"; Selected("b", s) == s && Selected("b", s[..Cut(s)]) == []
  {
    var s := "b\0\n";
    assert FirstLine(s, 2) && s[..2] == "b\0" && s[3..] == [];
    SelectedUncons("b", s, 2);
    HasB("b\0");
    NothingYet("b");
    NewlineFrom(s, 0, 2);
  }

  lemma LastLineLost()
    ensures Wanted("b", "b") == "b" && Selected("b", "b"[..Cut("b")]) == []
  {
    HasB("b");
    NothingYet("b");
    NewlineAfter("b", 0, 1);
  }

  lemma HasB(text: string)
    requires text != [] && text[0] == 'b'
    ensures Found(Parse("b"), text)
  {
    var re := "b";
    assert re[0] == 'b' && re != "$" && re[1..] == [];
    assert ParseRest(re) == ([One('b')] + ParseRest([]).0, ParseRest([]).1);
    assert Parse(re) == Pattern(false, [One('b')], false);
    assert SplitsInto([One('b')], text[0..1], [text[0..1]]) by {
      assert Flat([text[0..1]]) == text[0..1] + Flat([]);
    }
    assert Denotes([One('b')], text[0..1]);
  }
}

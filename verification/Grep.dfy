// The matcher of user/grep.c, with its operators ^ . * $, against the languages that patterns denote.
// A C string is a sequence without its NUL.
module Grep {
  // One character, or zero and more of it; c is '.' for any character.
  datatype Atom = One(c: char) | Star(c: char)

  datatype Pattern = Pattern(bol: bool, atoms: seq<Atom>, eol: bool)

  predicate Hits(c: char, t: char) {
    c == '.' || c == t
  }

  // How the code reads a pattern: a '*' after any character repeats it, ^ counts only in front, $ only at the end.
  function ParseRest(re: string): (r: (seq<Atom>, bool))
    decreases |re|
  {
    if re == [] then ([], false)
    else if |re| >= 2 && re[1] == '*' then
      var r := ParseRest(re[2..]);
      ([Star(re[0])] + r.0, r.1)
    else if re == "$" then ([], true)
    else
      var r := ParseRest(re[1..]);
      ([One(re[0])] + r.0, r.1)
  }

  function Parse(re: string): Pattern {
    if re != [] && re[0] == '^' then var r := ParseRest(re[1..]); Pattern(true, r.0, r.1)
    else var r := ParseRest(re); Pattern(false, r.0, r.1)
  }

  predicate AtomDenotes(a: Atom, w: string) {
    match a
    case One(c) => |w| == 1 && Hits(c, w[0])
    case Star(c) => forall i :: 0 <= i < |w| ==> Hits(c, w[i])
  }

  function Flat(pieces: seq<string>): string {
    if pieces == [] then [] else pieces[0] + Flat(pieces[1..])
  }

  ghost predicate SplitsInto(atoms: seq<Atom>, w: string, pieces: seq<string>) {
    && |pieces| == |atoms| && Flat(pieces) == w
    && forall i :: 0 <= i < |atoms| ==> AtomDenotes(atoms[i], pieces[i])
  }

  // w is in the language of the atoms: it falls into one piece for each.
  ghost predicate Denotes(atoms: seq<Atom>, w: string) {
    exists pieces :: SplitsInto(atoms, w, pieces)
  }

  // Some prefix of the text, all of it for eol, is in the language.
  ghost predicate Prefix(atoms: seq<Atom>, eol: bool, text: string) {
    exists j :: 0 <= j <= |text| && Ends(eol, j, text) && Denotes(atoms, text[..j])
  }

  predicate Ends(eol: bool, j: int, text: string) {
    eol ==> j == |text|
  }

  // Some substring of the text is in the language, from the front for bol and to the end for eol.
  ghost predicate Found(p: Pattern, text: string) {
    exists i, j ::
      0 <= i <= j <= |text| && (p.bol ==> i == 0) && (p.eol ==> j == |text|) && Denotes(p.atoms, text[i..j])
  }

  lemma NoAtoms(w: string)
    ensures Denotes([], w) <==> w == []
  {
    if w == [] {
      assert SplitsInto([], w, []);
    }
  }

  // The first atom takes the first k characters.
  lemma Uncons(atoms: seq<Atom>, w: string) returns (k: nat)
    requires atoms != [] && Denotes(atoms, w)
    ensures k <= |w| && AtomDenotes(atoms[0], w[..k]) && Denotes(atoms[1..], w[k..])
  {
    var pieces :| SplitsInto(atoms, w, pieces);
    k := |pieces[0]|;
    assert w[..k] == pieces[0] && w[k..] == Flat(pieces[1..]);
    assert SplitsInto(atoms[1..], w[k..], pieces[1..]);
  }

  lemma Cons(atoms: seq<Atom>, w: string, k: nat)
    requires atoms != [] && k <= |w| && AtomDenotes(atoms[0], w[..k]) && Denotes(atoms[1..], w[k..])
    ensures Denotes(atoms, w)
  {
    var pieces :| SplitsInto(atoms[1..], w[k..], pieces);
    assert ([w[..k]] + pieces)[1..] == pieces;
    assert w == w[..k] + w[k..];
    assert SplitsInto(atoms, w, [w[..k]] + pieces);
  }

  // A match of atoms at the front of text, with the first atom taking k characters.
  ghost predicate Takes(atoms: seq<Atom>, eol: bool, text: string, k: nat)
    requires atoms != []
  {
    k <= |text| && AtomDenotes(atoms[0], text[..k]) && Prefix(atoms[1..], eol, text[k..])
  }

  lemma PrefixUncons(atoms: seq<Atom>, eol: bool, text: string)
    requires atoms != []
    ensures Prefix(atoms, eol, text) <==> exists k: nat :: Takes(atoms, eol, text, k)
  {
    if Prefix(atoms, eol, text) {
      var j :| 0 <= j <= |text| && Ends(eol, j, text) && Denotes(atoms, text[..j]);
      var k := Uncons(atoms, text[..j]);
      assert text[..j][..k] == text[..k] && text[..j][k..] == text[k..][..j - k];
      assert Ends(eol, j - k, text[k..]);
      assert Takes(atoms, eol, text, k);
    }
    if k: nat :| Takes(atoms, eol, text, k) {
      var j :| 0 <= j <= |text[k..]| && Ends(eol, j, text[k..]) && Denotes(atoms[1..], text[k..][..j]);
      assert text[..k + j][..k] == text[..k] && text[..k + j][k..] == text[k..][..j];
      Cons(atoms, text[..k + j], k);
      assert Ends(eol, k + j, text);
    }
  }

  method Match(re: string, text: string) returns (r: bool)
    ensures r <==> Found(Parse(re), text)
  {
    hide Denotes, ParseRest;
    if re != [] && re[0] == '^' {
      r := MatchHere(re[1..], text);
      AtFront(Parse(re), text);
      return;
    }
    var t := 0;
    while true
      invariant 0 <= t <= |text|
      invariant forall i :: 0 <= i < t ==> !PrefixAt(Parse(re), text, i)
      decreases |text| - t
    {
      var here := MatchHere(re, text[t..]);
      if here {
        assert PrefixAt(Parse(re), text, t);
        SomewhereIff(Parse(re), text);
        return true;
      }
      if t == |text| {
        break;
      }
      t := t + 1;
    }
    SomewhereIff(Parse(re), text);
    r := false;
  }

  ghost predicate PrefixAt(p: Pattern, text: string, i: int) {
    0 <= i <= |text| && Prefix(p.atoms, p.eol, text[i..])
  }

  lemma AtFront(p: Pattern, text: string)
    requires p.bol
    ensures Found(p, text) <==> Prefix(p.atoms, p.eol, text)
  {
    hide Denotes;
    if Prefix(p.atoms, p.eol, text) {
      var j :| 0 <= j <= |text| && Ends(p.eol, j, text) && Denotes(p.atoms, text[..j]);
      assert text[0..j] == text[..j];
    }
    if Found(p, text) {
      var i, j :| 0 <= i <= j <= |text| && (p.bol ==> i == 0) && (p.eol ==> j == |text|)
        && Denotes(p.atoms, text[i..j]);
      assert text[0..j] == text[..j] && Ends(p.eol, j, text);
    }
  }

  lemma SomewhereIff(p: Pattern, text: string)
    requires !p.bol
    ensures Found(p, text) <==> exists i :: PrefixAt(p, text, i)
  {
    hide Denotes;
    if i :| PrefixAt(p, text, i) {
      var j :| 0 <= j <= |text[i..]| && Ends(p.eol, j, text[i..]) && Denotes(p.atoms, text[i..][..j]);
      assert text[i..i + j] == text[i..][..j];
    }
    if Found(p, text) {
      var i, j :| 0 <= i <= j <= |text| && (p.bol ==> i == 0) && (p.eol ==> j == |text|)
        && Denotes(p.atoms, text[i..j]);
      assert text[i..j] == text[i..][..j - i] && Ends(p.eol, j - i, text[i..]);
      assert PrefixAt(p, text, i);
    }
  }

  method MatchHere(re: string, text: string) returns (r: bool)
    ensures r <==> Prefix(ParseRest(re).0, ParseRest(re).1, text)
    decreases |re|, 0
  {
    hide Denotes;
    if re == [] {
      Nothing(text);
      return true;
    }
    if |re| >= 2 && re[1] == '*' {
      r := MatchStar(re[0], re[2..], text);
      assert ParseRest(re).0[1..] == ParseRest(re[2..]).0;
      return;
    }
    if re == "$" {
      Nothing(text);
      return text == [];
    }
    OneStep(re[0], ParseRest(re[1..]).0, ParseRest(re).0, ParseRest(re).1, text);
    if text != [] && (re[0] == '.' || re[0] == text[0]) {
      r := MatchHere(re[1..], text[1..]);
      return;
    }
    r := false;
  }

  lemma Nothing(text: string)
    ensures Prefix([], false, text) && (Prefix([], true, text) <==> text == [])
  {
    NoAtoms(text[..0]);
    NoAtoms(text[..|text|]);
    assert Ends(false, 0, text) && text[..|text|] == text;
  }

  lemma OneStep(c: char, rest: seq<Atom>, atoms: seq<Atom>, eol: bool, text: string)
    requires atoms == [One(c)] + rest
    ensures Prefix(atoms, eol, text) <==> text != [] && Hits(c, text[0]) && Prefix(rest, eol, text[1..])
  {
    hide Prefix;
    PrefixUncons(atoms, eol, text);
    assert atoms[1..] == rest;
    if text != [] && Hits(c, text[0]) && Prefix(rest, eol, text[1..]) {
      assert Takes(atoms, eol, text, 1);
    }
    if k: nat :| Takes(atoms, eol, text, k) {
      assert k == 1;
    }
  }

  method MatchStar(c: char, re: string, text: string) returns (r: bool)
    ensures r <==> Prefix([Star(c)] + ParseRest(re).0, ParseRest(re).1, text)
    decreases |re|, 1
  {
    hide ParseRest, Prefix;
    ghost var rest, eol := ParseRest(re).0, ParseRest(re).1;
    ghost var atoms := [Star(c)] + rest;
    PrefixUncons(atoms, eol, text);
    assert atoms[1..] == rest;
    var t := 0;
    while true
      invariant 0 <= t <= |text| && forall i :: 0 <= i < t ==> Hits(c, text[i])
      invariant forall k: nat :: k < t ==> !Takes(atoms, eol, text, k)
      decreases |text| - t
    {
      var here := MatchHere(re, text[t..]);
      if here {
        assert Takes(atoms, eol, text, t);
        return true;
      }
      if t < |text| && (text[t] == c || c == '.') {
        t := t + 1;
      } else {
        break;
      }
    }
    forall k: nat ensures !Takes(atoms, eol, text, k) {
      if t < k <= |text| {
        assert text[..k][t] == text[t];
      }
    }
    r := false;
  }
}

// The circular doubly linked list of kernel/bio.c, as the arrays of its prev and next pointers spell it.
module LruRing {
  import opened Basics

  ghost predicate InRange(next: seq<nat>, prev: seq<nat>, c: seq<nat>) {
    |next| == |prev| && forall i :: 0 <= i < |c| ==> c[i] < |next|
  }

  ghost predicate LinkOk(next: seq<nat>, prev: seq<nat>, c: seq<nat>, i: nat)
    requires InRange(next, prev, c) && i < |c|
  {
    next[c[i]] == c[Succ(|c|, i)] && prev[c[Succ(|c|, i)]] == c[i]
  }

  // Following next from c[0] visits c in order and comes back; following prev visits it backwards.
  ghost predicate Ring(next: seq<nat>, prev: seq<nat>, c: seq<nat>) {
    && c != [] && Distinct(c) && InRange(next, prev, c)
    && forall i {:trigger LinkOk(next, prev, c, i)} :: 0 <= i < |c| ==> LinkOk(next, prev, c, i)
  }

  ghost function Drop(c: seq<nat>, i: nat): seq<nat>
    requires i < |c|
  {
    c[..i] + c[i + 1..]
  }

  // The neighbours of b are linked to each other, and b is out of the cycle.
  lemma Unlink(next: seq<nat>, prev: seq<nat>, c: seq<nat>, i: nat)
    requires Ring(next, prev, c) && 1 <= i < |c|
    ensures var b := c[i];
      next[b] < |next| && prev[b] < |prev| &&
      Ring(next[prev[b] := next[b]], prev[next[b] := prev[b]], Drop(c, i))
  {
    var b, d := c[i], Drop(c, i);
    assert LinkOk(next, prev, c, i) && LinkOk(next, prev, c, i - 1);
    var next', prev' := next[prev[b] := next[b]], prev[next[b] := prev[b]];
    forall j | 0 <= j < |d| ensures LinkOk(next', prev', d, j) {
      var o := if j < i then j else j + 1;
      assert LinkOk(next, prev, c, o);
      assert d[j] == c[o];
      if j != i - 1 {
        assert d[Succ(|d|, j)] == c[Succ(|c|, o)];
      }
    }
  }

  // b is linked in between the head and the buffer that was first.
  lemma PushFront(next: seq<nat>, prev: seq<nat>, c: seq<nat>, b: nat)
    requires Ring(next, prev, c) && b < |next| && b !in c
    ensures var h := c[0];
      next[h] < |next| &&
      Ring(next[b := next[h]][h := b], prev[b := h][next[h] := b], [h, b] + c[1..])
  {
    var h, d := c[0], [c[0], b] + c[1..];
    assert LinkOk(next, prev, c, 0);
    var next', prev' := next[b := next[h]][h := b], prev[b := h][next[h] := b];
    forall j | 0 <= j < |d| ensures LinkOk(next', prev', d, j) {
      if j >= 2 {
        assert LinkOk(next, prev, c, j - 1);
        assert d[j] == c[j - 1];
      } else if j == 1 {
        assert d[Succ(|d|, 1)] == c[Succ(|c|, 0)];
      }
    }
  }
}

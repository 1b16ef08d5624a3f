// Small facts that several modules need.
module Basics {
  datatype Option<T> = None | Some(value: T)

  ghost predicate Distinct<T>(s: seq<T>) {
    forall i, j :: 0 <= i < j < |s| ==> s[i] != s[j]
  }

  // The successor of position i in a cycle of n.
  function Succ(n: nat, i: nat): (r: nat)
    requires i < n
    ensures r < n
  {
    if i + 1 == n then 0 else i + 1
  }

  lemma SubsetSize(a: set<nat>, b: set<nat>)
    requires a <= b
    ensures |a| <= |b|
  {
    assert b == a + (b - a);
  }

  lemma SizeOfSum(a: set<nat>, b: set<nat>)
    ensures |a + b| <= |a| + |b|
  {
    assert a + b == a + (b - a);
    assert |b| == |b - a| + |b * a|;
  }

  // No multiple of n lies strictly between 0 and n.
  lemma NoMultipleBetween(q: int, n: nat)
    requires n > 0
    ensures q * n <= 0 || q * n >= n
  {
    if q <= 0 {
      assert q * n <= 0;
    } else {
      assert (q - 1) * n >= 0;
    }
  }

  // Two entries of a ring of n that lie less than n apart have different slots.
  lemma OtherSlot(k: nat, w: nat, n: nat)
    requires k < w < k + n
    ensures k % n != w % n
  {
    var q := w / n - k / n;
    NoMultipleBetween(q, n);
    assert w - k == q * n + (w % n - k % n) by {
      assert w == w / n * n + w % n;
      assert k == k / n * n + k % n;
      assert q * n == w / n * n - k / n * n;
    }
  }
}

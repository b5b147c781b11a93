/** Facts about sequences that hold the same elements in another order. */
module Sequences {

  /** The last element of `b` occurs in `a`, and taking one occurrence out
      of each leaves two sequences that still hold the same elements. */
  lemma RemoveLast<T>(a: seq<T>, b: seq<T>) returns (i: nat)
    requires multiset(a) == multiset(b) && b != []
    ensures i < |a| && a[i] == b[|b| - 1]
    ensures multiset(a[..i] + a[i + 1..]) == multiset(b[..|b| - 1])
  {
    var last := |b| - 1;
    var x := b[last];
    assert x in multiset(b);
    assert x in multiset(a);
    i :| 0 <= i < |a| && a[i] == x;
    assert a == a[..i] + [a[i]] + a[i + 1..];
    assert b == b[..last] + [x];
    var rest := a[..i] + a[i + 1..];
    assert multiset(a) == multiset(rest) + multiset{x};
    assert multiset(b) == multiset(b[..last]) + multiset{x};
    assert multiset(rest) == multiset(a) - multiset{x} == multiset(b[..last]);
  }
}

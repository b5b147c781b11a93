/** JavaScript numbers in exact arithmetic.

    The estimator divides by the number of points and by the squared radius,
    both of which can be zero for degenerate settings (`n=0`,
    `circleDiameter=0`). JavaScript then yields NaN or Infinity instead of
    failing. `Num` keeps those special values and otherwise computes with
    exact reals: no rounding is modelled. */
module ExtendedReals {
  import opened Sequences

  datatype Num = Finite(value: real) | NaN | PosInf | NegInf

  /** `a + b` on JavaScript numbers. */
  function Add(a: Num, b: Num): (r: Num)
    ensures r.Finite? <==> a.Finite? && b.Finite?
    ensures r.Finite? ==> r.value == a.value + b.value
    ensures r == NaN <==> a == NaN || b == NaN || (a.PosInf? && b.NegInf?) || (a.NegInf? && b.PosInf?)
  {
    match (a, b)
    case (NaN, _) => NaN
    case (_, NaN) => NaN
    case (Finite(x), Finite(y)) => Finite(x + y)
    case (PosInf, NegInf) => NaN
    case (NegInf, PosInf) => NaN
    case (PosInf, _) => PosInf
    case (_, PosInf) => PosInf
    case (NegInf, _) => NegInf
    case (_, NegInf) => NegInf
  }

  /** `a * k` for a finite number `k`. */
  function Mul(a: Num, k: real): (r: Num)
    ensures a.Finite? <==> r.Finite?
    ensures r.Finite? ==> r.value == a.value * k
    ensures a.NaN? ==> r.NaN?
  {
    match a
    case Finite(x) => Finite(x * k)
    case NaN => NaN
    case PosInf => if k > 0.0 then PosInf else if k < 0.0 then NegInf else NaN
    case NegInf => if k > 0.0 then NegInf else if k < 0.0 then PosInf else NaN
  }

  /** `a / k` for a finite number `k`; a zero `k` is taken to be +0, the only
      zero that the estimator ever divides by. */
  function Div(a: Num, k: real): (r: Num)
    ensures k != 0.0 ==> (r.Finite? <==> a.Finite?)
    ensures r.Finite? ==> k != 0.0 && r.value * k == a.value
    ensures k == 0.0 && a == Finite(0.0) ==> r.NaN?
    ensures k == 0.0 && a.Finite? && a.value > 0.0 ==> r.PosInf?
  {
    match a
    case Finite(x) =>
      if k != 0.0 then Finite(x / k)
      else if x == 0.0 then NaN
      else if x > 0.0 then PosInf
      else NegInf
    case NaN => NaN
    case PosInf => if k < 0.0 then NegInf else PosInf
    case NegInf => if k < 0.0 then PosInf else NegInf
  }

  /** The running sum of a sequence of numbers, added left to right from 0. */
  function Sum(s: seq<Num>): Num
  {
    if s == [] then Finite(0.0) else Add(Sum(s[..|s| - 1]), s[|s| - 1])
  }

  /** One more term at the end is added to the running sum. */
  lemma SumAppend(s: seq<Num>, x: Num)
    ensures Sum(s + [x]) == Add(Sum(s), x)
  {
    assert (s + [x])[..|s|] == s;
  }

  lemma AddCommutative(a: Num, b: Num)
    ensures Add(a, b) == Add(b, a)
  {
  }

  lemma AddAssociative(a: Num, b: Num, c: Num)
    ensures Add(Add(a, b), c) == Add(a, Add(b, c))
  {
  }

  /** Taking out the element at `i` and adding it last does not change the sum. */
  lemma {:induction false} SumRemoveAt(s: seq<Num>, i: nat)
    requires i < |s|
    ensures Sum(s) == Add(Sum(s[..i] + s[i + 1..]), s[i])
  {
    var last := |s| - 1;
    if i == last {
      assert s[..i] + s[i + 1..] == s[..last];
    } else {
      var t := s[..last];
      assert t[i] == s[i];
      SumRemoveAt(t, i);
      var rest := t[..i] + t[i + 1..];
      assert (rest + [s[last]])[..|rest|] == rest;
      assert rest + [s[last]] == s[..i] + s[i + 1..];
      calc {
        Sum(s);
        Add(Sum(t), s[last]);
        Add(Add(Sum(rest), s[i]), s[last]);
        { AddAssociative(Sum(rest), s[i], s[last]);
          AddCommutative(s[i], s[last]);
          AddAssociative(Sum(rest), s[last], s[i]); }
        Add(Add(Sum(rest), s[last]), s[i]);
        Add(Sum(rest + [s[last]]), s[i]);
      }
    }
  }

  /** The sum depends only on the multiset of its terms, not on their order:
      results that arrive from several workers in any interleaving add up to
      the same total. */
  lemma {:induction false} SumPermutation(a: seq<Num>, b: seq<Num>)
    requires multiset(a) == multiset(b)
    ensures Sum(a) == Sum(b)
  {
    if b != [] {
      var i := RemoveLast(a, b);
      SumPermutation(a[..i] + a[i + 1..], b[..|b| - 1]);
      SumRemoveAt(a, i);
    } else {
      assert |a| == |multiset(a)|;
    }
  }
}

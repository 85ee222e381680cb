/** Sums and dot products of real sequences, and the bounds a weighted sum and a weighted
    average obey: the arithmetic behind the era rollup's weighted means. */
module Weighted {
  function Sum(xs: seq<real>): real {
    if |xs| == 0 then 0.0 else xs[0] + Sum(xs[1..])
  }

  function Dot(vs: seq<real>, xs: seq<real>): real
    requires |vs| == |xs|
  {
    if |xs| == 0 then 0.0 else vs[0] * xs[0] + Dot(vs[1..], xs[1..])
  }

  /** `lo·Σx <= Σ v·x` when every term is at least `lo` times its weight. */
  lemma {:induction false} DotLower(vs: seq<real>, xs: seq<real>, lo: real)
    requires |vs| == |xs|
    requires forall i :: 0 <= i < |xs| ==> lo * xs[i] <= vs[i] * xs[i]
    ensures lo * Sum(xs) <= Dot(vs, xs)
  {
    if |xs| == 0 {
      MulZero(lo, Sum(xs));
    } else {
      assert forall i :: 0 <= i < |xs[1..]| ==> lo * xs[1..][i] <= vs[1..][i] * xs[1..][i] by {
        assert forall i :: 0 <= i < |xs[1..]| ==> xs[1..][i] == xs[i + 1] && vs[1..][i] == vs[i + 1];
      }
      DotLower(vs[1..], xs[1..], lo);
      assert lo * xs[0] <= vs[0] * xs[0];
      LowerStep(lo, vs[0], xs[0], Dot(vs[1..], xs[1..]), Sum(xs[1..]), Dot(vs, xs), Sum(xs));
    }
  }

  /** `Σ v·x <= hi·Σx` when every term is at most `hi` times its weight. */
  lemma {:induction false} DotUpper(vs: seq<real>, xs: seq<real>, hi: real)
    requires |vs| == |xs|
    requires forall i :: 0 <= i < |xs| ==> vs[i] * xs[i] <= hi * xs[i]
    ensures Dot(vs, xs) <= hi * Sum(xs)
  {
    if |xs| == 0 {
      MulZero(hi, Sum(xs));
    } else {
      assert forall i :: 0 <= i < |xs[1..]| ==> vs[1..][i] * xs[1..][i] <= hi * xs[1..][i] by {
        assert forall i :: 0 <= i < |xs[1..]| ==> xs[1..][i] == xs[i + 1] && vs[1..][i] == vs[i + 1];
      }
      DotUpper(vs[1..], xs[1..], hi);
      assert vs[0] * xs[0] <= hi * xs[0];
      UpperStep(hi, vs[0], xs[0], Dot(vs[1..], xs[1..]), Sum(xs[1..]), Dot(vs, xs), Sum(xs));
    }
  }

  /** One more term keeps `lo·d <= s`. */
  lemma LowerStep(lo: real, v: real, x: real, rs: real, rw: real, s: real, d: real)
    requires lo * rw <= rs && lo * x <= v * x && s == v * x + rs && d == x + rw
    ensures lo * d <= s
  {
    assert lo * d == lo * x + lo * rw;
  }

  /** One more term keeps `s <= hi·d`. */
  lemma UpperStep(hi: real, v: real, x: real, rs: real, rw: real, s: real, d: real)
    requires rs <= hi * rw && v * x <= hi * x && s == v * x + rs && d == x + rw
    ensures s <= hi * d
  {
    assert hi * d == hi * x + hi * rw;
  }

  lemma MulZero(a: real, d: real)
    requires d == 0.0
    ensures a * d == 0.0
  {
  }

  lemma MulEqual(a: real, x: real, y: real)
    requires x == y
    ensures a * x == a * y
  {
  }

  lemma MulMonotone(a: real, b: real, x: real)
    requires a <= b && x >= 0.0
    ensures a * x <= b * x
  {
    assert b * x - a * x == (b - a) * x;
  }

  lemma MulStrict(a: real, b: real, x: real)
    requires a < b && x > 0.0
    ensures a * x < b * x
  {
    assert b * x - a * x == (b - a) * x;
  }

  /** `lo·d <= s <= hi·d`: a sum between `lo` and `hi` times a total weight. */
  predicate Between(lo: real, hi: real, s: real, d: real) {
    lo * d <= s <= hi * d
  }

  lemma DivBounds(q: real, s: real, d: real, lo: real, hi: real)
    requires d > 0.0 && q == s / d && Between(lo, hi, s, d)
    ensures lo <= q <= hi
  {
    assert q * d == s;
    if q < lo {
      MulStrict(q, lo, d);
    }
    if q > hi {
      MulStrict(hi, q, d);
    }
  }
}

/** Real-number helpers shared by the indicators and the statistics: the
    absolute value, the square root, and sums of squared deviations. Prices,
    z-scores and indicator values are modelled as mathematical reals. */
module Numeric {
  import opened Seqs

  function Abs(x: real): (r: real)
    ensures r >= 0.0 && (r == x || r == -x)
  {
    if x < 0.0 then -x else x
  }

  /** The square root, known only by its sign: it is never negative, and it
      is zero exactly for zero. */
  ghost function Sqrt(x: real): (r: real)
    requires x >= 0.0
    ensures r >= 0.0 && (r == 0.0 <==> x == 0.0)
  {
    assert IsRootCandidate(x, x);
    var y :| IsRootCandidate(x, y);
    y
  }

  predicate IsRootCandidate(x: real, y: real) {
    y >= 0.0 && (y == 0.0 <==> x == 0.0)
  }

  /** The arithmetic mean of a non-empty sequence. */
  function Mean(xs: seq<real>): real
    requires |xs| > 0
  {
    Sum(xs) / |xs| as real
  }

  function Square(x: real): (r: real)
    ensures r >= 0.0
    ensures r == 0.0 <==> x == 0.0
  {
    if x == 0.0 then 0.0
    else
      var r := x * x;
      assert r / x == x;
      PositiveSquare(x);
      r
  }

  lemma PositiveSquare(x: real)
    ensures x != 0.0 ==> x * x > 0.0
    ensures x * x >= 0.0
  {
    if x < 0.0 {
      var y := -x;
      assert y * y > 0.0;
      assert y * y == x * x;
    } else if x > 0.0 {
      assert x * x > 0.0;
    }
  }

  /** The sum of the squared deviations of `xs` from `m`. */
  function SquaredDeviations(xs: seq<real>, m: real): (r: real)
    ensures r >= 0.0
  {
    if xs == [] then 0.0
    else SquaredDeviations(xs[..|xs| - 1], m) + Square(xs[|xs| - 1] - m)
  }

  /** The squared deviations vanish exactly when every element equals `m`. */
  lemma {:induction false} SquaredDeviationsZero(xs: seq<real>, m: real)
    ensures SquaredDeviations(xs, m) == 0.0 <==> forall i :: 0 <= i < |xs| ==> xs[i] == m
  {
    if xs != [] {
      var n := |xs| - 1;
      SquaredDeviationsZero(xs[..n], m);
      assert forall i :: 0 <= i < n ==> xs[..n][i] == xs[i];
    }
  }

  /** The mean of a constant sequence is that constant. */
  lemma MeanOfConstant(xs: seq<real>, c: real)
    requires |xs| > 0 && forall i :: 0 <= i < |xs| ==> xs[i] == c
    ensures Mean(xs) == c
  {
    SumConstant(xs, c);
  }
}

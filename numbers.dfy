/**
  The numeric builtins the collectors apply, over exact reals: the mean of
  a series (pandas Series.mean) and round(x, digits), which rounds half to
  even.
 */
module Numbers {

  function Sum(xs: seq<int>): int
  {
    if xs == [] then 0 else Sum(xs[..|xs| - 1]) + xs[|xs| - 1]
  }

  /** Series.mean() of a non-empty series. */
  function Mean(xs: seq<int>): real
    requires |xs| > 0
  {
    Sum(xs) as real / |xs| as real
  }

  /** The mean times the number of points is the sum. */
  lemma MeanTimesLength(xs: seq<int>)
    requires |xs| > 0
    ensures Mean(xs) * |xs| as real == Sum(xs) as real
  {
  }

  lemma {:induction false} SumConstant(xs: seq<int>, c: int)
    requires forall i :: 0 <= i < |xs| ==> xs[i] == c
    ensures Sum(xs) == |xs| * c
  {
    if xs != [] {
      SumConstant(xs[..|xs| - 1], c);
    }
  }

  /** The mean of a series whose points all equal c is c. */
  lemma MeanConstant(xs: seq<int>, c: int)
    requires |xs| > 0
    requires forall i :: 0 <= i < |xs| ==> xs[i] == c
    ensures Mean(xs) == c as real
  {
    SumConstant(xs, c);
    assert Sum(xs) as real == |xs| as real * c as real;
  }

  /** The mean lies between the least and the greatest point. */
  lemma {:induction false} SumBounds(xs: seq<int>, lo: int, hi: int)
    requires forall i :: 0 <= i < |xs| ==> lo <= xs[i] <= hi
    ensures |xs| * lo <= Sum(xs) <= |xs| * hi
  {
    if xs != [] {
      SumBounds(xs[..|xs| - 1], lo, hi);
    }
  }

  /** A series without negative points has a non-negative mean. */
  lemma MeanNonNegative(xs: seq<int>)
    requires |xs| > 0
    requires forall i :: 0 <= i < |xs| ==> 0 <= xs[i]
    ensures Mean(xs) >= 0.0
  {
    SumBounds(xs, 0, Peak(xs));
  }

  /** Series.max() of a non-empty series. */
  function Peak(xs: seq<int>): (m: int)
    requires |xs| > 0
    ensures m in xs
    ensures forall i :: 0 <= i < |xs| ==> xs[i] <= m
  {
    if |xs| == 1 then xs[0]
    else
      var m := Peak(xs[..|xs| - 1]);
      if xs[|xs| - 1] > m then xs[|xs| - 1] else m
  }

  function Pow10(d: nat): (p: nat)
    ensures p >= 1
  {
    if d == 0 then 1 else 10 * Pow10(d - 1)
  }

  /** The integer nearest to y, ties going to the even one. */
  function RoundHalfEven(y: real): (n: int)
    ensures -0.5 <= n as real - y <= 0.5
  {
    var f := y.Floor;
    var frac := y - f as real;
    if frac > 0.5 then f + 1
    else if frac < 0.5 then f
    else if f % 2 == 0 then f
    else f + 1
  }

  /** x to the nearest multiple of 1/scale, ties to the even multiple. */
  function RoundTo(x: real, scale: real): real
    requires scale > 0.0
  {
    RoundHalfEven(x * scale) as real / scale
  }

  /** round(x, digits) */
  function Round(x: real, digits: nat): real
  {
    RoundTo(x, Pow10(digits) as real)
  }

  /** Rounding to a multiple of 1/scale moves x by at most half a step. */
  lemma RoundToError(x: real, scale: real)
    requires scale > 0.0
    ensures -0.5 <= (RoundTo(x, scale) - x) * scale <= 0.5
  {
    var y := x * scale;
    var n := RoundHalfEven(y);
    var q := n as real / scale;
    assert RoundTo(x, scale) == q;
    assert q * scale == n as real;
    assert (q - x) * scale == n as real - y;
  }

  /** The rounding error of round(x, digits) is at most half a unit in the last place kept. */
  lemma RoundError(x: real, digits: nat)
    ensures var scale := Pow10(digits) as real; -0.5 <= (Round(x, digits) - x) * scale <= 0.5
  {
    RoundToError(x, Pow10(digits) as real);
  }

  lemma RoundToUnfold(x: real, scale: real)
    requires scale > 0.0
    ensures RoundTo(x, scale) == RoundHalfEven(x * scale) as real / scale
  {
  }

  /** round(x, 0) sends a value halfway between two integers to the even one: round(2.5) == 2, round(3.5) == 4. */
  lemma RoundHalfToEven(n: int)
    ensures Round(n as real + 0.5, 0) == (if n % 2 == 0 then n else n + 1) as real
  {
    var y := n as real + 0.5;
    RoundToUnfold(y, 1.0);
    assert y * 1.0 == y;
    assert y.Floor == n;
  }

  /** A value already on the grid comes back unchanged: rounding is idempotent on its results. */
  lemma RoundToExact(n: int, scale: real)
    requires scale > 0.0
    ensures RoundTo(n as real / scale, scale) == n as real / scale
  {
    var x := n as real / scale;
    RoundToUnfold(x, scale);
    assert x * scale == n as real;
    assert (n as real).Floor == n;
    assert RoundHalfEven(x * scale) == n;
  }
}

/** Least-squares slope of equally spaced samples. Real arithmetic: rounding is not modelled. */
module Trend {

  function Square(x: real): real {
    x * x
  }

  function Mul(x: real, y: real): real {
    x * y
  }

  // ---- Sums over the first n samples ----

  function SumY(ys: seq<real>, n: nat): real
    requires n <= |ys|
  {
    if n == 0 then 0.0 else SumY(ys, n - 1) + ys[n-1]
  }

  function Numerator(ys: seq<real>, n: nat, xm: real, ym: real): real
    requires n <= |ys|
  {
    if n == 0 then 0.0 else Numerator(ys, n - 1, xm, ym) + Mul((n - 1) as real - xm, ys[n-1] - ym)
  }

  function Denominator(n: nat, xm: real): real {
    if n == 0 then 0.0 else Denominator(n - 1, xm) + Square((n - 1) as real - xm)
  }

  function MeanX(n: nat): real {
    (n as real - 1.0) / 2.0
  }

  function MeanY(ys: seq<real>): real
    requires |ys| > 0
  {
    SumY(ys, |ys|) / |ys| as real
  }

  function Direction(slope: real): string {
    if slope > 0.01 then "increasing" else if slope < -0.01 then "decreasing" else "stable"
  }

  function Slope(ys: seq<real>): real
    requires |ys| >= 2
  {
    DenominatorIsPositive(|ys|);
    Numerator(ys, |ys|, MeanX(|ys|), MeanY(ys)) / Denominator(|ys|, MeanX(|ys|))
  }

  method ComputeTrendSlope(points: seq<real>) returns (slope: real, direction: string)
    ensures |points| < 2 ==> slope == 0.0 && direction == "stable"
    ensures |points| >= 2 ==> slope == Slope(points) && direction == Direction(slope)
    ensures direction == "increasing" <==> slope > 0.01
    ensures direction == "decreasing" <==> slope < -0.01
    ensures direction == "stable" <==> -0.01 <= slope <= 0.01
  {
    if |points| < 2 {
      return 0.0, "stable";
    }
    var n := |points|;
    var xMean := (n - 1) as real / 2.0;
    var total := 0.0;
    for i := 0 to n
      invariant total == SumY(points, i)
    {
      total := total + points[i];
    }
    var yMean := total / n as real;
    var numerator, denominator := 0.0, 0.0;
    hide Mul;
    hide Square;
    for i := 0 to n
      invariant numerator == Numerator(points, i, xMean, yMean)
      invariant denominator == Denominator(i, xMean)
    {
      numerator := numerator + Mul(i as real - xMean, points[i] - yMean);
      denominator := denominator + Square(i as real - xMean);
    }
    DenominatorIsPositive(n);
    assert xMean == MeanX(n);
    if denominator == 0.0 {
      return 0.0, "stable";
    }
    slope := numerator / denominator;
    direction := Direction(slope);
  }

  // ---- The denominator ----

  /** Six times the sum of the squared distances of 0, ..., n-1 from any point. */
  function SixTimes(n: real, xm: real): real {
    n * (n - 1.0) * (2.0 * n - 1.0) - 6.0 * xm * n * (n - 1.0) + 6.0 * n * xm * xm
  }

  lemma SixTimesStep(n: real, xm: real)
    ensures SixTimes(n + 1.0, xm) == SixTimes(n, xm) + 6.0 * Square(n - xm)
  {
  }

  lemma {:induction false} DenominatorAround(n: nat, xm: real)
    ensures 6.0 * Denominator(n, xm) == SixTimes(n as real, xm)
  {
    if n > 0 {
      DenominatorAround(n - 1, xm);
      SixTimesStep((n - 1) as real, xm);
    }
  }

  lemma SixTimesAtMean(n: real)
    ensures 2.0 * SixTimes(n, (n - 1.0) / 2.0) == n * (n * n - 1.0)
  {
  }

  /** The denominator has a closed form and never vanishes, so the guard against zero is never taken. */
  lemma DenominatorIsPositive(n: nat)
    requires n >= 2
    ensures Denominator(n, MeanX(n)) == n as real * (n as real * n as real - 1.0) / 12.0
    ensures Denominator(n, MeanX(n)) > 0.0
  {
    DenominatorAround(n, MeanX(n));
    SixTimesAtMean(n as real);
    var x := n as real;
    assert x * x >= 2.0 * x;
    assert x * (x * x - 1.0) > 0.0;
  }

  // ---- Squared errors ----

  /** The squared error of the line that has the given slope and passes d above the centre of the data. */
  function ErrorAround(ys: seq<real>, n: nat, xm: real, ym: real, slope: real, d: real): real
    requires n <= |ys|
  {
    if n == 0 then 0.0
    else ErrorAround(ys, n - 1, xm, ym, slope, d) + Square((ys[n-1] - ym) - slope * ((n - 1) as real - xm) - d)
  }

  /** The squared error of y = slope * x + intercept over all samples. */
  function SquaredError(ys: seq<real>, n: nat, slope: real, intercept: real): real
    requires n <= |ys|
  {
    if n == 0 then 0.0
    else SquaredError(ys, n - 1, slope, intercept) + Square(ys[n-1] - slope * (n - 1) as real - intercept)
  }

  function Spread(ys: seq<real>, n: nat, ym: real): real
    requires n <= |ys|
  {
    if n == 0 then 0.0 else Spread(ys, n - 1, ym) + Square(ys[n-1] - ym)
  }

  /** Sums of the deviations, of y and of x. */
  function OffY(ys: seq<real>, n: nat, ym: real): real
    requires n <= |ys|
  {
    if n == 0 then 0.0 else OffY(ys, n - 1, ym) + (ys[n-1] - ym)
  }

  function OffX(n: nat, xm: real): real {
    if n == 0 then 0.0 else OffX(n - 1, xm) + ((n - 1) as real - xm)
  }

  /** The error as a polynomial in slope and offset. */
  function Expanded(v: real, num: real, den: real, offY: real, offX: real, n: real, slope: real, d: real): real {
    v - 2.0 * slope * num - 2.0 * d * offY + slope * slope * den + 2.0 * slope * d * offX + n * d * d
  }

  lemma ExpandOne(
    v: real, num: real, den: real, offY: real, offX: real, n: real, slope: real, d: real, y: real, x: real)
    ensures Expanded(v, num, den, offY, offX, n, slope, d) + Square(y - slope * x - d)
         == Expanded(v + Square(y), num + Mul(x, y), den + Square(x), offY + y, offX + x, n + 1.0, slope, d)
  {
  }

  lemma ExpandNone(slope: real, d: real)
    ensures Expanded(0.0, 0.0, 0.0, 0.0, 0.0, 0.0, slope, d) == 0.0
  {
  }

  lemma {:induction false} ErrorExpands(ys: seq<real>, n: nat, xm: real, ym: real, slope: real, d: real)
    requires n <= |ys|
    ensures ErrorAround(ys, n, xm, ym, slope, d)
         == Expanded(Spread(ys, n, ym), Numerator(ys, n, xm, ym), Denominator(n, xm), OffY(ys, n, ym), OffX(n, xm),
                     n as real, slope, d)
  {
    hide Expanded;
    hide Square;
    hide Mul;
    if n == 0 {
      ExpandNone(slope, d);
    } else {
      ErrorExpands(ys, n - 1, xm, ym, slope, d);
      ExpandOne(Spread(ys, n - 1, ym), Numerator(ys, n - 1, xm, ym), Denominator(n - 1, xm), OffY(ys, n - 1, ym),
        OffX(n - 1, xm), (n - 1) as real, slope, d, ys[n-1] - ym, (n - 1) as real - xm);
    }
  }

  lemma {:induction false} OffYIsSum(ys: seq<real>, n: nat, ym: real)
    requires n <= |ys|
    ensures OffY(ys, n, ym) == SumY(ys, n) - n as real * ym
  {
    if n > 0 { OffYIsSum(ys, n - 1, ym); }
  }

  lemma {:induction false} OffXIsSum(n: nat, xm: real)
    ensures 2.0 * OffX(n, xm) == n as real * (n as real - 1.0) - 2.0 * n as real * xm
  {
    if n > 0 {
      OffXIsSum(n - 1, xm);
      var x := (n - 1) as real;
      assert x * (x - 1.0) + 2.0 * x == (x + 1.0) * x;
    }
  }

  lemma {:induction false} ErrorOfLine(ys: seq<real>, n: nat, xm: real, ym: real, slope: real, intercept: real)
    requires n <= |ys|
    ensures SquaredError(ys, n, slope, intercept)
         == ErrorAround(ys, n, xm, ym, slope, intercept + slope * xm - ym)
  {
    if n > 0 {
      ErrorOfLine(ys, n - 1, xm, ym, slope, intercept);
      var x := (n - 1) as real;
      assert slope * (x - xm) == slope * x - slope * xm;
      assert ys[n-1] - slope * x - intercept == (ys[n-1] - ym) - slope * (x - xm) - (intercept + slope * xm - ym);
      hide Square;
    }
  }

  /** Completing the square. */
  lemma CentredErrorIsLeast(v: real, num: real, den: real, n: real, slope: real, d: real)
    requires den > 0.0 && n >= 0.0
    ensures Expanded(v, num, den, 0.0, 0.0, n, num / den, 0.0) <= Expanded(v, num, den, 0.0, 0.0, n, slope, d)
  {
    var m := num / den;
    assert num == m * den;
    Gap(v, m, den, n, slope, d);
    assert den * Square(slope - m) >= 0.0 by { SquareIsNonNegative(slope - m); }
    assert n * Square(d) >= 0.0 by { SquareIsNonNegative(d); }
  }

  lemma SquareIsNonNegative(x: real)
    ensures Square(x) >= 0.0
  {
  }

  lemma Gap(v: real, m: real, den: real, n: real, slope: real, d: real)
    ensures Expanded(v, m * den, den, 0.0, 0.0, n, slope, d)
         == Expanded(v, m * den, den, 0.0, 0.0, n, m, 0.0) + den * Square(slope - m) + n * Square(d)
  {
  }

  /** The intercept that goes with the slope: the line through the centre of the data. */
  function Intercept(ys: seq<real>): real
    requires |ys| >= 2
  {
    MeanY(ys) - Slope(ys) * MeanX(|ys|)
  }

  /** Among all lines, none has a smaller sum of squared errors than the computed one. */
  lemma SlopeIsLeastSquares(ys: seq<real>, slope: real, intercept: real)
    requires |ys| >= 2
    ensures SquaredError(ys, |ys|, Slope(ys), Intercept(ys)) <= SquaredError(ys, |ys|, slope, intercept)
  {
    var n, xm, ym := |ys|, MeanX(|ys|), MeanY(ys);
    var m, c := Slope(ys), Intercept(ys);
    ErrorOfLine(ys, n, xm, ym, m, c);
    ErrorOfLine(ys, n, xm, ym, slope, intercept);
    var d := intercept + slope * xm - ym;
    assert c + m * xm - ym == 0.0;
    ErrorExpands(ys, n, xm, ym, m, 0.0);
    ErrorExpands(ys, n, xm, ym, slope, d);
    CentreHasNoOffset(ys);
    DenominatorIsPositive(n);
    hide Expanded;
    CentredErrorIsLeast(Spread(ys, n, ym), Numerator(ys, n, xm, ym), Denominator(n, xm), n as real, slope, d);
  }

  lemma CentreHasNoOffset(ys: seq<real>)
    requires |ys| >= 2
    ensures OffY(ys, |ys|, MeanY(ys)) == 0.0 && OffX(|ys|, MeanX(|ys|)) == 0.0
  {
    OffYIsSum(ys, |ys|, MeanY(ys));
    OffXIsSum(|ys|, MeanX(|ys|));
    var n := |ys| as real;
    assert n * (SumY(ys, |ys|) / n) == SumY(ys, |ys|);
    assert 2.0 * n * ((n - 1.0) / 2.0) == n * (n - 1.0);
  }
}

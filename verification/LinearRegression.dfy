/** The predictor's closed-form least squares, over exact reals. */
module LinearRegression {

  import opened Common
  datatype RegressionResult = RegressionResult(slope: real, intercept: real, rSquared: real, n: nat)

  // ---- The computation ------------------------------------------------------------

  function Times(a: real, b: real): real { a * b }

  function Sum(v: seq<real>): real {
    if v == [] then 0.0 else Sum(v[..|v| - 1]) + v[|v| - 1]
  }

  function SumProd(u: seq<real>, v: seq<real>): real
    requires |u| == |v|
  {
    if u == [] then 0.0 else SumProd(u[..|u| - 1], v[..|v| - 1]) + Times(u[|u| - 1], v[|v| - 1])
  }

  function Excess(x: real, y: real, slope: real, intercept: real): real {
    y - (slope * x + intercept)
  }

  /** What each y exceeds the line by. */
  function Residuals(xs: seq<real>, ys: seq<real>, slope: real, intercept: real): (r: seq<real>)
    requires |xs| == |ys|
    ensures |r| == |xs|
    ensures forall i | 0 <= i < |xs| :: r[i] == Excess(xs[i], ys[i], slope, intercept)
  {
    seq(|xs|, i requires 0 <= i < |xs| => Excess(xs[i], ys[i], slope, intercept))
  }

  function SquaredError(xs: seq<real>, ys: seq<real>, slope: real, intercept: real): real
    requires |xs| == |ys|
  {
    var r := Residuals(xs, ys, slope, intercept);
    SumProd(r, r)
  }

  function Determinant(n: real, s: real, t: real, st: real): real {
    n * st - s * t
  }

  function Denominator(xs: seq<real>): real {
    Determinant(|xs| as real, Sum(xs), Sum(xs), SumProd(xs, xs))
  }

  function Numerator(xs: seq<real>, ys: seq<real>): real
    requires |xs| == |ys|
  {
    Determinant(|xs| as real, Sum(xs), Sum(ys), SumProd(xs, ys))
  }

  function MeanOf(ys: seq<real>): real
    requires ys != []
  {
    Quotient(Sum(ys), |ys| as real)
  }

  function TotalVariation(xs: seq<real>, ys: seq<real>): real
    requires |xs| == |ys| > 0
  {
    SquaredError(xs, ys, 0.0, MeanOf(ys))
  }

  function Abs(x: real): real { if x < 0.0 then -x else x }
  function Max(a: real, b: real): real { if a < b then b else a }
  function Min(a: real, b: real): real { if b < a then b else a }

  const TINY := 0.000000000001

  function Quotient(a: real, b: real): (q: real)
    requires b != 0.0
    ensures Times(q, b) == a
  {
    a / b
  }

  function Slope(xs: seq<real>, ys: seq<real>): real
    requires |xs| == |ys| && Denominator(xs) != 0.0
  {
    Quotient(Numerator(xs, ys), Denominator(xs))
  }

  function Intercept(xs: seq<real>, ys: seq<real>): real
    requires |xs| == |ys| > 0 && Denominator(xs) != 0.0
  {
    Quotient(Sum(ys) - Times(Slope(xs, ys), Sum(xs)), |xs| as real)
  }

  /** The coefficient of determination before it is clamped. */
  function RawRSquared(xs: seq<real>, ys: seq<real>): real
    requires |xs| == |ys| > 0 && Denominator(xs) != 0.0
  {
    var tot := TotalVariation(xs, ys);
    if tot > 0.0 then 1.0 - Quotient(SquaredError(xs, ys, Slope(xs, ys), Intercept(xs, ys)), tot) else 0.0
  }

  function LinearRegression(xs: seq<real>, ys: seq<real>): Option<RegressionResult> {
    var n := |xs|;
    if n < 2 || |ys| != n then None
    else if Abs(Denominator(xs)) < TINY then None
    else
      Some(RegressionResult(Slope(xs, ys), Intercept(xs, ys), Max(0.0, Min(1.0, RawRSquared(xs, ys))), n))
  }

  // ---- Sums of products form an inner product -------------------------------------------

  function Ones(n: nat): (r: seq<real>)
    ensures |r| == n
  {
    seq(n, i => 1.0)
  }

  function PlusOne(v: real, c: real, w: real): real {
    v + c * w
  }

  function Plus(v: seq<real>, c: real, w: seq<real>): (r: seq<real>)
    requires |v| == |w|
    ensures |r| == |v|
    ensures forall i | 0 <= i < |v| :: r[i] == PlusOne(v[i], c, w[i])
  {
    seq(|v|, i requires 0 <= i < |v| => PlusOne(v[i], c, w[i]))
  }

  lemma {:induction false} Symmetric(u: seq<real>, v: seq<real>)
    requires |u| == |v|
    ensures SumProd(u, v) == SumProd(v, u)
  {
    if u != [] { Symmetric(u[..|u| - 1], v[..|v| - 1]); }
  }

  lemma {:induction false} Linear(u: seq<real>, v: seq<real>, c: real, w: seq<real>)
    requires |u| == |v| == |w|
    ensures SumProd(u, Plus(v, c, w)) == PlusOne(SumProd(u, v), c, SumProd(u, w))
  {
    if u != [] {
      var n := |u| - 1;
      Linear(u[..n], v[..n], c, w[..n]);
      assert Plus(v, c, w)[..n] == Plus(v[..n], c, w[..n]);
      LinearStep(SumProd(u[..n], v[..n]), SumProd(u[..n], w[..n]), u[n], v[n], c, w[n]);
    }
  }

  lemma {:induction false} LinearStep(p: real, q: real, u: real, v: real, c: real, w: real)
    ensures PlusOne(p, c, q) + Times(u, PlusOne(v, c, w)) == PlusOne(p + Times(u, v), c, q + Times(u, w))
  {}

  lemma {:induction false} SumIsProd(v: seq<real>)
    ensures Sum(v) == SumProd(Ones(|v|), v)
  {
    if v != [] {
      SumIsProd(v[..|v| - 1]);
      assert Ones(|v|)[..|v| - 1] == Ones(|v| - 1);
    }
  }

  lemma {:induction false} OnesCount(n: nat)
    ensures SumProd(Ones(n), Ones(n)) == n as real
  {
    if n > 0 {
      OnesCount(n - 1);
      assert Ones(n)[..n - 1] == Ones(n - 1);
    }
  }

  lemma {:induction false} Positive(v: seq<real>)
    ensures SumProd(v, v) >= 0.0
    ensures SumProd(v, v) == 0.0 <==> forall i | 0 <= i < |v| :: v[i] == 0.0
  {
    if v != [] {
      var n := |v| - 1;
      Positive(v[..n]);
      SquareSign(v[n]);
      SumOfSquares(SumProd(v[..n], v[..n]), Times(v[n], v[n]), v[n]);
      assert (forall i | 0 <= i < |v| :: v[i] == 0.0) <==> (forall i | 0 <= i < n :: v[..n][i] == 0.0) && v[n] == 0.0;
    }
  }

  lemma {:induction false} SumOfSquares(p: real, t: real, x: real)
    requires p >= 0.0 && if x == 0.0 then t == 0.0 else t > 0.0
    ensures p + t >= 0.0 && (p + t == 0.0 <==> p == 0.0 && x == 0.0)
  {}

  lemma {:induction false} ProductSign(q: real, t: real)
    requires t > 0.0
    ensures if q > 0.0 then Times(q, t) > 0.0 else if q == 0.0 then Times(q, t) == 0.0 else Times(q, t) < 0.0
  {
    if q > 0.0 {
      assert q * t > 0.0;
    } else if q < 0.0 {
      var p := 0.0 - q;
      assert p * t > 0.0;
      assert p * t == 0.0 - q * t;
    } else {
      ZeroTimes(q, t);
    }
  }

  lemma {:induction false} ZeroTimes(q: real, t: real)
    requires q == 0.0
    ensures Times(q, t) == 0.0 == Times(t, q)
  {}

  lemma {:induction false} SquareSign(x: real)
    ensures if x == 0.0 then Times(x, x) == 0.0 else Times(x, x) > 0.0
  {
    if x > 0.0 {
      ProductSign(x, x);
    } else if x < 0.0 {
      var y := 0.0 - x;
      ProductSign(y, y);
      assert y * y == x * x;
    } else {
      ZeroTimes(x, x);
    }
  }

  // ---- The normal equations ---------------------------------------------------------------

  lemma {:induction false} ResidualsAsSum(xs: seq<real>, ys: seq<real>, a: real, b: real)
    requires |xs| == |ys|
    ensures Residuals(xs, ys, a, b) == Plus(Plus(ys, -a, xs), -b, Ones(|xs|))
  {
    forall i | 0 <= i < |xs| ensures Residuals(xs, ys, a, b)[i] == Plus(Plus(ys, -a, xs), -b, Ones(|xs|))[i] {
      ExcessAsSum(xs[i], ys[i], a, b);
    }
  }

  lemma {:induction false} ExcessAsSum(x: real, y: real, a: real, b: real)
    ensures Excess(x, y, a, b) == PlusOne(PlusOne(y, -a, x), -b, 1.0)
  {}

  lemma {:induction false} ResidualsAgainst(u: seq<real>, xs: seq<real>, ys: seq<real>, a: real, b: real)
    requires |u| == |xs| == |ys|
    ensures SumProd(u, Residuals(xs, ys, a, b)) ==
            PlusOne(PlusOne(SumProd(u, ys), -a, SumProd(u, xs)), -b, SumProd(u, Ones(|xs|)))
  {
    ResidualsAsSum(xs, ys, a, b);
    Linear(u, Plus(ys, -a, xs), -b, Ones(|xs|));
    Linear(u, ys, -a, xs);
  }

  lemma {:induction false} ResidualSum(xs: seq<real>, ys: seq<real>, a: real, b: real)
    requires |xs| == |ys|
    ensures Sum(Residuals(xs, ys, a, b)) == PlusOne(PlusOne(Sum(ys), -a, Sum(xs)), -b, |xs| as real)
  {
    ResidualsAgainst(Ones(|xs|), xs, ys, a, b);
    SumIsProd(Residuals(xs, ys, a, b));
    SumIsProd(xs);
    SumIsProd(ys);
    OnesCount(|xs|);
  }

  lemma {:induction false} ResidualCross(xs: seq<real>, ys: seq<real>, a: real, b: real)
    requires |xs| == |ys|
    ensures SumProd(xs, Residuals(xs, ys, a, b)) == PlusOne(PlusOne(SumProd(xs, ys), -a, SumProd(xs, xs)), -b, Sum(xs))
  {
    ResidualsAgainst(xs, xs, ys, a, b);
    SumIsProd(xs);
    Symmetric(xs, Ones(|xs|));
  }

  /** The fitted line balances: its residuals sum to zero and are uncorrelated with x. */
  lemma {:induction false} NormalEquations(xs: seq<real>, ys: seq<real>)
    requires |xs| == |ys| > 0 && Denominator(xs) != 0.0
    ensures Sum(Residuals(xs, ys, Slope(xs, ys), Intercept(xs, ys))) == 0.0
    ensures SumProd(xs, Residuals(xs, ys, Slope(xs, ys), Intercept(xs, ys))) == 0.0
  {
    var a, b := Slope(xs, ys), Intercept(xs, ys);
    ResidualSum(xs, ys, a, b);
    ResidualCross(xs, ys, a, b);
    LineBalances(xs, ys);
  }

  lemma {:induction false} LineBalances(xs: seq<real>, ys: seq<real>)
    requires |xs| == |ys| > 0 && Denominator(xs) != 0.0
    ensures PlusOne(PlusOne(Sum(ys), -Slope(xs, ys), Sum(xs)), -Intercept(xs, ys), |xs| as real) == 0.0
    ensures PlusOne(PlusOne(SumProd(xs, ys), -Slope(xs, ys), SumProd(xs, xs)), -Intercept(xs, ys), Sum(xs)) == 0.0
  {
    Balances(|xs| as real, Sum(xs), Sum(ys), SumProd(xs, xs), SumProd(xs, ys), Slope(xs, ys), Intercept(xs, ys));
  }

  lemma {:induction false} Balances(n: real, sx: real, sy: real, sxx: real, sxy: real, a: real, b: real)
    requires n > 0.0
    requires Times(a, Determinant(n, sx, sx, sxx)) == Determinant(n, sx, sy, sxy)
    requires Times(b, n) == sy - Times(a, sx)
    ensures PlusOne(PlusOne(sy, -a, sx), -b, n) == 0.0
    ensures PlusOne(PlusOne(sxy, -a, sxx), -b, sx) == 0.0
  {
    var e := sxy - a * sxx - b * sx;
    calc {
      n * e;
      n * sxy - a * (n * sxx) - (b * n) * sx;
      n * sxy - a * (n * sxx) - (sy - a * sx) * sx;
      n * sxy - a * (n * sxx - sx * sx) - sx * sy;
      0.0;
    }
  }

  // ---- The fitted line is the best line -------------------------------------------------

  lemma {:induction false} ResidualsShift(xs: seq<real>, ys: seq<real>, a: real, b: real, a': real, b': real)
    requires |xs| == |ys|
    ensures Residuals(xs, ys, a', b') == Plus(Plus(Residuals(xs, ys, a, b), a - a', xs), b - b', Ones(|xs|))
  {
    var shifted := Plus(Plus(Residuals(xs, ys, a, b), a - a', xs), b - b', Ones(|xs|));
    forall i | 0 <= i < |xs| ensures Residuals(xs, ys, a', b')[i] == shifted[i] {
      ExcessShift(xs[i], ys[i], a, b, a', b');
    }
  }

  lemma {:induction false} ExcessShift(x: real, y: real, a: real, b: real, a': real, b': real)
    ensures Excess(x, y, a', b') == PlusOne(PlusOne(Excess(x, y, a, b), a - a', x), b - b', 1.0)
  {}

  lemma {:induction false} Expand(u: seq<real>, r: seq<real>, c: real, v: seq<real>, d: real, w: seq<real>)
    requires |u| == |r| == |v| == |w|
    ensures SumProd(u, Plus(Plus(r, c, v), d, w)) == PlusOne(PlusOne(SumProd(u, r), c, SumProd(u, v)), d, SumProd(u, w))
  {
    Linear(u, Plus(r, c, v), d, w);
    Linear(u, r, c, v);
  }

  /** The squared length of r + c v + d w. */
  lemma {:induction false} ExpandSquare(r: seq<real>, c: real, v: seq<real>, d: real, w: seq<real>)
    requires |r| == |v| == |w| && SumProd(v, r) == 0.0 && SumProd(w, r) == 0.0
    ensures var s := Plus(Plus(r, c, v), d, w);
            SumProd(s, s) == SumProd(r, r) + Form(c, d, SumProd(v, v), SumProd(v, w), SumProd(w, w))
  {
    var s := Plus(Plus(r, c, v), d, w);
    Expand(s, r, c, v, d, w);
    Symmetric(s, r);
    Symmetric(s, v);
    Symmetric(s, w);
    Expand(r, r, c, v, d, w);
    Expand(v, r, c, v, d, w);
    Expand(w, r, c, v, d, w);
    Symmetric(r, v);
    Symmetric(r, w);
    Symmetric(v, w);
    Collect(SumProd(r, r), SumProd(v, v), SumProd(v, w), SumProd(w, w), c, d);
  }

  function Form(c: real, d: real, vv: real, vw: real, ww: real): real {
    c * c * vv + 2.0 * c * d * vw + d * d * ww
  }

  lemma {:induction false} Collect(rr: real, vv: real, vw: real, ww: real, c: real, d: real)
    ensures PlusOne(PlusOne(PlusOne(PlusOne(rr, c, 0.0), d, 0.0), c, PlusOne(PlusOne(0.0, c, vv), d, vw)),
                    d, PlusOne(PlusOne(0.0, c, vw), d, ww))
         == rr + Form(c, d, vv, vw, ww)
  {}

  /** Any other line's error is the fitted line's plus a quadratic form in the difference. */
  lemma {:induction false} ErrorOfOtherLine(xs: seq<real>, ys: seq<real>, a': real, b': real)
    requires |xs| == |ys| > 0 && Denominator(xs) != 0.0
    ensures SquaredError(xs, ys, a', b') == SquaredError(xs, ys, Slope(xs, ys), Intercept(xs, ys))
              + Form(Slope(xs, ys) - a', Intercept(xs, ys) - b', SumProd(xs, xs), Sum(xs), |xs| as real)
  {
    var a, b, ones := Slope(xs, ys), Intercept(xs, ys), Ones(|xs|);
    var r := Residuals(xs, ys, a, b);
    NormalEquations(xs, ys);
    SumIsProd(r);
    SumIsProd(xs);
    Symmetric(xs, ones);
    OnesCount(|xs|);
    ResidualsShift(xs, ys, a, b, a', b');
    ExpandSquare(r, a - a', xs, b - b', ones);
  }

  /** n times the form is a weighted sum of two squares. */
  lemma {:induction false} FormAsSquares(c: real, d: real, sxx: real, sx: real, n: real)
    ensures Times(Form(c, d, sxx, sx, n), n) ==
            Times(Times(c, c), Determinant(n, sx, sx, sxx)) + Times(PlusOne(Times(c, sx), d, n), PlusOne(Times(c, sx), d, n))
  {}

  // ---- The denominator ---------------------------------------------------------------------

  function Deviations(xs: seq<real>, x: real): (r: seq<real>)
    ensures |r| == |xs|
    ensures forall i | 0 <= i < |xs| :: r[i] == PlusOne(xs[i], -x, 1.0)
  {
    Plus(xs, -x, Ones(|xs|))
  }

  lemma {:induction false} DeviationSquares(xs: seq<real>, x: real)
    ensures SumProd(Deviations(xs, x), Deviations(xs, x)) == Form(1.0, -x, SumProd(xs, xs), Sum(xs), |xs| as real)
  {
    var ones, d := Ones(|xs|), Deviations(xs, x);
    Linear(d, xs, -x, ones);
    Symmetric(d, xs);
    Symmetric(d, ones);
    Linear(xs, xs, -x, ones);
    Linear(ones, xs, -x, ones);
    Symmetric(xs, ones);
    SumIsProd(xs);
    OnesCount(|xs|);
    CollectDeviation(SumProd(xs, xs), Sum(xs), |xs| as real, x);
  }

  lemma {:induction false} CollectDeviation(sxx: real, sx: real, n: real, x: real)
    ensures PlusOne(PlusOne(sxx, -x, sx), -x, PlusOne(sx, -x, n)) == Form(1.0, -x, sxx, sx, n)
  {}

  /** One more point adds its squared distances to all the others. */
  lemma {:induction false} DenominatorStep(xs: seq<real>)
    requires xs != []
    ensures var n := |xs| - 1;
            Denominator(xs) == Denominator(xs[..n]) + SumProd(Deviations(xs[..n], xs[n]), Deviations(xs[..n], xs[n]))
  {
    var n := |xs| - 1;
    DeviationSquares(xs[..n], xs[n]);
    DeterminantStep(n as real, Sum(xs[..n]), SumProd(xs[..n], xs[..n]), xs[n]);
  }

  lemma {:induction false} DeterminantStep(n: real, sx: real, sxx: real, x: real)
    ensures Determinant(n + 1.0, sx + x, sx + x, sxx + Times(x, x)) == Determinant(n, sx, sx, sxx) + Form(1.0, -x, sxx, sx, n)
  {}

  ghost predicate AllEqual(xs: seq<real>) {
    forall i, j | 0 <= i < |xs| && 0 <= j < |xs| :: xs[i] == xs[j]
  }

  /** The denominator is never negative, and zero exactly when all xs coincide. */
  lemma {:induction false} DenominatorSign(xs: seq<real>)
    ensures Denominator(xs) >= 0.0
    ensures Denominator(xs) == 0.0 <==> AllEqual(xs)
  {
    if xs != [] {
      var n := |xs| - 1;
      var init, x := xs[..n], xs[n];
      var d := Deviations(init, x);
      DenominatorSign(init);
      DenominatorStep(xs);
      Positive(d);
      if AllEqual(xs) {
        forall i | 0 <= i < n ensures d[i] == 0.0 { assert init[i] == xs[i] == x; }
        assert AllEqual(init);
      } else if forall i | 0 <= i < n :: d[i] == 0.0 {
        forall i | 0 <= i < |xs| ensures xs[i] == x {
          if i < n { assert d[i] == 0.0 && init[i] == xs[i]; }
        }
      }
    } else {
      assert Denominator(xs) == 0.0;
    }
  }

  // ---- Main results ----------------------------------------------------------------------

  lemma {:induction false} FormNonNegative(xs: seq<real>, c: real, d: real)
    requires xs != []
    ensures Form(c, d, SumProd(xs, xs), Sum(xs), |xs| as real) >= 0.0
    ensures Denominator(xs) != 0.0 && Form(c, d, SumProd(xs, xs), Sum(xs), |xs| as real) == 0.0 ==> c == 0.0 && d == 0.0
  {
    DenominatorSign(xs);
    FormAsSquares(c, d, SumProd(xs, xs), Sum(xs), |xs| as real);
    FormSign(|xs| as real, Form(c, d, SumProd(xs, xs), Sum(xs), |xs| as real), Denominator(xs), c, d, Sum(xs));
  }

  lemma {:induction false} FormSign(n: real, form: real, den: real, c: real, d: real, sx: real)
    requires n > 0.0 && den >= 0.0
    requires Times(form, n) == Times(Times(c, c), den) + Times(PlusOne(Times(c, sx), d, n), PlusOne(Times(c, sx), d, n))
    ensures form >= 0.0
    ensures den > 0.0 && form == 0.0 ==> c == 0.0 && d == 0.0
  {
    SquareSign(c);
    SquareSign(PlusOne(Times(c, sx), d, n));
    ProductSign(form, n);
    if den > 0.0 {
      ProductSign(Times(c, c), den);
      if form == 0.0 {
        ZeroTimes(c, sx);
        ProductSign(d, n);
        assert PlusOne(0.0, d, n) == Times(d, n);
      }
    } else {
      ZeroTimes(den, Times(c, c));
    }
  }

  /** Main result: no line fits better than the returned one, and every other line fits worse. */
  lemma {:induction false} LeastSquares(xs: seq<real>, ys: seq<real>, slope: real, intercept: real)
    requires LinearRegression(xs, ys).Some?
    ensures var best := LinearRegression(xs, ys).value;
            && SquaredError(xs, ys, best.slope, best.intercept) <= SquaredError(xs, ys, slope, intercept)
            && (SquaredError(xs, ys, best.slope, best.intercept) == SquaredError(xs, ys, slope, intercept) ==>
                  slope == best.slope && intercept == best.intercept)
  {
    ErrorOfOtherLine(xs, ys, slope, intercept);
    FormNonNegative(xs, Slope(xs, ys) - slope, Intercept(xs, ys) - intercept);
  }

  /** A result is withheld exactly for unequal lengths, fewer than two points, or xs whose
      spread is below the threshold; equal xs always are. */
  lemma {:induction false} WithheldExactly(xs: seq<real>, ys: seq<real>)
    ensures LinearRegression(xs, ys).None? <==> |xs| < 2 || |ys| != |xs| || Denominator(xs) < 0.000000000001
    ensures AllEqual(xs) ==> LinearRegression(xs, ys).None?
  {
    DenominatorSign(xs);
  }

  /** What the line explains of the total variation; n times it is the squared covariance over
      the spread of xs, as in the squared correlation. */
  lemma {:induction false} ExplainedVariation(xs: seq<real>, ys: seq<real>)
    requires |xs| == |ys| > 0 && Denominator(xs) != 0.0
    ensures Times(TotalVariation(xs, ys) - SquaredError(xs, ys, Slope(xs, ys), Intercept(xs, ys)), |xs| as real)
         == Times(Slope(xs, ys), Numerator(xs, ys))
  {
    ErrorOfOtherLine(xs, ys, 0.0, MeanOf(ys));
    FormOfMean(|xs| as real, Slope(xs, ys), Intercept(xs, ys), SumProd(xs, xs), Sum(xs), Sum(ys), Numerator(xs, ys), MeanOf(ys));
  }

  lemma {:induction false} FormOfMean(n: real, a: real, b: real, sxx: real, sx: real, sy: real, num: real, mean: real)
    requires Times(mean, n) == sy && Times(b, n) == sy - Times(a, sx)
    requires Times(a, Determinant(n, sx, sx, sxx)) == num
    ensures Times(Form(a - 0.0, b - mean, sxx, sx, n), n) == Times(a, num)
  {
    FormAsSquares(a, b - mean, sxx, sx, n);
    MeanOnLine(n, a, b, sx, sy, mean);
    ZeroTimes(PlusOne(Times(a, sx), b - mean, n), PlusOne(Times(a, sx), b - mean, n));
    Rearrange(a, Determinant(n, sx, sx, sxx));
  }

  lemma {:induction false} MeanOnLine(n: real, a: real, b: real, sx: real, sy: real, mean: real)
    requires Times(mean, n) == sy && Times(b, n) == sy - Times(a, sx)
    ensures PlusOne(Times(a, sx), b - mean, n) == 0.0
  {}

  lemma {:induction false} Rearrange(a: real, det: real)
    ensures Times(Times(a, a), det) == Times(a, Times(a, det))
  {}

  /** Main result: whenever the ys vary, the raw coefficient already lies in [0, 1], so clamping
      changes nothing; it is 1 exactly when every point is on the line. */
  lemma {:induction false} ClampIsIdle(xs: seq<real>, ys: seq<real>)
    requires LinearRegression(xs, ys).Some? && TotalVariation(xs, ys) > 0.0
    ensures 0.0 <= RawRSquared(xs, ys) <= 1.0
    ensures LinearRegression(xs, ys).value.rSquared == RawRSquared(xs, ys)
    ensures RawRSquared(xs, ys) == 1.0 <==>
              forall i | 0 <= i < |xs| :: Excess(xs[i], ys[i], Slope(xs, ys), Intercept(xs, ys)) == 0.0
  {
    var res, tot := SquaredError(xs, ys, Slope(xs, ys), Intercept(xs, ys)), TotalVariation(xs, ys);
    LeastSquares(xs, ys, 0.0, MeanOf(ys));
    Positive(Residuals(xs, ys, Slope(xs, ys), Intercept(xs, ys)));
    RatioBounds(res, tot);
  }

  /** n times the total variation is what the denominator is for the xs. */
  lemma {:induction false} TotalIsDenominator(xs: seq<real>, ys: seq<real>)
    requires |xs| == |ys| > 0
    ensures Times(TotalVariation(xs, ys), |xs| as real) == Denominator(ys)
    ensures TotalVariation(xs, ys) >= 0.0
  {
    var mean, n := MeanOf(ys), |ys| as real;
    var r := Residuals(xs, ys, 0.0, mean);
    forall i | 0 <= i < |ys| ensures r[i] == Deviations(ys, mean)[i] { FlatExcess(xs[i], ys[i], mean); }
    assert r == Deviations(ys, mean);
    Positive(r);
    DeviationSquares(ys, mean);
    FormAsSquares(1.0, -mean, SumProd(ys, ys), Sum(ys), n);
    AroundTheMean(Sum(ys), mean, n, Denominator(ys));
  }

  lemma {:induction false} FlatExcess(x: real, y: real, mean: real)
    ensures Excess(x, y, 0.0, mean) == PlusOne(y, -mean, 1.0)
  {}

  lemma {:induction false} AroundTheMean(sy: real, mean: real, n: real, den: real)
    requires Times(mean, n) == sy
    ensures Times(Times(1.0, 1.0), den) + Times(PlusOne(Times(1.0, sy), -mean, n), PlusOne(Times(1.0, sy), -mean, n)) == den
  {
    assert PlusOne(Times(1.0, sy), -mean, n) == 0.0;
  }

  /** The share of the variation explained, times both spreads. */
  lemma {:induction false} ShareTimesSpreads(r: real, tot: real, res: real, n: real, a: real, num: real, dx: real, dy: real)
    requires Times(r, tot) == tot - res && Times(tot - res, n) == Times(a, num) && Times(a, dx) == num && Times(tot, n) == dy
    ensures r * dx * dy == num * num
  {
    calc {
      r * dx * dy;
      r * dx * (tot * n);
      (r * tot) * n * dx;
      ((tot - res) * n) * dx;
      (a * num) * dx;
      (a * dx) * num;
      num * num;
    }
  }

  lemma {:induction false} NothingToExplain(res: real, n: real, a: real, num: real, dx: real)
    requires res >= 0.0 && n > 0.0 && dx > 0.0
    requires Times(0.0 - res, n) == Times(a, num) && Times(a, dx) == num
    ensures num == 0.0
  {
    SquareSign(num);
    ProductSign(0.0 - res, n);
    ProductSign(Times(a, num), dx);
    assert Times(Times(a, num), dx) == Times(num, num);
  }

  /** Main result: the coefficient returned is the squared correlation of xs and ys, and 0 if the ys are
      all equal. */
  lemma {:induction false} SquaredCorrelation(xs: seq<real>, ys: seq<real>)
    requires LinearRegression(xs, ys).Some?
    ensures var r := LinearRegression(xs, ys).value.rSquared;
            && r * Denominator(xs) * Denominator(ys) == Numerator(xs, ys) * Numerator(xs, ys)
            && (AllEqual(ys) ==> r == 0.0)
    ensures LinearRegression(xs, ys).value.n == |xs|
  {
    var tot, res := TotalVariation(xs, ys), SquaredError(xs, ys, Slope(xs, ys), Intercept(xs, ys));
    var n, r := |xs| as real, LinearRegression(xs, ys).value.rSquared;
    TotalIsDenominator(xs, ys);
    ExplainedVariation(xs, ys);
    DenominatorSign(xs);
    DenominatorSign(ys);
    ProductSign(tot, n);
    if tot > 0.0 {
      ClampIsIdle(xs, ys);
      ShareOfTotal(res, tot);
      ShareTimesSpreads(r, tot, res, n, Slope(xs, ys), Numerator(xs, ys), Denominator(xs), Denominator(ys));
    } else {
      Positive(Residuals(xs, ys, Slope(xs, ys), Intercept(xs, ys)));
      NothingToExplain(res, n, Slope(xs, ys), Numerator(xs, ys), Denominator(xs));
    }
  }

  lemma {:induction false} ShareOfTotal(res: real, tot: real)
    requires tot > 0.0
    ensures Times(1.0 - Quotient(res, tot), tot) == tot - res
  {
    var q := Quotient(res, tot);
    assert Times(1.0 - q, tot) == tot - Times(q, tot);
  }

  /** So it is the same with xs and ys exchanged. */
  lemma {:induction false} SameEitherWay(xs: seq<real>, ys: seq<real>)
    requires LinearRegression(xs, ys).Some? && LinearRegression(ys, xs).Some?
    ensures LinearRegression(xs, ys).value.rSquared == LinearRegression(ys, xs).value.rSquared
  {
    var r, dx, dy, num := SharesOf(xs, ys);
    var s, dy', dx', num' := SharesOf(ys, xs);
    SameNumerator(xs, ys);
    SameShare(r, s, dx, dy, num);
  }

  lemma {:induction false} SharesOf(xs: seq<real>, ys: seq<real>) returns (r: real, dx: real, dy: real, num: real)
    requires LinearRegression(xs, ys).Some?
    ensures r == LinearRegression(xs, ys).value.rSquared
    ensures dx == Denominator(xs) > 0.0 && dy == Denominator(ys) && num == Numerator(xs, ys)
    ensures Times(Times(r, dx), dy) == Times(num, num)
  {
    SquaredCorrelation(xs, ys);
    DenominatorSign(xs);
    r, dx, dy, num := LinearRegression(xs, ys).value.rSquared, Denominator(xs), Denominator(ys), Numerator(xs, ys);
  }

  lemma {:induction false} SameNumerator(xs: seq<real>, ys: seq<real>)
    requires |xs| == |ys|
    ensures Numerator(xs, ys) == Numerator(ys, xs)
  {
    Symmetric(xs, ys);
    Commutes(|xs| as real, Sum(xs), Sum(ys), SumProd(xs, ys));
  }

  lemma {:induction false} Commutes(n: real, s: real, t: real, st: real)
    ensures Determinant(n, s, t, st) == Determinant(n, t, s, st)
  {}

  lemma {:induction false} SameShare(r: real, s: real, dx: real, dy: real, num: real)
    requires dx > 0.0 && dy > 0.0
    requires Times(Times(r, dx), dy) == Times(num, num) && Times(Times(s, dy), dx) == Times(num, num)
    ensures r == s
  {
    var p := Times(dx, dy);
    ProductSign(dx, dy);
    ProductSign(r - s, p);
    assert Times(r - s, p) == r * dx * dy - s * dy * dx;
  }

  lemma {:induction false} RatioBounds(res: real, tot: real)
    requires 0.0 <= res <= tot && tot > 0.0
    ensures 0.0 <= 1.0 - Quotient(res, tot) <= 1.0
    ensures 1.0 - Quotient(res, tot) == 1.0 <==> res == 0.0
  {
    var q := Quotient(res, tot);
    ProductSign(q, tot);
    ProductSign(1.0 - q, tot);
    assert Times(1.0 - q, tot) == tot - Times(q, tot);
  }
}

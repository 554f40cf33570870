/** The least-squares line of packages/forecasting/src/methods.ts, in exact arithmetic. */
module LinearFit {

  datatype Line = Line(slope: real, intercept: real, r2: real)

  function Mul(x: real, y: real): real {
    x * y
  }

  function Sq(x: real): real {
    x * x
  }

  // ---- sums over a series indexed 0..n-1, with x the index ----

  function Last(ys: seq<real>): real
    requires ys != []
  {
    ys[|ys| - 1]
  }

  function Init(ys: seq<real>): seq<real>
    requires ys != []
  {
    ys[..|ys| - 1]
  }

  function X(ys: seq<real>): real
    requires ys != []
  {
    (|ys| - 1) as real
  }

  function N(ys: seq<real>): real {
    |ys| as real
  }

  function SumX(ys: seq<real>): real {
    if ys == [] then 0.0 else SumX(Init(ys)) + X(ys)
  }

  function SumY(ys: seq<real>): real {
    if ys == [] then 0.0 else SumY(Init(ys)) + Last(ys)
  }

  /** Sums of products of deviations from p and q. */
  function Sxx(ys: seq<real>, p: real): real {
    if ys == [] then 0.0 else Sxx(Init(ys), p) + Sq(X(ys) - p)
  }

  function Sxy(ys: seq<real>, p: real, q: real): real {
    if ys == [] then 0.0 else Sxy(Init(ys), p, q) + Mul(X(ys) - p, Last(ys) - q)
  }

  function Syy(ys: seq<real>, q: real): real {
    if ys == [] then 0.0 else Syy(Init(ys), q) + Sq(Last(ys) - q)
  }

  /** The squared errors of the line intercept + slope * x. */
  function Errors(ys: seq<real>, slope: real, intercept: real): real {
    if ys == [] then 0.0 else Errors(Init(ys), slope, intercept) + Sq(Last(ys) - (intercept + Mul(slope, X(ys))))
  }

  /** The variation of the line's own values around q. */
  function Explained(ys: seq<real>, slope: real, intercept: real, q: real): real {
    if ys == [] then 0.0 else Explained(Init(ys), slope, intercept, q) + Sq(intercept + Mul(slope, X(ys)) - q)
  }

  function MeanX(ys: seq<real>): real
    requires ys != []
  {
    SumX(ys) / N(ys)
  }

  function Mean(ys: seq<real>): real {
    if ys == [] then 0.0 else SumY(ys) / N(ys)
  }

  function Slope(ys: seq<real>): real {
    if |ys| < 2 || Sxx(ys, MeanX(ys)) == 0.0 then 0.0
    else Sxy(ys, MeanX(ys), Mean(ys)) / Sxx(ys, MeanX(ys))
  }

  function Intercept(ys: seq<real>): real {
    if |ys| < 2 then Mean(ys) else Mean(ys) - Mul(Slope(ys), MeanX(ys))
  }

  // ---- scalar algebra ----

  // The squared errors in terms of sums of deviations.
  function Quad(yy: real, xy: real, xx: real, d: real, n: real, b: real, c: real): real {
    yy - 2.0 * (b * xy) + b * b * xx + 2.0 * (c * d) + n * (c * c)
  }

  lemma Distribute(k: real, u: real, v: real)
    ensures Mul(k, u + v) == Mul(k, u) + Mul(k, v)
  {
  }

  lemma QuadAdds(yy: real, xy: real, xx: real, d: real, n: real, yy': real, xy': real, xx': real, d': real, b: real,
          c: real)
    ensures Quad(yy + yy', xy + xy', xx + xx', d + d', n + 1.0, b, c) == Quad(yy, xy, xx, d, n, b, c)
        + Quad(yy', xy', xx', d', 1.0, b, c)
  {
    Distribute(b, xy, xy');
    Distribute(b * b, xx, xx');
    Distribute(c, d, d');
    Distribute(c * c, n, 1.0);
  }

  lemma SquareSum(u: real, v: real)
    ensures (u + v) * (u + v) == u * u + 2.0 * (u * v) + v * v
    ensures (u - v) * (u - v) == u * u - 2.0 * (u * v) + v * v
  {
  }

  lemma ErrorTerm(x: real, y: real, p: real, q: real, b: real, a: real)
    ensures Sq(y - (a + Mul(b, x)))
            == Quad(Sq(y - q), Mul(x - p, y - q), Sq(x - p), (y - q) - Mul(b, x - p), 1.0, b, q - a - Mul(b, p))
  {
    var dx, dy, c := x - p, y - q, q - a - b * p;
    var d := dy - b * dx;
    Distribute(b, p, dx);
    assert y - (a + b * x) == d + c;
    SquareSum(d, c);
    SquareSum(dy, b * dx);
    assert dy * (b * dx) == b * (dx * dy);
    assert (b * dx) * (b * dx) == b * b * (dx * dx);
    assert d * c == c * d;
  }

  lemma Product(u: real, k: real)
    requires k > 0.0
    ensures (u >= 0.0 <==> Mul(u, k) >= 0.0) && (u == 0.0 <==> Mul(u, k) == 0.0)
  {
  }

  lemma NonNegative(x: real)
    ensures Sq(x) >= 0.0 && (Sq(x) == 0.0 ==> x == 0.0)
  {
    if x > 0.0 {
      Product(x, x);
    } else if x < 0.0 {
      Product(-x, -x);
      assert (-x) * (-x) == x * x;
    }
  }

  lemma Ratio(x: real, y: real)
    requires y > 0.0
    ensures Mul(x / y, y) == x
    ensures 0.0 <= x <= y ==> 0.0 <= x / y <= 1.0
  {
    assert x / y * y == x;
    Product(x / y, y);
    Product(1.0 - x / y, y);
  }

  // Completing the square in the slope.
  lemma CompleteSquare(yy: real, xy: real, xx: real, n: real, b: real, c: real, s: real)
    requires Mul(s, xx) == xy
    ensures Quad(yy, xy, xx, 0.0, n, b, c) == Quad(yy, xy, xx, 0.0, n, s, 0.0) + Mul(Sq(b - s), xx) + Mul(Sq(c), n)
    ensures Quad(yy, xy, xx, 0.0, n, s, 0.0) == yy - Mul(Sq(s), xx)
  {
    SquareSum(b, s);
    assert (b * b - 2.0 * (b * s) + s * s) * xx == b * b * xx - 2.0 * (b * s * xx) + s * s * xx;
    assert b * s * xx == b * xy;
    assert s * s * xx == s * xy;
  }

  // ---- the identity behind least squares ----

  function DevX(ys: seq<real>, p: real): real {
    if ys == [] then 0.0 else DevX(Init(ys), p) + (X(ys) - p)
  }

  function DevY(ys: seq<real>, q: real): real {
    if ys == [] then 0.0 else DevY(Init(ys), q) + (Last(ys) - q)
  }

  // What the deviations leave over from a line of slope b.
  function Drift(ys: seq<real>, p: real, q: real, b: real): real {
    if ys == [] then 0.0 else Drift(Init(ys), p, q, b) + ((Last(ys) - q) - Mul(b, X(ys) - p))
  }

  lemma Zero(k: real)
    ensures Mul(k, 0.0) == 0.0 && Mul(k, 1.0) == k
  {
  }

  lemma {:induction false} DeviationsCancel(ys: seq<real>, p: real, q: real)
    ensures DevX(ys, p) == SumX(ys) - Mul(p, N(ys)) && DevY(ys, q) == SumY(ys) - Mul(q, N(ys))
  {
    hide Mul;
    Zero(p);
    Zero(q);
    if ys != [] {
      DeviationsCancel(Init(ys), p, q);
      Distribute(p, N(Init(ys)), 1.0);
      Distribute(q, N(Init(ys)), 1.0);
    }
  }

  lemma {:induction false} DriftIs(ys: seq<real>, p: real, q: real, b: real)
    ensures Drift(ys, p, q, b) == DevY(ys, q) - Mul(b, DevX(ys, p))
  {
    hide Mul;
    Zero(b);
    if ys != [] {
      DriftIs(Init(ys), p, q, b);
      Distribute(b, DevX(Init(ys), p), X(ys) - p);
    }
  }

  /** The squared errors of any line, in terms of deviations from any point (p, q). */
  lemma {:induction false} ErrorsExpand(ys: seq<real>, p: real, q: real, b: real, a: real)
    ensures Errors(ys, b, a) == Quad(Syy(ys, q), Sxy(ys, p, q), Sxx(ys, p), Drift(ys, p, q, b), N(ys), b,
        q - a - Mul(b, p))
  {
    hide Quad, Mul, Sq;
    var c := q - a - Mul(b, p);
    if ys == [] {
      EmptyQuad(b, c);
    } else {
      var i, x, y := Init(ys), X(ys), Last(ys);
      ErrorsExpand(i, p, q, b, a);
      ErrorTerm(x, y, p, q, b, a);
      QuadAdds(Syy(i, q), Sxy(i, p, q), Sxx(i, p), Drift(i, p, q, b), N(i),
               Sq(y - q), Mul(x - p, y - q), Sq(x - p), (y - q) - Mul(b, x - p), b, c);
    }
  }

  lemma EmptyQuad(b: real, c: real)
    ensures Quad(0.0, 0.0, 0.0, 0.0, 0.0, b, c) == 0.0
  {
  }

  /** Around the means nothing drifts. */
  lemma ErrorsAroundMeans(ys: seq<real>, b: real, a: real)
    requires ys != []
    ensures var p, q := MeanX(ys), Mean(ys);
            Errors(ys, b, a) == Quad(Syy(ys, q), Sxy(ys, p, q), Sxx(ys, p), 0.0, N(ys), b, q - a - Mul(b, p))
  {
    hide Quad, Mul, Sq, Errors, Sxx, Sxy, Syy, SumX, SumY, Drift, DevX, DevY;
    var p, q := MeanX(ys), Mean(ys);
    ErrorsExpand(ys, p, q, b, a);
    DriftIs(ys, p, q, b);
    DeviationsCancel(ys, p, q);
    Ratio(SumX(ys), N(ys));
    Ratio(SumY(ys), N(ys));
    Zero(b);
  }

  lemma {:induction false} SxxPositive(ys: seq<real>, p: real)
    ensures Sxx(ys, p) >= 0.0 && (|ys| >= 2 ==> Sxx(ys, p) > 0.0)
  {
    hide Sq;
    if ys != [] {
      var i := Init(ys);
      SxxPositive(i, p);
      NonNegative(X(ys) - p);
      if |ys| == 2 {
        NonNegative(X(i) - p);
        SxxPositive(Init(i), p);
        assert X(ys) == X(i) + 1.0;
      }
    }
  }

  lemma {:induction false} ErrorsNonNegative(ys: seq<real>, b: real, a: real)
    ensures Errors(ys, b, a) >= 0.0
  {
    hide Sq, Mul;
    if ys != [] {
      ErrorsNonNegative(Init(ys), b, a);
      NonNegative(Last(ys) - (a + Mul(b, X(ys))));
    }
  }

  /** How far any other line misses the least-squares one. */
  lemma Excess(ys: seq<real>, b: real, a: real)
    requires |ys| >= 2
    ensures var p, q, s := MeanX(ys), Mean(ys), Slope(ys);
            && Errors(ys, b, a) == Errors(ys, s, Intercept(ys)) + Mul(Sq(b - s), Sxx(ys, p))
                + Mul(Sq(q - a - Mul(b, p)), N(ys))
            && Errors(ys, s, Intercept(ys)) == Syy(ys, q) - Mul(Sq(s), Sxx(ys, p))
  {
    hide Quad, Mul, Sq, Errors, Sxx, Sxy, Syy, SumX, SumY, MeanX, Mean;
    var p, q, s := MeanX(ys), Mean(ys), Slope(ys);
    SxxPositive(ys, p);
    ErrorsAroundMeans(ys, b, a);
    ErrorsAroundMeans(ys, s, Intercept(ys));
    Ratio(Sxy(ys, p, q), Sxx(ys, p));
    CompleteSquare(Syy(ys, q), Sxy(ys, p, q), Sxx(ys, p), N(ys), b, q - a - Mul(b, p), s);
  }

  /** The fitted line minimises the sum of squared errors over all lines; with two points or more it
      is the only one that does. */
  lemma FitIsLeastSquares(ys: seq<real>, b: real, a: real)
    ensures Errors(ys, Slope(ys), Intercept(ys)) <= Errors(ys, b, a)
    ensures |ys| >= 2 && Errors(ys, b, a) == Errors(ys, Slope(ys), Intercept(ys)) ==>
              b == Slope(ys) && a == Intercept(ys)
  {
    if |ys| >= 2 {
      hide Mul, Sq, Errors, Sxx, MeanX, Mean, Slope;
      var p, c := MeanX(ys), Mean(ys) - a - Mul(b, MeanX(ys));
      Excess(ys, b, a);
      SxxPositive(ys, p);
      NonNegative(b - Slope(ys));
      NonNegative(c);
      Product(Sq(b - Slope(ys)), Sxx(ys, p));
      Product(Sq(c), N(ys));
    } else {
      ErrorsNonNegative(ys, b, a);
      if |ys| == 1 {
        OnePoint(ys);
      }
    }
  }

  lemma OnePoint(ys: seq<real>)
    requires |ys| == 1
    ensures Errors(ys, Slope(ys), Intercept(ys)) == 0.0
  {
    assert Init(ys) == [];
    assert SumY(ys) == Last(ys) && Intercept(ys) == Last(ys);
  }

  // ---- the coefficient of determination ----

  lemma ExplainedTerm(s: real, p: real, q: real, x: real)
    ensures Sq(q - Mul(s, p) + Mul(s, x) - q) == Mul(Sq(s), Sq(x - p))
  {
    Distribute(s, p, x - p);
    assert (s * (x - p)) * (s * (x - p)) == s * s * ((x - p) * (x - p));
  }

  lemma {:induction false} ExplainedIs(ys: seq<real>, s: real, p: real, q: real)
    ensures Explained(ys, s, q - Mul(s, p), q) == Mul(Sq(s), Sxx(ys, p))
  {
    hide Mul, Sq;
    Zero(Sq(s));
    if ys != [] {
      ExplainedIs(Init(ys), s, p, q);
      ExplainedTerm(s, p, q, X(ys));
      Distribute(Sq(s), Sxx(Init(ys), p), Sq(X(ys) - p));
    }
  }

  /** The explained variation never exceeds the total (Cauchy-Schwarz), so clamping their ratio to
      [0, 1] never changes it; with the errors it makes up the total. */
  lemma ExplainedWithinTotal(ys: seq<real>)
    requires |ys| >= 2
    ensures var q := Mean(ys);
            && 0.0 <= Explained(ys, Slope(ys), Intercept(ys), q) <= Syy(ys, q)
            && Explained(ys, Slope(ys), Intercept(ys), q) + Errors(ys, Slope(ys), Intercept(ys)) == Syy(ys, q)
  {
    hide Mul, Sq, Errors, Explained, Sxx, Syy, MeanX, Mean, Slope;
    var p, q, s := MeanX(ys), Mean(ys), Slope(ys);
    ExplainedIs(ys, s, p, q);
    Excess(ys, s, Intercept(ys));
    ErrorsNonNegative(ys, s, Intercept(ys));
    SxxPositive(ys, p);
    NonNegative(s);
    Product(Sq(s), Sxx(ys, p));
  }

  function Clamp(x: real): real {
    var capped := if x < 1.0 then x else 1.0;
    if capped > 0.0 then capped else 0.0
  }

  /** linearFit's own loops, tied to the sums above; r2 is the plain ratio. */
  method Fit(ys: seq<real>) returns (fit: Line)
    ensures fit.slope == Slope(ys) && fit.intercept == Intercept(ys)
    ensures |ys| < 2 ==> fit.r2 == 0.0
    ensures |ys| >= 2 ==> var total, explained := Syy(ys, Mean(ys)), Explained(ys, fit.slope, fit.intercept, Mean(ys));
                          fit.r2 == if total == 0.0 then 1.0 else explained / total
    ensures 0.0 <= fit.r2 <= 1.0
  {
    hide Mul, Sq;
    var n := |ys|;
    var meanY := MeanOf(ys);
    if n < 2 {
      return Line(0.0, meanY, 0.0);
    }
    var meanX := MeanIndex(ys);
    var sxy, sxx := 0.0, 0.0;
    assert ys[..0] == [];
    for i := 0 to n
      invariant sxy == Sxy(ys[..i], meanX, meanY) && sxx == Sxx(ys[..i], meanX)
    {
      Grow(ys, i);
      sxy := sxy + Mul(i as real - meanX, ys[i] - meanY);
      sxx := sxx + Sq(i as real - meanX);
    }
    assert ys[..n] == ys;
    var slope := if sxx == 0.0 then 0.0 else sxy / sxx;
    var intercept := meanY - Mul(slope, meanX);
    var total, explained := Variations(ys, slope, intercept, meanY);
    ExplainedWithinTotal(ys);
    if total != 0.0 {
      Ratio(explained, total);
    }
    fit := Line(slope, intercept, if total == 0.0 then 1.0 else Clamp(explained / total));
  }

  method Variations(ys: seq<real>, slope: real, intercept: real, meanY: real) returns (total: real, explained: real)
    ensures total == Syy(ys, meanY) && explained == Explained(ys, slope, intercept, meanY)
  {
    hide Mul, Sq;
    total, explained := 0.0, 0.0;
    assert ys[..0] == [];
    for i := 0 to |ys|
      invariant total == Syy(ys[..i], meanY) && explained == Explained(ys[..i], slope, intercept, meanY)
    {
      Grow(ys, i);
      total := total + Sq(ys[i] - meanY);
      explained := explained + Sq(intercept + Mul(slope, i as real) - meanY);
    }
    assert ys[..|ys|] == ys;
  }

  lemma Grow(ys: seq<real>, i: nat)
    requires i < |ys|
    ensures Init(ys[..i + 1]) == ys[..i] && Last(ys[..i + 1]) == ys[i] && X(ys[..i + 1]) == i as real
  {
  }

  method MeanOf(ys: seq<real>) returns (m: real)
    ensures m == Mean(ys)
  {
    if |ys| == 0 {
      return 0.0;
    }
    var sum := 0.0;
    assert ys[..0] == [];
    for i := 0 to |ys|
      invariant sum == SumY(ys[..i])
    {
      Grow(ys, i);
      sum := sum + ys[i];
    }
    assert ys[..|ys|] == ys;
    m := sum / |ys| as real;
  }

  method MeanIndex(ys: seq<real>) returns (m: real)
    requires ys != []
    ensures m == MeanX(ys)
  {
    var sum := 0.0;
    assert ys[..0] == [];
    for i := 0 to |ys|
      invariant sum == SumX(ys[..i])
    {
      Grow(ys, i);
      sum := sum + i as real;
    }
    assert ys[..|ys|] == ys;
    m := sum / |ys| as real;
  }
}

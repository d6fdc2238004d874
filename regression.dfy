/**
 * The degree-1 least-squares fit `numpy.polyfit(x, y, 1)`, stated exactly over the reals.
 * With n points, Sx = Σx, Sy = Σy, Sxx = Σx², Sxy = Σxy:
 *   slope = (n·Sxy - Sx·Sy) / (n·Sxx - Sx²),  intercept = (Sy - slope·Sx) / n.
 * Each sum is defined by recursion on the last point, and the term a point contributes is a
 * function of its own. Each proof by induction calls its hypothesis and then one lemma about
 * a single point, so that the arithmetic of every proof obligation stays small.
 */
module Regression {

  datatype Line = Line(slope: real, intercept: real)

  /** y - l(x): how far the point (x, y) lies above the line l. */
  function Err(x: real, y: real, l: Line): real {
    y - (l.slope * x + l.intercept)
  }

  /** l(x) - m(x). */
  function Diff(x: real, l: Line, m: Line): real {
    (l.slope - m.slope) * x + (l.intercept - m.intercept)
  }

  /** The number of points, as a real. */
  function Size(s: seq<real>): real {
    if s == [] then 0.0 else Size(s[..|s| - 1]) + 1.0
  }

  function RSum(s: seq<real>): real {
    if s == [] then 0.0 else RSum(s[..|s| - 1]) + s[|s| - 1]
  }

  /** Σ x_i y_i. */
  function Dot(xs: seq<real>, ys: seq<real>): real
    requires |xs| == |ys|
  {
    if xs == [] then 0.0 else Dot(xs[..|xs| - 1], ys[..|ys| - 1]) + xs[|xs| - 1] * ys[|ys| - 1]
  }

  /** Σ (y_i - l(x_i)). */
  function Residual(xs: seq<real>, ys: seq<real>, l: Line): real
    requires |xs| == |ys|
  {
    if xs == [] then 0.0 else Residual(xs[..|xs| - 1], ys[..|ys| - 1], l) + Err(xs[|xs| - 1], ys[|ys| - 1], l)
  }

  /** Σ x_i (y_i - l(x_i)). */
  function XResidual(xs: seq<real>, ys: seq<real>, l: Line): real
    requires |xs| == |ys|
  {
    if xs == [] then 0.0
    else XResidual(xs[..|xs| - 1], ys[..|ys| - 1], l) + xs[|xs| - 1] * (ys[|ys| - 1] - (l.slope * xs[|xs| - 1] + l.intercept))
  }

  /** Σ (y_i - l(x_i))², the quantity the fit minimises. */
  function SquaredError(xs: seq<real>, ys: seq<real>, l: Line): real
    requires |xs| == |ys|
  {
    if xs == [] then 0.0
    else
      SquaredError(xs[..|xs| - 1], ys[..|ys| - 1], l)
        + Err(xs[|xs| - 1], ys[|ys| - 1], l) * Err(xs[|xs| - 1], ys[|ys| - 1], l)
  }

  /** n·Σx² - (Σx)², which is n·Σ(x - x̄)²: zero exactly when every x is the same. */
  function Spread(xs: seq<real>): real {
    Size(xs) * Dot(xs, xs) - RSum(xs) * RSum(xs)
  }

  /**
   * The line solving the normal equations for n points whose x sum to sx, y to sy, x² to sxx
   * and xy to sxy.
   */
  function Solve(n: real, sx: real, sy: real, sxx: real, sxy: real): Line
    requires n > 0.0 && n * sxx - sx * sx > 0.0
  {
    var k := (n * sxy - sx * sy) / (n * sxx - sx * sx);
    Line(k, (sy - k * sx) / n)
  }

  /** The least-squares line through the points (xs[i], ys[i]). */
  function Fit(xs: seq<real>, ys: seq<real>): Line
    requires |xs| == |ys| && xs != [] && Spread(xs) > 0.0
  {
    SizePositive(xs);
    Solve(Size(xs), RSum(xs), RSum(ys), Dot(xs, xs), Dot(xs, ys))
  }

  lemma {:induction false} SizePositive(s: seq<real>)
    requires s != []
    ensures Size(s) >= 1.0
    decreases |s|
  {
    if |s| > 1 {
      SizePositive(s[..|s| - 1]);
    }
  }

  lemma {:induction false} SizeIsLength(s: seq<real>)
    ensures Size(s) == |s| as real
    decreases |s|
  {
    if s != [] {
      SizeIsLength(s[..|s| - 1]);
    }
  }

  // ---------------------------------------------------------------------------------------
  // The normal equations.

  /** Σ(y - l(x)) written with the raw sums. */
  predicate ResidualIdentity(xs: seq<real>, ys: seq<real>, l: Line)
    requires |xs| == |ys|
  {
    Residual(xs, ys, l) == RSum(ys) - l.slope * RSum(xs) - Size(xs) * l.intercept
  }

  lemma {:induction false} ResidualPoint(r: real, sy: real, sx: real, n: real, r0: real, sy0: real, sx0: real, n0: real,
                      k: real, b: real, x: real, y: real, e: real)
    requires r0 == sy0 - k * sx0 - n0 * b && e == y - (k * x + b)
    requires r == r0 + e && sy == sy0 + y && sx == sx0 + x && n == n0 + 1.0
    ensures r == sy - k * sx - n * b
  {
  }

  lemma {:induction false} ResidualIdentityStep(xs: seq<real>, ys: seq<real>, l: Line)
    requires |xs| == |ys| && xs != []
    requires ResidualIdentity(xs[..|xs| - 1], ys[..|ys| - 1], l)
    ensures ResidualIdentity(xs, ys, l)
  {
    ResidualPoint(Residual(xs, ys, l), RSum(ys), RSum(xs), Size(xs),
                  Residual(xs[..|xs| - 1], ys[..|ys| - 1], l), RSum(ys[..|ys| - 1]), RSum(xs[..|xs| - 1]),
                  Size(xs[..|xs| - 1]), l.slope, l.intercept, xs[|xs| - 1], ys[|ys| - 1],
                  Err(xs[|xs| - 1], ys[|ys| - 1], l));
  }

  lemma {:induction false} ResidualIdentityHolds(xs: seq<real>, ys: seq<real>, l: Line)
    requires |xs| == |ys|
    ensures ResidualIdentity(xs, ys, l)
    decreases |xs|
  {
    if xs != [] {
      ResidualIdentityHolds(xs[..|xs| - 1], ys[..|ys| - 1], l);
      ResidualIdentityStep(xs, ys, l);
    }
  }

  /** Σx(y - l(x)) written with the raw sums. */
  predicate XResidualIdentity(xs: seq<real>, ys: seq<real>, l: Line)
    requires |xs| == |ys|
  {
    XResidual(xs, ys, l) == Dot(xs, ys) - l.slope * Dot(xs, xs) - l.intercept * RSum(xs)
  }

  lemma {:induction false} XResidualPoint(r: real, d: real, q: real, sx: real, r0: real, d0: real, q0: real, sx0: real,
                       k: real, b: real, x: real, y: real)
    requires r0 == d0 - k * q0 - b * sx0
    requires r == r0 + x * (y - (k * x + b)) && d == d0 + x * y && q == q0 + x * x && sx == sx0 + x
    ensures r == d - k * q - b * sx
  {
  }

  lemma {:induction false} XResidualIdentityStep(xs: seq<real>, ys: seq<real>, l: Line)
    requires |xs| == |ys| && xs != []
    requires XResidualIdentity(xs[..|xs| - 1], ys[..|ys| - 1], l)
    ensures XResidualIdentity(xs, ys, l)
  {
    XResidualPoint(XResidual(xs, ys, l), Dot(xs, ys), Dot(xs, xs), RSum(xs),
                   XResidual(xs[..|xs| - 1], ys[..|ys| - 1], l), Dot(xs[..|xs| - 1], ys[..|ys| - 1]),
                   Dot(xs[..|xs| - 1], xs[..|xs| - 1]), RSum(xs[..|xs| - 1]),
                   l.slope, l.intercept, xs[|xs| - 1], ys[|ys| - 1]);
  }

  lemma {:induction false} XResidualIdentityHolds(xs: seq<real>, ys: seq<real>, l: Line)
    requires |xs| == |ys|
    ensures XResidualIdentity(xs, ys, l)
    decreases |xs|
  {
    if xs != [] {
      XResidualIdentityHolds(xs[..|xs| - 1], ys[..|ys| - 1], l);
      XResidualIdentityStep(xs, ys, l);
    }
  }

  /** l is the line solving the normal equations for the sums n, sx, sy, sxx, sxy. */
  predicate Solves(n: real, sx: real, sy: real, sxx: real, sxy: real, l: Line) {
    n > 0.0 && n * sxx - sx * sx > 0.0 && l == Solve(n, sx, sy, sxx, sxy)
  }

  /** l meets both normal equations for the sums n, sx, sy, sxx, sxy. */
  predicate MeetsNormalSums(n: real, sx: real, sy: real, sxx: real, sxy: real, l: Line) {
    && sy - l.slope * sx - n * l.intercept == 0.0
    && sxy - l.slope * sxx - l.intercept * sx == 0.0
  }

  /** The solved line meets both normal equations. */
  lemma {:induction false} SolveMeetsNormalEquations(n: real, sx: real, sy: real, sxx: real, sxy: real, l: Line)
    requires Solves(n, sx, sy, sxx, sxy, l)
    ensures MeetsNormalSums(n, sx, sy, sxx, sxy, l)
  {
    var d, k, b := n * sxx - sx * sx, l.slope, l.intercept;
    assert k * d == n * sxy - sx * sy;
    assert n * b == sy - k * sx;
    calc {
      n * (sxy - k * sxx - b * sx);
      n * sxy - k * (n * sxx) - (n * b) * sx;
      n * sxy - k * (d + sx * sx) - (sy - k * sx) * sx;
      n * sxy - sx * sy - k * d;
      0.0;
    }
  }

  lemma {:induction false} FitIsSolve(xs: seq<real>, ys: seq<real>, l: Line)
    requires |xs| == |ys| && xs != [] && Spread(xs) > 0.0 && l == Fit(xs, ys)
    requires Size(xs) >= 1.0 && Size(xs) * Dot(xs, xs) - RSum(xs) * RSum(xs) > 0.0
    ensures l == Solve(Size(xs), RSum(xs), RSum(ys), Dot(xs, xs), Dot(xs, ys))
  {
  }

  lemma {:induction false} SpreadSums(xs: seq<real>)
    requires Spread(xs) > 0.0
    ensures Size(xs) * Dot(xs, xs) - RSum(xs) * RSum(xs) > 0.0
  {
  }

  lemma {:induction false} FitSolves(xs: seq<real>, ys: seq<real>, l: Line)
    requires |xs| == |ys| && xs != [] && Spread(xs) > 0.0 && l == Fit(xs, ys)
    ensures Solves(Size(xs), RSum(xs), RSum(ys), Dot(xs, xs), Dot(xs, ys), l)
  {
    SizePositive(xs);
    SpreadSums(xs);
    FitIsSolve(xs, ys, l);
  }

  /** The fitted line meets both normal equations, written with the raw sums. */
  lemma {:induction false} FitMeetsNormalSums(xs: seq<real>, ys: seq<real>, l: Line)
    requires |xs| == |ys| && xs != [] && Spread(xs) > 0.0 && l == Fit(xs, ys)
    ensures MeetsNormalSums(Size(xs), RSum(xs), RSum(ys), Dot(xs, xs), Dot(xs, ys), l)
  {
    FitSolves(xs, ys, l);
    SolveMeetsNormalEquations(Size(xs), RSum(xs), RSum(ys), Dot(xs, xs), Dot(xs, ys), l);
  }

  /** A line meeting the normal equations in raw sums leaves residuals summing to zero, plain and x-weighted. */
  lemma {:induction false} ResidualsVanish(xs: seq<real>, ys: seq<real>, l: Line)
    requires |xs| == |ys|
    requires MeetsNormalSums(Size(xs), RSum(xs), RSum(ys), Dot(xs, xs), Dot(xs, ys), l)
    ensures Residual(xs, ys, l) == 0.0 && XResidual(xs, ys, l) == 0.0
  {
    ResidualIdentityHolds(xs, ys, l);
    XResidualIdentityHolds(xs, ys, l);
  }

  /**
   * The fitted line satisfies the least-squares normal equations: its residuals sum to
   * zero, and so do the residuals weighted by x.
   */
  lemma {:induction false} NormalEquations(xs: seq<real>, ys: seq<real>)
    requires |xs| == |ys| && xs != [] && Spread(xs) > 0.0
    ensures Residual(xs, ys, Fit(xs, ys)) == 0.0
    ensures XResidual(xs, ys, Fit(xs, ys)) == 0.0
  {
    var l := Fit(xs, ys);
    FitMeetsNormalSums(xs, ys, l);
    ResidualsVanish(xs, ys, l);
  }

  // ---------------------------------------------------------------------------------------
  // Least squares.

  /** Σ (y_i - l(x_i))·(l(x_i) - m(x_i)). */
  function Cross(xs: seq<real>, ys: seq<real>, l: Line, m: Line): real
    requires |xs| == |ys|
  {
    if xs == [] then 0.0
    else Cross(xs[..|xs| - 1], ys[..|ys| - 1], l, m) + Err(xs[|xs| - 1], ys[|ys| - 1], l) * Diff(xs[|xs| - 1], l, m)
  }

  /** Σ (l(x_i) - m(x_i))². */
  function LineGap(xs: seq<real>, l: Line, m: Line): real {
    if xs == [] then 0.0 else LineGap(xs[..|xs| - 1], l, m) + Diff(xs[|xs| - 1], l, m) * Diff(xs[|xs| - 1], l, m)
  }

  lemma {:induction false} SquareStep(g: real, g0: real, d: real)
    requires g0 >= 0.0 && g == g0 + d * d
    ensures g >= 0.0
  {
  }

  lemma {:induction false} LineGapNonNegative(xs: seq<real>, l: Line, m: Line)
    ensures LineGap(xs, l, m) >= 0.0
    decreases |xs|
  {
    if xs != [] {
      LineGapNonNegative(xs[..|xs| - 1], l, m);
      SquareStep(LineGap(xs, l, m), LineGap(xs[..|xs| - 1], l, m), Diff(xs[|xs| - 1], l, m));
    }
  }

  /** A point lies above m by as much as it lies above l, plus l(x) - m(x). */
  lemma {:induction false} ErrShift(x: real, y: real, l: Line, m: Line)
    ensures Err(x, y, m) == Err(x, y, l) + Diff(x, l, m)
  {
  }

  /** The squared error of m, split at the line l. */
  predicate ShiftIdentity(xs: seq<real>, ys: seq<real>, l: Line, m: Line)
    requires |xs| == |ys|
  {
    SquaredError(xs, ys, m) == SquaredError(xs, ys, l) + 2.0 * Cross(xs, ys, l, m) + LineGap(xs, l, m)
  }

  lemma {:induction false} ShiftPoint(e: real, sl: real, c: real, g: real, e0: real, sl0: real, c0: real, g0: real,
                   em: real, el: real, d: real)
    requires e0 == sl0 + 2.0 * c0 + g0 && em == el + d
    requires e == e0 + em * em && sl == sl0 + el * el && c == c0 + el * d && g == g0 + d * d
    ensures e == sl + 2.0 * c + g
  {
    assert em * em == el * el + 2.0 * (el * d) + d * d;
  }

  lemma {:induction false} ShiftIdentityStep(xs: seq<real>, ys: seq<real>, l: Line, m: Line)
    requires |xs| == |ys| && xs != []
    requires ShiftIdentity(xs[..|xs| - 1], ys[..|ys| - 1], l, m)
    ensures ShiftIdentity(xs, ys, l, m)
  {
    ErrShift(xs[|xs| - 1], ys[|ys| - 1], l, m);
    ShiftPoint(SquaredError(xs, ys, m), SquaredError(xs, ys, l), Cross(xs, ys, l, m), LineGap(xs, l, m),
               SquaredError(xs[..|xs| - 1], ys[..|ys| - 1], m), SquaredError(xs[..|xs| - 1], ys[..|ys| - 1], l),
               Cross(xs[..|xs| - 1], ys[..|ys| - 1], l, m), LineGap(xs[..|xs| - 1], l, m),
               Err(xs[|xs| - 1], ys[|ys| - 1], m), Err(xs[|xs| - 1], ys[|ys| - 1], l), Diff(xs[|xs| - 1], l, m));
  }

  lemma {:induction false} ShiftIdentityHolds(xs: seq<real>, ys: seq<real>, l: Line, m: Line)
    requires |xs| == |ys|
    ensures ShiftIdentity(xs, ys, l, m)
    decreases |xs|
  {
    if xs != [] {
      ShiftIdentityHolds(xs[..|xs| - 1], ys[..|ys| - 1], l, m);
      ShiftIdentityStep(xs, ys, l, m);
    }
  }

  /** The cross term written with the two normal-equation sums. */
  predicate CrossIdentity(xs: seq<real>, ys: seq<real>, l: Line, m: Line)
    requires |xs| == |ys|
  {
    CrossSplit(Cross(xs, ys, l, m), XResidual(xs, ys, l), Residual(xs, ys, l), l.slope - m.slope, l.intercept - m.intercept)
  }

  /** c == dk·xr + db·r. */
  predicate CrossSplit(c: real, xr: real, r: real, dk: real, db: real) {
    c == dk * xr + db * r
  }

  lemma {:induction false} CrossPoint(c: real, xr: real, r: real, c0: real, xr0: real, r0: real,
                   x: real, e: real, d: real, dk: real, db: real)
    requires CrossSplit(c0, xr0, r0, dk, db) && d == dk * x + db
    requires c == c0 + e * d && xr == xr0 + x * e && r == r0 + e
    ensures CrossSplit(c, xr, r, dk, db)
  {
    assert e * d == dk * (x * e) + db * e;
  }

  lemma {:induction false} CrossIdentityStep(xs: seq<real>, ys: seq<real>, l: Line, m: Line)
    requires |xs| == |ys| && xs != []
    requires CrossIdentity(xs[..|xs| - 1], ys[..|ys| - 1], l, m)
    ensures CrossIdentity(xs, ys, l, m)
  {
    CrossPoint(Cross(xs, ys, l, m), XResidual(xs, ys, l), Residual(xs, ys, l),
               Cross(xs[..|xs| - 1], ys[..|ys| - 1], l, m), XResidual(xs[..|xs| - 1], ys[..|ys| - 1], l),
               Residual(xs[..|xs| - 1], ys[..|ys| - 1], l), xs[|xs| - 1],
               Err(xs[|xs| - 1], ys[|ys| - 1], l), Diff(xs[|xs| - 1], l, m), l.slope - m.slope, l.intercept - m.intercept);
  }

  lemma {:induction false} CrossIdentityHolds(xs: seq<real>, ys: seq<real>, l: Line, m: Line)
    requires |xs| == |ys|
    ensures CrossIdentity(xs, ys, l, m)
    decreases |xs|
  {
    if xs != [] {
      CrossIdentityHolds(xs[..|xs| - 1], ys[..|ys| - 1], l, m);
      CrossIdentityStep(xs, ys, l, m);
    }
  }

  /** Moving from line l to line m changes the squared error by twice the cross term plus the gap. */
  lemma {:induction false} SquaredErrorShift(xs: seq<real>, ys: seq<real>, l: Line, m: Line)
    requires |xs| == |ys|
    ensures SquaredError(xs, ys, m) == SquaredError(xs, ys, l) + 2.0 * Cross(xs, ys, l, m) + LineGap(xs, l, m)
  {
    ShiftIdentityHolds(xs, ys, l, m);
  }

  /** The cross term is a combination of the two normal-equation sums. */
  lemma {:induction false} CrossExpand(xs: seq<real>, ys: seq<real>, l: Line, m: Line)
    requires |xs| == |ys|
    ensures Cross(xs, ys, l, m)
         == (l.slope - m.slope) * XResidual(xs, ys, l) + (l.intercept - m.intercept) * Residual(xs, ys, l)
  {
    CrossIdentityHolds(xs, ys, l, m);
  }

  lemma {:induction false} MinimumAlgebra(em: real, el: real, c: real, g: real, dk: real, db: real, xr: real, r: real)
    requires em == el + 2.0 * c + g && c == dk * xr + db * r && xr == 0.0 && r == 0.0 && g >= 0.0
    ensures el <= em
  {
    calc {
      c;
      dk * xr + db * r;
      dk * 0.0 + db * 0.0;
      0.0;
    }
  }

  /** No line has a smaller sum of squared residuals than the fitted one. */
  lemma {:induction false} FitMinimisesSquaredError(xs: seq<real>, ys: seq<real>, m: Line)
    requires |xs| == |ys| && xs != [] && Spread(xs) > 0.0
    ensures SquaredError(xs, ys, Fit(xs, ys)) <= SquaredError(xs, ys, m)
  {
    var l := Fit(xs, ys);
    NormalEquations(xs, ys);
    SquaredErrorShift(xs, ys, l, m);
    CrossExpand(xs, ys, l, m);
    LineGapNonNegative(xs, l, m);
    MinimumAlgebra(SquaredError(xs, ys, m), SquaredError(xs, ys, l), Cross(xs, ys, l, m), LineGap(xs, l, m),
                   l.slope - m.slope, l.intercept - m.intercept, XResidual(xs, ys, l), Residual(xs, ys, l));
  }

  // ---------------------------------------------------------------------------------------
  // The x axis of a trend.

  /** The positions 0, 1, ..., n-1 of a run's points. */
  function Positions(n: nat): (xs: seq<real>)
    ensures |xs| == n && forall i :: 0 <= i < n ==> xs[i] == i as real
  {
    seq(n, i requires 0 <= i < n => i as real)
  }

  lemma {:induction false} PositionSumsStep(s: real, q: real, n: real, s0: real, q0: real, n0: real, x: real)
    requires 2.0 * s0 == n0 * (n0 - 1.0) && 6.0 * q0 == (n0 - 1.0) * n0 * (2.0 * n0 - 1.0)
    requires s == s0 + x && q == q0 + x * x && x == n0 && n == n0 + 1.0
    ensures 2.0 * s == n * (n - 1.0) && 6.0 * q == (n - 1.0) * n * (2.0 * n - 1.0)
  {
  }

  lemma {:induction false} PositionSumsEmpty(s: real, q: real, n: real)
    requires s == 0.0 && q == 0.0 && n == 0.0
    ensures 2.0 * s == n * (n - 1.0) && 6.0 * q == (n - 1.0) * n * (2.0 * n - 1.0)
  {
  }

  /** Σ i = n(n-1)/2 and Σ i² = (n-1)n(2n-1)/6 over the positions 0..n-1. */
  lemma {:induction false} PositionSums(n: nat)
    ensures 2.0 * RSum(Positions(n)) == Size(Positions(n)) * (Size(Positions(n)) - 1.0)
    ensures 6.0 * Dot(Positions(n), Positions(n))
         == (Size(Positions(n)) - 1.0) * Size(Positions(n)) * (2.0 * Size(Positions(n)) - 1.0)
  {
    var p := Positions(n);
    if n == 0 {
      PositionSumsEmpty(RSum(p), Dot(p, p), Size(p));
    } else {
      var m := n - 1;
      var p0 := Positions(m);
      PositionSums(m);
      assert p[..m] == p0;
      SizeIsLength(p0);
      PositionSumsStep(RSum(p), Dot(p, p), Size(p), RSum(p0), Dot(p0, p0), Size(p0), p[m]);
    }
  }

  lemma {:induction false} PositionSpreadAlgebra(n: real, s: real, q: real)
    requires n >= 2.0 && 2.0 * s == n * (n - 1.0) && 6.0 * q == (n - 1.0) * n * (2.0 * n - 1.0)
    ensures n * q - s * s > 0.0
  {
    assert 12.0 * (n * q - s * s) == n * n * ((n - 1.0) * (n + 1.0));
    assert (n - 1.0) * (n + 1.0) > 0.0;
    assert n * n > 0.0;
  }

  /** Two or more positions are never all equal, so a fit against them exists. */
  lemma {:induction false} PositionsSpread(n: nat)
    requires n >= 2
    ensures Spread(Positions(n)) > 0.0
  {
    var p := Positions(n);
    PositionSums(n);
    SizeIsLength(p);
    PositionSpreadAlgebra(Size(p), RSum(p), Dot(p, p));
  }
}

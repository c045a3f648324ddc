/**
  The Huber elastic-net solver: a proximal-gradient loop over an intercept and a coefficient
  vector. The matrix is a sequence of rows, every quantity is an exact real, and the largest
  eigenvalue that the program takes from NumPy is the parameter `eigen` with its quadratic-form
  bound (EigenBound).
 */
module ProximalSolver {
  import opened Numbers
  import opened RealVectors

  datatype Problem = Problem(
    rows: seq<Vec>, targets: Vec, columns: nat,
    delta: real, lambda: real, rho: real)
  {
    predicate Valid() {
      && |rows| == |targets| > 0
      && Rectangular(rows, columns)
      && delta >= 0.0
      && lambda >= 0.0
      && 0.0 <= rho <= 1.0
    }

    function RowCount(): (n: real)
      requires Valid()
      ensures n >= 1.0
    {
      |rows| as real
    }

    function Ridge(): (r: real)
      requires Valid()
      ensures r >= 0.0
    {
      NonNegativeProduct(lambda, 1.0 - rho, lambda * (1.0 - rho));
      lambda * (1.0 - rho)
    }

    function Lasso(): (r: real)
      requires Valid()
      ensures r >= 0.0
    {
      NonNegativeProduct(lambda, rho, lambda * rho);
      lambda * rho
    }
  }

  datatype Point = Point(intercept: real, coefficients: Vec)

  predicate Rectangular(rows: seq<Vec>, columns: nat) {
    forall i :: 0 <= i < |rows| ==> |rows[i]| == columns
  }

  predicate Fits(p: Problem, x: Point) {
    |x.coefficients| == p.columns
  }

  // ---------- the objective ----------

  function Huber(r: real, delta: real): real {
    if Abs(r) <= delta then 0.5 * (r * r) else delta * (Abs(r) - 0.5 * delta)
  }

  function Clip(r: real, delta: real): real {
    if r < -delta then -delta else if r > delta then delta else r
  }

  // intercept + matrix @ coefficients
  function Predictions(rows: seq<Vec>, x: Point): (r: Vec)
    requires Rectangular(rows, |x.coefficients|)
    ensures |r| == |rows|
  {
    Shift(x.intercept, Products(rows, x.coefficients))
  }

  function Shift(d: real, a: Vec): (r: Vec)
    ensures |r| == |a|
    ensures forall i :: 0 <= i < |a| ==> r[i] == d + a[i]
  {
    seq(|a|, i requires 0 <= i < |a| => d + a[i])
  }

  function Products(rows: seq<Vec>, x: Vec): (r: Vec)
    requires Rectangular(rows, |x|)
    ensures |r| == |rows|
    ensures forall i :: 0 <= i < |rows| ==> r[i] == Dot(rows[i], x)
  {
    seq(|rows|, i requires 0 <= i < |rows| => Dot(rows[i], x))
  }

  function Residuals(rows: seq<Vec>, targets: Vec, x: Point): (r: Vec)
    requires |rows| == |targets| && Rectangular(rows, |x.coefficients|)
    ensures |r| == |rows|
  {
    Sub(targets, Predictions(rows, x))
  }

  function HuberAll(residuals: Vec, delta: real): (r: Vec)
    ensures |r| == |residuals|
    ensures forall i :: 0 <= i < |residuals| ==> r[i] == Huber(residuals[i], delta)
  {
    seq(|residuals|, i requires 0 <= i < |residuals| => Huber(residuals[i], delta))
  }

  function Mean(a: Vec, n: real): real
    requires n >= 1.0
  {
    Sum(a) / n
  }

  function SmoothPart(p: Problem, x: Point): real
    requires p.Valid() && Fits(p, x)
  {
    Mean(HuberAll(Residuals(p.rows, p.targets, x), p.delta), p.RowCount())
    + 0.5 * p.Ridge() * SumSq(x.coefficients)
  }

  function Objective(p: Problem, x: Point): real
    requires p.Valid() && Fits(p, x)
  {
    SmoothPart(p, x) + p.Lasso() * Norm1(x.coefficients)
  }

  // The point as one vector, the intercept first: a column of ones is put before the matrix.
  function Flat(x: Point): (z: Vec)
    ensures |z| == |x.coefficients| + 1
  {
    [x.intercept] + x.coefficients
  }

  function Gap(x: Point, y: Point): real
    requires |x.coefficients| == |y.coefficients|
  {
    DistSq(Flat(x), Flat(y))
  }

  // ---------- one step of the loop ----------

  function ClipAll(residuals: Vec, delta: real): (r: Vec)
    ensures |r| == |residuals|
    ensures forall i :: 0 <= i < |residuals| ==> r[i] == Clip(residuals[i], delta)
  {
    seq(|residuals|, i requires 0 <= i < |residuals| => Clip(residuals[i], delta))
  }

  // matrix.T @ psi
  function TransposeTimes(rows: seq<Vec>, psi: Vec, columns: nat): (r: Vec)
    requires |rows| == |psi| && Rectangular(rows, columns)
    ensures |r| == columns
  {
    if rows == [] then Zeros(columns)
    else Add(Scale(psi[0], rows[0]), TransposeTimes(rows[1..], psi[1..], columns))
  }

  function Gradient(pull: Vec, coefficients: Vec, n: real, ridge: real): (g: Vec)
    requires |pull| == |coefficients| && n >= 1.0
    ensures |g| == |pull|
    ensures forall i :: 0 <= i < |pull| ==> g[i] == -(pull[i] / n) + ridge * coefficients[i]
  {
    seq(|pull|, i requires 0 <= i < |pull| => -(pull[i] / n) + ridge * coefficients[i])
  }

  // sign(c) * max(|c| - t, 0), with the three values of the sign written out
  function SoftThreshold(c: real, t: real): real {
    if c > 0.0 then Max(Abs(c) - t, 0.0)
    else if c < 0.0 then -Max(Abs(c) - t, 0.0)
    else 0.0
  }

  function SoftThresholdAll(candidate: Vec, t: real): (r: Vec)
    ensures |r| == |candidate|
    ensures forall i :: 0 <= i < |r| ==> r[i] == SoftThreshold(candidate[i], t)
  {
    seq(|candidate|, i requires 0 <= i < |candidate| => SoftThreshold(candidate[i], t))
  }

  function ProximalMove(coefficients: Vec, gradient: Vec, step: real, l1Step: real): (r: Vec)
    requires |coefficients| == |gradient|
    ensures |r| == |coefficients|
  {
    SoftThresholdAll(Sub(coefficients, Scale(step, gradient)), l1Step)
  }

  // smooth_lipschitz, and the two steps taken from it before the loop starts
  function SmoothBound(p: Problem, eigen: real): real
    requires p.Valid()
  {
    eigen + p.lambda * (1.0 - p.rho)
  }

  function StepSize(smooth: real): (s: real)
    ensures s > 0.0 && s * smooth <= 0.95
  {
    StepBound(smooth);
    0.95 / Max(smooth, 0.000000000001)
  }

  function L1Step(p: Problem, step: real): real
    requires p.Valid()
  {
    step * p.lambda * p.rho
  }

  lemma {:induction false} StepBound(smooth: real)
    ensures 0.95 / Max(smooth, 0.000000000001) > 0.0
    ensures 0.95 / Max(smooth, 0.000000000001) * smooth <= 0.95
  {
    var m := Max(smooth, 0.000000000001);
    var s := 0.95 / m;
    assert s * m == 0.95;
    assert s > 0.0;
    assert s * smooth <= s * m by {
      assert s * (m - smooth) >= 0.0;
    }
  }

  function Psi(p: Problem, x: Point): (psi: Vec)
    requires p.Valid() && Fits(p, x)
    ensures |psi| == |p.rows|
  {
    ClipAll(Residuals(p.rows, p.targets, x), p.delta)
  }

  function FullGradient(p: Problem, x: Point): (g: Vec)
    requires p.Valid() && Fits(p, x)
    ensures |g| == p.columns
  {
    Gradient(TransposeTimes(p.rows, Psi(p, x), p.columns), x.coefficients, p.RowCount(), p.Ridge())
  }

  function MovedIntercept(intercept: real, step: real, mean: real): real {
    intercept + step * mean
  }

  function Next(p: Problem, x: Point, step: real, l1Step: real): (y: Point)
    requires p.Valid() && Fits(p, x)
    ensures Fits(p, y)
  {
    Point(MovedIntercept(x.intercept, step, Mean(Psi(p, x), p.RowCount())),
          ProximalMove(x.coefficients, FullGradient(p, x), step, l1Step))
  }

  function Iterated(p: Problem, x: Point, step: real, l1Step: real, k: nat): (y: Point)
    requires p.Valid() && Fits(p, x)
    ensures Fits(p, y)
  {
    if k == 0 then x else Next(p, Iterated(p, x, step, l1Step, k - 1), step, l1Step)
  }

  // The bound that the largest eigenvalue of A'A/n gives, A being the rows with a leading 1.
  ghost predicate EigenBound(p: Problem, eigen: real)
    requires p.Valid()
  {
    forall d: Point :: Fits(p, d) ==>
      SumSq(Predictions(p.rows, d)) <= p.RowCount() * (eigen * SumSq(Flat(d)))
  }

  // ---------- one-dimensional facts ----------

  // The Huber loss lies between its tangent and the tangent plus half the squared distance:
  // `slope` is the clipped residual times the move, `square` the squared move.
  lemma {:induction false} HuberTangent(r: real, s: real, c: real, delta: real, slope: real, square: real)
    requires delta >= 0.0 && c == Clip(r, delta) && slope == c * (s - r) && square == (s - r) * (s - r)
    ensures slope <= Huber(s, delta) - Huber(r, delta) <= slope + 0.5 * square
  {
    var d := Clip(s, delta);
    HuberSplit(r, c, delta, Huber(r, delta));
    HuberSplit(s, d, delta, Huber(s, delta));
    ClipOrder(r, c, d, delta);
    ClipOrder(s, d, c, delta);
    TangentGap(r, s, c, d, slope, square, Huber(r, delta), Huber(s, delta));
  }

  lemma {:induction false} TangentGap(r: real, s: real, c: real, d: real, slope: real, square: real, hr: real, hs: real)
    requires slope == c * (s - r) && square == (s - r) * (s - r)
    requires hr == c * r - 0.5 * (c * c) && hs == d * s - 0.5 * (d * d)
    requires (r - c) * (c - d) >= 0.0 && (s - d) * (d - c) >= 0.0
    ensures slope <= hs - hr <= slope + 0.5 * square
  {
    var a, b, e := s - d, r - c, d - c;
    assert hs - hr - slope == a * e + 0.5 * (e * e);
    SquareSign(e, e * e);
    SquareSign(a - b, (a - b) * (a - b));
    assert square == (a - b) * (a - b) + 2.0 * (a * e) - 2.0 * (b * e) + e * e;
  }

  // The Huber loss through its clipped value c: c*r - c*c/2.
  lemma {:induction false} HuberSplit(r: real, c: real, delta: real, h: real)
    requires delta >= 0.0 && c == Clip(r, delta) && h == Huber(r, delta)
    ensures h == c * r - 0.5 * (c * c) && -delta <= c <= delta
  {
  }

  // The clipped part never outruns the residual, nor turns back on it.
  lemma {:induction false} ClipOrder(r: real, c: real, d: real, delta: real)
    requires delta >= 0.0 && c == Clip(r, delta) && -delta <= d <= delta
    ensures (r - c) * (c - d) >= 0.0
  {
    if r > delta {
      assert (r - c) * (c - d) >= 0.0;
    } else if r < -delta {
      assert (c - r) * (d - c) >= 0.0;
    }
  }

  // Soft-thresholding is the minimiser of (u - c)^2/2 + t|u|, with quadratic growth around it.
  lemma {:induction false} SoftThresholdMinimises(c: real, t: real, u: real)
    requires t >= 0.0
    ensures var v := SoftThreshold(c, t);
            0.5 * ((v - c) * (v - c)) + t * Abs(v) + 0.5 * ((u - v) * (u - v))
            <= 0.5 * ((u - c) * (u - c)) + t * Abs(u)
  {
    var v := SoftThreshold(c, t);
    // (u-c)^2 = (v-c)^2 + 2(v-c)(u-v) + (u-v)^2, so it remains to bound the subgradient term.
    assert 0.5 * ((u - c) * (u - c))
        == 0.5 * ((v - c) * (v - c)) + (v - c) * (u - v) + 0.5 * ((u - v) * (u - v));
    assert t * Abs(u) >= t * u && t * Abs(u) >= -(t * u) by {
      assert t * (Abs(u) - u) >= 0.0;
      assert t * (Abs(u) + u) >= 0.0;
    }
    if c > t {
      assert v == c - t;
    } else if c < -t {
      assert v == c + t;
    } else {
      assert v == 0.0;
      assert c * u <= t * Abs(u) by {
        if u >= 0.0 {
          NonNegativeProduct(t - c, u, (t - c) * u);
        } else {
          NonNegativeProduct(t + c, -u, (t + c) * (-u));
        }
      }
    }
  }

  lemma {:induction false} CoordinateStep(b: real, g: real, c: real, s: real, t: real, u: real, v: real,
                       gv: real, gu: real, av: real, au: real,
                       dvb: real, duv: real, dub: real, vb: real, uv: real, ub: real)
    requires t >= 0.0 && c == b - s * g && v == SoftThreshold(c, t)
    requires gv == g * v && gu == g * u && av == Abs(v) && au == Abs(u)
    requires dvb == v - b && duv == u - v && dub == u - b
    requires vb == dvb * dvb && uv == duv * duv && ub == dub * dub
    ensures s * gv + t * av + 0.5 * vb + 0.5 * uv <= s * gu + t * au + 0.5 * ub
  {
    SoftThresholdMinimises(c, t, u);
    Recentre(b, s * g, v, u, t * Abs(v), t * Abs(u));
    Associate(s, g, v, gv);
    Associate(s, g, u, gu);
  }

  lemma {:induction false} Associate(s: real, g: real, v: real, gv: real)
    requires gv == g * v
    ensures (s * g) * v == s * gv
  {
  }

  lemma {:induction false} Recentre(b: real, q: real, v: real, u: real, tv: real, tu: real)
    requires 0.5 * ((v - (b - q)) * (v - (b - q))) + tv + 0.5 * ((u - v) * (u - v))
             <= 0.5 * ((u - (b - q)) * (u - (b - q))) + tu
    ensures q * v + tv + 0.5 * ((v - b) * (v - b)) + 0.5 * ((u - v) * (u - v))
            <= q * u + tu + 0.5 * ((u - b) * (u - b))
  {
    ShiftedSquare(b, q, v);
    ShiftedSquare(b, q, u);
  }

  lemma {:induction false} ShiftedSquare(b: real, q: real, w: real)
    ensures 0.5 * ((w - (b - q)) * (w - (b - q)))
         == 0.5 * ((w - b) * (w - b)) + q * w - q * b + 0.5 * (q * q)
  {
  }

  // ---------- sums over rows and columns ----------

  function Move(x: Point, y: Point): Point
    requires |x.coefficients| == |y.coefficients|
  {
    Point(y.intercept - x.intercept, Sub(y.coefficients, x.coefficients))
  }

  // The summed loss lies between its tangent and the tangent plus half the squared shift.
  lemma {:induction false} HuberSumTangent(r: Vec, shift: Vec, delta: real)
    requires |r| == |shift| && delta >= 0.0
    ensures var slope := Dot(ClipAll(r, delta), shift);
            var rise := Sum(HuberAll(Sub(r, shift), delta)) - Sum(HuberAll(r, delta));
            -slope <= rise <= -slope + 0.5 * SumSq(shift)
  {
    var slopes, squares := Prod(ClipAll(r, delta), shift), Prod(shift, shift);
    var after, before, none := HuberAll(Sub(r, shift), delta), HuberAll(r, delta), Zeros(|r|);
    forall i | 0 <= i < |r|
      ensures -slopes[i] <= after[i] - before[i] <= -slopes[i] + 0.5 * squares[i]
    {
      HuberShift(r[i], shift[i], Sub(r, shift)[i], ClipAll(r, delta)[i], delta, slopes[i], squares[i]);
    }
    SumInequality(after, slopes, none, none, before, none, squares);
    SumInequality(before, none, none, none, after, slopes, none);
    SumZero(none);
  }

  lemma {:induction false} HuberShift(r: real, w: real, s: real, c: real, delta: real, slope: real, square: real)
    requires delta >= 0.0 && s == r - w && c == Clip(r, delta)
    requires slope == c * w && square == w * w
    ensures -slope <= Huber(s, delta) - Huber(r, delta) <= -slope + 0.5 * square
  {
    OppositeMove(c, w, s - r, slope, square);
    HuberTangent(r, s, c, delta, -slope, square);
  }

  lemma {:induction false} OppositeMove(c: real, w: real, m: real, slope: real, square: real)
    requires m == -w && slope == c * w && square == w * w
    ensures -slope == c * m && square == m * m
  {
  }

  lemma {:induction false} ResidualsMoved(rows: seq<Vec>, targets: Vec, x: Point, y: Point)
    requires |rows| == |targets| && |x.coefficients| == |y.coefficients| && Rectangular(rows, |x.coefficients|)
    ensures Residuals(rows, targets, y) == Sub(Residuals(rows, targets, x), Predictions(rows, Move(x, y)))
  {
    forall i | 0 <= i < |rows|
      ensures Residuals(rows, targets, y)[i] == Sub(Residuals(rows, targets, x), Predictions(rows, Move(x, y)))[i]
    {
      DotSub(rows[i], y.coefficients, x.coefficients);
    }
  }

  // The slope seen row by row equals the slope seen column by column.
  lemma {:induction false} Transposition(k: Terms, rows: seq<Vec>, psi: Vec, move: Point, columns: nat)
    requires |rows| == |psi| && columns == |move.coefficients| && Rectangular(rows, columns)
    requires k.d == move.intercept && k.psi == Sum(psi)
    requires k.pull == Dot(TransposeTimes(rows, psi, columns), move.coefficients)
    requires k.slope == Dot(psi, Predictions(rows, move))
    ensures k.slope == k.d * k.psi + k.pull
  {
    ShiftedDot(psi, k.d, Products(rows, move.coefficients), k.psi);
    LinearTransposition(rows, psi, move.coefficients);
  }

  lemma {:induction false} ShiftedDot(psi: Vec, d: real, a: Vec, total: real)
    requires |psi| == |a| && total == Sum(psi)
    ensures Dot(psi, Shift(d, a)) == d * total + Dot(psi, a)
  {
    forall i | 0 <= i < |psi|
      ensures Prod(psi, Shift(d, a))[i] == d * psi[i] + Prod(psi, a)[i]
    {
      ShiftedTerm(psi, d, a, i);
    }
    SumMix(Prod(psi, Shift(d, a)), d, psi, Prod(psi, a), total);
  }

  lemma {:induction false} ShiftedTerm(psi: Vec, d: real, a: Vec, i: nat)
    requires |psi| == |a| && i < |psi|
    ensures Prod(psi, Shift(d, a))[i] == d * psi[i] + Prod(psi, a)[i]
  {
    MulSplit(psi[i], Shift(d, a)[i], d, a[i]);
  }

  lemma {:induction false} LinearTransposition(rows: seq<Vec>, psi: Vec, x: Vec)
    requires |rows| == |psi| && Rectangular(rows, |x|)
    ensures Dot(psi, Products(rows, x)) == Dot(TransposeTimes(rows, psi, |x|), x)
  {
    if rows == [] {
      DotZeros(x);
    } else {
      LinearTransposition(rows[1..], psi[1..], x);
      DotMix(psi[0], rows[0], TransposeTimes(rows[1..], psi[1..], |x|), x);
      HeadProduct(psi, Products(rows, x), Dot(rows[0], x));
      assert Products(rows, x)[1..] == Products(rows[1..], x);
    }
  }

  lemma {:induction false} GradientDot(pull: Vec, coefficients: Vec, n: real, ridge: real, u: Vec)
    requires |pull| == |coefficients| == |u| && n >= 1.0
    ensures Dot(Gradient(pull, coefficients, n, ridge), u) == -(Dot(pull, u) / n) + ridge * Dot(coefficients, u)
  {
    var g, k := Gradient(pull, coefficients, n, ridge), -1.0 / n;
    var mixed := Add(Scale(k, pull), Scale(ridge, coefficients));
    forall i | 0 <= i < |pull|
      ensures g[i] == mixed[i]
    {
      assert -(pull[i] / n) == k * pull[i];
    }
    assert g == mixed;
    DotMix(k, pull, Scale(ridge, coefficients), u);
    assert Scale(ridge, coefficients) == Add(Scale(ridge, coefficients), Zeros(|u|));
    DotMix(ridge, coefficients, Zeros(|u|), u);
    DotZeros(u);
    assert k * Dot(pull, u) == -(Dot(pull, u) / n);
  }

  function SoftThresholdEach(candidate: Vec, weights: Vec): (r: Vec)
    requires |candidate| == |weights|
    ensures |r| == |candidate|
    ensures forall i :: 0 <= i < |r| ==> r[i] == SoftThreshold(candidate[i], weights[i])
  {
    seq(|candidate|, i requires 0 <= i < |candidate| => SoftThreshold(candidate[i], weights[i]))
  }

  // The proximal move beats every other vector on the linearised problem, with quadratic growth around it.
  lemma {:induction false} ProximalMoveStep(b: Vec, g: Vec, s: real, w: Vec, u: Vec, v: Vec, gv: real, gu: real)
    requires |b| == |g| == |u| == |w| && (forall i :: 0 <= i < |w| ==> w[i] >= 0.0)
    requires v == SoftThresholdEach(Sub(b, Scale(s, g)), w)
    requires gv == Dot(g, v) && gu == Dot(g, u)
    ensures s * gv + Dot(w, AbsAll(v)) + 0.5 * DistSq(v, b) + 0.5 * DistSq(u, v)
         <= s * gu + Dot(w, AbsAll(u)) + 0.5 * DistSq(u, b)
  {
    ProximalMoveSums(b, g, s, w, u, v);
    SumScale(s, Prod(g, v), gv);
    SumScale(s, Prod(g, u), gu);
  }

  lemma {:induction false} ProximalMoveSums(b: Vec, g: Vec, s: real, w: Vec, u: Vec, v: Vec)
    requires |b| == |g| == |u| == |w| && (forall i :: 0 <= i < |w| ==> w[i] >= 0.0)
    requires v == SoftThresholdEach(Sub(b, Scale(s, g)), w)
    ensures Sum(Scale(s, Prod(g, v))) + Dot(w, AbsAll(v)) + 0.5 * DistSq(v, b) + 0.5 * DistSq(u, v)
         <= Sum(Scale(s, Prod(g, u))) + Dot(w, AbsAll(u)) + 0.5 * DistSq(u, b)
  {
    var gv, gu := Scale(s, Prod(g, v)), Scale(s, Prod(g, u));
    var tv, tu := Prod(w, AbsAll(v)), Prod(w, AbsAll(u));
    var vb, uv, ub := Prod(Sub(v, b), Sub(v, b)), Prod(Sub(u, v), Sub(u, v)), Prod(Sub(u, b), Sub(u, b));
    forall i | 0 <= i < |b|
      ensures gv[i] + tv[i] + 0.5 * vb[i] + 0.5 * uv[i] <= gu[i] + tu[i] + 0.5 * ub[i]
    {
      CoordinateStepAt(b, g, s, w, u, v, i);
    }
    SumInequality(gv, tv, vb, uv, gu, tu, ub);
  }

  lemma {:induction false} CoordinateStepAt(b: Vec, g: Vec, s: real, w: Vec, u: Vec, v: Vec, i: nat)
    requires |b| == |g| == |u| == |w| && i < |b| && w[i] >= 0.0
    requires v == SoftThresholdEach(Sub(b, Scale(s, g)), w)
    ensures Scale(s, Prod(g, v))[i] + Prod(w, AbsAll(v))[i]
              + 0.5 * Prod(Sub(v, b), Sub(v, b))[i] + 0.5 * Prod(Sub(u, v), Sub(u, v))[i]
            <= Scale(s, Prod(g, u))[i] + Prod(w, AbsAll(u))[i] + 0.5 * Prod(Sub(u, b), Sub(u, b))[i]
  {
    hide SoftThreshold, Abs, Max;
    CoordinateStep(b[i], g[i], Sub(b, Scale(s, g))[i], s, w[i], u[i], v[i], Prod(g, v)[i], Prod(g, u)[i],
      AbsAll(v)[i], AbsAll(u)[i], Sub(v, b)[i], Sub(u, v)[i], Sub(u, b)[i],
      Prod(Sub(v, b), Sub(v, b))[i], Prod(Sub(u, v), Sub(u, v))[i], Prod(Sub(u, b), Sub(u, b))[i]);
  }

  lemma {:induction false} SumScale(k: real, a: Vec, total: real)
    requires total == Sum(a)
    ensures Sum(Scale(k, a)) == k * total
  {
    SumMix(Scale(k, a), k, a, Zeros(|a|), total);
    SumZero(Zeros(|a|));
  }

  // ---------- the smooth part: convex, with slope bounded by eigen + ridge ----------

  function FlatGradient(p: Problem, x: Point): (g: Vec)
    requires p.Valid() && Fits(p, x)
    ensures |g| == p.columns + 1
  {
    [-Mean(Psi(p, x), p.RowCount())] + FullGradient(p, x)
  }

  function Slope(p: Problem, x: Point, y: Point): real
    requires p.Valid() && Fits(p, x) && Fits(p, y)
  {
    Dot(FlatGradient(p, x), Sub(Flat(y), Flat(x)))
  }

  // The numbers that one move from x to y brings together. The lemmas below take them as one
  // value, so that each product of two of them is written the same way throughout.
  datatype Terms = Terms(
    n: real, ridge: real, hx: real, hy: real, qx: real, qy: real,
    d: real, psi: real, mean: real, pull: real, gradient: real, cross: real,
    slope: real, image: real, dist: real)

  ghost predicate Describes(k: Terms, p: Problem, x: Point, y: Point)
    requires p.Valid() && Fits(p, x) && Fits(p, y)
  {
    var move, psi := Move(x, y), Psi(p, x);
    && k.n == p.RowCount() && k.ridge == p.Ridge()
    && k.hx == Sum(HuberAll(Residuals(p.rows, p.targets, x), p.delta))
    && k.hy == Sum(HuberAll(Residuals(p.rows, p.targets, y), p.delta))
    && k.qx == SumSq(x.coefficients) && k.qy == SumSq(y.coefficients)
    && k.d == move.intercept && k.psi == Sum(psi) && k.mean == Mean(psi, p.RowCount())
    && k.pull == Dot(TransposeTimes(p.rows, psi, p.columns), move.coefficients)
    && k.gradient == Dot(FullGradient(p, x), move.coefficients)
    && k.cross == Dot(x.coefficients, move.coefficients)
    && k.slope == Dot(psi, Predictions(p.rows, move))
    && k.image == SumSq(Predictions(p.rows, move))
    && k.dist == DistSq(y.coefficients, x.coefficients)
  }

  lemma {:induction false} SmoothPartTangent(p: Problem, x: Point, y: Point, n: real, ridge: real, image: real,
      dist: real)
    requires p.Valid() && Fits(p, x) && Fits(p, y)
    requires n == p.RowCount() && ridge == p.Ridge()
    requires image == SumSq(Predictions(p.rows, Move(x, y))) && dist == DistSq(y.coefficients, x.coefficients)
    ensures 0.0 <= SmoothPart(p, y) - SmoothPart(p, x) - Slope(p, x, y) <= 0.5 * (image / n) + 0.5 * (ridge * dist)
  {
    var move, psi := Move(x, y), Psi(p, x);
    var k := Terms(n, ridge,
                   Sum(HuberAll(Residuals(p.rows, p.targets, x), p.delta)),
                   Sum(HuberAll(Residuals(p.rows, p.targets, y), p.delta)),
                   SumSq(x.coefficients), SumSq(y.coefficients), move.intercept, Sum(psi), Mean(psi, n),
                   Dot(TransposeTimes(p.rows, psi, p.columns), move.coefficients),
                   Dot(FullGradient(p, x), move.coefficients), Dot(x.coefficients, move.coefficients),
                   Dot(psi, Predictions(p.rows, move)), image, dist);
    TangentOfTerms(k, p, x, y, SmoothPart(p, x), SmoothPart(p, y), Slope(p, x, y));
  }

  lemma {:induction false} TangentOfTerms(k: Terms, p: Problem, x: Point, y: Point, fx: real, fy: real, slope: real)
    requires p.Valid() && Fits(p, x) && Fits(p, y) && Describes(k, p, x, y)
    requires fx == SmoothPart(p, x) && fy == SmoothPart(p, y) && slope == Slope(p, x, y)
    ensures 0.0 <= fy - fx - slope <= 0.5 * (k.image / k.n) + 0.5 * (k.ridge * k.dist)
  {
    SmoothPartTerms(p, x, k.n, k.ridge, k.hx, k.qx);
    SmoothPartTerms(p, y, k.n, k.ridge, k.hy, k.qy);
    SlopeTerms(k, p, x, y);
    TermsBalance(k, p, x, y);
    TangentScalars(k, fx, fy, slope);
  }

  lemma {:induction false} TermsBalance(k: Terms, p: Problem, x: Point, y: Point)
    requires p.Valid() && Fits(p, x) && Fits(p, y) && Describes(k, p, x, y)
    ensures Balanced(k)
  {
    LossTerms(k, p, x, y);
    Transposition(k, p.rows, Psi(p, x), Move(x, y), p.columns);
    GradientTerms(k, p, x, y);
    SumSqExpand(y.coefficients, x.coefficients);
    SumSqNonNegative(Sub(y.coefficients, x.coefficients));
  }

  lemma {:induction false} SmoothPartTerms(p: Problem, x: Point, n: real, ridge: real, h: real, q: real)
    requires p.Valid() && Fits(p, x)
    requires n == p.RowCount() && ridge == p.Ridge() && q == SumSq(x.coefficients)
    requires h == Sum(HuberAll(Residuals(p.rows, p.targets, x), p.delta))
    ensures SmoothPart(p, x) == h / n + 0.5 * ridge * q
  {
  }

  lemma {:induction false} FlatMove(x: Point, y: Point)
    requires |x.coefficients| == |y.coefficients|
    ensures Sub(Flat(y), Flat(x)) == [y.intercept - x.intercept] + Sub(y.coefficients, x.coefficients)
  {
  }

  lemma {:induction false} SlopeTerms(k: Terms, p: Problem, x: Point, y: Point)
    requires p.Valid() && Fits(p, x) && Fits(p, y) && k.mean == Mean(Psi(p, x), p.RowCount())
    requires k.d == y.intercept - x.intercept
    requires k.gradient == Dot(FullGradient(p, x), Sub(y.coefficients, x.coefficients))
    ensures Slope(p, x, y) == k.gradient - k.mean * k.d
  {
    FlatMove(x, y);
    ConsDot(-k.mean, FullGradient(p, x), k.d, Sub(y.coefficients, x.coefficients));
  }

  lemma {:induction false} ConsDot(a: real, s: Vec, b: real, t: Vec)
    requires |s| == |t|
    ensures Dot([a] + s, [b] + t) == a * b + Dot(s, t)
  {
    HeadProduct([a] + s, [b] + t, b);
    assert ([a] + s)[1..] == s && ([b] + t)[1..] == t;
  }

  lemma {:induction false} LossTerms(k: Terms, p: Problem, x: Point, y: Point)
    requires p.Valid() && Fits(p, x) && Fits(p, y) && Describes(k, p, x, y)
    ensures -k.slope <= k.hy - k.hx <= -k.slope + 0.5 * k.image
  {
    HuberSumTangent(Residuals(p.rows, p.targets, x), Predictions(p.rows, Move(x, y)), p.delta);
    ResidualsMoved(p.rows, p.targets, x, y);
  }

  lemma {:induction false} GradientTerms(k: Terms, p: Problem, x: Point, y: Point)
    requires p.Valid() && Fits(p, x) && Fits(p, y) && Describes(k, p, x, y)
    ensures k.gradient == -(k.pull / k.n) + k.ridge * k.cross
  {
    GradientDot(TransposeTimes(p.rows, Psi(p, x), p.columns), x.coefficients, k.n, k.ridge, Move(x, y).coefficients);
  }

  predicate Balanced(k: Terms) {
    && k.n >= 1.0 && k.ridge >= 0.0 && k.dist >= 0.0
    && -k.slope <= k.hy - k.hx <= -k.slope + 0.5 * k.image
    && k.slope == k.d * k.psi + k.pull
    && k.mean == k.psi / k.n
    && k.gradient == -(k.pull / k.n) + k.ridge * k.cross
    && k.qy == k.qx + 2.0 * k.cross + k.dist
  }

  lemma {:induction false} TangentScalars(k: Terms, fx: real, fy: real, slope: real)
    requires Balanced(k) && slope == k.gradient - k.mean * k.d
    requires fx == k.hx / k.n + 0.5 * k.ridge * k.qx && fy == k.hy / k.n + 0.5 * k.ridge * k.qy
    ensures 0.0 <= fy - fx - slope <= 0.5 * (k.image / k.n) + 0.5 * (k.ridge * k.dist)
  {
    var rise := fy - fx - slope;
    var excess := k.hy - k.hx + k.slope;
    assert rise == excess / k.n + 0.5 * (k.ridge * k.dist) by {
      assert k.mean * k.d == k.d * k.psi / k.n;
      assert 0.5 * k.ridge * k.qy == 0.5 * k.ridge * k.qx + k.ridge * k.cross + 0.5 * (k.ridge * k.dist);
      assert excess / k.n == k.hy / k.n - k.hx / k.n + k.d * k.psi / k.n + k.pull / k.n;
    }
    assert k.ridge * k.dist >= 0.0;
    assert 0.0 <= excess / k.n <= (0.5 * k.image) / k.n;
  }

  // ---------- one step against every other point ----------

  // Under the eigenvalue bound, the smooth part rises by at most half of (eigen + ridge) times the squared move.
  lemma {:induction false} SmoothPartUpper(p: Problem, x: Point, y: Point, eigen: real, steep: real, gap: real)
    requires p.Valid() && Fits(p, x) && Fits(p, y) && EigenBound(p, eigen)
    requires gap == Gap(y, x) && steep == eigen + p.Ridge()
    ensures SmoothPart(p, y) <= SmoothPart(p, x) + Slope(p, x, y) + 0.5 * (steep * gap)
  {
    SmoothPartUpperTerms(p, x, y, eigen, steep, gap, p.RowCount(), p.Ridge(), SumSq(Predictions(p.rows, Move(x, y))),
      DistSq(y.coefficients, x.coefficients), SmoothPart(p, y) - SmoothPart(p, x) - Slope(p, x, y));
  }

  lemma {:induction false} SmoothPartUpperTerms(p: Problem, x: Point, y: Point, eigen: real, steep: real, gap: real,
                             n: real, ridge: real, image: real, dist: real, rise: real)
    requires p.Valid() && Fits(p, x) && Fits(p, y) && EigenBound(p, eigen)
    requires gap == Gap(y, x) && steep == eigen + ridge && n == p.RowCount() && ridge == p.Ridge()
    requires image == SumSq(Predictions(p.rows, Move(x, y))) && dist == DistSq(y.coefficients, x.coefficients)
    requires rise == SmoothPart(p, y) - SmoothPart(p, x) - Slope(p, x, y)
    ensures rise <= 0.5 * (steep * gap)
  {
    SmoothPartTangent(p, x, y, n, ridge, image, dist);
    GapCoversCoefficients(x, y, gap, dist);
    EigenAt(p, Move(x, y), eigen, n, image, gap);
    UpperScalars(n, ridge, eigen, steep, image, dist, gap);
  }

  lemma {:induction false} EigenAt(p: Problem, move: Point, eigen: real, n: real, image: real, gap: real)
    requires p.Valid() && Fits(p, move) && EigenBound(p, eigen)
    requires n == p.RowCount() && image == SumSq(Predictions(p.rows, move)) && gap == SumSq(Flat(move))
    ensures image <= n * (eigen * gap)
  {
  }

  lemma {:induction false} GapCoversCoefficients(x: Point, y: Point, gap: real, dist: real)
    requires |x.coefficients| == |y.coefficients| && gap == Gap(y, x) && dist == DistSq(y.coefficients, x.coefficients)
    ensures gap == SumSq(Flat(Move(x, y))) && dist <= gap
  {
    FlatMove(x, y);
    var move := Move(x, y);
    var d := move.intercept;
    ConsDot(d, move.coefficients, d, move.coefficients);
    SquareSign(d, d * d);
  }

  lemma {:induction false} UpperScalars(n: real, ridge: real, eigen: real, steep: real, image: real, dist: real,
      gap: real)
    requires n >= 1.0 && ridge >= 0.0 && dist <= gap && image <= n * (eigen * gap) && steep == eigen + ridge
    ensures 0.5 * (image / n) + 0.5 * (ridge * dist) <= 0.5 * (steep * gap)
  {
    assert image / n <= eigen * gap;
    assert ridge * dist <= ridge * gap;
  }

  // ---------- the step on flattened points ----------

  // The soft threshold leaves the intercept alone: its weight is zero.
  function Weights(columns: nat, t: real): (w: Vec)
    ensures |w| == columns + 1
    ensures forall i :: 0 <= i <= columns ==> w[i] == if i == 0 then 0.0 else t
  {
    seq(columns + 1, i => if i == 0 then 0.0 else t)
  }

  lemma {:induction false} NextFlat(p: Problem, x: Point, y: Point, s: real, t: real, mean: real)
    requires p.Valid() && Fits(p, x) && y == Next(p, x, s, t)
    requires mean == Mean(Psi(p, x), p.RowCount())
    ensures Flat(y) == SoftThresholdEach(Sub(Flat(x), Scale(s, FlatGradient(p, x))), Weights(p.columns, t))
  {
    FlatStep(x.intercept, x.coefficients, mean, FullGradient(p, x), s, t, y.intercept, y.coefficients);
  }

  lemma {:induction false} FlatStep(x: real, b: Vec, mean: real, g: Vec, s: real, t: real, y: real, v: Vec)
    requires |b| == |g| && y == MovedIntercept(x, s, mean) && v == ProximalMove(b, g, s, t)
    ensures [y] + v == SoftThresholdEach(Sub([x] + b, Scale(s, [-mean] + g)), Weights(|b|, t))
  {
    var flat := [-mean] + g;
    var c := Sub([x] + b, Scale(s, flat));
    InterceptMove(x, s, mean, flat[0], c[0], y);
    forall i | 0 < i <= |b|
      ensures c[i] == Sub(b, Scale(s, g))[i - 1]
    {
      SameProduct(s, flat[i], s, g[i - 1], Scale(s, flat)[i], Scale(s, g)[i - 1]);
    }
  }

  lemma {:induction false} InterceptMove(x: real, s: real, mean: real, g: real, c: real, y: real)
    requires g == -mean && c == x - s * g && y == MovedIntercept(x, s, mean)
    ensures y == SoftThreshold(c, 0.0)
  {
    assert s * g == -(s * mean);
  }

  lemma {:induction false} WeightedNorm(x: Point, t: real, norm: real, weighted: real)
    requires norm == Norm1(x.coefficients) && weighted == Dot(Weights(|x.coefficients|, t), AbsAll(Flat(x)))
    ensures weighted == t * norm
  {
    var m := |x.coefficients|;
    var w, a := Weights(m, t), AbsAll(Flat(x));
    HeadProduct(w, a, a[0]);
    assert a[1..] == AbsAll(x.coefficients);
    ConstantWeights(w[1..], t, a[1..], norm);
  }

  lemma {:induction false} ConstantWeights(w: Vec, t: real, a: Vec, total: real)
    requires |w| == |a| && (forall i :: 0 <= i < |w| ==> w[i] == t) && total == Sum(a)
    ensures Dot(w, a) == t * total
  {
    forall i | 0 <= i < |a|
      ensures Prod(w, a)[i] == t * a[i] + Zeros(|a|)[i]
    {
      SameProduct(w[i], a[i], t, a[i], Prod(w, a)[i], t * a[i]);
    }
    SumMix(Prod(w, a), t, a, Zeros(|a|), total);
    SumZero(Zeros(|a|));
  }

  lemma {:induction false} StepOnFlat(p: Problem, x: Point, y: Point, u: Point, s: real, t: real, mean: real, gy: real,
      gu: real, wy: real, wu: real, yx: real, uy: real, ux: real)
    requires p.Valid() && Fits(p, x) && Fits(p, u) && t >= 0.0
    requires y == Next(p, x, s, t) && mean == Mean(Psi(p, x), p.RowCount())
    requires gy == Dot(FlatGradient(p, x), Flat(y)) && gu == Dot(FlatGradient(p, x), Flat(u))
    requires wy == Dot(Weights(p.columns, t), AbsAll(Flat(y))) && wu == Dot(Weights(p.columns, t), AbsAll(Flat(u)))
    requires yx == Gap(y, x) && uy == Gap(u, y) && ux == Gap(u, x)
    ensures s * gy + wy + 0.5 * yx + 0.5 * uy <= s * gu + wu + 0.5 * ux
  {
    NextFlat(p, x, y, s, t, mean);
    ProximalMoveStep(Flat(x), FlatGradient(p, x), s, Weights(p.columns, t), Flat(u), Flat(y), gy, gu);
  }

  lemma {:induction false} SlopeIsDifference(p: Problem, x: Point, y: Point, gx: real, gy: real)
    requires p.Valid() && Fits(p, x) && Fits(p, y)
    requires gx == Dot(FlatGradient(p, x), Flat(x)) && gy == Dot(FlatGradient(p, x), Flat(y))
    ensures Slope(p, x, y) == gy - gx
  {
    DotSub(FlatGradient(p, x), Flat(y), Flat(x));
  }

  lemma {:induction false} StepScalars(s: real, t: real, lasso: real, steep: real, fx: real, fy: real, fu: real,
      slopeY: real, slopeU: real, gx: real, gy: real, gu: real, wy: real, wu: real, ny: real, nu: real, oy: real,
      ou: real, yx: real, uy: real, ux: real)
    requires s > 0.0 && s * steep <= 0.95 && t == s * lasso && yx >= 0.0
    requires wy == t * ny && wu == t * nu && slopeY == gy - gx && slopeU == gu - gx
    requires s * gy + wy + 0.5 * yx + 0.5 * uy <= s * gu + wu + 0.5 * ux
    requires fy <= fx + slopeY + 0.5 * (steep * yx) && fx + slopeU <= fu
    requires oy == fy + lasso * ny && ou == fu + lasso * nu
    ensures s * oy + 0.025 * yx + 0.5 * uy <= s * ou + 0.5 * ux
  {
    assert s * fy <= s * (fx + slopeY + 0.5 * (steep * yx));
    assert s * (fx + slopeU) <= s * fu;
    assert (s * steep) * yx <= 0.95 * yx;
    assert s * (lasso * ny) == wy && s * (lasso * nu) == wu;
  }

  // From here on the numbers of a step have names, and the vectors behind them are left out of the arithmetic.
  lemma {:induction false} StepFromTangents(p: Problem, x: Point, y: Point, u: Point, s: real, t: real, lasso: real,
      steep: real, fx: real, fy: real, fu: real, slopeY: real, slopeU: real, ny: real, nu: real, oy: real, ou: real,
      yx: real, uy: real, ux: real)
    requires p.Valid() && Fits(p, x) && Fits(p, u) && y == Next(p, x, s, t)
    requires slopeY == Slope(p, x, y) && slopeU == Slope(p, x, u)
    requires ny == Norm1(y.coefficients) && nu == Norm1(u.coefficients)
    requires yx == Gap(y, x) && uy == Gap(u, y) && ux == Gap(u, x)
    requires s > 0.0 && t >= 0.0 && t == s * lasso && s * steep <= 0.95
    requires fy <= fx + slopeY + 0.5 * (steep * yx) && fx + slopeU <= fu
    requires oy == fy + lasso * ny && ou == fu + lasso * nu
    ensures s * oy + 0.025 * yx + 0.5 * uy <= s * ou + 0.5 * ux
  {
    var g, w := FlatGradient(p, x), Weights(p.columns, t);
    StepFromGradient(p, x, y, u, s, t, lasso, steep, fx, fy, fu, slopeY, slopeU,
      Mean(Psi(p, x), p.RowCount()), Dot(g, Flat(x)), Dot(g, Flat(y)), Dot(g, Flat(u)),
      Dot(w, AbsAll(Flat(y))), Dot(w, AbsAll(Flat(u))), ny, nu, oy, ou, yx, uy, ux);
  }

  lemma {:induction false} StepFromGradient(p: Problem, x: Point, y: Point, u: Point, s: real, t: real, lasso: real,
      steep: real, fx: real, fy: real, fu: real, slopeY: real, slopeU: real, mean: real, gx: real, gy: real, gu: real,
      wy: real, wu: real, ny: real, nu: real, oy: real, ou: real, yx: real, uy: real, ux: real)
    requires p.Valid() && Fits(p, x) && Fits(p, u) && y == Next(p, x, s, t)
    requires slopeY == Slope(p, x, y) && slopeU == Slope(p, x, u) && mean == Mean(Psi(p, x), p.RowCount())
    requires gx == Dot(FlatGradient(p, x), Flat(x)) && gy == Dot(FlatGradient(p, x), Flat(y))
    requires gu == Dot(FlatGradient(p, x), Flat(u))
    requires wy == Dot(Weights(p.columns, t), AbsAll(Flat(y))) && wu == Dot(Weights(p.columns, t), AbsAll(Flat(u)))
    requires ny == Norm1(y.coefficients) && nu == Norm1(u.coefficients)
    requires yx == Gap(y, x) && uy == Gap(u, y) && ux == Gap(u, x)
    requires s > 0.0 && t >= 0.0 && t == s * lasso && s * steep <= 0.95
    requires fy <= fx + slopeY + 0.5 * (steep * yx) && fx + slopeU <= fu
    requires oy == fy + lasso * ny && ou == fu + lasso * nu
    ensures s * oy + 0.025 * yx + 0.5 * uy <= s * ou + 0.5 * ux
  {
    StepOnFlat(p, x, y, u, s, t, mean, gy, gu, wy, wu, yx, uy, ux);
    SlopeIsDifference(p, x, y, gx, gy);
    SlopeIsDifference(p, x, u, gx, gu);
    WeightedNorm(y, t, ny, wy);
    WeightedNorm(u, t, nu, wu);
    SumSqNonNegative(Sub(Flat(y), Flat(x)));
    StepScalars(s, t, lasso, steep, fx, fy, fu, slopeY, slopeU, gx, gy, gu, wy, wu, ny, nu, oy, ou, yx, uy, ux);
  }

  lemma {:induction false} SmoothPartLower(p: Problem, x: Point, u: Point)
    requires p.Valid() && Fits(p, x) && Fits(p, u)
    ensures SmoothPart(p, x) + Slope(p, x, u) <= SmoothPart(p, u)
  {
    SmoothPartTangent(p, x, u, p.RowCount(), p.Ridge(), SumSq(Predictions(p.rows, Move(x, u))),
      DistSq(u.coefficients, x.coefficients));
  }

  // ---------- descent, optimality and rate ----------

  // What the loop's step and l1 step satisfy: StepSizesSuitable proves it of the ones the program computes.
  ghost predicate Suitable(p: Problem, eigen: real, smooth: real, lasso: real, step: real, l1Step: real)
    requires p.Valid()
  {
    && EigenBound(p, eigen)
    && smooth == eigen + p.Ridge() && lasso == p.Lasso()
    && step > 0.0 && l1Step >= 0.0 && l1Step == step * lasso && step * smooth <= 0.95
  }

  // One step from x to y against any other point u: the scaled objective gains on u whatever u is.
  lemma {:induction false} StepAgainst(p: Problem, eigen: real, smooth: real, lasso: real, step: real, l1Step: real,
                    x: Point, y: Point, u: Point, oy: real, ou: real, yx: real, uy: real, ux: real)
    requires p.Valid() && Fits(p, x) && Fits(p, u) && Suitable(p, eigen, smooth, lasso, step, l1Step)
    requires y == Next(p, x, step, l1Step) && oy == Objective(p, y) && ou == Objective(p, u)
    requires yx == Gap(y, x) && uy == Gap(u, y) && ux == Gap(u, x)
    ensures step * oy + 0.025 * yx + 0.5 * uy <= step * ou + 0.5 * ux
  {
    StepOnObjectives(p, eigen, step, l1Step, lasso, smooth, x, y, u, SmoothPart(p, x), SmoothPart(p, y),
        SmoothPart(p, u), Slope(p, x, y), Slope(p, x, u), Norm1(y.coefficients), Norm1(u.coefficients), oy, ou, yx, uy,
        ux);
  }

  lemma {:induction false} StepOnObjectives(p: Problem, eigen: real, s: real, t: real, lasso: real, smooth: real,
      x: Point, y: Point, u: Point, fx: real, fy: real, fu: real, slopeY: real, slopeU: real, ny: real, nu: real,
      oy: real, ou: real, yx: real, uy: real, ux: real)
    requires p.Valid() && Fits(p, x) && Fits(p, u) && Suitable(p, eigen, smooth, lasso, s, t) && y == Next(p, x, s, t)
    requires slopeY == Slope(p, x, y) && slopeU == Slope(p, x, u)
    requires fx == SmoothPart(p, x) && fy == SmoothPart(p, y) && fu == SmoothPart(p, u)
    requires ny == Norm1(y.coefficients) && nu == Norm1(u.coefficients)
    requires oy == Objective(p, y) && ou == Objective(p, u)
    requires yx == Gap(y, x) && uy == Gap(u, y) && ux == Gap(u, x)
    ensures s * oy + 0.025 * yx + 0.5 * uy <= s * ou + 0.5 * ux
  {
    SplitObjective(p, y, lasso, fy, ny, oy);
    SplitObjective(p, u, lasso, fu, nu, ou);
    StepOnParts(p, eigen, s, t, lasso, smooth, x, y, u, fx, fy, fu, slopeY, slopeU, ny, nu, oy, ou, yx, uy, ux);
  }

  lemma {:induction false} StepOnParts(p: Problem, eigen: real, s: real, t: real, lasso: real, smooth: real, x: Point,
      y: Point, u: Point, fx: real, fy: real, fu: real, slopeY: real, slopeU: real, ny: real, nu: real, oy: real,
      ou: real, yx: real, uy: real, ux: real)
    requires p.Valid() && Fits(p, x) && Fits(p, u) && Suitable(p, eigen, smooth, lasso, s, t) && y == Next(p, x, s, t)
    requires slopeY == Slope(p, x, y) && slopeU == Slope(p, x, u)
    requires fx == SmoothPart(p, x) && fy == SmoothPart(p, y) && fu == SmoothPart(p, u)
    requires ny == Norm1(y.coefficients) && nu == Norm1(u.coefficients)
    requires oy == fy + lasso * ny && ou == fu + lasso * nu
    requires yx == Gap(y, x) && uy == Gap(u, y) && ux == Gap(u, x)
    ensures s * oy + 0.025 * yx + 0.5 * uy <= s * ou + 0.5 * ux
  {
    SmoothPartUpper(p, x, y, eigen, smooth, yx);
    SmoothPartLower(p, x, u);
    StepFromTangents(p, x, y, u, s, t, lasso, smooth, fx, fy, fu, slopeY, slopeU, ny, nu, oy, ou, yx, uy, ux);
  }

  lemma {:induction false} SplitObjective(p: Problem, x: Point, lasso: real, f: real, norm: real, o: real)
    requires p.Valid() && Fits(p, x)
    requires lasso == p.Lasso() && f == SmoothPart(p, x) && norm == Norm1(x.coefficients) && o == Objective(p, x)
    ensures o == f + lasso * norm
  {
  }

  lemma {:induction false} StepSizesSuitable(p: Problem, eigen: real, smooth: real, lasso: real, step: real,
      l1Step: real)
    requires p.Valid() && EigenBound(p, eigen)
    requires smooth == SmoothBound(p, eigen) && lasso == p.Lasso()
    requires step == StepSize(smooth) && l1Step == L1Step(p, step)
    ensures Suitable(p, eigen, smooth, lasso, step, l1Step)
  {
    ScaledProduct(step, p.lambda, p.rho, lasso, l1Step);
  }

  lemma {:induction false} ScaledProduct(s: real, a: real, b: real, ab: real, t: real)
    requires s > 0.0 && ab == a * b >= 0.0 && t == s * a * b
    ensures t == s * ab && t >= 0.0
  {
    assert s * ab >= 0.0;
  }

  // Every pass of the loop lowers the objective, by an amount that the length of the move bounds from below.
  lemma {:induction false} Descent(p: Problem, eigen: real, smooth: real, lasso: real, step: real, l1Step: real,
                x: Point, y: Point, ox: real, oy: real, yx: real)
    requires p.Valid() && Fits(p, x) && Suitable(p, eigen, smooth, lasso, step, l1Step)
    requires y == Next(p, x, step, l1Step) && ox == Objective(p, x) && oy == Objective(p, y) && yx == Gap(y, x)
    ensures step * oy + 0.525 * yx <= step * ox
    ensures yx >= 0.0 && oy <= ox
  {
    GapsToSelf(x, y, yx);
    StepAgainst(p, eigen, smooth, lasso, step, l1Step, x, y, x, oy, ox, yx, yx, 0.0);
    CancelStep(step, oy, ox, 0.525 * yx);
  }

  lemma {:induction false} CancelStep(step: real, a: real, b: real, d: real)
    requires step > 0.0 && d >= 0.0 && step * a + d <= step * b
    ensures a <= b
  {
    if a > b {
      MulPositive(step, a - b, step * (a - b));
    }
  }

  lemma {:induction false} GapsToSelf(x: Point, y: Point, yx: real)
    requires |x.coefficients| == |y.coefficients| && yx == Gap(y, x)
    ensures Gap(x, y) == yx && Gap(x, x) == 0.0 && yx >= 0.0
  {
    var a, b := Sub(Flat(x), Flat(y)), Sub(Flat(y), Flat(x));
    forall i | 0 <= i < |a|
      ensures Prod(a, a)[i] == Prod(b, b)[i]
    {
      OppositeSquares(a[i], b[i], Prod(a, a)[i], Prod(b, b)[i]);
    }
    assert Prod(a, a) == Prod(b, b);
    DistSqSelf(Flat(x));
    SumSqNonNegative(b);
  }

  lemma {:induction false} OppositeSquares(a: real, b: real, p: real, q: real)
    requires b == -a && p == a * a && q == b * b
    ensures p == q
  {
  }

  ghost predicate IsMinimiser(p: Problem, x: Point)
    requires p.Valid() && Fits(p, x)
  {
    forall u: Point :: Fits(p, u) ==> Objective(p, x) <= Objective(p, u)
  }

  // The loop stands still exactly at the global minimisers of the objective.
  lemma {:induction false} StandsStillIffMinimiser(p: Problem, eigen: real, smooth: real, lasso: real, step: real,
      l1Step: real, x: Point)
    requires p.Valid() && Fits(p, x) && Suitable(p, eigen, smooth, lasso, step, l1Step)
    ensures Next(p, x, step, l1Step) == x <==> IsMinimiser(p, x)
  {
    hide Objective, Next, Gap;
    var y := Next(p, x, step, l1Step);
    if y == x {
      forall u: Point | Fits(p, u)
        ensures Objective(p, x) <= Objective(p, u)
      {
        StillBeats(p, eigen, smooth, lasso, step, l1Step, x, u, Objective(p, x), Objective(p, u));
      }
    } else if IsMinimiser(p, x) {
      Descent(p, eigen, smooth, lasso, step, l1Step, x, y, Objective(p, x), Objective(p, y), Gap(y, x));
      if Gap(y, x) == 0.0 {
        GapZero(x, y);
      }
      CancelStrictly(step, Objective(p, y), Objective(p, x), 0.525 * Gap(y, x));
    }
  }

  lemma {:induction false} StillBeats(p: Problem, eigen: real, smooth: real, lasso: real, step: real, l1Step: real,
                   x: Point, u: Point, ox: real, ou: real)
    requires p.Valid() && Fits(p, x) && Fits(p, u) && Suitable(p, eigen, smooth, lasso, step, l1Step)
    requires Next(p, x, step, l1Step) == x && ox == Objective(p, x) && ou == Objective(p, u)
    ensures ox <= ou
  {
    DistSqSelf(Flat(x));
    StepAgainst(p, eigen, smooth, lasso, step, l1Step, x, x, u, ox, ou, 0.0, Gap(u, x), Gap(u, x));
    CancelStep(step, ox, ou, 0.0);
  }

  lemma {:induction false} GapZero(x: Point, y: Point)
    requires |x.coefficients| == |y.coefficients| && Gap(y, x) == 0.0
    ensures x == y
  {
    SumSqNonNegative(Sub(Flat(y), Flat(x)));
    assert forall i :: 0 <= i < |Flat(x)| ==> Sub(Flat(y), Flat(x))[i] == 0.0;
    assert Flat(x) == Flat(y);
    assert x.intercept == Flat(x)[0] && y.intercept == Flat(y)[0];
    assert x.coefficients == Flat(x)[1..] && y.coefficients == Flat(y)[1..];
  }

  lemma {:induction false} CancelStrictly(step: real, a: real, b: real, d: real)
    requires step > 0.0 && d > 0.0 && step * a + d <= step * b
    ensures a < b
  {
    if a >= b {
      NonNegativeProduct(step, a - b, step * (a - b));
    }
  }

  lemma {:induction false} NonNegativeProduct(a: real, b: real, ab: real)
    requires a >= 0.0 && b >= 0.0 && ab == a * b
    ensures ab >= 0.0
  {
  }

  // Objective values along the passes, and squared distances to u along them.
  function Values(p: Problem, x: Point, step: real, l1Step: real, k: nat): (o: Vec)
    requires p.Valid() && Fits(p, x)
    ensures |o| == k + 1
    ensures forall j :: 0 <= j <= k ==> o[j] == Objective(p, Iterated(p, x, step, l1Step, j))
  {
    seq(k + 1, j requires 0 <= j => Objective(p, Iterated(p, x, step, l1Step, j)))
  }

  function Distances(p: Problem, x: Point, u: Point, step: real, l1Step: real, k: nat): (g: Vec)
    requires p.Valid() && Fits(p, x) && Fits(p, u)
    ensures |g| == k + 1
    ensures forall j :: 0 <= j <= k ==> g[j] == Gap(u, Iterated(p, x, step, l1Step, j))
  {
    seq(k + 1, j requires 0 <= j => Gap(u, Iterated(p, x, step, l1Step, j)))
  }

  // What one pass does to an objective value o (to o') and a squared distance g (to g'), `ou` being the value at u.
  ghost predicate Pass(step: real, ou: real, o: real, o': real, g: real, g': real) {
    o' <= o && step * o' + 0.5 * g' <= step * ou + 0.5 * g
  }

  // After k passes the objective is within |u - x|^2 / (2 * step * k) of its value at any point u,
  // and it never went up on the way.
  lemma {:induction false} Rate(p: Problem, eigen: real, smooth: real, lasso: real, step: real, l1Step: real, x: Point,
      u: Point, k: nat, z: Point, oz: real, ox: real, ou: real, ux: real)
    requires p.Valid() && Fits(p, x) && Fits(p, u) && Suitable(p, eigen, smooth, lasso, step, l1Step)
    requires z == Iterated(p, x, step, l1Step, k)
    requires ox == Objective(p, x) && oz == Objective(p, z) && ou == Objective(p, u) && ux == Gap(u, x)
    ensures oz <= ox
    ensures step * (k as real) * (oz - ou) <= 0.5 * ux
  {
    var o, g := Values(p, x, step, l1Step, k), Distances(p, x, u, step, l1Step, k);
    PassesHold(p, eigen, smooth, lasso, step, l1Step, x, u, k, ou, o, g);
    SumSqNonNegative(Sub(Flat(u), Flat(z)));
    Telescope(o, g, step, ou, k, oz, ox, Gap(u, z), ux);
  }

  lemma {:induction false} PassesHold(p: Problem, eigen: real, smooth: real, lasso: real, step: real, l1Step: real,
      x: Point, u: Point, k: nat, ou: real, o: Vec, g: Vec)
    requires p.Valid() && Fits(p, x) && Fits(p, u) && Suitable(p, eigen, smooth, lasso, step, l1Step)
    requires ou == Objective(p, u) && o == Values(p, x, step, l1Step, k) && g == Distances(p, x, u, step, l1Step, k)
    ensures forall j: nat :: j < k ==> Pass(step, ou, o[j], o[j + 1], g[j], g[j + 1])
  {
    forall j: nat | j < k
      ensures Pass(step, ou, o[j], o[j + 1], g[j], g[j + 1])
    {
      PassFromStep(p, eigen, smooth, lasso, step, l1Step, Iterated(p, x, step, l1Step, j),
        Iterated(p, x, step, l1Step, j + 1), u, ou, o[j], o[j + 1], g[j], g[j + 1]);
    }
  }

  lemma {:induction false} PassFromStep(p: Problem, eigen: real, smooth: real, lasso: real, step: real, l1Step: real,
                     w: Point, y: Point, u: Point, ou: real, ow: real, oy: real, gw: real, gy: real)
    requires p.Valid() && Fits(p, w) && Fits(p, u) && Suitable(p, eigen, smooth, lasso, step, l1Step)
    requires y == Next(p, w, step, l1Step) && ou == Objective(p, u)
    requires ow == Objective(p, w) && oy == Objective(p, y) && gw == Gap(u, w) && gy == Gap(u, y)
    ensures Pass(step, ou, ow, oy, gw, gy)
  {
    var yw := Gap(y, w);
    Descent(p, eigen, smooth, lasso, step, l1Step, w, y, ow, oy, yw);
    StepAgainst(p, eigen, smooth, lasso, step, l1Step, w, y, u, oy, ou, yw, gy, gw);
  }

  lemma {:induction false} Telescope(o: Vec, g: Vec, step: real, ou: real, k: nat, oz: real, ox: real, gz: real,
      gx: real)
    requires |o| == |g| == k + 1 && step > 0.0
    requires forall j: nat :: j < k ==> Pass(step, ou, o[j], o[j + 1], g[j], g[j + 1])
    requires oz == o[k] && ox == o[0] && gz == g[k] && gx == g[0]
    ensures oz <= ox
    ensures step * (k as real) * (oz - ou) + 0.5 * gz <= 0.5 * gx
  {
    if k > 0 {
      Telescope(o[..k], g[..k], step, ou, k - 1, o[k - 1], ox, g[k - 1], gx);
      assert Pass(step, ou, o[k - 1], o[k - 1 + 1], g[k - 1], g[k - 1 + 1]);
      TelescopeStep(step, (k - 1) as real, k as real, o[k - 1], oz, ou, gz, g[k - 1], gx);
    }
  }

  lemma {:induction false} TelescopeStep(s: real, k: real, k': real, ow: real, oz: real, ou: real, uz: real, uw: real,
      ux: real)
    requires s > 0.0 && k >= 0.0 && k' == k + 1.0 && oz <= ow
    requires s * k * (ow - ou) + 0.5 * uw <= 0.5 * ux
    requires s * oz + 0.5 * uz <= s * ou + 0.5 * uw
    ensures s * k' * (oz - ou) + 0.5 * uz <= 0.5 * ux
  {
    assert s * k >= 0.0;
    assert s * k * (oz - ou) <= s * k * (ow - ou);
    assert s * k' * (oz - ou) == s * k * (oz - ou) + s * oz - s * ou;
  }

  // ---------- the final clean-up: coefficients of at most 1e-12 become zero ----------

  const SNAP := 0.000000000001

  function Snap(c: Vec): (r: Vec)
    ensures |r| == |c|
    ensures forall i :: 0 <= i < |c| ==> r[i] == if Abs(c[i]) <= SNAP then 0.0 else c[i]
  {
    seq(|c|, i requires 0 <= i < |c| => if Abs(c[i]) <= SNAP then 0.0 else c[i])
  }

  function Snapped(x: Point): (y: Point)
    ensures |y.coefficients| == |x.coefficients|
  {
    Point(x.intercept, Snap(x.coefficients))
  }

  function RowNorms(rows: seq<Vec>): (r: Vec)
    ensures |r| == |rows|
    ensures forall i :: 0 <= i < |rows| ==> r[i] == Norm1(rows[i])
  {
    seq(|rows|, i requires 0 <= i < |rows| => Norm1(rows[i]))
  }

  lemma {:induction false} HuberLipschitz(r: real, s: real, delta: real, d: real)
    requires delta >= 0.0 && -d <= s - r <= d
    ensures Huber(s, delta) <= Huber(r, delta) + delta * d
  {
    var c := Clip(s, delta);
    HuberTangent(s, r, c, delta, c * (r - s), (r - s) * (r - s));
    ClippedProduct(-c, r - s, delta, d, -(c * (r - s)));
  }

  lemma {:induction false} ClippedProduct(c: real, w: real, delta: real, d: real, cw: real)
    requires -delta <= c <= delta && -d <= w <= d && cw == c * w
    ensures cw <= delta * d
  {
    if c >= 0.0 {
      assert c * w <= c * d && c * d <= delta * d;
    } else {
      assert c * w <= (-c) * d && (-c) * d <= delta * d;
    }
  }

  lemma {:induction false} SnapProduct(row: Vec, c: Vec, change: real, norm: real)
    requires |row| == |c| && change == Dot(row, Snap(c)) - Dot(row, c) && norm == Norm1(row)
    ensures -(SNAP * norm) <= change <= SNAP * norm
  {
    hide Sum;
    var e := Sub(Snap(c), c);
    DotSub(row, Snap(c), c);
    var p, bound, none := Prod(row, e), Scale(SNAP, AbsAll(row)), Zeros(|row|);
    forall i | 0 <= i < |row|
      ensures -bound[i] <= p[i] <= bound[i]
    {
      SnapTerm(row[i], e[i], AbsAll(row)[i], bound[i], p[i]);
    }
    SumInequality(p, none, none, none, bound, none, none);
    SumInequality(none, none, none, none, bound, p, none);
    SumZero(none);
    SumScale(SNAP, AbsAll(row), norm);
  }

  lemma {:induction false} SnapTerm(a: real, e: real, abs: real, bound: real, p: real)
    requires abs == Abs(a) && -SNAP <= e <= SNAP && bound == SNAP * abs && p == a * e
    ensures -bound <= p <= bound
  {
    ClippedProduct(a, e, abs, SNAP, p);
    ClippedProduct(-a, e, abs, SNAP, -p);
  }

  lemma {:induction false} SnapLoss(p: Problem, x: Point, slack: real, norms: real, hx: real, hs: real)
    requires p.Valid() && Fits(p, x) && slack == p.delta * SNAP && norms == Sum(RowNorms(p.rows))
    requires hx == Sum(HuberAll(Residuals(p.rows, p.targets, x), p.delta))
    requires hs == Sum(HuberAll(Residuals(p.rows, p.targets, Snapped(x)), p.delta))
    ensures hs <= hx + slack * norms
  {
    var before, after := HuberAll(Residuals(p.rows, p.targets, x), p.delta),
        HuberAll(Residuals(p.rows, p.targets, Snapped(x)), p.delta);
    var extra, none := Scale(slack, RowNorms(p.rows)), Zeros(|p.rows|);
    forall i | 0 <= i < |p.rows|
      ensures after[i] <= before[i] + extra[i]
    {
      SnapLossAt(p, x, slack, i);
    }
    SumInequality(after, none, none, none, before, extra, none);
    SumZero(none);
    SumScale(slack, RowNorms(p.rows), norms);
  }

  lemma {:induction false} SnapLossAt(p: Problem, x: Point, slack: real, i: nat)
    requires p.Valid() && Fits(p, x) && slack == p.delta * SNAP && i < |p.rows|
    ensures HuberAll(Residuals(p.rows, p.targets, Snapped(x)), p.delta)[i]
         <= HuberAll(Residuals(p.rows, p.targets, x), p.delta)[i] + Scale(slack, RowNorms(p.rows))[i]
  {
    var r, s := Residuals(p.rows, p.targets, x)[i], Residuals(p.rows, p.targets, Snapped(x))[i];
    var norm := RowNorms(p.rows)[i];
    SnapProduct(p.rows[i], x.coefficients, r - s, norm);
    SnapHuber(r, s, p.delta, norm, slack);
  }

  lemma {:induction false} SnapHuber(r: real, s: real, delta: real, norm: real, slack: real)
    requires delta >= 0.0 && slack == delta * SNAP && -(SNAP * norm) <= r - s <= SNAP * norm
    ensures Huber(s, delta) <= Huber(r, delta) + slack * norm
  {
    HuberLipschitz(r, s, delta, SNAP * norm);
    RegroupSlack(delta, SNAP, norm, slack);
  }

  lemma {:induction false} RegroupSlack(a: real, b: real, c: real, ab: real)
    requires ab == a * b
    ensures a * (b * c) == ab * c
  {
  }

  lemma {:induction false} SnapPenalty(c: Vec)
    ensures SumSq(Snap(c)) <= SumSq(c) && Norm1(Snap(c)) <= Norm1(c)
  {
    var none := Zeros(|c|);
    forall i | 0 <= i < |c|
      ensures Prod(Snap(c), Snap(c))[i] <= Prod(c, c)[i]
    {
      SquareSign(c[i], Prod(c, c)[i]);
      SnapSquare(c[i], Snap(c)[i], Prod(c, c)[i], Prod(Snap(c), Snap(c))[i]);
    }
    SumInequality(Prod(Snap(c), Snap(c)), none, none, none, Prod(c, c), none, none);
    SumInequality(AbsAll(Snap(c)), none, none, none, AbsAll(c), none, none);
    SumZero(none);
  }

  lemma {:induction false} SnapSquare(c: real, r: real, cc: real, rr: real)
    requires (r == c || r == 0.0) && cc == c * c >= 0.0 && rr == r * r
    ensures rr <= cc
  {
  }

  // The clean-up can raise the objective, but by no more than delta * 1e-12 * the mean absolute row sum.
  lemma {:induction false} SnapCost(p: Problem, x: Point, slack: real, norms: real, n: real, ox: real, os: real)
    requires p.Valid() && Fits(p, x) && slack == p.delta * SNAP && norms == Sum(RowNorms(p.rows)) && n == p.RowCount()
    requires ox == Objective(p, x) && os == Objective(p, Snapped(x))
    ensures os <= ox + slack * norms / n
  {
    var y := Snapped(x);
    SnapPenalty(x.coefficients);
    SnapCostOfParts(p, x, slack, norms, n, p.Ridge(), p.Lasso(),
      Sum(HuberAll(Residuals(p.rows, p.targets, x), p.delta)), Sum(HuberAll(Residuals(p.rows, p.targets, y), p.delta)),
      SumSq(x.coefficients), SumSq(y.coefficients), Norm1(x.coefficients), Norm1(y.coefficients), ox, os);
  }

  lemma {:induction false} SnapCostOfParts(p: Problem, x: Point, slack: real, norms: real, n: real, ridge: real,
      lasso: real, hx: real, hs: real, qx: real, qs: real, nx: real, ns: real, ox: real, os: real)
    requires p.Valid() && Fits(p, x) && slack == p.delta * SNAP && norms == Sum(RowNorms(p.rows))
    requires n == p.RowCount() && ridge == p.Ridge() && lasso == p.Lasso()
    requires hx == Sum(HuberAll(Residuals(p.rows, p.targets, x), p.delta))
    requires hs == Sum(HuberAll(Residuals(p.rows, p.targets, Snapped(x)), p.delta))
    requires qx == SumSq(x.coefficients) && qs == SumSq(Snap(x.coefficients)) && qs <= qx
    requires nx == Norm1(x.coefficients) && ns == Norm1(Snap(x.coefficients)) && ns <= nx
    requires ox == Objective(p, x) && os == Objective(p, Snapped(x))
    ensures os <= ox + slack * norms / n
  {
    SnapLoss(p, x, slack, norms, hx, hs);
    ObjectiveOfParts(p, x, n, ridge, lasso, hx, qx, nx, ox);
    ObjectiveOfParts(p, Snapped(x), n, ridge, lasso, hs, qs, ns, os);
    SnapScalars(n, ridge, lasso, hx, hs, qx, qs, nx, ns, slack * norms);
  }

  lemma {:induction false} ObjectiveOfParts(p: Problem, x: Point, n: real, ridge: real, lasso: real, h: real, q: real,
      norm: real, o: real)
    requires p.Valid() && Fits(p, x) && n == p.RowCount() && ridge == p.Ridge() && lasso == p.Lasso()
    requires h == Sum(HuberAll(Residuals(p.rows, p.targets, x), p.delta))
    requires q == SumSq(x.coefficients) && norm == Norm1(x.coefficients) && o == Objective(p, x)
    ensures o == (h / n + 0.5 * ridge * q) + lasso * norm
  {
    SmoothPartTerms(p, x, n, ridge, h, q);
    SplitObjective(p, x, lasso, SmoothPart(p, x), norm, o);
  }

  lemma {:induction false} SnapScalars(n: real, ridge: real, lasso: real, hx: real, hy: real, qx: real, qy: real,
      nx: real, ny: real, extra: real)
    requires n >= 1.0 && ridge >= 0.0 && lasso >= 0.0 && hy <= hx + extra && qy <= qx && ny <= nx
    ensures (hy / n + 0.5 * ridge * qy) + lasso * ny <= (hx / n + 0.5 * ridge * qx) + lasso * nx + extra / n
  {
    assert 0.5 * ridge * (qx - qy) >= 0.0;
    assert lasso * (nx - ny) >= 0.0;
    assert (hx + extra - hy) / n >= 0.0;
    assert (hx + extra - hy) / n == hx / n + extra / n - hy / n;
  }

  // The point s returned after k passes from x: no worse than the start, up to the cost of the clean-up.
  lemma {:induction false} ReturnedPoint(p: Problem, eigen: real, smooth: real, lasso: real, step: real, l1Step: real,
                      x: Point, k: nat, z: Point, s: Point, slack: real, norms: real, n: real, extra: real,
                      ox: real, oz: real, os: real)
    requires p.Valid() && Fits(p, x) && Suitable(p, eigen, smooth, lasso, step, l1Step)
    requires z == Iterated(p, x, step, l1Step, k) && s == Snapped(z)
    requires slack == p.delta * SNAP && norms == Sum(RowNorms(p.rows)) && n == p.RowCount()
        && extra == slack * norms / n
    requires ox == Objective(p, x) && oz == Objective(p, z) && os == Objective(p, s)
    ensures oz <= ox && os <= ox + extra
  {
    Rate(p, eigen, smooth, lasso, step, l1Step, x, x, k, z, oz, ox, ox, Gap(x, x));
    SnapCost(p, z, slack, norms, n, oz, os);
  }
}

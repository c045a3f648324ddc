/**
  The solver's loop, from its starting point to what it returns, with the bound its result meets; and the proof that
  the bound assumed of the eigenvalue can always be met.
 */
module SolverLoop {
  import opened Numbers
  import opened RealVectors
  import opened ProximalSolver

  // ---------- what the returned point satisfies ----------

  // What the clean-up can cost: delta * 1e-12 * the mean absolute row sum.
  function CleanUpCost(p: Problem): real
    requires p.Valid()
  {
    SlackPerRow(p.delta * SNAP, Sum(RowNorms(p.rows)), p.RowCount())
  }

  function SlackPerRow(slack: real, norms: real, n: real): real
    requires n >= 1.0
  {
    slack * norms / n
  }

  // After k passes s is no worse than the start x, and within |u - x|^2 / (2 * step * k) of any point u, up to the
  // clean-up.
  ghost predicate NearOptimal(p: Problem, x: Point, s: Point, step: real, k: nat)
    requires p.Valid() && Fits(p, x) && Fits(p, s)
  {
    Objective(p, s) <= Objective(p, x) + CleanUpCost(p)
        && forall u: Point :: Fits(p, u) ==> WithinRate(p, x, s, u, step, k)
  }

  ghost predicate WithinRate(p: Problem, x: Point, s: Point, u: Point, step: real, k: nat)
    requires p.Valid() && Fits(p, x) && Fits(p, s) && Fits(p, u)
  {
    Headway(step, k as real, Objective(p, s) - CleanUpCost(p) - Objective(p, u)) <= 0.5 * Gap(u, x)
  }

  function Headway(step: real, k: real, ahead: real): real {
    step * k * ahead
  }

  lemma {:induction false} CleanUpCostIs(p: Problem, slack: real, norms: real, n: real)
    requires p.Valid() && slack == p.delta * SNAP && norms == Sum(RowNorms(p.rows)) && n == p.RowCount()
    ensures CleanUpCost(p) == slack * norms / n
  {
    assert CleanUpCost(p) == SlackPerRow(slack, norms, n);
  }

  lemma {:induction false} CleanUp(p: Problem, z: Point, slack: real, norms: real, n: real, oz: real, os: real,
      cost: real)
    requires p.Valid() && Fits(p, z) && slack == p.delta * SNAP && norms == Sum(RowNorms(p.rows)) && n == p.RowCount()
    requires oz == Objective(p, z) && os == Objective(p, Snapped(z)) && cost == CleanUpCost(p)
    ensures os <= oz + cost
  {
    CleanUpCostIs(p, slack, norms, n);
    SnapCost(p, z, slack, norms, n, oz, os);
  }

  lemma {:induction false} HeadwayScalars(step: real, k: real, oz: real, os: real, ou: real, cost: real, bound: real)
    requires step > 0.0 && k >= 0.0 && os <= oz + cost && step * k * (oz - ou) <= bound
    ensures Headway(step, k, os - cost - ou) <= bound
  {
    var w, a, b := step * k, os - cost - ou, oz - ou;
    assert w >= 0.0;
    assert w * (b - a) >= 0.0;
  }

  lemma {:induction false} ReturnedAgainst(p: Problem, eigen: real, smooth: real, lasso: real, step: real, l1Step: real,
      x: Point, u: Point, k: nat, z: Point, cost: real, ox: real, oz: real, os: real, ou: real, ux: real)
    requires p.Valid() && Fits(p, x) && Fits(p, u) && Suitable(p, eigen, smooth, lasso, step, l1Step)
    requires z == Iterated(p, x, step, l1Step, k) && os <= oz + cost
    requires ox == Objective(p, x) && oz == Objective(p, z) && ou == Objective(p, u) && ux == Gap(u, x)
    ensures os <= ox + cost && Headway(step, k as real, os - cost - ou) <= 0.5 * ux
  {
    Rate(p, eigen, smooth, lasso, step, l1Step, x, u, k, z, oz, ox, ou, ux);
    HeadwayScalars(step, k as real, oz, os, ou, cost, 0.5 * ux);
  }

  lemma {:induction false} ReturnedWithin(p: Problem, eigen: real, step: real, l1Step: real, x: Point, u: Point, k: nat,
      z: Point, s: Point)
    requires p.Valid() && Fits(p, x) && Fits(p, u) && EigenBound(p, eigen)
    requires step == StepSize(SmoothBound(p, eigen)) && l1Step == L1Step(p, step)
    requires z == Iterated(p, x, step, l1Step, k) && s == Snapped(z)
    ensures WithinRate(p, x, s, u, step, k) && Objective(p, s) <= Objective(p, x) + CleanUpCost(p)
  {
    StepSizesSuitable(p, eigen, SmoothBound(p, eigen), p.Lasso(), step, l1Step);
    CleanUp(p, z, p.delta * SNAP, Sum(RowNorms(p.rows)), p.RowCount(), Objective(p, z), Objective(p, s),
        CleanUpCost(p));
    ReturnedAgainst(p, eigen, SmoothBound(p, eigen), p.Lasso(), step, l1Step, x, u, k, z, CleanUpCost(p),
      Objective(p, x), Objective(p, z), Objective(p, s), Objective(p, u), Gap(u, x));
  }

  lemma {:induction false} ReturnedNearOptimal(p: Problem, eigen: real, step: real, l1Step: real, x: Point, k: nat,
      s: Point)
    requires p.Valid() && Fits(p, x) && EigenBound(p, eigen)
    requires step == StepSize(SmoothBound(p, eigen)) && l1Step == L1Step(p, step)
        && s == Snapped(Iterated(p, x, step, l1Step, k))
    ensures NearOptimal(p, x, s, step, k)
  {
    forall u: Point | Fits(p, u)
      ensures WithinRate(p, x, s, u, step, k) && Objective(p, s) <= Objective(p, x) + CleanUpCost(p)
    {
      ReturnedWithin(p, eigen, step, l1Step, x, u, k, Iterated(p, x, step, l1Step, k), s);
    }
    assert WithinRate(p, x, s, x, step, k);
  }

  // ---------- the loop ----------

  function Change(x: Point, y: Point): real
    requires |x.coefficients| == |y.coefficients|
  {
    Max(Abs(y.intercept - x.intercept), NormMax(Sub(y.coefficients, x.coefficients)))
  }

  // How far the k-th pass moved.
  function PassMove(p: Problem, start: Point, step: real, l1Step: real, k: nat): real
    requires p.Valid() && Fits(p, start) && k > 0
  {
    Change(Iterated(p, start, step, l1Step, k - 1), Iterated(p, start, step, l1Step, k))
  }

  // The body of the loop: the new intercept and coefficients, and the largest change of any of them.
  method OnePass(p: Problem, intercept: real, coefficients: Vec, step: real, l1Step: real)
    returns (newIntercept: real, newCoefficients: Vec, change: real)
    requires p.Valid() && |coefficients| == p.columns
    ensures var x := Point(intercept, coefficients);
            && Point(newIntercept, newCoefficients) == Next(p, x, step, l1Step)
            && change == Change(x, Next(p, x, step, l1Step))
  {
    var n := p.RowCount();
    var residuals := Sub(p.targets, Predictions(p.rows, Point(intercept, coefficients)));
    var psi := ClipAll(residuals, p.delta);
    newIntercept := MovedIntercept(intercept, step, Mean(psi, n));
    var gradient := Gradient(TransposeTimes(p.rows, psi, p.columns), coefficients, n, p.Ridge());
    newCoefficients := ProximalMove(coefficients, gradient, step, l1Step);
    change := Max(Abs(newIntercept - intercept), NormMax(Sub(newCoefficients, coefficients)));
  }

  ghost predicate KeptMoving(p: Problem, start: Point, step: real, l1Step: real, tolerance: real, k: nat)
    requires p.Valid() && Fits(p, start)
  {
    forall j: nat :: 0 < j <= k ==> PassMove(p, start, step, l1Step, j) > tolerance
  }

  lemma {:induction false} PassDone(p: Problem, start: Point, step: real, l1Step: real, tolerance: real, k: nat,
      y: Point, change: real)
    requires p.Valid() && Fits(p, start) && KeptMoving(p, start, step, l1Step, tolerance, k)
    requires y == Next(p, Iterated(p, start, step, l1Step, k), step, l1Step)
    requires change == Change(Iterated(p, start, step, l1Step, k), y)
    ensures y == Iterated(p, start, step, l1Step, k + 1) && change == PassMove(p, start, step, l1Step, k + 1)
    ensures change > tolerance ==> KeptMoving(p, start, step, l1Step, tolerance, k + 1)
  {
  }

  // The loop stops after the first pass that moves no more than the tolerance, or at the limit.
  ghost predicate Stopped(p: Problem, start: Point, step: real, l1Step: real, maxIterations: nat, tolerance: real,
      passes: nat)
    requires p.Valid() && Fits(p, start)
  {
    && passes <= maxIterations
    && (passes > 0 ==> KeptMoving(p, start, step, l1Step, tolerance, passes - 1))
    && (passes < maxIterations ==> passes > 0 && PassMove(p, start, step, l1Step, passes) <= tolerance)
  }

  method RunPasses(p: Problem, start: Point, step: real, l1Step: real, maxIterations: nat, tolerance: real)
    returns (intercept: real, coefficients: Vec, ghost passes: nat)
    requires p.Valid() && Fits(p, start)
    ensures Stopped(p, start, step, l1Step, maxIterations, tolerance, passes)
    ensures Point(intercept, coefficients) == Iterated(p, start, step, l1Step, passes)
  {
    intercept, coefficients := start.intercept, start.coefficients;
    passes := 0;
    for iteration := 0 to maxIterations
      invariant passes == iteration
      invariant Point(intercept, coefficients) == Iterated(p, start, step, l1Step, passes)
      invariant KeptMoving(p, start, step, l1Step, tolerance, passes)
    {
      var change;
      intercept, coefficients, change := OnePass(p, intercept, coefficients, step, l1Step);
      PassDone(p, start, step, l1Step, tolerance, passes, Point(intercept, coefficients), change);
      passes := passes + 1;
      if change <= tolerance {
        break;
      }
    }
  }

  // `median` is the starting intercept and `eigen` the largest eigenvalue, both taken from NumPy by the program.
  method ProximalHuberElasticNet(p: Problem, median: real, eigen: real, maxIterations: nat, tolerance: real)
    returns (intercept: real, coefficients: Vec, ghost passes: nat)
    requires p.Valid()
    ensures var start := Point(median, Zeros(p.columns));
            var step := StepSize(SmoothBound(p, eigen));
            && Stopped(p, start, step, L1Step(p, step), maxIterations, tolerance, passes)
            && Point(intercept, coefficients) == Snapped(Iterated(p, start, step, L1Step(p, step), passes))
            && (EigenBound(p, eigen) ==> NearOptimal(p, start, Point(intercept, coefficients), step, passes))
  {
    var smooth := SmoothBound(p, eigen);
    var step := StepSize(smooth);
    var l1Step := L1Step(p, step);
    intercept, coefficients, passes := RunPasses(p, Point(median, Zeros(p.columns)), step, l1Step, maxIterations,
        tolerance);
    coefficients := Snap(coefficients);
    if EigenBound(p, eigen) {
      ReturnedNearOptimal(p, eigen, step, l1Step, Point(median, Zeros(p.columns)), passes,
          Point(intercept, coefficients));
    }
  }

  // ---------- every problem has such a bound ----------

  // A bound on the squared product with a row, in proportion to the squared length of the other factor.
  function Reach(row: Vec): (r: real)
    ensures r >= 0.0
  {
    if row == [] then 0.0 else SquareSign(row[0], row[0] * row[0]); 2.0 * (row[0] * row[0]) + 2.0 * Reach(row[1..])
  }

  lemma {:induction false} NoTerms(row: Vec, x: Vec)
    requires |row| == |x| == 0
    ensures Dot(row, x) == 0.0 && Dot(x, x) == 0.0
  {
    assert Prod(row, x) == [] && Prod(x, x) == [];
  }

  lemma {:induction false} ReachBounds(row: Vec, x: Vec, dot: real, length: real)
    requires |row| == |x| && dot == Dot(row, x) && length == SumSq(x)
    ensures dot * dot <= Reach(row) * length
  {
    hide Dot, Sum;
    if row == [] {
      NoTerms(row, x);
    } else {
      var rest, restLength := Dot(row[1..], x[1..]), SumSq(x[1..]);
      HeadProduct(row, x, x[0]);
      HeadProduct(x, x, x[0]);
      ReachBounds(row[1..], x[1..], rest, restLength);
      SumSqNonNegative(x[1..]);
      ReachScalars(row[0], x[0], row[0] * row[0], x[0] * x[0], rest, Reach(row[1..]), restLength, dot, length);
    }
  }

  lemma {:induction false} ReachScalars(a: real, x: real, aa: real, xx: real, rest: real, reach: real, restLength: real,
      dot: real, length: real)
    requires aa == a * a && xx == x * x && dot == a * x + rest && length == xx + restLength
    requires reach >= 0.0 && restLength >= 0.0 && rest * rest <= reach * restLength
    ensures dot * dot <= (2.0 * aa + 2.0 * reach) * length
  {
    SquareSign(a, aa);
    SquareSign(x, xx);
    TwoSquares(a * x, rest, dot);
    assert (a * x) * (a * x) == aa * xx;
    assert aa * restLength >= 0.0 && reach * xx >= 0.0;
    Distribute(aa, reach, xx, restLength);
  }

  lemma {:induction false} Distribute(a: real, b: real, x: real, y: real)
    ensures (2.0 * a + 2.0 * b) * (x + y) == 2.0 * (a * x) + 2.0 * (a * y) + 2.0 * (b * x) + 2.0 * (b * y)
  {
  }

  lemma {:induction false} TwoSquares(u: real, v: real, w: real)
    requires w == u + v
    ensures w * w <= 2.0 * (u * u) + 2.0 * (v * v)
  {
    SquareSign(u - v, (u - v) * (u - v));
  }

  function Reaches(rows: seq<Vec>): (r: real)
    ensures r >= 0.0
  {
    if rows == [] then 0.0 else Reach([1.0] + rows[0]) + Reaches(rows[1..])
  }

  lemma {:induction false} ReachesBound(rows: seq<Vec>, d: Point, length: real)
    requires Rectangular(rows, |d.coefficients|) && length == SumSq(Flat(d))
    ensures SumSq(Predictions(rows, d)) <= Reaches(rows) * length
  {
    SumSqNonNegative(Flat(d));
    if rows == [] {
      assert Predictions(rows, d) == [];
    } else {
      var first := Predictions(rows, d)[0];
      ReachesBound(rows[1..], d, length);
      assert Predictions(rows, d)[1..] == Predictions(rows[1..], d);
      HeadProduct(Predictions(rows, d), Predictions(rows, d), first);
      PredictionIsDot(rows[0], d, first);
      ReachBounds([1.0] + rows[0], Flat(d), first, length);
      MulSplit(length, Reach([1.0] + rows[0]) + Reaches(rows[1..]), Reach([1.0] + rows[0]), Reaches(rows[1..]));
    }
  }

  lemma {:induction false} PredictionIsDot(row: Vec, d: Point, value: real)
    requires |row| == |d.coefficients| && value == d.intercept + Dot(row, d.coefficients)
    ensures value == Dot([1.0] + row, Flat(d))
  {
    HeadProduct([1.0] + row, Flat(d), d.intercept);
    assert ([1.0] + row)[1..] == row && Flat(d)[1..] == d.coefficients;
  }

  // The assumption on `eigen` can be met, whatever the data.
  lemma {:induction false} EigenBoundExists(p: Problem) returns (eigen: real)
    requires p.Valid()
    ensures EigenBound(p, eigen)
  {
    var n, reaches := p.RowCount(), Reaches(p.rows);
    eigen := reaches / n;
    forall d: Point | Fits(p, d)
      ensures SumSq(Predictions(p.rows, d)) <= n * (eigen * SumSq(Flat(d)))
    {
      ReachesBound(p.rows, d, SumSq(Flat(d)));
      Cancel(n, reaches, eigen, SumSq(Flat(d)));
    }
  }

  lemma {:induction false} Cancel(n: real, total: real, part: real, x: real)
    requires n >= 1.0 && part == total / n
    ensures n * (part * x) == total * x
  {
    assert n * part == total;
    assert n * (part * x) == (n * part) * x;
  }
}

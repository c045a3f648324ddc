/**
  The solver stated on its inputs: one pass coordinate by coordinate, the objective as its three sums, the step sizes,
  and when the loop stops; none of it through the functions the loop is specified by.
 */
module SolverInFull {
  import opened RealVectors
  import opened ProximalSolver
  import opened SolverLoop

  // ---------- when the loop stops ----------

  lemma {:induction false} LargestWithin(a: Vec, t: real)
    requires t >= 0.0
    ensures NormMax(a) <= t <==> forall i :: 0 <= i < |a| ==> -t <= a[i] <= t
  {
    if a != [] {
      LargestWithin(a[1..], t);
      assert forall i :: 0 < i < |a| ==> a[i] == a[1..][i - 1];
      assert forall i :: 0 <= i < |a| - 1 ==> a[1..][i] == a[i + 1];
    }
  }

  lemma {:induction false} ChangeWithin(x: Point, y: Point, t: real)
    requires |x.coefficients| == |y.coefficients|
    ensures Change(x, y) <= t <==>
              && -t <= y.intercept - x.intercept <= t
              && forall i :: 0 <= i < |x.coefficients| ==> -t <= y.coefficients[i] - x.coefficients[i] <= t
  {
    if t >= 0.0 {
      LargestWithin(Sub(y.coefficients, x.coefficients), t);
      assert forall i :: 0 <= i < |x.coefficients| ==>
          Sub(y.coefficients, x.coefficients)[i] == y.coefficients[i] - x.coefficients[i];
    }
  }

  // A loop that stops short of its limit has made a pass, and its last pass, from x to y, moved the intercept and every
  // coefficient by at most the tolerance.
  lemma {:induction false} LastPassIsStill(p: Problem, start: Point, step: real, l1Step: real, maxIterations: nat,
      tolerance: real, passes: nat, x: Point, y: Point)
    requires p.Valid() && Fits(p, start) && Stopped(p, start, step, l1Step, maxIterations, tolerance, passes)
    requires passes > 0 ==> x == Iterated(p, start, step, l1Step, passes - 1)
    requires y == Iterated(p, start, step, l1Step, passes)
    ensures passes <= maxIterations && (maxIterations > 0 ==> passes > 0)
    ensures passes < maxIterations ==>
              && -tolerance <= y.intercept - x.intercept <= tolerance
              && |x.coefficients| == |y.coefficients| == p.columns
              && forall i :: 0 <= i < p.columns ==> -tolerance <= y.coefficients[i] - x.coefficients[i] <= tolerance
  {
    if passes < maxIterations {
      ChangeWithin(x, y, tolerance);
    }
  }

  // Every pass before the last one moved the intercept or some coefficient by more.
  lemma {:induction false} EarlierPassMoves(p: Problem, start: Point, step: real, l1Step: real, maxIterations: nat,
      tolerance: real, passes: nat, k: nat, x: Point, y: Point)
    requires p.Valid() && Fits(p, start) && Stopped(p, start, step, l1Step, maxIterations, tolerance, passes)
    requires 0 < k < passes && x == Iterated(p, start, step, l1Step, k - 1) && y == Iterated(p, start, step, l1Step, k)
    ensures |x.coefficients| == |y.coefficients| == p.columns
    ensures -tolerance <= y.intercept - x.intercept <= tolerance ==>
              exists i :: 0 <= i < p.columns && !(-tolerance <= y.coefficients[i] - x.coefficients[i] <= tolerance)
  {
    assert PassMove(p, start, step, l1Step, k) > tolerance;
    ChangeWithin(x, y, tolerance);
  }

  // ---------- the step sizes ----------

  lemma {:induction false} StepSizesAre(p: Problem, eigen: real)
    requires p.Valid()
    ensures var smooth := eigen + p.lambda * (1.0 - p.rho);
            var step := StepSize(SmoothBound(p, eigen));
            && (smooth >= 0.000000000001 ==> step * smooth == 0.95)
            && (smooth < 0.000000000001 ==> step == 950000000000.0)
            && L1Step(p, step) == step * p.lambda * p.rho
  {
    var smooth := SmoothBound(p, eigen);
    if smooth >= 0.000000000001 {
      Divided(0.95, smooth, StepSize(smooth));
    }
  }

  lemma {:induction false} Divided(a: real, b: real, q: real)
    requires b != 0.0 && q == a / b
    ensures q * b == a
  {
  }

  // ---------- one pass ----------

  // Column j of the matrix.
  function Column(rows: seq<Vec>, columns: nat, j: nat): (c: Vec)
    requires Rectangular(rows, columns) && j < columns
    ensures |c| == |rows| && forall i :: 0 <= i < |rows| ==> c[i] == rows[i][j]
  {
    seq(|rows|, i requires 0 <= i < |rows| => rows[i][j])
  }

  // The transposed product, one column at a time.
  lemma {:induction false} ColumnSum(rows: seq<Vec>, psi: Vec, columns: nat, j: nat)
    requires |rows| == |psi| && Rectangular(rows, columns) && j < columns
    ensures TransposeTimes(rows, psi, columns)[j] == Dot(psi, Column(rows, columns, j))
  {
    var column := Column(rows, columns, j);
    if rows == [] {
      assert Prod(psi, column) == [];
    } else {
      var rest := TransposeTimes(rows[1..], psi[1..], columns);
      ColumnSum(rows[1..], psi[1..], columns, j);
      assert column[1..] == Column(rows[1..], columns, j);
      HeadProduct(psi, column, rows[0][j]);
      assert TransposeTimes(rows, psi, columns)[j] == Scale(psi[0], rows[0])[j] + rest[j];
    }
  }

  lemma {:induction false} ResidualIs(p: Problem, x: Point, i: nat)
    requires p.Valid() && Fits(p, x) && i < |p.rows|
    ensures Residuals(p.rows, p.targets, x)[i] == p.targets[i] - (x.intercept + Dot(p.rows[i], x.coefficients))
  {
  }

  // The residuals of a point, and the residuals clipped at delta: given row by row.
  ghost predicate ClippedResiduals(p: Problem, x: Point, residuals: Vec, psi: Vec)
    requires p.Valid() && Fits(p, x)
  {
    && |residuals| == |psi| == |p.rows|
    && forall i :: 0 <= i < |p.rows| ==>
         && residuals[i] == p.targets[i] - (x.intercept + Dot(p.rows[i], x.coefficients))
         && -p.delta <= psi[i] <= p.delta
         && (-p.delta <= residuals[i] <= p.delta ==> psi[i] == residuals[i])
         && (residuals[i] > p.delta ==> psi[i] == p.delta) && (residuals[i] < -p.delta ==> psi[i] == -p.delta)
  }

  lemma {:induction false} ClippedRowByRow(p: Problem, x: Point, residuals: Vec, psi: Vec)
    requires p.Valid() && Fits(p, x) && ClippedResiduals(p, x, residuals, psi)
    ensures psi == Psi(p, x)
  {
    hide Dot;
    forall i | 0 <= i < |p.rows|
      ensures psi[i] == Psi(p, x)[i]
    {
      ResidualIs(p, x, i);
    }
  }

  // A pass adds step times the mean clipped residual to the intercept.
  lemma {:induction false} PassMovesIntercept(p: Problem, x: Point, step: real, l1Step: real, residuals: Vec, psi: Vec,
      mean: real)
    requires p.Valid() && Fits(p, x) && ClippedResiduals(p, x, residuals, psi) && mean == Sum(psi) / (|p.rows| as real)
    ensures Next(p, x, step, l1Step).intercept == x.intercept + step * mean
  {
    hide Sum, FullGradient, Psi, ClippedResiduals, MovedIntercept;
    ClippedRowByRow(p, x, residuals, psi);
    assert Mean(psi, p.RowCount()) == mean;
    assert Next(p, x, step, l1Step).intercept == MovedIntercept(x.intercept, step, mean);
    Moved(x.intercept, step, mean);
  }

  lemma {:induction false} Moved(intercept: real, step: real, mean: real)
    ensures MovedIntercept(intercept, step, mean) == intercept + step * mean
  {
  }

  // And it moves each coefficient against its own slope, and then towards zero by the l1 step, stopping there.
  lemma {:induction false} PassMovesCoefficient(p: Problem, x: Point, step: real, l1Step: real, residuals: Vec,
      psi: Vec, j: nat, n: real, ridge: real, slope: real, moved: real)
    requires p.Valid() && Fits(p, x) && ClippedResiduals(p, x, residuals, psi) && j < p.columns && l1Step >= 0.0
    requires n == |p.rows| as real && ridge == p.lambda * (1.0 - p.rho)
    requires slope == -(Dot(psi, Column(p.rows, p.columns, j)) / n) + ridge * x.coefficients[j]
    requires moved == Next(p, x, step, l1Step).coefficients[j]
    ensures var candidate := x.coefficients[j] - step * slope;
            && (candidate > l1Step ==> moved == candidate - l1Step)
            && (candidate < -l1Step ==> moved == candidate + l1Step)
            && (-l1Step <= candidate <= l1Step ==> moved == 0.0)
  {
    hide Sum, Dot, Prod, TransposeTimes, Residuals, ClippedResiduals;
    ClippedRowByRow(p, x, residuals, psi);
    ColumnSum(p.rows, psi, p.columns, j);
    SlopeIs(p, x, psi, j, n, ridge, slope);
    MovedIs(p, x, step, l1Step, j, slope);
  }

  lemma {:induction false} SlopeIs(p: Problem, x: Point, psi: Vec, j: nat, n: real, ridge: real, slope: real)
    requires p.Valid() && Fits(p, x) && psi == Psi(p, x) && j < p.columns
    requires n == p.RowCount() && ridge == p.Ridge()
    requires slope == -(TransposeTimes(p.rows, psi, p.columns)[j] / n) + ridge * x.coefficients[j]
    ensures FullGradient(p, x)[j] == slope
  {
    hide TransposeTimes, Psi;
  }

  lemma {:induction false} MovedIs(p: Problem, x: Point, step: real, l1Step: real, j: nat, slope: real)
    requires p.Valid() && Fits(p, x) && j < p.columns && slope == FullGradient(p, x)[j]
    ensures Next(p, x, step, l1Step).coefficients[j] == SoftThreshold(x.coefficients[j] - step * slope, l1Step)
  {
    hide FullGradient, SoftThreshold;
    var shift := Scale(step, FullGradient(p, x));
    assert shift[j] == step * slope;
    assert Sub(x.coefficients, shift)[j] == x.coefficients[j] - step * slope;
  }

  // ---------- the objective ----------

  predicate IsLoss(loss: real, r: real, delta: real) {
    && (-delta <= r <= delta ==> loss == 0.5 * (r * r))
    && (r > delta ==> loss == delta * (r - 0.5 * delta))
    && (r < -delta ==> loss == delta * (-r - 0.5 * delta))
  }

  lemma {:induction false} SameLosses(p: Problem, x: Point, losses: Vec)
    requires p.Valid() && Fits(p, x) && |losses| == |p.rows|
    requires forall i :: 0 <= i < |p.rows| ==>
               IsLoss(losses[i], p.targets[i] - (x.intercept + Dot(p.rows[i], x.coefficients)), p.delta)
    ensures losses == HuberAll(Residuals(p.rows, p.targets, x), p.delta)
  {
    hide Dot;
    forall i | 0 <= i < |p.rows|
      ensures losses[i] == HuberAll(Residuals(p.rows, p.targets, x), p.delta)[i]
    {
      LossAt(losses[i], Residuals(p.rows, p.targets, x)[i], p.delta);
    }
  }

  lemma {:induction false} LossAt(loss: real, r: real, delta: real)
    requires IsLoss(loss, r, delta) && delta >= 0.0
    ensures loss == Huber(r, delta)
  {
  }

  lemma {:induction false} SameSums(c: Vec, squares: Vec, sizes: Vec)
    requires |squares| == |sizes| == |c|
    requires forall j :: 0 <= j < |c| ==> squares[j] == c[j] * c[j]
    requires forall j :: 0 <= j < |c| ==> (c[j] >= 0.0 ==> sizes[j] == c[j]) && (c[j] < 0.0 ==> sizes[j] == -c[j])
    ensures SumSq(c) == Sum(squares) && Norm1(c) == Sum(sizes)
  {
    hide Sum;
    forall j | 0 <= j < |c|
      ensures squares[j] == Prod(c, c)[j]
    {
      SameProduct(c[j], c[j], c[j], c[j], squares[j], Prod(c, c)[j]);
    }
    assert squares == Prod(c, c);
    assert sizes == AbsAll(c);
  }

  lemma {:induction false} ObjectiveFromSums(p: Problem, x: Point, losses: Vec, loss: real, square: real, size: real)
    requires p.Valid() && Fits(p, x) && losses == HuberAll(Residuals(p.rows, p.targets, x), p.delta)
    requires loss == Sum(losses) && square == SumSq(x.coefficients) && size == Norm1(x.coefficients)
    ensures Objective(p, x) == loss / (|p.rows| as real) + 0.5 * (p.lambda * (1.0 - p.rho)) * square
                               + p.lambda * p.rho * size
  {
    hide Sum, SumSq, Norm1, Residuals, HuberAll;
  }

  // The mean Huber loss, half the ridge weight times the sum of squares, and the lasso weight times the sum of absolute
  // values; the loss of a residual is its half square up to delta and grows by delta per unit beyond.
  lemma {:induction false} ObjectiveIs(p: Problem, x: Point, losses: Vec, squares: Vec, sizes: Vec)
    requires p.Valid() && Fits(p, x) && |losses| == |p.rows| && |squares| == |sizes| == p.columns
    requires forall i :: 0 <= i < |p.rows| ==>
               IsLoss(losses[i], p.targets[i] - (x.intercept + Dot(p.rows[i], x.coefficients)), p.delta)
    requires forall j :: 0 <= j < p.columns ==> squares[j] == x.coefficients[j] * x.coefficients[j]
    requires forall j :: 0 <= j < p.columns ==>
               (x.coefficients[j] >= 0.0 ==> sizes[j] == x.coefficients[j])
               && (x.coefficients[j] < 0.0 ==> sizes[j] == -x.coefficients[j])
    ensures Objective(p, x) == Sum(losses) / (|p.rows| as real)
                               + 0.5 * (p.lambda * (1.0 - p.rho)) * Sum(squares) + p.lambda * p.rho * Sum(sizes)
  {
    hide Sum, Dot, Objective, Huber;
    SameLosses(p, x, losses);
    SameSums(x.coefficients, squares, sizes);
    ObjectiveFromSums(p, x, losses, Sum(losses), Sum(squares), Sum(sizes));
  }

  // The clean-up at the end: a coefficient of at most 1e-12 in absolute value becomes zero, the rest stays.
  lemma {:induction false} SnappedInFull(x: Point, j: nat)
    requires j < |x.coefficients|
    ensures Snapped(x).intercept == x.intercept && |Snapped(x).coefficients| == |x.coefficients|
    ensures Snapped(x).coefficients[j] ==
              if -0.000000000001 <= x.coefficients[j] <= 0.000000000001 then 0.0 else x.coefficients[j]
  {
  }

  // ---------- what is returned ----------

  lemma {:induction false} GapIs(u: Point, x: Point, squares: Vec, across: real)
    requires |squares| == |u.coefficients| == |x.coefficients|
    requires across == u.intercept - x.intercept
    requires forall j :: 0 <= j < |squares| ==>
               squares[j] == (u.coefficients[j] - x.coefficients[j]) * (u.coefficients[j] - x.coefficients[j])
    ensures Gap(u, x) == across * across + Sum(squares)
  {
    var e := Sub(Flat(u), Flat(x));
    var terms := Prod(e, e);
    assert e[0] == across;
    forall j | 0 <= j < |squares|
      ensures terms[1..][j] == squares[j]
    {
      var d := u.coefficients[j] - x.coefficients[j];
      assert e[j + 1] == d;
      SameProduct(e[j + 1], e[j + 1], d, d, squares[j], terms[j + 1]);
    }
    SameProduct(e[0], e[0], across, across, across * across, terms[0]);
    assert terms[1..] == squares;
  }

  lemma {:induction false} CostIs(p: Problem, norms: Vec, n: real, cost: real)
    requires p.Valid() && |norms| == |p.rows| && forall i :: 0 <= i < |norms| ==> norms[i] == Norm1(p.rows[i])
    requires n == |p.rows| as real && cost == CleanUpCost(p)
    ensures cost * n == p.delta * 0.000000000001 * Sum(norms)
  {
    assert norms == RowNorms(p.rows);
    var slack := p.delta * 0.000000000001;
    CleanUpCostIs(p, slack, Sum(norms), n);
    Divided(slack * Sum(norms), n, cost);
  }

  lemma {:induction false} LeadIs(p: Problem, x: Point, s: Point, u: Point, step: real, k: nat, passes: real,
      ahead: real, cost: real, gap: real, lead: real)
    requires p.Valid() && Fits(p, x) && Fits(p, s) && Fits(p, u) && WithinRate(p, x, s, u, step, k)
    requires passes == k as real && cost == CleanUpCost(p) && gap == Gap(u, x)
    requires ahead == Objective(p, s) - cost - Objective(p, u) && lead == Headway(step, passes, ahead)
    ensures lead <= 0.5 * gap
  {
    hide Objective, Gap, CleanUpCost, Headway;
  }

  lemma {:induction false} HeadwayIs(step: real, passes: real, ahead: real, lead: real)
    requires lead == step * passes * ahead
    ensures lead == Headway(step, passes, ahead)
  {
  }

  // What k passes from x return is no worse than x, and the steps times its lead over any point u are at most half the
  // squared distance from x to u, both but for the clean-up: delta times 1e-12 times the mean absolute row sum.
  lemma {:induction false} ReturnedInFull(p: Problem, x: Point, s: Point, step: real, k: nat, u: Point, norms: Vec,
      squares: Vec, across: real, cost: real, n: real, passes: real, ahead: real, lead: real)
    requires p.Valid() && Fits(p, x) && Fits(p, s) && Fits(p, u) && NearOptimal(p, x, s, step, k)
    requires |norms| == |p.rows| && forall i :: 0 <= i < |norms| ==> norms[i] == Norm1(p.rows[i])
    requires |squares| == p.columns && across == u.intercept - x.intercept
    requires forall j :: 0 <= j < p.columns ==>
               squares[j] == (u.coefficients[j] - x.coefficients[j]) * (u.coefficients[j] - x.coefficients[j])
    requires n == |p.rows| as real && cost == CleanUpCost(p)
    requires passes == k as real && ahead == Objective(p, s) - cost - Objective(p, u) && lead == step * passes * ahead
    ensures cost * n == p.delta * 0.000000000001 * Sum(norms)
    ensures Objective(p, s) <= Objective(p, x) + cost
    ensures lead <= 0.5 * (across * across + Sum(squares))
  {
    hide Objective, Gap, Sum, CleanUpCost, WithinRate, Headway;
    CostIs(p, norms, n, cost);
    GapIs(u, x, squares, across);
    HeadwayIs(step, passes, ahead, lead);
    LeadIs(p, x, s, u, step, k, passes, ahead, cost, Gap(u, x), lead);
  }
}

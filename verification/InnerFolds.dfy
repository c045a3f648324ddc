/**
  Choosing hyperparameters inside one fit: expanding folds score each candidate, and the one-standard-error
  rule picks among the scores. Fitting a fold and its mean Huber loss are functions of the samples.
 */
module InnerFolds {
  import opened Wrappers
  import StableSort

  datatype Sample = Sample(date: int, values: seq<real>, target: real)
  datatype Model = Model(coefficients: seq<real>)

  // A fit can fail, and a fold's loss is missing when one of its samples cannot be predicted.
  datatype Candidate = Candidate(fit: seq<Sample> -> Option<Model>, loss: (Model, seq<Sample>) -> Option<real>)

  const MIN_TRAIN := 20
  const FOLD := 10

  function FoldLoss(c: Candidate, samples: seq<Sample>, end: nat): Option<real>
    requires end + FOLD <= |samples|
  {
    match c.fit(samples[..end])
    case None => None
    case Some(m) => c.loss(m, samples[end..end + FOLD])
  }

  function Losses(c: Candidate, samples: seq<Sample>, end: nat): Option<seq<real>>
    decreases |samples| - end
  {
    if end + FOLD > |samples| then Some([])
    else
      var loss := FoldLoss(c, samples, end);
      if loss.None? then None
      else
        var rest := Losses(c, samples, end + FOLD);
        if rest.None? then None else Some([loss.value] + rest.value)
  }

  // What the score of a candidate is computed from; None when a fold fails or there is none.
  function CandidateLosses(c: Candidate, samples: seq<Sample>): Option<seq<real>> {
    var losses := Losses(c, samples, MIN_TRAIN);
    if losses.None? || losses.value == [] then None else losses
  }

  method ScoreCandidate(c: Candidate, samples: seq<Sample>) returns (losses: Option<seq<real>>)
    ensures losses == CandidateLosses(c, samples)
  {
    var found: seq<real> := [];
    var end := MIN_TRAIN;
    assert Losses(c, samples, MIN_TRAIN).Some? ==>
        found + Losses(c, samples, MIN_TRAIN).value == Losses(c, samples, MIN_TRAIN).value;
    while end + FOLD <= |samples|
      invariant var rest := Losses(c, samples, end);
                Losses(c, samples, MIN_TRAIN) == if rest.None? then None else Some(found + rest.value)
      decreases |samples| - end
    {
      var loss := FoldLoss(c, samples, end);
      if loss.None? {
        return None;
      }
      ghost var rest := Losses(c, samples, end + FOLD);
      assert rest.Some? ==> found + ([loss.value] + rest.value) == (found + [loss.value]) + rest.value;
      found := found + [loss.value];
      end := end + FOLD;
    }
    assert found + [] == found;
    losses := if found == [] then None else Some(found);
  }

  // The i-th fold trains on everything before its ten days and is scored on those ten days.
  lemma {:induction false} FoldAt(c: Candidate, samples: seq<Sample>, end: nat, i: nat)
    requires Losses(c, samples, end).Some? && i < |Losses(c, samples, end).value|
    ensures end + FOLD * i + FOLD <= |samples|
    ensures FoldLoss(c, samples, end + FOLD * i) == Some(Losses(c, samples, end).value[i])
    decreases i
  {
    if i > 0 {
      FoldAt(c, samples, end + FOLD, i - 1);
    }
  }

  lemma {:induction false} FoldCount(c: Candidate, samples: seq<Sample>, end: nat)
    requires Losses(c, samples, end).Some? && end <= |samples|
    ensures |Losses(c, samples, end).value| == (|samples| - end) / FOLD
    decreases |samples| - end
  {
    if end + FOLD <= |samples| {
      FoldCount(c, samples, end + FOLD);
    }
  }

  ghost predicate Agree(xs: seq<Sample>, ys: seq<Sample>, k: nat) {
    k <= |xs| && k <= |ys| && xs[..k] == ys[..k]
  }

  lemma {:induction false} FoldSettled(c: Candidate, xs: seq<Sample>, ys: seq<Sample>, end: nat)
    requires Agree(xs, ys, end + FOLD)
    ensures FoldLoss(c, xs, end) == FoldLoss(c, ys, end)
  {
    assert xs[..end] == xs[..end + FOLD][..end] && ys[..end] == ys[..end + FOLD][..end];
    assert xs[end..end + FOLD] == xs[..end + FOLD][end..] && ys[end..end + FOLD] == ys[..end + FOLD][end..];
  }

  predicate FoldWorks(c: Candidate, samples: seq<Sample>, end: nat, i: nat) {
    end + FOLD * i + FOLD <= |samples| ==> FoldLoss(c, samples, end + FOLD * i).Some?
  }

  // The losses are there exactly when every fold has one.
  lemma {:induction false} LossesIff(c: Candidate, samples: seq<Sample>, end: nat)
    ensures Losses(c, samples, end).Some? <==> forall i: nat :: FoldWorks(c, samples, end, i)
    decreases |samples| - end
  {
    if end + FOLD <= |samples| {
      var next := end + FOLD;
      LossesIff(c, samples, next);
      assert FoldWorks(c, samples, end, 0) <==> FoldLoss(c, samples, end).Some?;
      if forall i: nat :: FoldWorks(c, samples, end, i) {
        forall i: nat
          ensures FoldWorks(c, samples, next, i)
        {
          assert FoldWorks(c, samples, end, i + 1);
        }
      } else {
        var i: nat :| !FoldWorks(c, samples, end, i);
        assert i > 0 ==> !FoldWorks(c, samples, next, i - 1);
      }
    }
  }

  // A candidate is scored exactly when there is a fold and no fold fails.
  lemma {:induction false} ScoredIff(c: Candidate, samples: seq<Sample>)
    ensures CandidateLosses(c, samples).Some?
            <==> MIN_TRAIN + FOLD <= |samples| && forall i: nat :: FoldWorks(c, samples, MIN_TRAIN, i)
  {
    LossesIff(c, samples, MIN_TRAIN);
    if Losses(c, samples, MIN_TRAIN).Some? && MIN_TRAIN <= |samples| {
      FoldCount(c, samples, MIN_TRAIN);
    }
  }

  // A fold that ends after day k fails.
  ghost predicate LateFoldFails(c: Candidate, samples: seq<Sample>, k: nat) {
    exists i: nat :: MIN_TRAIN + FOLD * i + FOLD > k && !FoldWorks(c, samples, MIN_TRAIN, i)
  }

  lemma {:induction false} FoldAgrees(c: Candidate, xs: seq<Sample>, ys: seq<Sample>, k: nat, i: nat)
    requires Agree(xs, ys, k) && MIN_TRAIN + FOLD * i + FOLD <= k
    ensures FoldLoss(c, xs, MIN_TRAIN + FOLD * i) == FoldLoss(c, ys, MIN_TRAIN + FOLD * i)
  {
    var end := MIN_TRAIN + FOLD * i;
    assert xs[..end + FOLD] == xs[..k][..end + FOLD] && ys[..end + FOLD] == ys[..k][..end + FOLD];
    FoldSettled(c, xs, ys, end);
  }

  // Samples that agree with scored ones on the first k days, at least one fold: they are scored too unless a fold that
  // ends after day k fails.
  lemma {:induction false} ScoreLostIff(c: Candidate, xs: seq<Sample>, ys: seq<Sample>, k: nat)
    requires Agree(xs, ys, k) && CandidateLosses(c, xs).Some? && MIN_TRAIN + FOLD <= k
    ensures CandidateLosses(c, ys).None? <==> LateFoldFails(c, ys, k)
  {
    ScoredIff(c, xs);
    ScoredIff(c, ys);
    forall i: nat | MIN_TRAIN + FOLD * i + FOLD <= k
      ensures FoldWorks(c, ys, MIN_TRAIN, i)
    {
      FoldAgrees(c, xs, ys, k, i);
      assert FoldWorks(c, xs, MIN_TRAIN, i);
    }
  }

  lemma {:induction false} SameLoss(c: Candidate, xs: seq<Sample>, ys: seq<Sample>, k: nat, i: nat)
    requires Agree(xs, ys, k) && CandidateLosses(c, xs).Some? && CandidateLosses(c, ys).Some?
    requires MIN_TRAIN + FOLD * i + FOLD <= k
    ensures i < |CandidateLosses(c, xs).value| && i < |CandidateLosses(c, ys).value|
    ensures CandidateLosses(c, xs).value[i] == CandidateLosses(c, ys).value[i]
  {
    FoldCount(c, xs, MIN_TRAIN);
    FoldCount(c, ys, MIN_TRAIN);
    FoldAgrees(c, xs, ys, k, i);
    FoldAt(c, xs, MIN_TRAIN, i);
    FoldAt(c, ys, MIN_TRAIN, i);
  }

  // What is changed from day k on reaches the score of a candidate in one way only: a fold that ends after day k fails,
  // and then there is no score at all. Otherwise every fold ending by day k has the loss it had.
  lemma {:induction false} FoldsNeverLookAhead(c: Candidate, xs: seq<Sample>, ys: seq<Sample>, k: nat, i: nat)
    requires Agree(xs, ys, k) && CandidateLosses(c, xs).Some? && MIN_TRAIN + FOLD * i + FOLD <= k
    ensures CandidateLosses(c, ys).None? <==> LateFoldFails(c, ys, k)
    ensures i < |CandidateLosses(c, xs).value|
    ensures !LateFoldFails(c, ys, k) ==>
              && i < |CandidateLosses(c, ys).value|
              && CandidateLosses(c, ys).value[i] == CandidateLosses(c, xs).value[i]
  {
    ScoreLostIff(c, xs, ys, k);
    FoldCount(c, xs, MIN_TRAIN);
    if CandidateLosses(c, ys).Some? {
      SameLoss(c, xs, ys, k, i);
    }
  }

  // After a scored sample more days are collected: the losses so far stay, as a prefix, or a new fold fails.
  lemma {:induction false} MoreSamples(c: Candidate, samples: seq<Sample>, more: seq<Sample>)
    requires CandidateLosses(c, samples).Some?
    ensures CandidateLosses(c, samples + more).None? <==> LateFoldFails(c, samples + more, |samples|)
    ensures CandidateLosses(c, samples + more).Some? ==>
              CandidateLosses(c, samples).value <= CandidateLosses(c, samples + more).value
  {
    var all := samples + more;
    ScoredIff(c, samples);
    assert Agree(samples, all, |samples|);
    ScoreLostIff(c, samples, all, |samples|);
    if CandidateLosses(c, all).Some? {
      var before, after := CandidateLosses(c, samples).value, CandidateLosses(c, all).value;
      FoldCount(c, samples, MIN_TRAIN);
      FoldCount(c, all, MIN_TRAIN);
      forall i | 0 <= i < |before|
        ensures before[i] == after[i]
      {
        SameLoss(c, samples, all, |samples|, i);
      }
    }
  }

  // ---------- the one-standard-error rule ----------

  datatype Score = Score(delta: real, lambda: real, rho: real, loss: real, standardError: real, nonzero: real)

  // The first of the smallest, as Python's min picks it.
  function First(scores: seq<Score>, le: (Score, Score) -> bool): Score
    requires scores != []
  {
    if |scores| == 1 then scores[0]
    else
      var before := First(scores[..|scores| - 1], le);
      if le(before, scores[|scores| - 1]) then before else scores[|scores| - 1]
  }

  // Least, and ahead of any other that is as small.
  ghost predicate FirstLeast(scores: seq<Score>, le: (Score, Score) -> bool, least: Score) {
    exists i :: 0 <= i < |scores| && LeastAt(scores, le, i) && scores[i] == least
  }

  ghost predicate LeastAt(scores: seq<Score>, le: (Score, Score) -> bool, i: nat)
    requires i < |scores|
  {
    && (forall j :: 0 <= j < |scores| ==> le(scores[i], scores[j]))
    && (forall j :: 0 <= j < i ==> !le(scores[j], scores[i]))
  }

  lemma {:induction false} FirstLeastMeans(scores: seq<Score>, le: (Score, Score) -> bool, least: Score)
    requires FirstLeast(scores, le, least)
    ensures least in scores && forall s :: s in scores ==> le(least, s)
  {
    var i :| 0 <= i < |scores| && LeastAt(scores, le, i) && scores[i] == least;
  }

  lemma {:induction false} OneMoreScore(scores: seq<Score>, le: (Score, Score) -> bool, i: nat)
    requires i < |scores| - 1 && StableSort.TotalPreorder(le) && LeastAt(scores[..|scores| - 1], le, i)
    ensures LeastAt(scores, le, if le(scores[i], scores[|scores| - 1]) then i else |scores| - 1)
  {
    var n := |scores| - 1;
    var before := scores[..n];
    assert forall j :: 0 <= j < n ==> before[j] == scores[j];
    if !le(scores[i], scores[n]) {
      forall j | 0 <= j < n
        ensures le(scores[n], scores[j]) && !le(scores[j], scores[n])
      {
        assert le(before[i], before[j]);
      }
    }
  }

  lemma {:induction false} FirstIsLeast(scores: seq<Score>, le: (Score, Score) -> bool)
    requires scores != [] && StableSort.TotalPreorder(le)
    ensures FirstLeast(scores, le, First(scores, le))
  {
    var n := |scores| - 1;
    if n == 0 {
      assert LeastAt(scores, le, 0);
    } else {
      FirstIsLeast(scores[..n], le);
      var i :| 0 <= i < n && LeastAt(scores[..n], le, i) && scores[..n][i] == First(scores[..n], le);
      OneMoreScore(scores, le, i);
      if le(scores[i], scores[n]) {
        assert LeastAt(scores, le, i);
      } else {
        assert LeastAt(scores, le, n);
      }
    }
  }

  predicate LossLe(a: Score, b: Score) {
    a.loss <= b.loss
  }

  // More regularisation first, then fewer coefficients, then more lasso, then a smaller delta, then the loss.
  function SparsityKey(s: Score): seq<real> {
    [-s.lambda, s.nonzero, -s.rho, s.delta, s.loss]
  }

  // The order of tuples.
  predicate KeyLe(a: seq<real>, b: seq<real>) {
    a == [] || (b != [] && (a[0] < b[0] || (a[0] == b[0] && KeyLe(a[1..], b[1..]))))
  }

  predicate SparserLe(a: Score, b: Score) {
    KeyLe(SparsityKey(a), SparsityKey(b))
  }

  lemma {:induction false} KeysTotal(a: seq<real>, b: seq<real>)
    ensures KeyLe(a, b) || KeyLe(b, a)
  {
    if a != [] && b != [] {
      KeysTotal(a[1..], b[1..]);
    }
  }

  lemma {:induction false} KeysTransitive(a: seq<real>, b: seq<real>, c: seq<real>)
    requires KeyLe(a, b) && KeyLe(b, c)
    ensures KeyLe(a, c)
  {
    if a != [] && a[0] == b[0] && b[0] == c[0] {
      KeysTransitive(a[1..], b[1..], c[1..]);
    }
  }

  function Within(scores: seq<Score>, ceiling: real): seq<Score> {
    if scores == [] then []
    else
      var n := |scores| - 1;
      Within(scores[..n], ceiling) + (if scores[n].loss <= ceiling + 0.000000000000001 then [scores[n]] else [])
  }

  lemma {:induction false} WithinMembers(scores: seq<Score>, ceiling: real)
    ensures forall s :: s in Within(scores, ceiling) <==> s in scores && s.loss <= ceiling + 0.000000000000001
  {
    if scores != [] {
      var n := |scores| - 1;
      WithinMembers(scores[..n], ceiling);
      assert scores == scores[..n] + [scores[n]];
    }
  }

  method MinimumOf(scores: seq<Score>, le: (Score, Score) -> bool) returns (least: Score)
    requires scores != []
    ensures least == First(scores, le)
  {
    least := scores[0];
    for k := 1 to |scores|
      invariant least == First(scores[..k], le)
    {
      assert scores[..k + 1][..k] == scores[..k];
      if !le(least, scores[k]) {
        least := scores[k];
      }
    }
    assert scores[..|scores|] == scores;
  }

  // The first of the sparsest scores within one standard error of `best`.
  ghost predicate Sparsest(scores: seq<Score>, best: Score, selected: Score) {
    FirstLeast(Within(scores, best.loss + best.standardError), SparserLe, selected)
  }

  // In other words: it is within that error, and nothing else that is within it is sparser.
  lemma {:induction false} SparsestMeans(scores: seq<Score>, best: Score, selected: Score)
    requires Sparsest(scores, best, selected)
    ensures selected in scores && selected.loss <= best.loss + best.standardError + 0.000000000000001
    ensures forall s :: s in scores && s.loss <= best.loss + best.standardError + 0.000000000000001 ==>
              SparserLe(selected, s)
  {
    FirstLeastMeans(Within(scores, best.loss + best.standardError), SparserLe, selected);
    WithinMembers(scores, best.loss + best.standardError);
  }

  // The selected score is the sparsest within one standard error of the first of the best.
  ghost predicate Selected(scores: seq<Score>, selected: Score) {
    exists best :: FirstLeast(scores, LossLe, best) && Sparsest(scores, best, selected)
  }

  lemma {:induction false} LossIsOrder()
    ensures StableSort.TotalPreorder(LossLe)
  {
  }

  lemma {:induction false} SparserIsOrder()
    ensures StableSort.TotalPreorder(SparserLe)
  {
    forall a, b
      ensures SparserLe(a, b) || SparserLe(b, a)
    {
      KeysTotal(SparsityKey(a), SparsityKey(b));
    }
    forall a, b, c | SparserLe(a, b) && SparserLe(b, c)
      ensures SparserLe(a, c)
    {
      KeysTransitive(SparsityKey(a), SparsityKey(b), SparsityKey(c));
    }
  }

  lemma {:induction false} FirstLoss(scores: seq<Score>)
    requires scores != []
    ensures FirstLeast(scores, LossLe, First(scores, LossLe)) && First(scores, LossLe) in scores
  {
    LossIsOrder();
    FirstIsLeast(scores, LossLe);
    FirstLeastMeans(scores, LossLe, First(scores, LossLe));
  }

  lemma {:induction false} FirstSparsest(scores: seq<Score>)
    requires scores != []
    ensures FirstLeast(scores, SparserLe, First(scores, SparserLe))
  {
    SparserIsOrder();
    FirstIsLeast(scores, SparserLe);
  }

  lemma {:induction false} BestIsOne(scores: seq<Score>)
    requires scores != []
    ensures First(scores, LossLe) in scores
  {
    FirstLoss(scores);
  }

  lemma {:induction false} BestIsWithin(scores: seq<Score>, best: Score)
    requires best in scores && best.standardError >= 0.0
    ensures Within(scores, best.loss + best.standardError) != []
  {
    WithinMembers(scores, best.loss + best.standardError);
    assert best in Within(scores, best.loss + best.standardError);
  }

  lemma {:induction false} SomeWithin(scores: seq<Score>)
    requires scores != [] && forall s :: s in scores ==> s.standardError >= 0.0
    ensures var best := First(scores, LossLe); Within(scores, best.loss + best.standardError) != []
  {
    BestIsOne(scores);
    BestIsWithin(scores, First(scores, LossLe));
  }

  lemma {:induction false} MakesSelection(scores: seq<Score>, best: Score, selected: Score)
    requires FirstLeast(scores, LossLe, best) && Sparsest(scores, best, selected)
    ensures Selected(scores, selected)
  {
  }

  lemma {:induction false} FirstsAreSelected(scores: seq<Score>, best: Score, eligible: seq<Score>)
    requires scores != [] && best == First(scores, LossLe) && eligible == Within(scores, best.loss + best.standardError)
    requires eligible != []
    ensures First(eligible, SparserLe) in scores && Selected(scores, First(eligible, SparserLe))
  {
    FirstLoss(scores);
    FirstSparsest(eligible);
    SparsestMeans(scores, best, First(eligible, SparserLe));
    MakesSelection(scores, best, First(eligible, SparserLe));
  }

  // The rule never faces an empty choice, and picks the sparsest score within one standard error of the best, in both
  // places the first of several that tie.
  method OneStandardErrorSelection(scores: seq<Score>) returns (selected: Score)
    requires scores != [] && forall s :: s in scores ==> s.standardError >= 0.0
    ensures selected in scores && Selected(scores, selected)
  {
    SomeWithin(scores);
    var best := MinimumOf(scores, LossLe);
    var ceiling := best.loss + best.standardError;
    var eligible := Within(scores, ceiling);
    selected := MinimumOf(eligible, SparserLe);
    FirstsAreSelected(scores, best, eligible);
  }
}

/** Inner folds and the choice among their scores, stated on the samples and the scores themselves. */
module FoldsInFull {
  import opened Wrappers
  import opened InnerFolds

  // Fold i fits on the first 20 + 10 i samples and scores the ten after them.
  predicate Succeeds(c: Candidate, samples: seq<Sample>, i: nat) {
    30 + 10 * i <= |samples| ==>
      && c.fit(samples[..20 + 10 * i]).Some?
      && c.loss(c.fit(samples[..20 + 10 * i]).value, samples[20 + 10 * i..30 + 10 * i]).Some?
  }

  // A candidate is scored exactly when there are thirty samples and every such fold succeeds.
  lemma {:induction false} ScoredInFull(c: Candidate, samples: seq<Sample>)
    ensures CandidateLosses(c, samples).Some? <==> |samples| >= 30 && forall i: nat :: Succeeds(c, samples, i)
  {
    ScoredIff(c, samples);
    forall i: nat
      ensures Succeeds(c, samples, i) <==> FoldWorks(c, samples, MIN_TRAIN, i)
    {
    }
  }

  // And then these are its losses, one per ten samples after the first twenty.
  lemma {:induction false} LossesInFull(c: Candidate, samples: seq<Sample>, i: nat)
    requires CandidateLosses(c, samples).Some? && i < |CandidateLosses(c, samples).value|
    ensures |CandidateLosses(c, samples).value| == (|samples| - 20) / 10 && 30 + 10 * i <= |samples|
    ensures c.fit(samples[..20 + 10 * i]).Some?
    ensures c.loss(c.fit(samples[..20 + 10 * i]).value, samples[20 + 10 * i..30 + 10 * i])
            == Some(CandidateLosses(c, samples).value[i])
  {
    ScoredIff(c, samples);
    FoldAt(c, samples, MIN_TRAIN, i);
    FoldCount(c, samples, MIN_TRAIN);
  }

  // ---------- the choice ----------

  // More regularisation, then fewer coefficients, then more lasso, then a smaller delta, then a smaller loss.
  predicate Sparser(a: Score, b: Score) {
    || a.lambda > b.lambda
    || (a.lambda == b.lambda && a.nonzero < b.nonzero)
    || (a.lambda == b.lambda && a.nonzero == b.nonzero && a.rho > b.rho)
    || (a.lambda == b.lambda && a.nonzero == b.nonzero && a.rho == b.rho && a.delta < b.delta)
    || (a.lambda == b.lambda && a.nonzero == b.nonzero && a.rho == b.rho && a.delta == b.delta && a.loss < b.loss)
  }

  // One place of the comparison of two keys.
  lemma {:induction false} KeyPlace(a: real, b: real, c: seq<real>, d: seq<real>)
    ensures KeyLe([a] + c, [b] + d) <==> a < b || (a == b && KeyLe(c, d))
  {
    assert ([a] + c)[1..] == c && ([b] + d)[1..] == d;
  }

  lemma {:induction false} SparserIs(a: Score, b: Score)
    ensures SparserLe(a, b) <==> !Sparser(b, a)
  {
    hide KeyLe;
    KeyPlace(-a.lambda, -b.lambda, [a.nonzero, -a.rho, a.delta, a.loss], [b.nonzero, -b.rho, b.delta, b.loss]);
    KeyPlace(a.nonzero, b.nonzero, [-a.rho, a.delta, a.loss], [-b.rho, b.delta, b.loss]);
    KeyPlace(-a.rho, -b.rho, [a.delta, a.loss], [b.delta, b.loss]);
    KeyPlace(a.delta, b.delta, [a.loss], [b.loss]);
    KeyPlace(a.loss, b.loss, [], []);
    assert KeyLe([], []) by { KeysTotal([], []); }
    assert SparsityKey(a) == [-a.lambda] + [a.nonzero, -a.rho, a.delta, a.loss];
    assert SparsityKey(b) == [-b.lambda] + [b.nonzero, -b.rho, b.delta, b.loss];
    assert [a.nonzero, -a.rho, a.delta, a.loss] == [a.nonzero] + [-a.rho, a.delta, a.loss];
    assert [b.nonzero, -b.rho, b.delta, b.loss] == [b.nonzero] + [-b.rho, b.delta, b.loss];
    assert [-a.rho, a.delta, a.loss] == [-a.rho] + [a.delta, a.loss];
    assert [-b.rho, b.delta, b.loss] == [-b.rho] + [b.delta, b.loss];
    assert [a.delta, a.loss] == [a.delta] + [a.loss] && [b.delta, b.loss] == [b.delta] + [b.loss];
    assert [a.loss] == [a.loss] + [] && [b.loss] == [b.loss] + [];
  }

  // Within the standard error of the best score, give or take 1e-15.
  predicate InReach(s: Score, best: Score) {
    s.loss <= best.loss + best.standardError + 0.000000000000001
  }

  // The first of the scores with the least loss sets what is in reach; of those in reach the first is chosen that no
  // other is sparser than.
  lemma {:induction false} SelectionInFull(scores: seq<Score>, selected: Score) returns (b: nat, k: nat)
    requires Selected(scores, selected)
    ensures b < |scores| && k < |scores| && scores[k] == selected
    ensures forall j :: 0 <= j < |scores| ==> scores[b].loss <= scores[j].loss
    ensures forall j :: 0 <= j < b ==> scores[b].loss < scores[j].loss
    ensures InReach(selected, scores[b])
    ensures forall j :: 0 <= j < |scores| && InReach(scores[j], scores[b]) ==> !Sparser(scores[j], selected)
    ensures forall j :: 0 <= j < k && InReach(scores[j], scores[b]) ==> Sparser(selected, scores[j])
  {
    var best :| FirstLeast(scores, LossLe, best) && Sparsest(scores, best, selected);
    b :| 0 <= b < |scores| && LeastAt(scores, LossLe, b) && scores[b] == best;
    var near := Within(scores, best.loss + best.standardError);
    var i :| 0 <= i < |near| && LeastAt(near, SparserLe, i) && near[i] == selected;
    k := Located(scores, best, i);
    forall j | 0 <= j < |scores| && InReach(scores[j], best)
      ensures !Sparser(scores[j], selected) && (j < k ==> Sparser(selected, scores[j]))
    {
      var m := Kept(scores, best, j, i, k);
      SparserIs(selected, scores[j]);
      SparserIs(scores[j], selected);
    }
  }

  // Where element i of those in reach was taken from.
  lemma {:induction false} Located(scores: seq<Score>, best: Score, i: nat) returns (k: nat)
    requires i < |Within(scores, best.loss + best.standardError)|
    ensures k < |scores| && scores[k] == Within(scores, best.loss + best.standardError)[i] && InReach(scores[k], best)
    ensures |Within(scores[..k], best.loss + best.standardError)| == i
  {
    var n := |scores| - 1;
    var before := Within(scores[..n], best.loss + best.standardError);
    if i < |before| {
      k := Located(scores[..n], best, i);
      assert scores[..n][..k] == scores[..k];
    } else {
      k := n;
    }
  }

  lemma {:induction false} PrefixWithin(scores: seq<Score>, ceiling: real, k: nat)
    requires k <= |scores|
    ensures Within(scores[..k], ceiling) <= Within(scores, ceiling)
    decreases |scores| - k
  {
    if k < |scores| {
      PrefixWithin(scores, ceiling, k + 1);
      assert scores[..k + 1][..k] == scores[..k];
    } else {
      assert scores[..k] == scores;
    }
  }

  // What is in reach at position j comes before what is at position k, if j does.
  lemma {:induction false} Kept(scores: seq<Score>, best: Score, j: nat, i: nat, k: nat) returns (m: nat)
    requires j < |scores| && InReach(scores[j], best) && k < |scores|
    requires |Within(scores[..k], best.loss + best.standardError)| == i
    ensures m < |Within(scores, best.loss + best.standardError)|
    ensures Within(scores, best.loss + best.standardError)[m] == scores[j] && (j < k ==> m < i)
  {
    var ceiling := best.loss + best.standardError;
    m := |Within(scores[..j], ceiling)|;
    assert scores[..j + 1][..j] == scores[..j];
    PrefixWithin(scores, ceiling, j + 1);
    if j < k {
      PrefixWithin(scores[..k], ceiling, j + 1);
      assert scores[..k][..j + 1] == scores[..j + 1];
    }
  }
}

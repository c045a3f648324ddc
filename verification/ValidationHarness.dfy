/**
  The validation harness: sixty training days, thirty validation days, a sealed test of thirty days, and
  then an expanding walk forward in blocks; inside every fit, expanding folds score the candidates.
  Fitting, scoring a day, and the cheap-reject gate are functions the harness is given.
 */
module ValidationHarness {
  import opened Wrappers
  import opened StableSort

  datatype Observation = Observation(date: int, live: bool, values: seq<real>)
  datatype Model = Model(coefficients: seq<real>)
  datatype Outcome = Outcome(pnl: real, stressPnl: real, eligible: bool)

  type Fit = seq<Observation> -> Option<Model>
  type Scorer = (Model, Observation) -> Outcome

  // What the harness is given: both fits, the day's outcome under a model, and the gate between the stages.
  datatype Lab = Lab(full: Fit, baseline: Fit, outcome: Scorer, cheapPass: seq<real> -> bool, blockDays: nat)
  {
    predicate Valid() { MIN_BLOCK <= blockDays <= 30 }
  }

  const TRAIN := 60
  const VALIDATION := 30
  const SEALED := 30
  const TEST_END := 120
  const MIN_BLOCK := 20

  function Scored(outcome: Scorer, m: Model, days: seq<Observation>): (r: seq<Outcome>)
    ensures |r| == |days| && forall i :: 0 <= i < |days| ==> r[i] == outcome(m, days[i])
  {
    seq(|days|, i requires 0 <= i < |days| => outcome(m, days[i]))
  }

  // ---------- the walk forward ----------

  datatype Block = Block(start: nat, size: nat)

  function FitBefore(lab: Lab, days: seq<Observation>, cursor: nat): Option<Model>
    requires cursor <= |days|
  {
    lab.full(days[..cursor])
  }

  predicate CanStep(lab: Lab, days: seq<Observation>, cursor: nat)
    requires cursor <= |days|
  {
    |days| - cursor >= MIN_BLOCK && FitBefore(lab, days, cursor).Some?
  }

  function Size(lab: Lab, days: seq<Observation>, cursor: nat): int {
    if lab.blockDays <= |days| - cursor then lab.blockDays else |days| - cursor
  }

  // Where the walk ends, the blocks it makes, and the outcomes of their days.
  function CursorFrom(lab: Lab, days: seq<Observation>, from: nat): (cursor: nat)
    requires from <= |days| && lab.Valid()
    ensures from <= cursor <= |days|
    decreases |days| - from
  {
    if CanStep(lab, days, from) then CursorFrom(lab, days, from + Size(lab, days, from)) else from
  }

  function BlocksFrom(lab: Lab, days: seq<Observation>, from: nat): seq<Block>
    requires from <= |days| && lab.Valid()
    decreases |days| - from
  {
    if CanStep(lab, days, from) then
      [Block(from, Size(lab, days, from))] + BlocksFrom(lab, days, from + Size(lab, days, from))
    else []
  }

  function OutcomesFrom(lab: Lab, days: seq<Observation>, from: nat): (outcomes: seq<Outcome>)
    requires from <= |days| && lab.Valid()
    ensures |outcomes| == CursorFrom(lab, days, from) - from
    decreases |days| - from
  {
    if CanStep(lab, days, from) then
      var next := from + Size(lab, days, from);
      Scored(lab.outcome, FitBefore(lab, days, from).value, days[from..next]) + OutcomesFrom(lab, days, next)
    else []
  }

  ghost predicate Tiles(blocks: seq<Block>, from: nat, to: nat, blockDays: nat) {
    && (blocks == [] ==> from == to)
    && (blocks != [] ==> blocks[0].start == from && blocks[|blocks| - 1].start + blocks[|blocks| - 1].size == to)
    && (forall k :: 1 <= k < |blocks| ==> blocks[k].start == blocks[k - 1].start + blocks[k - 1].size)
    && (forall k :: 0 <= k < |blocks| ==> MIN_BLOCK <= blocks[k].size <= blockDays)
    && (forall k :: 0 <= k < |blocks| - 1 ==> blocks[k].size == blockDays)
  }

  lemma {:induction false} TilesExtend(rest: seq<Block>, from: nat, size: nat, to: nat, blockDays: nat)
    requires Tiles(rest, from + size, to, blockDays) && MIN_BLOCK <= size <= blockDays
    requires rest != [] ==> size == blockDays
    ensures Tiles([Block(from, size)] + rest, from, to, blockDays)
  {
    var blocks := [Block(from, size)] + rest;
    assert forall k :: 1 <= k < |blocks| ==> blocks[k] == rest[k - 1];
    forall k | 1 <= k < |blocks|
      ensures blocks[k].start == blocks[k - 1].start + blocks[k - 1].size
    {
      if k > 1 {
        assert blocks[k] == rest[k - 1] && blocks[k - 1] == rest[k - 2];
      }
    }
  }

  // The blocks tile [from, cursor), all but the last of full size; the walk stops only where fewer than twenty
  // days are left or the fit fails.
  lemma {:induction false} BlocksTile(lab: Lab, days: seq<Observation>, from: nat)
    requires from <= |days| && lab.Valid()
    ensures Tiles(BlocksFrom(lab, days, from), from, CursorFrom(lab, days, from), lab.blockDays)
    ensures !CanStep(lab, days, CursorFrom(lab, days, from))
    decreases |days| - from
  {
    if CanStep(lab, days, from) {
      var next := from + Size(lab, days, from);
      BlocksTile(lab, days, next);
      TilesExtend(BlocksFrom(lab, days, next), from, Size(lab, days, from), CursorFrom(lab, days, from), lab.blockDays);
    }
  }

  lemma {:induction false} InFirstBlock(lab: Lab, days: seq<Observation>, from: nat, p: nat)
    requires from <= |days| && lab.Valid() && CanStep(lab, days, from) && from <= p < from + Size(lab, days, from)
    ensures p < CursorFrom(lab, days, from)
    ensures OutcomesFrom(lab, days, from)[p - from] == lab.outcome(FitBefore(lab, days, from).value, days[p])
  {
  }

  // Fitted on the days before block b, and applied to day p of that block.
  ghost predicate Causal(lab: Lab, days: seq<Observation>, b: Block, p: nat, o: Outcome) {
    && b.start <= p < b.start + b.size && p < |days|
    && FitBefore(lab, days, b.start).Some? && o == lab.outcome(FitBefore(lab, days, b.start).value, days[p])
  }

  ghost predicate Agree(xs: seq<Observation>, ys: seq<Observation>, k: nat) {
    k <= |xs| && k <= |ys| && xs[..k] == ys[..k]
  }

  lemma {:induction false} AgreeEarlier(xs: seq<Observation>, ys: seq<Observation>, k: nat, j: nat)
    requires Agree(xs, ys, k) && j <= k
    ensures Agree(xs, ys, j) && (j < k ==> xs[j] == ys[j])
  {
    assert xs[..j] == xs[..k][..j] && ys[..j] == ys[..k][..j];
    assert j < k ==> xs[..k][j] == ys[..k][j];
  }

  lemma {:induction false} SameFit(lab: Lab, xs: seq<Observation>, ys: seq<Observation>, k: nat, j: nat)
    requires Agree(xs, ys, k) && j <= k
    ensures FitBefore(lab, xs, j) == FitBefore(lab, ys, j)
  {
    AgreeEarlier(xs, ys, k, j);
  }

  // The outcome of day p, found without listing the others.
  function Day(lab: Lab, days: seq<Observation>, from: nat, p: nat): Outcome
    requires lab.Valid() && from <= |days| && from <= p < CursorFrom(lab, days, from)
    decreases |days| - from
  {
    if p < from + Size(lab, days, from) then lab.outcome(FitBefore(lab, days, from).value, days[p])
    else Day(lab, days, from + Size(lab, days, from), p)
  }

  lemma {:induction false} DayIsOutcome(lab: Lab, days: seq<Observation>, from: nat, p: nat)
    requires lab.Valid() && from <= |days| && from <= p < CursorFrom(lab, days, from)
    ensures OutcomesFrom(lab, days, from)[p - from] == Day(lab, days, from, p)
    decreases |days| - from
  {
    if p < from + Size(lab, days, from) {
      InFirstBlock(lab, days, from, p);
    } else {
      DayIsOutcome(lab, days, from + Size(lab, days, from), p);
    }
  }

  lemma {:induction false} FittedDay(lab: Lab, days: seq<Observation>, from: nat, p: nat) returns (b: Block)
    requires from <= |days| && lab.Valid() && from <= p < CursorFrom(lab, days, from)
    ensures b in BlocksFrom(lab, days, from) && Causal(lab, days, b, p, Day(lab, days, from, p))
    decreases |days| - from
  {
    var next := from + Size(lab, days, from);
    if p < next {
      b := Block(from, Size(lab, days, from));
    } else {
      b := FittedDay(lab, days, next, p);
    }
  }

  // Every walk-forward outcome comes from a model fitted on the days before its own block, and on nothing else.
  lemma {:induction false} FittedOnThePast(lab: Lab, days: seq<Observation>, from: nat, p: nat) returns (b: Block)
    requires from <= |days| && lab.Valid() && from <= p < CursorFrom(lab, days, from)
    ensures b in BlocksFrom(lab, days, from) && Causal(lab, days, b, p, OutcomesFrom(lab, days, from)[p - from])
  {
    b := FittedDay(lab, days, from, p);
    DayIsOutcome(lab, days, from, p);
  }

  lemma {:induction false} DaysAgree(lab: Lab, xs: seq<Observation>, ys: seq<Observation>, from: nat, k: nat, p: nat)
    requires Agree(xs, ys, k) && lab.Valid() && from <= p < k
    requires p < CursorFrom(lab, xs, from) && p < CursorFrom(lab, ys, from)
    ensures Day(lab, xs, from, p) == Day(lab, ys, from, p)
    decreases |xs| - from
  {
    if p < from + Size(lab, xs, from) && p < from + Size(lab, ys, from) {
      SameFit(lab, xs, ys, k, from);
      AgreeEarlier(xs, ys, k, p);
    } else {
      DaysAgree(lab, xs, ys, from + lab.blockDays, k, p);
    }
  }

  lemma {:induction false} BlocksStartLater(lab: Lab, days: seq<Observation>, from: nat, b: Block)
    requires lab.Valid() && from <= |days| && b in BlocksFrom(lab, days, from)
    ensures from <= b.start && CanStep(lab, days, from)
    ensures b != Block(from, Size(lab, days, from)) ==>
              var next := from + Size(lab, days, from);
              b in BlocksFrom(lab, days, next) && next <= b.start && Size(lab, days, from) == lab.blockDays
    decreases |days| - from
  {
    if b != Block(from, Size(lab, days, from)) {
      BlocksStartLater(lab, days, from + Size(lab, days, from), b);
    }
  }

  // A scored day stays scored: what is changed from day k on cannot make it disappear.
  lemma {:induction false} StillScored(lab: Lab, xs: seq<Observation>, ys: seq<Observation>, from: nat, k: nat,
      b: Block, p: nat)
    requires Agree(xs, ys, k) && lab.Valid() && from <= |xs| && from <= k && b in BlocksFrom(lab, xs, from)
    requires b.start <= p < b.start + b.size && p < k && b.start + MIN_BLOCK <= k
    ensures from <= p < CursorFrom(lab, xs, from) && p < CursorFrom(lab, ys, from)
    decreases |xs| - from
  {
    BlocksStartLater(lab, xs, from, b);
    SameFit(lab, xs, ys, k, from);
    if b != Block(from, Size(lab, xs, from)) {
      StillScored(lab, xs, ys, from + Size(lab, xs, from), k, b, p);
    }
  }

  // Two histories that agree on their first k days, whatever follows: every day before k in a block that has its first
  // twenty days before k is scored in both, and alike.
  lemma {:induction false} ScoredAlike(lab: Lab, xs: seq<Observation>, ys: seq<Observation>, from: nat, k: nat,
      b: Block, p: nat)
    requires Agree(xs, ys, k) && lab.Valid() && from <= |xs| && from <= k && b in BlocksFrom(lab, xs, from)
    requires b.start <= p < b.start + b.size && p < k && b.start + MIN_BLOCK <= k
    ensures from <= p < CursorFrom(lab, xs, from) && p < CursorFrom(lab, ys, from)
    ensures OutcomesFrom(lab, xs, from)[p - from] == OutcomesFrom(lab, ys, from)[p - from]
  {
    StillScored(lab, xs, ys, from, k, b, p);
    DayIsOutcome(lab, xs, from, p);
    DayIsOutcome(lab, ys, from, p);
    DaysAgree(lab, xs, ys, from, k, p);
  }

  // Blocks have their first twenty days in the history they are made from.
  lemma {:induction false} BlockFits(lab: Lab, days: seq<Observation>, from: nat, b: Block)
    requires lab.Valid() && from <= |days| && b in BlocksFrom(lab, days, from)
    ensures b.start + MIN_BLOCK <= b.start + b.size <= |days|
    decreases |days| - from
  {
    BlocksStartLater(lab, days, from, b);
    if b != Block(from, Size(lab, days, from)) {
      BlockFits(lab, days, from + Size(lab, days, from), b);
    }
  }

  // Changing the days from k on leaves every outcome of the blocks ending by k as it was: no block looks ahead.
  lemma {:induction false} NoLookAhead(lab: Lab, xs: seq<Observation>, ys: seq<Observation>, from: nat, k: nat,
      b: Block, p: nat)
    requires Agree(xs, ys, k) && lab.Valid() && from <= |xs| && from <= k && b in BlocksFrom(lab, xs, from)
    requires b.start + b.size <= k && b.start <= p < b.start + b.size
    ensures from <= p < CursorFrom(lab, xs, from) && p < CursorFrom(lab, ys, from)
    ensures OutcomesFrom(lab, xs, from)[p - from] == OutcomesFrom(lab, ys, from)[p - from]
  {
    BlockFits(lab, xs, from, b);
    ScoredAlike(lab, xs, ys, from, k, b, p);
  }

  lemma {:induction false} ScoredDayStands(lab: Lab, days: seq<Observation>, longer: seq<Observation>, from: nat,
      p: nat)
    requires lab.Valid() && Agree(days, longer, |days|) && from <= |days| && from <= p < CursorFrom(lab, days, from)
    ensures p < CursorFrom(lab, longer, from)
    ensures OutcomesFrom(lab, days, from)[p - from] == OutcomesFrom(lab, longer, from)[p - from]
  {
    var b := FittedDay(lab, days, from, p);
    BlockFits(lab, days, from, b);
    NoLookAhead(lab, days, longer, from, |days|, b, p);
  }

  // Collecting further days leaves every walk-forward outcome as it was: the old outcomes are a prefix.
  lemma {:induction false} HistoryOnlyGrows(lab: Lab, days: seq<Observation>, more: seq<Observation>, from: nat)
    requires lab.Valid() && from <= |days|
    ensures OutcomesFrom(lab, days, from) <= OutcomesFrom(lab, days + more, from)
  {
    var before, after := OutcomesFrom(lab, days, from), OutcomesFrom(lab, days + more, from);
    assert Agree(days, days + more, |days|);
    forall i | 0 <= i < |before|
      ensures i < |after| && before[i] == after[i]
    {
      ScoredDayStands(lab, days, days + more, from, from + i);
    }
    assert before != [] ==> before[|before| - 1] == after[|before| - 1];
  }

  // ---------- the stages ----------

  datatype Held = SourceGate | DuplicateDate | NotLive | TooFewDays

  datatype Report =
    | Hold(reason: Held)
    | TrainNotComputable
    | CheapRejected(validation: seq<real>)
    | SealedTestMissing
    | Completed(full: seq<Outcome>, baseline: seq<Outcome>, walk: seq<Outcome>, blocks: nat, cursor: nat)

  predicate DateLe(a: Observation, b: Observation) {
    a.date <= b.date
  }

  function ByDate(days: seq<Observation>): seq<Observation> {
    Sort(days, DateLe)
  }

  function Dates(days: seq<Observation>): set<int> {
    set o | o in days :: o.date
  }

  predicate SomeNotLive(days: seq<Observation>) {
    exists o :: o in days && !o.live
  }

  function Increments(full: seq<Outcome>, baseline: seq<Outcome>): (r: seq<real>)
    requires |full| == |baseline|
    ensures |r| == |full| && forall i :: 0 <= i < |r| ==> r[i] == full[i].pnl - baseline[i].pnl
  {
    seq(|full|, i requires 0 <= i < |full| => full[i].pnl - baseline[i].pnl)
  }

  function Staged(lab: Lab, days: seq<Observation>): Report
    requires lab.Valid()
  {
    if |days| < TRAIN + VALIDATION then Hold(TooFewDays)
    else
      var full, baseline := lab.full(days[..TRAIN]), lab.baseline(days[..TRAIN]);
      if full.None? || baseline.None? then TrainNotComputable
      else
        var validation := days[TRAIN..TRAIN + VALIDATION];
        var increments := Increments(Scored(lab.outcome, full.value, validation),
            Scored(lab.outcome, baseline.value, validation));
        if !lab.cheapPass(increments) then CheapRejected(increments)
        else if |days| < TEST_END then SealedTestMissing
        else
          var sealed := days[TRAIN + VALIDATION..TEST_END];
          Completed(Scored(lab.outcome, full.value, sealed), Scored(lab.outcome, baseline.value, sealed),
                    OutcomesFrom(lab, days, TEST_END), |BlocksFrom(lab, days, TEST_END)|,
                        CursorFrom(lab, days, TEST_END))
  }

  function Harness(lab: Lab, sourcePass: bool, observations: seq<Observation>): Report
    requires lab.Valid()
  {
    var days := ByDate(observations);
    if !sourcePass then Hold(SourceGate)
    else if |Dates(days)| != |days| then Hold(DuplicateDate)
    else if SomeNotLive(days) then Hold(NotLive)
    else Staged(lab, days)
  }

  // ---------- what the stages see ----------

  // The verdict up to the sealed test is settled by the first ninety days.
  lemma {:induction false} EarlyStagesSettled(lab: Lab, xs: seq<Observation>, ys: seq<Observation>)
    requires lab.Valid() && Agree(xs, ys, TRAIN + VALIDATION)
    ensures Staged(lab, xs).TrainNotComputable? <==> Staged(lab, ys).TrainNotComputable?
    ensures Staged(lab, xs).CheapRejected? ==> Staged(lab, ys) == Staged(lab, xs)
  {
    AgreeEarlier(xs, ys, TRAIN + VALIDATION, TRAIN);
    assert xs[TRAIN..TRAIN + VALIDATION] == xs[..TRAIN + VALIDATION][TRAIN..];
    assert ys[TRAIN..TRAIN + VALIDATION] == ys[..TRAIN + VALIDATION][TRAIN..];
  }

  // A sealed-test outcome, of either model, is that of the model fitted on the training days alone, so it is the same
  // in every completed run on these training days, whatever the other days of either run are.
  lemma {:induction false} SealedTestUsesTraining(lab: Lab, xs: seq<Observation>, ys: seq<Observation>, i: nat, j: nat)
    requires lab.Valid() && Staged(lab, xs).Completed? && Staged(lab, ys).Completed? && i < SEALED && j < SEALED
    ensures |xs| >= TEST_END && |ys| >= TEST_END
    ensures |Staged(lab, xs).full| == |Staged(lab, xs).baseline| == |Staged(lab, ys).full| == |Staged(lab, ys).baseline|
        == SEALED
    ensures lab.full(xs[..TRAIN]).Some? && lab.baseline(xs[..TRAIN]).Some?
    ensures Staged(lab, xs).full[i] == lab.outcome(lab.full(xs[..TRAIN]).value, xs[TRAIN + VALIDATION + i])
    ensures Staged(lab, xs).baseline[i] == lab.outcome(lab.baseline(xs[..TRAIN]).value, xs[TRAIN + VALIDATION + i])
    ensures Agree(xs, ys, TRAIN) && xs[TRAIN + VALIDATION + i] == ys[TRAIN + VALIDATION + j] ==>
              && Staged(lab, xs).full[i] == Staged(lab, ys).full[j]
              && Staged(lab, xs).baseline[i] == Staged(lab, ys).baseline[j]
  {
    var sealedX, sealedY := xs[TRAIN + VALIDATION..TEST_END], ys[TRAIN + VALIDATION..TEST_END];
    assert sealedX[i] == xs[TRAIN + VALIDATION + i] && sealedY[j] == ys[TRAIN + VALIDATION + j];
  }

  lemma {:induction false} SealedTestSettled(lab: Lab, xs: seq<Observation>, ys: seq<Observation>)
    requires lab.Valid() && Agree(xs, ys, TEST_END) && Staged(lab, xs).Completed?
    ensures Staged(lab, ys).Completed? && Staged(lab, ys).full == Staged(lab, xs).full
        && Staged(lab, ys).baseline == Staged(lab, xs).baseline
  {
    AgreeEarlier(xs, ys, TEST_END, TRAIN);
    AgreeEarlier(xs, ys, TEST_END, TRAIN + VALIDATION);
    EarlyStagesSettled(lab, xs, ys);
    assert xs[TRAIN..TRAIN + VALIDATION] == xs[..TEST_END][TRAIN..TRAIN + VALIDATION];
    assert ys[TRAIN..TRAIN + VALIDATION] == ys[..TEST_END][TRAIN..TRAIN + VALIDATION];
    assert xs[TRAIN + VALIDATION..TEST_END] == xs[..TEST_END][TRAIN + VALIDATION..];
    assert ys[TRAIN + VALIDATION..TEST_END] == ys[..TEST_END][TRAIN + VALIDATION..];
  }

  lemma {:induction false} AllSeen(xs: seq<Observation>, ys: seq<Observation>)
    requires multiset(xs) == multiset(ys)
    ensures Dates(xs) == Dates(ys) && |xs| == |ys| && (SomeNotLive(xs) <==> SomeNotLive(ys))
  {
    SameLength(xs, ys);
    assert forall o :: o in xs <==> o in multiset(xs);
    assert forall o :: o in ys <==> o in multiset(ys);
  }

  lemma {:induction false} OneMoreDate(days: seq<Observation>, o: Observation)
    ensures Dates(days + [o]) == Dates(days) + {o.date}
    ensures o.date !in Dates(days) ==> forall i :: 0 <= i < |days| ==> days[i].date != o.date
  {
    forall i | 0 <= i < |days|
      ensures days[i].date in Dates(days)
    {
      assert days[i] in days;
    }
  }

  lemma {:induction false} DateCount(days: seq<Observation>)
    ensures |Dates(days)| <= |days|
    ensures |Dates(days)| == |days| ==> forall i, j :: 0 <= i < j < |days| ==> days[i].date != days[j].date
  {
    if days != [] {
      var n := |days| - 1;
      DateCount(days[..n]);
      OneMoreDate(days[..n], days[n]);
      assert days == days[..n] + [days[n]];
    }
  }

  lemma {:induction false} DistinctDatesIdentify(days: seq<Observation>)
    requires |Dates(days)| == |days|
    ensures KeysIdentify(days, DateLe)
  {
    DateCount(days);
    forall a, b | a in days && b in days && Tied(a, b, DateLe)
      ensures a == b
    {
      var i :| 0 <= i < |days| && days[i] == a;
      var j :| 0 <= j < |days| && days[j] == b;
    }
  }

  // The report does not depend on the order in which the observations arrive.
  lemma {:induction false} ArrivalOrderIrrelevant(lab: Lab, sourcePass: bool, xs: seq<Observation>,
      ys: seq<Observation>)
    requires lab.Valid() && multiset(xs) == multiset(ys)
    ensures Harness(lab, sourcePass, ys) == Harness(lab, sourcePass, xs)
  {
    SortSorts(xs, DateLe);
    SortSorts(ys, DateLe);
    AllSeen(xs, ByDate(xs));
    AllSeen(ys, ByDate(ys));
    AllSeen(xs, ys);
    if |Dates(xs)| == |xs| {
      DistinctDatesIdentify(xs);
      SortUnaffected(xs, ys, DateLe);
    }
  }

  lemma {:induction false} StagedOutcomesStand(lab: Lab, days: seq<Observation>, more: seq<Observation>)
    requires lab.Valid() && Staged(lab, days).Completed?
    ensures var r, r' := Staged(lab, days), Staged(lab, days + more);
            r'.Completed? && r'.full == r.full && r'.baseline == r.baseline && r.walk <= r'.walk
  {
    assert Agree(days, days + more, TEST_END);
    SealedTestSettled(lab, days, days + more);
    HistoryOnlyGrows(lab, days, more, TEST_END);
  }

  // ---------- collecting days after a completed run ----------

  ghost predicate AllLater(xs: seq<Observation>, more: seq<Observation>) {
    forall a, b :: a in xs && b in more ==> a.date < b.date
  }

  lemma {:induction false} JoinedMembers(xs: seq<Observation>, more: seq<Observation>)
    ensures Dates(xs + more) == Dates(xs) + Dates(more)
    ensures SomeNotLive(xs + more) <==> SomeNotLive(xs) || SomeNotLive(more)
  {
    assert forall o :: o in xs + more <==> o in xs || o in more;
    if SomeNotLive(xs) {
      var o :| o in xs && !o.live;
      assert o in xs + more;
    }
    if SomeNotLive(more) {
      var o :| o in more && !o.live;
      assert o in xs + more;
    }
  }

  lemma {:induction false} JoinedDates(xs: seq<Observation>, more: seq<Observation>)
    requires AllLater(xs, more)
    ensures |Dates(xs + more)| == |Dates(xs)| + |Dates(more)|
  {
    JoinedMembers(xs, more);
    assert Dates(xs) !! Dates(more);
  }

  lemma {:induction false} OneAfterTheOther(xs: seq<Observation>, more: seq<Observation>)
    requires AllLater(xs, more) && Sorted(xs, DateLe) && Sorted(more, DateLe)
    ensures Sorted(xs + more, DateLe)
  {
    forall i, j | 0 <= i < j < |xs + more|
      ensures DateLe((xs + more)[i], (xs + more)[j])
    {
      if i < |xs| <= j {
        assert xs[i] in xs && more[j - |xs|] in more;
      }
    }
  }

  lemma {:induction false} SortedMembers(xs: seq<Observation>)
    ensures Sorted(ByDate(xs), DateLe) && multiset(ByDate(xs)) == multiset(xs) && |ByDate(xs)| == |xs|
    ensures forall o :: o in ByDate(xs) <==> o in xs
  {
    SortSorts(xs, DateLe);
    assert forall o :: o in ByDate(xs) <==> o in multiset(ByDate(xs));
    assert forall o :: o in xs <==> o in multiset(xs);
  }

  lemma {:induction false} LaterDaysSortLast(xs: seq<Observation>, more: seq<Observation>)
    requires AllLater(xs, more) && |Dates(xs + more)| == |xs + more|
    ensures ByDate(xs + more) == ByDate(xs) + ByDate(more)
  {
    SortedMembers(xs);
    SortedMembers(more);
    SortedMembers(xs + more);
    OneAfterTheOther(ByDate(xs), ByDate(more));
    DistinctDatesIdentify(xs + more);
    SortedUnique(ByDate(xs + more), ByDate(xs) + ByDate(more), DateLe);
  }

  // After a completed run, days with later dates are collected. The next run completes, with the sealed-test outcomes
  // and all walk-forward outcomes reported so far as they were, exactly when the new days are live and have distinct
  // dates; otherwise it holds.
  lemma {:induction false} ReportedOutcomesStand(lab: Lab, xs: seq<Observation>, more: seq<Observation>)
    requires lab.Valid() && Harness(lab, true, xs).Completed? && AllLater(xs, more)
    ensures var r, r' := Harness(lab, true, xs), Harness(lab, true, xs + more);
            && (r'.Completed? <==> |Dates(more)| == |more| && !SomeNotLive(more))
            && (r'.Completed? ==> r'.full == r.full && r'.baseline == r.baseline && r.walk <= r'.walk)
            && (!r'.Completed? ==> r'.Hold?)
  {
    SortSorts(xs, DateLe);
    SortSorts(xs + more, DateLe);
    AllSeen(xs, ByDate(xs));
    AllSeen(xs + more, ByDate(xs + more));
    JoinedMembers(xs, more);
    JoinedDates(xs, more);
    DateCount(more);
    if |Dates(more)| == |more| && !SomeNotLive(more) {
      LaterDaysSortLast(xs, more);
      StagedOutcomesStand(lab, ByDate(xs), ByDate(more));
    }
  }

  // ---------- the run itself ----------

  // What is done so far and what is still to come make up the whole walk.
  ghost predicate Walking(lab: Lab, days: seq<Observation>, outcomes: seq<Outcome>, blocks: nat, cursor: nat)
    requires lab.Valid() && |days| >= TEST_END
  {
    && cursor <= |days|
    && outcomes + OutcomesFrom(lab, days, cursor) == OutcomesFrom(lab, days, TEST_END)
    && blocks + |BlocksFrom(lab, days, cursor)| == |BlocksFrom(lab, days, TEST_END)|
    && CursorFrom(lab, days, cursor) == CursorFrom(lab, days, TEST_END)
  }

  lemma {:induction false} OutcomesStep(lab: Lab, days: seq<Observation>, cursor: nat)
    requires lab.Valid() && cursor <= |days| && CanStep(lab, days, cursor)
    ensures var next := cursor + Size(lab, days, cursor);
            && OutcomesFrom(lab, days, cursor) ==
                 Scored(lab.outcome, FitBefore(lab, days, cursor).value, days[cursor..next])
                     + OutcomesFrom(lab, days, next)
            && |BlocksFrom(lab, days, cursor)| == 1 + |BlocksFrom(lab, days, next)|
            && CursorFrom(lab, days, cursor) == CursorFrom(lab, days, next)
  {
  }

  lemma {:induction false} Regrouped(before: seq<Outcome>, block: seq<Outcome>, after: seq<Outcome>,
      whole: seq<Outcome>)
    requires before + (block + after) == whole
    ensures (before + block) + after == whole
  {
    assert (before + block) + after == before + (block + after);
  }

  lemma {:induction false} WalkStep(lab: Lab, days: seq<Observation>, done: seq<Outcome>, blocks: nat, cursor: nat,
      m: Model, next: nat, outcomes: seq<Outcome>)
    requires lab.Valid() && |days| >= TEST_END && Walking(lab, days, done, blocks, cursor)
    requires CanStep(lab, days, cursor) && FitBefore(lab, days, cursor) == Some(m)
        && next == cursor + Size(lab, days, cursor)
    requires outcomes == done + Scored(lab.outcome, m, days[cursor..next])
    ensures Walking(lab, days, outcomes, blocks + 1, next)
  {
    OutcomesStep(lab, days, cursor);
    Regrouped(done, Scored(lab.outcome, m, days[cursor..next]), OutcomesFrom(lab, days, next),
        OutcomesFrom(lab, days, TEST_END));
  }

  lemma {:induction false} WalkEnds(lab: Lab, days: seq<Observation>, outcomes: seq<Outcome>, blocks: nat, cursor: nat)
    requires lab.Valid() && |days| >= TEST_END && Walking(lab, days, outcomes, blocks, cursor)
        && !CanStep(lab, days, cursor)
    ensures outcomes == OutcomesFrom(lab, days, TEST_END) && blocks == |BlocksFrom(lab, days, TEST_END)|
    ensures cursor == CursorFrom(lab, days, TEST_END)
  {
    assert outcomes + [] == outcomes;
  }

  lemma {:induction false} WalkStarts(lab: Lab, days: seq<Observation>)
    requires lab.Valid() && |days| >= TEST_END
    ensures Walking(lab, days, [], 0, TEST_END)
  {
    assert [] + OutcomesFrom(lab, days, TEST_END) == OutcomesFrom(lab, days, TEST_END);
  }

  method ScoreBlock(lab: Lab, days: seq<Observation>, m: Model, done: seq<Outcome>, ghost blocks: nat, cursor: nat)
    returns (outcomes: seq<Outcome>, next: nat)
    requires lab.Valid() && |days| >= TEST_END && Walking(lab, days, done, blocks, cursor)
    requires CanStep(lab, days, cursor) && FitBefore(lab, days, cursor) == Some(m)
    ensures Walking(lab, days, outcomes, blocks + 1, next) && cursor < next <= |days|
  {
    next := cursor + Size(lab, days, cursor);
    outcomes := done + Scored(lab.outcome, m, days[cursor..next]);
    WalkStep(lab, days, done, blocks, cursor, m, next, outcomes);
  }

  method WalkForward(lab: Lab, days: seq<Observation>) returns (outcomes: seq<Outcome>, blocks: nat, cursor: nat)
    requires lab.Valid() && |days| >= TEST_END
    ensures outcomes == OutcomesFrom(lab, days, TEST_END) && blocks == |BlocksFrom(lab, days, TEST_END)|
    ensures cursor == CursorFrom(lab, days, TEST_END)
  {
    outcomes, blocks, cursor := [], 0, TEST_END;
    WalkStarts(lab, days);
    while |days| - cursor >= MIN_BLOCK
      invariant Walking(lab, days, outcomes, blocks, cursor)
      decreases |days| - cursor
    {
      var fit := FitBefore(lab, days, cursor);
      if fit.None? {
        WalkEnds(lab, days, outcomes, blocks, cursor);
        return;
      }
      outcomes, cursor := ScoreBlock(lab, days, fit.value, outcomes, blocks, cursor);
      blocks := blocks + 1;
    }
    WalkEnds(lab, days, outcomes, blocks, cursor);
  }

  method RunValidation(lab: Lab, sourcePass: bool, observations: seq<Observation>) returns (report: Report)
    requires lab.Valid()
    ensures report == Harness(lab, sourcePass, observations)
  {
    if !sourcePass {
      return Hold(SourceGate);
    }
    var days := ByDate(observations);
    if |Dates(days)| != |days| {
      return Hold(DuplicateDate);
    }
    if SomeNotLive(days) {
      return Hold(NotLive);
    }
    if |days| < TRAIN + VALIDATION {
      return Hold(TooFewDays);
    }
    var full, baseline := lab.full(days[..TRAIN]), lab.baseline(days[..TRAIN]);
    if full.None? || baseline.None? {
      return TrainNotComputable;
    }
    var validation := days[TRAIN..TRAIN + VALIDATION];
    var fullValidation := Scored(lab.outcome, full.value, validation);
    var baselineValidation := Scored(lab.outcome, baseline.value, validation);
    var increments := Increments(fullValidation, baselineValidation);
    if !lab.cheapPass(increments) {
      return CheapRejected(increments);
    }
    if |days| < TEST_END {
      return SealedTestMissing;
    }
    var sealed := days[TRAIN + VALIDATION..TEST_END];
    var fullTest, baselineTest := Scored(lab.outcome, full.value, sealed), Scored(lab.outcome, baseline.value, sealed);
    var walk, blocks, cursor := WalkForward(lab, days);
    report := Completed(fullTest, baselineTest, walk, blocks, cursor);
  }
}

/**
  The validation run stated on its observations: which verdict it reaches and on which days each stage is fitted and
  judged, and the walk forward day by day.
 */
module HarnessInFull {
  import opened Wrappers
  import opened StableSort
  import opened ValidationHarness

  // The observations in the order of their dates, no two on the same date.
  ghost predicate Calendar(days: seq<Observation>, observations: seq<Observation>) {
    multiset(days) == multiset(observations) && forall i, j :: 0 <= i < j < |days| ==> days[i].date < days[j].date
  }

  lemma {:induction false} CalendarIsByDate(days: seq<Observation>, observations: seq<Observation>)
    requires Calendar(days, observations)
    ensures ByDate(observations) == days && |Dates(days)| == |days|
  {
    DistinctCount(days);
    SortedMembers(observations);
    AllSeen(days, ByDate(observations));
    DistinctDatesIdentify(ByDate(observations));
    SortSorts(observations, DateLe);
    SortedUnique(ByDate(observations), days, DateLe);
  }

  lemma {:induction false} DistinctCount(days: seq<Observation>)
    requires forall i, j :: 0 <= i < j < |days| ==> days[i].date != days[j].date
    ensures |Dates(days)| == |days|
  {
    if days != [] {
      var n := |days| - 1;
      DistinctCount(days[..n]);
      OneMoreDate(days[..n], days[n]);
      assert days == days[..n] + [days[n]];
      assert forall o :: o in days[..n] ==> o.date != days[n].date;
    }
  }

  // ---------- the verdicts before the sealed test ----------

  // A run that the source gate, a repeated date or a day that is not live holds up.
  lemma {:induction false} HeldInFull(lab: Lab, sourcePass: bool, observations: seq<Observation>)
    requires lab.Valid()
    ensures Harness(lab, sourcePass, observations) == Hold(SourceGate) <==> !sourcePass
    ensures Harness(lab, sourcePass, observations) == Hold(DuplicateDate) <==>
              sourcePass && exists i, j :: 0 <= i < j < |observations| && observations[i].date == observations[j].date
    ensures Harness(lab, sourcePass, observations) == Hold(NotLive) <==>
              && sourcePass
              && (forall i, j :: 0 <= i < j < |observations| ==> observations[i].date != observations[j].date)
              && exists i :: 0 <= i < |observations| && !observations[i].live
  {
    SortSorts(observations, DateLe);
    AllSeen(observations, ByDate(observations));
    DateCount(observations);
    if forall i, j :: 0 <= i < j < |observations| ==> observations[i].date != observations[j].date {
      DistinctCount(observations);
    }
    if SomeNotLive(observations) {
      var o :| o in observations && !o.live;
      var i :| 0 <= i < |observations| && observations[i] == o;
    }
    if i :| 0 <= i < |observations| && !observations[i].live {
      assert observations[i] in observations;
    }
  }

  // The day-by-day advantage of the full model over the baseline, both fitted on the first sixty days.
  ghost predicate Advantage(lab: Lab, days: seq<Observation>, from: nat, v: seq<real>)
    requires |days| >= 60 && lab.full(days[..60]).Some? && lab.baseline(days[..60]).Some?
  {
    && from + |v| <= |days|
    && forall i :: 0 <= i < |v| ==>
         v[i] == lab.outcome(lab.full(days[..60]).value, days[from + i]).pnl
                 - lab.outcome(lab.baseline(days[..60]).value, days[from + i]).pnl
  }

  // Fewer than ninety days hold the run; a fit on the first sixty days that fails ends it.
  lemma {:induction false} FitInFull(lab: Lab, days: seq<Observation>, observations: seq<Observation>)
    requires lab.Valid() && Calendar(days, observations) && forall o :: o in observations ==> o.live
    ensures Harness(lab, true, observations) == Hold(TooFewDays) <==> |days| < 90
    ensures Harness(lab, true, observations) == TrainNotComputable <==>
              |days| >= 90 && (lab.full(days[..60]).None? || lab.baseline(days[..60]).None?)
  {
    LiveCalendar(lab, days, observations);
  }

  lemma {:induction false} LiveCalendar(lab: Lab, days: seq<Observation>, observations: seq<Observation>)
    requires lab.Valid() && Calendar(days, observations) && forall o :: o in observations ==> o.live
    ensures Harness(lab, true, observations) == Staged(lab, days)
  {
    CalendarIsByDate(days, observations);
    SortSorts(observations, DateLe);
    AllSeen(observations, days);
  }

  // The gate is fed the thirty advantages on days 60 to 89: it rejects the run, with exactly these numbers, when it
  // does not pass them. Otherwise the run ends without its sealed test on fewer than 120 days, and completes on others.
  lemma {:induction false} GateInFull(lab: Lab, days: seq<Observation>, observations: seq<Observation>, v: seq<real>)
    requires lab.Valid() && Calendar(days, observations) && forall o :: o in observations ==> o.live
    requires |days| >= 90 && lab.full(days[..60]).Some? && lab.baseline(days[..60]).Some?
    requires |v| == 30 && Advantage(lab, days, 60, v)
    ensures Harness(lab, true, observations).CheapRejected? <==> !lab.cheapPass(v)
    ensures Harness(lab, true, observations).CheapRejected? ==> Harness(lab, true, observations).validation == v
    ensures Harness(lab, true, observations) == SealedTestMissing <==> lab.cheapPass(v) && |days| < 120
    ensures Harness(lab, true, observations).Completed? <==> lab.cheapPass(v) && |days| >= 120
  {
    LiveCalendar(lab, days, observations);
    var full, baseline := lab.full(days[..60]).value, lab.baseline(days[..60]).value;
    var validation := days[60..90];
    var increments := Increments(Scored(lab.outcome, full, validation), Scored(lab.outcome, baseline, validation));
    assert increments == v;
  }

  // ---------- a completed run ----------

  // The sealed test is days 90 to 119, under the models of the first sixty.
  lemma {:induction false} SealedInFull(lab: Lab, days: seq<Observation>, observations: seq<Observation>, i: nat)
    requires lab.Valid() && Calendar(days, observations) && forall o :: o in observations ==> o.live
    requires Harness(lab, true, observations).Completed? && i < 30
    ensures |days| >= 120 && lab.full(days[..60]).Some? && lab.baseline(days[..60]).Some?
    ensures var r := Harness(lab, true, observations);
            && |r.full| == |r.baseline| == 30
            && r.full[i] == lab.outcome(lab.full(days[..60]).value, days[90 + i])
            && r.baseline[i] == lab.outcome(lab.baseline(days[..60]).value, days[90 + i])
  {
    LiveCalendar(lab, days, observations);
    SealedTestUsesTraining(lab, days, days, i, i);
  }

  // Where block b starts, when the first one starts on day `from`.
  function BlockStart(from: nat, b: nat, size: nat): nat {
    from + b * size
  }

  lemma {:induction false} NextBlockStart(from: nat, b: nat, size: nat)
    ensures BlockStart(from + size, b, size) == BlockStart(from, b + 1, size)
    ensures BlockStart(from, 0, size) == from && BlockStart(from, b, size) >= from
  {
    assert (b + 1) * size == b * size + size;
  }

  // The walk makes k blocks from day `from` on: at the start of each there are twenty days left and the fit on all days
  // before it succeeds, and after the last one either fails.
  ghost predicate Walks(lab: Lab, days: seq<Observation>, from: nat, k: nat) {
    && (forall b: nat :: b < k ==> Steps(lab, days, BlockStart(from, b, lab.blockDays)))
    && !Steps(lab, days, BlockStart(from, k, lab.blockDays))
  }

  predicate Steps(lab: Lab, days: seq<Observation>, start: nat) {
    start + 20 <= |days| && lab.full(days[..start]).Some?
  }

  lemma {:induction false} RestWalks(lab: Lab, days: seq<Observation>, from: nat, k: nat)
    requires lab.Valid() && k > 0 && Walks(lab, days, from, k)
    ensures Walks(lab, days, from + lab.blockDays, k - 1) && Steps(lab, days, from)
  {
    NextBlockStart(from, 0, lab.blockDays);
    var next := from + lab.blockDays;
    forall b: nat | b < k
      ensures BlockStart(next, b, lab.blockDays) == BlockStart(from, b + 1, lab.blockDays)
    {
      NextBlockStart(from, b, lab.blockDays);
    }
    assert Steps(lab, days, BlockStart(from, 0, lab.blockDays));
    assert BlockStart(from + lab.blockDays, k - 1, lab.blockDays) == BlockStart(from, k, lab.blockDays);
  }

  // The walk has k blocks, full ones but perhaps for the last, and ends after them or with the last day.
  lemma {:induction false} WalkLengthInFull(lab: Lab, days: seq<Observation>, from: nat, k: nat)
    requires lab.Valid() && from <= |days| && Walks(lab, days, from, k)
    ensures |BlocksFrom(lab, days, from)| == k
    ensures CursorFrom(lab, days, from) ==
              if BlockStart(from, k, lab.blockDays) <= |days| then BlockStart(from, k, lab.blockDays) else |days|
    decreases k
  {
    NextBlockStart(from, 0, lab.blockDays);
    if k > 0 {
      RestWalks(lab, days, from, k);
      NextBlockStart(from, k - 1, lab.blockDays);
      if from + lab.blockDays <= |days| {
        WalkLengthInFull(lab, days, from + lab.blockDays, k - 1);
      } else {
        LastIsShort(lab, days, from + lab.blockDays, k - 1);
      }
    }
  }

  lemma {:induction false} LastIsShort(lab: Lab, days: seq<Observation>, from: nat, k: nat)
    requires lab.Valid() && from > |days| && Walks(lab, days, from, k)
    ensures k == 0
  {
    NextBlockStart(from, 0, lab.blockDays);
    assert k > 0 ==> Steps(lab, days, BlockStart(from, 0, lab.blockDays));
  }

  lemma {:induction false} DayOfBlock(lab: Lab, days: seq<Observation>, from: nat, k: nat, b: nat, r: nat, start: nat)
    requires lab.Valid() && from <= |days| && Walks(lab, days, from, k) && b < k && r < lab.blockDays
    requires start == BlockStart(from, b, lab.blockDays) && start + r < |days|
    ensures from <= start + r < CursorFrom(lab, days, from) && lab.full(days[..start]).Some?
    ensures Day(lab, days, from, start + r) == lab.outcome(lab.full(days[..start]).value, days[start + r])
    decreases b
  {
    hide Walks;
    NextBlockStart(from, 0, lab.blockDays);
    RestWalks(lab, days, from, k);
    if b > 0 {
      NextBlockStart(from, b - 1, lab.blockDays);
      NextBlockStart(from + lab.blockDays, b - 1, lab.blockDays);
      DayOfBlock(lab, days, from + lab.blockDays, k - 1, b - 1, r, start);
    }
  }

  // Day r of block b is scored by the model fitted on all days before that block.
  lemma {:induction false} WalkDayInFull(lab: Lab, days: seq<Observation>, from: nat, k: nat, b: nat, r: nat,
      start: nat)
    requires lab.Valid() && from <= |days| && Walks(lab, days, from, k) && b < k && r < lab.blockDays
    requires start == from + b * lab.blockDays && start + r < |days|
    ensures from <= start + r < CursorFrom(lab, days, from) && lab.full(days[..start]).Some?
    ensures OutcomesFrom(lab, days, from)[start + r - from]
            == lab.outcome(lab.full(days[..start]).value, days[start + r])
  {
    DayOfBlock(lab, days, from, k, b, r, start);
    DayIsOutcome(lab, days, from, start + r);
  }

  lemma {:induction false} WalkExists(lab: Lab, days: seq<Observation>, from: nat) returns (k: nat)
    requires lab.Valid() && from <= |days|
    ensures Walks(lab, days, from, k)
    decreases |days| - from
  {
    NextBlockStart(from, 0, lab.blockDays);
    k := 0;
    if Steps(lab, days, from) {
      if from + lab.blockDays <= |days| {
        k := WalkExists(lab, days, from + lab.blockDays);
      }
      OneMoreBlock(lab, days, from, k);
      k := k + 1;
    }
  }

  lemma {:induction false} OneMoreBlock(lab: Lab, days: seq<Observation>, from: nat, k: nat)
    requires lab.Valid() && Steps(lab, days, from)
    requires from + lab.blockDays > |days| ==> k == 0
    requires from + lab.blockDays <= |days| ==> Walks(lab, days, from + lab.blockDays, k)
    ensures Walks(lab, days, from, k + 1)
  {
    NextBlockStart(from, 0, lab.blockDays);
    var next := from + lab.blockDays;
    forall b: nat | b <= k
      ensures BlockStart(next, b, lab.blockDays) == BlockStart(from, b + 1, lab.blockDays)
    {
      NextBlockStart(from, b, lab.blockDays);
    }
    NextBlockStart(from + lab.blockDays, k, lab.blockDays);
    forall b: nat | b < k + 1
      ensures Steps(lab, days, BlockStart(from, b, lab.blockDays))
    {
      if b > 0 {
        assert Steps(lab, days, BlockStart(from + lab.blockDays, b - 1, lab.blockDays));
        NextBlockStart(from, b - 1, lab.blockDays);
      }
    }
  }

  // The walk of a completed run starts on day 120: its day r of block b is scored by the model fitted on all days
  // before 120 + b * the block size, and these are all its outcomes.
  lemma {:induction false} WalkInFull(lab: Lab, days: seq<Observation>, observations: seq<Observation>) returns (k: nat)
    requires lab.Valid() && Calendar(days, observations) && forall o :: o in observations ==> o.live
    requires Harness(lab, true, observations).Completed?
    ensures |days| >= 120 && Walks(lab, days, 120, k)
    ensures var r := Harness(lab, true, observations);
            && r.blocks == k && |r.walk| == r.cursor - 120
            && r.cursor == (if 120 + k * lab.blockDays <= |days| then 120 + k * lab.blockDays else |days|)
            && r.walk == OutcomesFrom(lab, days, 120)
  {
    LiveCalendar(lab, days, observations);
    k := WalkExists(lab, days, 120);
    WalkLengthInFull(lab, days, 120, k);
  }
}

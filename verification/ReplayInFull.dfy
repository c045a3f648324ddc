/**
  The candidates of the daily replay stated on the stored bars: which bars a basis day is judged by, when the builder
  fails, and what the orders, quotes and trades of a candidate are.
 */
module ReplayInFull {
  import opened Numbers
  import opened Wrappers
  import opened Portfolio
  import opened Backtest
  import opened TradeReplay

  // ---------- the builder ----------

  lemma {:induction false} WindowIs(bars: seq<DailyBar>, k: nat)
    requires 19 <= k < |bars|
    ensures Window(bars, k) == bars[k - 19..k + 1]
  {
  }

  // Basis day k, one from index 19 to the last but one, is judged by bars k - 19 to k, and the judgement fails.
  predicate FailsOn(bars: seq<DailyBar>, judge: Judge, k: int) {
    19 <= k < |bars| - 1 && judge(bars[k - 19..k + 1]) == Failed
  }

  // The build fails if and only if that is so on some day.
  lemma {:induction false} BreaksInFull(bars: seq<DailyBar>, judge: Judge, replayBase: int)
    ensures BuildOf(bars, judge, replayBase).Broken? <==> exists k :: FailsOn(bars, judge, k)
  {
    if BreaksBefore(bars, judge, BasisEnd(bars)) {
      var k :| FIRST_BASIS <= k < BasisEnd(bars) && k < |bars| && judge(Window(bars, k)).Failed?;
      assert FailsOn(bars, judge, k);
    }
    if k :| FailsOn(bars, judge, k) {
      assert judge(Window(bars, k)).Failed?;
    }
  }

  // Otherwise each basis day k whose twenty bars are judged to have a direction gives one candidate, and no other day
  // does: for the next day, with that day's bar, and a replay time of its own.
  lemma {:induction false} CandidatesInFull(bars: seq<DailyBar>, judge: Judge, replayBase: int) returns (at: seq<nat>)
    requires BuildOf(bars, judge, replayBase).Made?
    ensures var cs := BuildOf(bars, judge, replayBase).candidates;
            && |at| == |cs|
            && (forall i, j :: 0 <= i < j < |at| ==> at[i] < at[j])
            && (forall i :: 0 <= i < |at| ==>
                  && 19 <= at[i] < |bars| - 1
                  && judge(bars[at[i] - 19..at[i] + 1]) == Judged(Some(cs[i].direction))
                  && cs[i].signalDate == bars[at[i] + 1].date && cs[i].bar == bars[at[i] + 1].bar
                  && cs[i].replayOpen == replayBase + 100 * (at[i] + 1))
            && (forall k: nat :: 19 <= k < |bars| - 1 && k !in at ==>
                  match judge(bars[k - 19..k + 1]) case Judged(Some(_)) => false case _ => true)
  {
    var cs := BuildOf(bars, judge, replayBase).candidates;
    at := BuiltIsListed(bars, judge, replayBase, BasisEnd(bars));
    forall i | 0 <= i < |at|
      ensures 19 <= at[i] < |bars| - 1 && judge(bars[at[i] - 19..at[i] + 1]) == Judged(Some(cs[i].direction))
    {
      WindowIs(bars, at[i]);
    }
    forall k: nat | 19 <= k < |bars| - 1 && k !in at
      ensures match judge(bars[k - 19..k + 1]) case Judged(Some(_)) => false case _ => true
    {
      WindowIs(bars, k);
      assert !Trades(judge(Window(bars, k)));
    }
  }

  // Basis day k gives a candidate in this direction.
  ghost predicate Gives(bars: seq<DailyBar>, judge: Judge, replayBase: int, k: nat, direction: SignalDirection)
    requires BuildOf(bars, judge, replayBase).Made?
  {
    exists c :: c in BuildOf(bars, judge, replayBase).candidates && c.replayOpen == replayBase + 100 * (k + 1)
                && c.direction == direction
  }

  lemma {:induction false} GivenIsJudged(bars: seq<DailyBar>, judge: Judge, replayBase: int, k: nat,
      direction: SignalDirection)
    requires BuildOf(bars, judge, replayBase).Made? && 19 <= k < |bars| - 1
    requires Gives(bars, judge, replayBase, k, direction)
    ensures judge(bars[k - 19..k + 1]) == Judged(Some(direction))
  {
    var cs := BuildOf(bars, judge, replayBase).candidates;
    var at := CandidatesInFull(bars, judge, replayBase);
    hide BuildOf, FailsOn;
    var c :| c in cs && c.replayOpen == replayBase + 100 * (k + 1) && c.direction == direction;
    var i :| 0 <= i < |cs| && cs[i] == c;
    assert at[i] == k;
  }

  lemma {:induction false} JudgedIsGiven(bars: seq<DailyBar>, judge: Judge, replayBase: int, k: nat,
      direction: SignalDirection)
    requires BuildOf(bars, judge, replayBase).Made? && 19 <= k < |bars| - 1
    requires judge(bars[k - 19..k + 1]) == Judged(Some(direction))
    ensures Gives(bars, judge, replayBase, k, direction)
  {
    var cs := BuildOf(bars, judge, replayBase).candidates;
    var at := CandidatesInFull(bars, judge, replayBase);
    hide BuildOf, FailsOn;
    assert k in at;
    var i :| 0 <= i < |at| && at[i] == k;
    assert cs[i] in cs;
  }

  lemma {:induction false} GivesIff(bars: seq<DailyBar>, judge: Judge, replayBase: int, k: nat,
      direction: SignalDirection)
    requires BuildOf(bars, judge, replayBase).Made? && 19 <= k < |bars| - 1
    ensures Gives(bars, judge, replayBase, k, direction) <==> judge(bars[k - 19..k + 1]) == Judged(Some(direction))
  {
    hide BuildOf, Gives;
    if Gives(bars, judge, replayBase, k, direction) {
      GivenIsJudged(bars, judge, replayBase, k, direction);
    }
    if judge(bars[k - 19..k + 1]) == Judged(Some(direction)) {
      JudgedIsGiven(bars, judge, replayBase, k, direction);
    }
  }

  // A basis day is decided by its twenty bars alone. Two histories that agree on bars k - 19 to k, whatever their other
  // bars are, the traded bar k + 1 and everything before k - 19 included, give a candidate on day k in both or in
  // neither, and in the same direction.
  lemma {:induction false} BasisDayDecides(xs: seq<DailyBar>, ys: seq<DailyBar>, judge: Judge, base: int, base': int,
      k: nat, direction: SignalDirection)
    requires 19 <= k && k + 1 < |xs| && k + 1 < |ys| && xs[k - 19..k + 1] == ys[k - 19..k + 1]
    requires BuildOf(xs, judge, base).Made? && BuildOf(ys, judge, base').Made?
    ensures Gives(xs, judge, base, k, direction) <==> Gives(ys, judge, base', k, direction)
  {
    GivesIff(xs, judge, base, k, direction);
    GivesIff(ys, judge, base', k, direction);
  }

  // And if only the bars outside k - 19 to k differ, and the other basis days break neither build, then day k breaks
  // both or neither.
  lemma {:induction false} BasisDayBreaks(xs: seq<DailyBar>, ys: seq<DailyBar>, judge: Judge, base: int, base': int,
      k: nat)
    requires 19 <= k && k + 1 < |xs| && k + 1 < |ys| && xs[k - 19..k + 1] == ys[k - 19..k + 1]
    requires forall j :: j != k ==> !FailsOn(xs, judge, j) && !FailsOn(ys, judge, j)
    ensures BuildOf(xs, judge, base).Broken? <==> BuildOf(ys, judge, base').Broken?
  {
    BreaksInFull(xs, judge, base);
    BreaksInFull(ys, judge, base');
    assert FailsOn(xs, judge, k) <==> FailsOn(ys, judge, k);
  }

  // The twenty bars up to day k are judged, to have a direction or none.
  ghost predicate JudgedOn(bars: seq<DailyBar>, judge: Judge, k: int) {
    19 <= k && k + 1 < |bars| && judge(bars[k - 19..k + 1]).Judged?
  }

  // The dates in `dates` are the days after the basis days before `end` that were judged at all, in order.
  ghost predicate DatesAt(dates: seq<string>, at: seq<nat>, bars: seq<DailyBar>, judge: Judge, end: nat) {
    && |at| == |dates| && (forall i, j :: 0 <= i < j < |at| ==> at[i] < at[j])
    && (forall i :: 0 <= i < |at| ==> at[i] < end && JudgedOn(bars, judge, at[i]) && dates[i] == bars[at[i] + 1].date)
    && forall k: nat :: k < end && k !in at ==> !JudgedOn(bars, judge, k)
  }

  lemma {:induction false} OneMoreDay(dates: seq<string>, at: seq<nat>, bars: seq<DailyBar>, judge: Judge, k: nat,
      date: string)
    requires DatesAt(dates, at, bars, judge, k) && JudgedOn(bars, judge, k) && date == bars[k + 1].date
    ensures DatesAt(dates + [date], at + [k], bars, judge, k + 1)
  {
    assert k + 1 < |bars| && forall i :: 0 <= i < |at| ==> JudgedOn(bars, judge, at[i]);
    hide JudgedOn;
    assert forall m :: m in at + [k] <==> m in at || m == k;
  }

  lemma {:induction false} OneDayOff(dates: seq<string>, at: seq<nat>, bars: seq<DailyBar>, judge: Judge, k: nat)
    requires DatesAt(dates, at, bars, judge, k) && !JudgedOn(bars, judge, k)
    ensures DatesAt(dates, at, bars, judge, k + 1)
  {
  }

  lemma {:induction false} FeatureDatesInFull(bars: seq<DailyBar>, judge: Judge, end: nat) returns (at: seq<nat>)
    requires end < |bars| || end <= 19
    ensures DatesAt(FeatureDates(bars, judge, end), at, bars, judge, end)
  {
    at := [];
    if end > 19 {
      var k := end - 1;
      at := FeatureDatesInFull(bars, judge, k);
      WindowIs(bars, k);
      hide DatesAt;
      if judge(bars[k - 19..k + 1]).Judged? {
        OneMoreDay(FeatureDates(bars, judge, k), at, bars, judge, k, bars[end].date);
        at := at + [k];
      } else {
        OneDayOff(FeatureDates(bars, judge, k), at, bars, judge, k);
        assert FeatureDates(bars, judge, k) + [] == FeatureDates(bars, judge, k);
      }
    }
  }

  // ---------- the trades ----------

  // The entry order lives from one tick before the open quote to one tick after it, the exit order from then to one
  // tick after the close quote, which comes three ticks after the open one; a long trade buys first, a short one sells
  // first.
  lemma {:induction false} OrdersInFull(c: Candidate, quantity: real)
    ensures var entry, exit := EntryOrder(c, quantity), ExitOrder(c, quantity);
            && entry.createdAt == c.replayOpen - 1 && entry.expiresAt == c.replayOpen + 1
            && exit.createdAt == c.replayOpen + 1 && exit.expiresAt == c.replayOpen + 4
            && |entry.legs| == |exit.legs| == 1
            && entry.legs[0].quantity == exit.legs[0].quantity == quantity
            && entry.legs[0].limitPrice == c.bar.open && exit.legs[0].limitPrice == c.bar.close
            && entry.legs[0].instrumentId == exit.legs[0].instrumentId == "KRX_000660_COMMON_STOCK"
            && (c.direction == LONG ==> entry.legs[0].side == BUY && exit.legs[0].side == SELL)
            && (c.direction == SHORT ==> entry.legs[0].side == SELL && exit.legs[0].side == BUY)
  {
  }

  // Both quotes of a day show one price on both sides, the open and then the close, for the day's volume or at least
  // one.
  lemma {:induction false} QuotesInFull(c: Candidate)
    ensures forall e :: e in [OpenEvent(c), CloseEvent(c)] ==>
              && IsQuote(e) && e.eventTime == e.availableTime == e.payload.quote.eventTime
              && e.payload.quote.bidPrice == e.payload.quote.askPrice
              && e.payload.quote.bidSize == e.payload.quote.askSize
              && e.payload.quote.bidSize == (if c.bar.volume >= 1.0 then c.bar.volume else 1.0)
              && e.payload.quote.qualityFlags == [] && e.payload.quote.currency == Some("KRW")
              && e.payload.quote.instrumentId == c.bar.instrumentId
    ensures OpenEvent(c).eventTime == c.replayOpen && OpenEvent(c).payload.quote.askPrice == c.bar.open
    ensures CloseEvent(c).eventTime == c.replayOpen + 3 && CloseEvent(c).payload.quote.askPrice == c.bar.close
  {
  }

  // What a fold reports for a trade: the move of the price from open to close, times the quantity, against it if short.
  lemma {:induction false} ProfitInFull(c: Candidate, quantity: real, filled: real)
    requires filled == if quantity <= c.bar.volume || quantity <= 1.0 then quantity
             else if c.bar.volume >= 1.0 then c.bar.volume else 1.0
    ensures c.direction == LONG ==>
              && Gross(c.direction, c.bar.open, c.bar.close, quantity) == (c.bar.close - c.bar.open) * quantity
              && Earned(c, quantity) == (c.bar.close - c.bar.open) * filled
    ensures c.direction == SHORT ==>
              && Gross(c.direction, c.bar.open, c.bar.close, quantity) == (c.bar.open - c.bar.close) * quantity
              && Earned(c, quantity) == (c.bar.open - c.bar.close) * filled
  {
    assert filled == Min(quantity, Depth(c.bar));
  }
}

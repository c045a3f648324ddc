/**
  The KRX backfill stated on dates, cached rows and replies: weekdays, what a prefetch classifies, retries, bars and
  coverage.
 */
module KrxInFull {
  import opened Wrappers
  import opened KrxPrefetch

  // ---------- weekdays ----------

  // Ordinal 1, the first of January of the year 1, is a Monday: 1 to 5 are workdays, 6 and 7 are not, and so on.
  lemma {:induction false} WorkdaysInFull(d: Date)
    ensures Workday(1) && Workday(2) && Workday(3) && Workday(4) && Workday(5) && !Workday(6) && !Workday(7)
    ensures Workday(d + 7) <==> Workday(d)
    ensures Weekday(1) == 0 && 0 <= Weekday(d) < 7 && Weekday(d + 1) == (if Weekday(d) == 6 then 0 else Weekday(d) + 1)
  {
  }

  // ---------- the prefetch ----------

  // The prefetched dates: every workday from the first trading date to the end is fetched and cached, it is a trading
  // date if its response has rows and a closed one if not, and all three lists ascend.
  lemma {:induction false} PrefetchInFull(p: Prefetch, cache: map<Date, CachedDay>, end: Date, lookback: int, d: Date)
    requires Classified(p, cache, end, lookback)
    ensures p.trading != [] && end - lookback < p.trading[0] <= p.trading[|p.trading| - 1] <= end
    ensures d in p.fetched <==> p.trading[0] <= d <= end && Weekday(d) <= 4
    ensures d in p.fetched ==> d in cache
    ensures d in p.trading <==> d in p.fetched && d in cache && cache[d].rows != []
    ensures d in p.closed <==> d in p.fetched && d in cache && cache[d].rows == []
    ensures forall i, j :: 0 <= i < j < |p.trading| ==> p.trading[i] < p.trading[j]
    ensures forall i, j :: 0 <= i < j < |p.closed| ==> p.closed[i] < p.closed[j]
    ensures forall i, j :: 0 <= i < j < |p.fetched| ==> p.fetched[i] < p.fetched[j]
  {
    PrefetchCaches(p, cache, end, lookback);
  }

  // Too few trading days: the whole lookback is cached, and fewer than that many of its workdays have rows.
  lemma {:induction false} ShortfallInFull(cache: map<Date, CachedDay>, end: Date, minimum: int, lookback: int,
      open: set<Date>)
    requires FewTradingDays(cache, end, minimum, lookback)
    requires forall d :: d in open <==>
               end - lookback < d <= end && Weekday(d) <= 4 && d in cache && cache[d].rows != []
    ensures |open| < minimum && forall d :: end - lookback < d <= end && Weekday(d) <= 4 ==> d in cache
  {
    assert open == OpenDays(cache, end - lookback, end);
  }

  // ---------- retries ----------

  // A retry begins when the wait after the rate limit is over: what the client asked for, or the interval times two to
  // the number of the attempt, whichever is longer.
  lemma {:induction false} RetriesInFull(reqs: seq<Request>, d: Date, from: nat, interval: real, world: World, k: nat,
      doubled: real)
    requires Sent(reqs, d, from, interval, world) && 0 < k < |reqs|
    requires doubled == interval * Pow2(k - 1)
    ensures reqs[k - 1].reply.RateLimited? && reqs[k].reply == world.reply(d, from + k)
    ensures reqs[k].begin == reqs[k - 1].end +
              (if reqs[k - 1].reply.retryAfter >= doubled then reqs[k - 1].reply.retryAfter else doubled)
  {
    assert FollowsWait(reqs, k, interval);
  }

  lemma {:induction false} Pow2InFull(n: nat)
    ensures Pow2(0) == 1.0 && Pow2(n + 1) == Pow2(n) + Pow2(n)
  {
  }

  // ---------- bars ----------

  // Row k is the first one of the symbol.
  ghost predicate FirstRow(rows: seq<Row>, symbol: string, k: nat) {
    k < |rows| && rows[k].symbol == symbol && forall j :: 0 <= j < k ==> rows[j].symbol != symbol
  }

  lemma {:induction false} FirstRowIs(rows: seq<Row>, symbol: string)
    ensures forall k: nat :: FirstRow(rows, symbol, k) ==> RowOf(rows, symbol) == Some(rows[k])
    ensures RowOf(rows, symbol) == None <==> forall k :: 0 <= k < |rows| ==> rows[k].symbol != symbol
  {
    if rows != [] {
      FirstRowIs(rows[1..], symbol);
      forall k: nat | FirstRow(rows, symbol, k) && k > 0
        ensures FirstRow(rows[1..], symbol, k - 1)
      {
      }
      assert forall k :: 0 < k < |rows| ==> rows[k] == rows[1..][k - 1];
    }
  }

  // A workday of the range whose first row of the symbol does not parse.
  ghost predicate Malformed(cache: map<Date, CachedDay>, symbol: string, start: Date, end: Date, d: Date) {
    start <= d <= end && Weekday(d) <= 4 && d in cache && exists k: nat ::
      FirstRow(cache[d].rows, symbol, k) && cache[d].rows[k].bar.None?
  }

  // Bar i is that of the first row of the symbol on date at[i], the dates ascend, and every workday of the range on
  // which the symbol has a row is among them.
  ghost predicate BarsAt(bars: seq<Bar>, at: seq<Date>, cache: map<Date, CachedDay>, symbol: string, start: Date,
      end: Date) {
    && |at| == |bars| && (forall i, j :: 0 <= i < j < |at| ==> at[i] < at[j])
    && (forall i :: 0 <= i < |at| ==>
          && start <= at[i] <= end && Weekday(at[i]) <= 4 && at[i] in cache
          && BarOn(cache[at[i]].rows, symbol, bars[i]))
    && forall d :: start <= d <= end && Weekday(d) <= 4 && d in cache && d !in at ==> !Listed(cache[d].rows, symbol)
  }

  ghost predicate BarOn(rows: seq<Row>, symbol: string, bar: Bar) {
    exists k: nat :: FirstRow(rows, symbol, k) && rows[k].bar == Some(bar)
  }

  ghost predicate Listed(rows: seq<Row>, symbol: string) {
    exists k :: 0 <= k < |rows| && rows[k].symbol == symbol
  }

  lemma {:induction false} SomeFirstRow(rows: seq<Row>, symbol: string) returns (k: nat)
    requires RowOf(rows, symbol).Some?
    ensures FirstRow(rows, symbol, k)
  {
    if rows[0].symbol == symbol {
      k := 0;
    } else {
      var j := SomeFirstRow(rows[1..], symbol);
      k := j + 1;
      assert forall i :: 0 < i < |rows| ==> rows[i] == rows[1..][i - 1];
    }
  }

  // The bars of a range that is cached: an error exactly when some workday is malformed, and else these bars.
  lemma {:induction false} BarsInFull(cache: map<Date, CachedDay>, symbol: string, start: Date, end: Date)
      returns (at: seq<Date>)
    requires AllCached(cache, start, end)
    ensures BarsIn(cache, symbol, start, end).Err? <==> exists d :: Malformed(cache, symbol, start, end, d)
    ensures BarsIn(cache, symbol, start, end).Err? ==> BarsIn(cache, symbol, start, end) == Err(BadSchema)
    ensures BarsIn(cache, symbol, start, end).Ok? ==>
              BarsAt(BarsIn(cache, symbol, start, end).value, at, cache, symbol, start, end)
    decreases end - start + 1
  {
    at := [];
    if start <= end {
      var prior := end - 1;
      at := BarsInFull(cache, symbol, start, prior);
      OneMoreMalformed(cache, symbol, start, end, prior);
      OneMoreDate(cache, symbol, start, end, prior, at);
      OneMoreError(cache, symbol, start, end);
      if Workday(end) && RowOf(cache[end].rows, symbol).Some? {
        at := at + [end];
      }
      hide BarsIn, BarsAt, Malformed;
    }
  }

  lemma {:induction false} OneMoreError(cache: map<Date, CachedDay>, symbol: string, start: Date, end: Date)
    requires AllCached(cache, start, end) && start <= end
    requires BarsIn(cache, symbol, start, end - 1).Err? ==> BarsIn(cache, symbol, start, end - 1) == Err(BadSchema)
    ensures BarsIn(cache, symbol, start, end).Err? ==> BarsIn(cache, symbol, start, end) == Err(BadSchema)
  {
    hide RowOf;
  }

  lemma {:induction false} RowOn(rows: seq<Row>, symbol: string)
    ensures RowOf(rows, symbol).Some? <==> Listed(rows, symbol)
    ensures RowOf(rows, symbol).Some? && RowOf(rows, symbol).value.bar.Some? ==>
              BarOn(rows, symbol, RowOf(rows, symbol).value.bar.value)
    ensures RowOf(rows, symbol).Some? && RowOf(rows, symbol).value.bar.None? <==>
              exists k: nat :: FirstRow(rows, symbol, k) && rows[k].bar.None?
  {
    FirstRowIs(rows, symbol);
    if RowOf(rows, symbol).Some? {
      var k := SomeFirstRow(rows, symbol);
      assert RowOf(rows, symbol) == Some(rows[k]);
    }
  }

  lemma {:induction false} OneMoreBar(bars: seq<Bar>, at: seq<Date>, bar: Bar, cache: map<Date, CachedDay>,
      symbol: string, start: Date, end: Date, prior: Date)
    requires BarsAt(bars, at, cache, symbol, start, prior) && prior == end - 1 && start <= end
    requires Weekday(end) <= 4 && end in cache && BarOn(cache[end].rows, symbol, bar)
    ensures BarsAt(bars + [bar], at + [end], cache, symbol, start, end)
  {
    hide BarOn, Listed, Weekday;
    assert forall d :: d in at + [end] <==> d in at || d == end;
  }

  lemma {:induction false} NoMoreBar(bars: seq<Bar>, at: seq<Date>, cache: map<Date, CachedDay>, symbol: string,
      start: Date, end: Date, prior: Date)
    requires BarsAt(bars, at, cache, symbol, start, prior) && prior == end - 1 && start <= end
    requires Weekday(end) <= 4 && end in cache ==> !Listed(cache[end].rows, symbol)
    ensures BarsAt(bars, at, cache, symbol, start, end)
  {
    hide BarOn, Listed, Weekday;
  }

  lemma {:induction false} OneMoreDate(cache: map<Date, CachedDay>, symbol: string, start: Date, end: Date, prior: Date,
      at: seq<Date>)
    requires AllCached(cache, start, end) && start <= end && prior == end - 1
    requires BarsIn(cache, symbol, start, prior).Ok? ==>
               BarsAt(BarsIn(cache, symbol, start, prior).value, at, cache, symbol, start, prior)
    ensures BarsIn(cache, symbol, start, end).Ok? ==>
              BarsAt(BarsIn(cache, symbol, start, end).value,
                if Workday(end) && RowOf(cache[end].rows, symbol).Some? then at + [end]
                    else at, cache, symbol, start, end)
  {
    hide BarsAt, RowOf, BarOn, Listed;
    if BarsIn(cache, symbol, start, end).Ok? {
      var bars := BarsIn(cache, symbol, start, prior).value;
      if Workday(end) {
        RowOn(cache[end].rows, symbol);
      }
      if Workday(end) && RowOf(cache[end].rows, symbol).Some? {
        OneMoreBar(bars, at, RowOf(cache[end].rows, symbol).value.bar.value, cache, symbol, start, end, prior);
      } else {
        NoMoreBar(bars, at, cache, symbol, start, end, prior);
      }
    }
  }

  lemma {:induction false} OneMoreMalformed(cache: map<Date, CachedDay>, symbol: string, start: Date, end: Date,
      prior: Date)
    requires AllCached(cache, start, end) && start <= end && prior == end - 1
    requires BarsIn(cache, symbol, start, prior).Err? <==> exists d :: Malformed(cache, symbol, start, prior, d)
    ensures BarsIn(cache, symbol, start, end).Err? <==> exists d :: Malformed(cache, symbol, start, end, d)
  {
    if Workday(end) {
      RowOn(cache[end].rows, symbol);
      assert Malformed(cache, symbol, start, end, end) <==>
          RowOf(cache[end].rows, symbol).Some? && RowOf(cache[end].rows, symbol).value.bar.None?;
    }
    forall d | d != end
      ensures Malformed(cache, symbol, start, end, d) <==> Malformed(cache, symbol, start, prior, d)
    {
    }
    hide Malformed, RowOf;
    if d :| Malformed(cache, symbol, start, prior, d) {
      EarlierMalformed(cache, symbol, start, prior, d);
    }
  }

  lemma {:induction false} EarlierMalformed(cache: map<Date, CachedDay>, symbol: string, start: Date, end: Date,
      d: Date)
    requires Malformed(cache, symbol, start, end, d)
    ensures d <= end
  {
  }

  // ---------- coverage ----------

  // The missing dates are the expected ones that no bar is dated, in order, and the rest are covered.
  lemma {:induction false} MissingInFull(expected: seq<Date>, bars: seq<Bar>) returns (at: seq<nat>)
    ensures var missing := Without(expected, BarDates(bars));
            && |at| == |missing| && (forall i, j :: 0 <= i < j < |at| ==> at[i] < at[j])
            && (forall i :: 0 <= i < |at| ==> at[i] < |expected| && missing[i] == expected[at[i]])
            && forall k: nat :: k < |expected| ==>
                 (k in at <==> forall j :: 0 <= j < |bars| ==> bars[j].date != expected[k])
  {
    at := [];
    if expected != [] {
      var n := |expected| - 1;
      at := MissingInFull(expected[..n], bars);
      assert expected[n] in BarDates(bars) <==> exists j :: 0 <= j < |bars| && bars[j].date == expected[n] by {
        if expected[n] in BarDates(bars) {
          var b :| b in bars && b.date == expected[n];
        }
        if j :| 0 <= j < |bars| && bars[j].date == expected[n] {
          assert bars[j] in bars;
        }
      }
      if expected[n] !in BarDates(bars) {
        assert forall k :: k in at + [n] <==> k in at || k == n;
        at := at + [n];
      }
    }
  }

  // A target goes through exactly when its bars were found, and every prefetched trading date, of which there must be
  // at least the minimum, is the date of one of them.
  lemma {:induction false} CoveredInFull(cache: map<Date, CachedDay>, symbols: map<string, string>, p: Prefetch,
      target: string, end: Date, lookback: int, minimum: int)
    requires Classified(p, cache, end, lookback)
    ensures Covered(cache, symbols, p, target, minimum) <==>
              && target in symbols
              && BarsFor(cache, symbols[target], p).Ok? && |p.trading| >= minimum
              && forall k :: 0 <= k < |p.trading| ==>
                   exists j :: 0 <= j < |BarsFor(cache, symbols[target], p).value|
                     && BarsFor(cache, symbols[target], p).value[j].date == p.trading[k]
  {
    if target in symbols && BarsFor(cache, symbols[target], p).Ok? {
      var bars := BarsFor(cache, symbols[target], p).value;
      var at := MissingInFull(p.trading, bars);
      hide BarsFor, Classified, Without;
      NothingMissing(p.trading, bars, at);
    }
  }

  lemma {:induction false} NothingMissing(expected: seq<Date>, bars: seq<Bar>, at: seq<nat>)
    requires |at| == |Without(expected, BarDates(bars))|
    requires forall i :: 0 <= i < |at| ==> at[i] < |expected|
    requires forall k: nat :: k < |expected| ==>
        (k in at <==> forall j :: 0 <= j < |bars| ==> bars[j].date != expected[k])
    ensures Without(expected, BarDates(bars)) == [] <==>
              forall k :: 0 <= k < |expected| ==> exists j :: 0 <= j < |bars| && bars[j].date == expected[k]
  {
    if at != [] {
      assert at[0] in at;
    }
  }

  // What a backfill returns: of every target its coverage, in the order of the targets, with nothing missing; or some
  // target has none.
  lemma {:induction false} VerdictInFull(cache: map<Date, CachedDay>, symbols: map<string, string>, p: Prefetch,
      targets: seq<string>, minimum: int, r: Result<seq<Coverage>, Error>)
    requires Verdict(cache, symbols, p, targets, minimum, r)
    ensures r.Ok? <==> forall i :: 0 <= i < |targets| ==> Covered(cache, symbols, p, targets[i], minimum)
    ensures r.Ok? ==>
              && |r.value| == |targets|
              && forall i :: 0 <= i < |targets| ==> r.value[i] == Coverage(|p.trading|, |p.trading|, [])
  {
    if r.Ok? {
      forall i | 0 <= i < |targets|
        ensures Covered(cache, symbols, p, targets[i], minimum)
        ensures r.value[i] == Coverage(|p.trading|, |p.trading|, [])
      {
        assert CoveredAs(cache, symbols, p, targets[i], minimum, r.value[i]);
      }
    } else {
      var t :| t in targets && !Covered(cache, symbols, p, t, minimum);
      var i :| 0 <= i < |targets| && targets[i] == t;
    }
  }

  // ---------- arguments and replies ----------

  // The faults of a request for bars, in the order they are looked for; a range spans at most 366 days.
  lemma {:induction false} ArgumentsInFull(daily: bool, raw: bool, known: bool, start: Date, end: Date)
    ensures var e := ArgumentError(daily, raw, known, start, end);
            && (e == Some(BadPeriod) <==> !daily)
            && (e == Some(BadAdjustment) <==> daily && !raw)
            && (e == Some(UnknownInstrument) <==> daily && raw && !known)
            && (e == Some(RangeReversed) <==> daily && raw && known && start > end)
            && (e == Some(RangeTooLong) <==> daily && raw && known && end >= start + 367)
            && (e == None <==> daily && raw && known && start <= end <= start + 366)
  {
  }

  // A fetched day has the rows of the last reply, which the observer did not refuse, and the observer's receipt time or
  // else the reading of the clock.
  lemma {:induction false} KeptInFull(provider: KrxProvider, d: Date, day: CachedDay, n: nat)
    requires provider.KeptFrom(d, day, n)
    ensures n < provider.requests && provider.world.reply(d, n) == Records(day.rows)
    ensures var clock := provider.world.clock(n + 1);
            match provider.world.observe(d, day.rows, clock)
            case Canonical(at) => day.receivedAt == at
            case Refused => false
            case _ => day.receivedAt == clock
  {
  }
}

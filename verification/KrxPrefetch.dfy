/**
  The KRX daily provider: a cache of one response per date behind a paced, retrying client; a backwards
  prefetch that finds the latest trading days; bars read from the cache; and the coverage check over the
  calendar the prefetch implies. A date is its proleptic Gregorian ordinal.
 */
module KrxPrefetch {
  import opened Numbers
  import opened Wrappers
  import opened StableSort

  type Date = int

  datatype Bar = Bar(date: Date, values: seq<real>)

  // A row whose fields do not parse has no bar.
  datatype Row = Row(symbol: string, bar: Option<Bar>)

  datatype CachedDay = CachedDay(rows: seq<Row>, receivedAt: int)

  datatype Reply = Records(rows: seq<Row>) | RateLimited(retryAfter: real) | Failed

  datatype Observed = Kept | Canonical(receivedAt: int) | Refused

  datatype Error =
    | BadArgument | BadPeriod | BadAdjustment | UnknownInstrument | RangeReversed | RangeTooLong
    | RateLimitExhausted | ProviderFailure | ObserverRefused | BadSchema | TooFewTradingDays
    | CoverageShort

  // One request as the outside world saw it: for a date, from its start to its reply.
  datatype Request = Request(date: Date, begin: real, end: real, reply: Reply)
  {
    // A failure other than the rate limit is no answer: the program does not note its time.
    predicate Answered() { !reply.Failed? }
  }

  datatype Prefetch = Prefetch(trading: seq<Date>, closed: seq<Date>, fetched: seq<Date>)

  const MAX_RANGE_DAYS := 366

  // Monday is 0, as in Python's date.weekday for an ordinal.
  function Weekday(d: Date): int {
    (d + 6) % 7
  }

  predicate Workday(d: Date) {
    Weekday(d) < 5
  }

  function Pow2(n: nat): real {
    if n == 0 then 1.0 else 2.0 * Pow2(n - 1)
  }

  // How long the client waits after rate limit number `attempt`.
  function Wait(retryAfter: real, interval: real, attempt: nat): real {
    Max(retryAfter, interval * Pow2(attempt))
  }

  lemma {:induction false} Pow2AtLeastOne(n: nat)
    ensures Pow2(n) >= 1.0
  {
    if n > 0 {
      Pow2AtLeastOne(n - 1);
    }
  }

  lemma {:induction false} WaitIsLong(interval: real, attempt: nat, doubled: real)
    requires interval >= 0.0 && doubled == interval * Pow2(attempt)
    ensures doubled >= interval
  {
    Pow2AtLeastOne(attempt);
    assert interval * (Pow2(attempt) - 1.0) >= 0.0;
  }

  lemma {:induction false} WaitCoversInterval(retryAfter: real, interval: real, attempt: nat)
    requires interval >= 0.0
    ensures Wait(retryAfter, interval, attempt) >= interval
  {
    WaitIsLong(interval, attempt, interval * Pow2(attempt));
  }

  // When a request may start: not before now, nor before the interval after the last answered one.
  function Slot(last: Option<real>, now: real, interval: real): real {
    if last.Some? then Max(now, last.value + interval) else now
  }

  // What lies outside: the client's replies, how long they take, and the raw-record observer.
  datatype World = World(reply: (Date, nat) -> Reply, latency: nat -> real, clock: nat -> int,
      observe: (Date, seq<Row>, int) -> Observed)

  class KrxProvider {
    const symbols: map<string, string>
    const interval: real
    const maxRetries: nat
    const world: World
    var cache: map<Date, CachedDay>
    var lastRequestAt: Option<real>
    var now: real
    var requests: nat
    ghost var log: seq<Request>

    // The log is paced, and the time of its latest answer is noted.
    ghost predicate Valid()
      reads `log, `now, `requests, `lastRequestAt
    {
      && interval >= 0.0 && |log| == requests && Paced(log, interval) && lastRequestAt == LastAnswered(log)
      && (log != [] ==> log[|log| - 1].end <= now)
    }

    // The next request undercuts the interval exactly when the latest one failed in another way and the caller is back
    // before the interval has passed.
    lemma {:induction false} UndercutIff()
      requires Valid() && log != [] && interval > 0.0
      ensures var latest := log[|log| - 1];
              Slot(lastRequestAt, now, interval) < latest.end + interval
              <==> latest.reply.Failed? && now < latest.end + interval
    {
    }

    constructor (symbols: map<string, string>, interval: real, maxRetries: nat, world: World)
      requires interval >= 0.0
      ensures Valid() && cache == map[] && requests == 0 && log == [] && lastRequestAt == None && now == 0.0
      ensures this.symbols == symbols && this.interval == interval && this.maxRetries == maxRetries
          && this.world == world
    {
      this.symbols, this.interval, this.maxRetries, this.world := symbols, interval, maxRetries, world;
      cache, lastRequestAt, now, requests := map[], None, 0.0, 0;
      log := [];
    }

    method WaitForRequestSlot()
      requires Valid()
      modifies `now
      ensures Valid() && now == Slot(lastRequestAt, old(now), interval)
    {
      if lastRequestAt.Some? {
        var remaining := interval - (now - lastRequestAt.value);
        if remaining > 0.0 {
          now := now + remaining;
        }
      }
    }

    // One call of the client. A failure other than the rate limit leaves `lastRequestAt` where it was.
    method Ask(d: Date) returns (reply: Reply)
      requires Valid() && (lastRequestAt.Some? ==> now >= lastRequestAt.value + interval)
      modifies `now, `requests, `lastRequestAt, `log
      ensures Valid() && reply == world.reply(d, old(requests))
      ensures requests == old(requests) + 1 && now == old(now) + Max(world.latency(old(requests)), 0.0)
      ensures log == old(log) + [Request(d, old(now), now, reply)]
      ensures lastRequestAt == if reply.Failed? then old(lastRequestAt) else Some(now)
    {
      reply := world.reply(d, requests);
      var end := now + Max(world.latency(requests), 0.0);
      ghost var request := Request(d, now, end, reply);
      PacedMore(log, interval, request);
      if !reply.Failed? {
        lastRequestAt := Some(end);
      }
      log := log + [request];
      now, requests := end, requests + 1;
    }

    // The rows of the n-th reply, with the receipt time of the observer if it gave one, else of the local clock.
    ghost predicate KeptFrom(d: Date, day: CachedDay, n: nat)
      reads `requests
    {
      var receivedAt := world.clock(n + 1);
      var observed := world.observe(d, day.rows, receivedAt);
      && n < requests && world.reply(d, n) == Records(day.rows) && !observed.Refused?
      && day.receivedAt == if observed.Canonical? then observed.receivedAt else receivedAt
    }

    // One paced request.
    method PacedAsk(d: Date) returns (reply: Reply, ghost request: Request)
      requires Valid()
      modifies `now, `requests, `lastRequestAt, `log
      ensures Valid() && reply == world.reply(d, old(requests)) && requests == old(requests) + 1
      ensures log == old(log) + [request] && request == Request(d, request.begin, now, reply)
      ensures request.begin == Slot(old(lastRequestAt), old(now), interval)
      ensures now == request.begin + Max(world.latency(old(requests)), 0.0)
      ensures lastRequestAt == if reply.Failed? then old(lastRequestAt) else Some(now)
    {
      WaitForRequestSlot();
      ghost var begin := now;
      reply := Ask(d);
      request := Request(d, begin, now, reply);
    }

    // The wait after a rate limit: what the client asks for, but at least the interval, doubled with every attempt.
    method BackOff(retryAfter: real, attempt: nat)
      requires Valid()
      modifies `now
      ensures Valid() && now == old(now) + Wait(retryAfter, interval, attempt)
    {
      WaitIsLong(interval, attempt, interval * Pow2(attempt));
      now := now + Wait(retryAfter, interval, attempt);
    }

    // The receipt time is the observer's if it gives one.
    method Observe(d: Date, rows: seq<Row>) returns (r: Result<CachedDay, Error>)
      requires requests > 0 && world.reply(d, requests - 1) == Records(rows)
      ensures r.Ok? ==> r.value.rows == rows && KeptFrom(d, r.value, requests - 1)
      ensures r.Err? ==> r.error == ObserverRefused
    {
      var receivedAt := world.clock(requests);
      var observed := world.observe(d, rows, receivedAt);
      if observed.Refused? {
        return Err(ObserverRefused);
      }
      var day := CachedDay(rows, if observed.Canonical? then observed.receivedAt else receivedAt);
      r := Ok(day);
    }

    // The retry loop: `asked` lists its requests, all for this date, the first one in its slot.
    method FetchDay(d: Date) returns (r: Result<CachedDay, Error>, ghost asked: seq<Request>)
      requires Valid()
      modifies `now, `requests, `lastRequestAt, `log
      ensures Valid() && log == old(log) + asked && requests == old(requests) + |asked|
      ensures 1 <= |asked| <= maxRetries + 1 && asked[0].begin == Slot(old(lastRequestAt), old(now), interval)
      ensures Sent(asked, d, old(requests), interval, world)
      ensures asked[0].reply.Failed? ==> r == Err(ProviderFailure) && |asked| == 1 && now == asked[0].end
      ensures asked[0].reply.Failed? ==> lastRequestAt == old(lastRequestAt)
      ensures asked[0].reply.Failed? ==> asked[0].end == asked[0].begin + Max(world.latency(old(requests)), 0.0)
      ensures r.Ok? ==> OneDay(d, asked, maxRetries) && KeptFrom(d, r.value, requests - 1)
      ensures r.Err? ==> r.error in {RateLimitExhausted, ProviderFailure, ObserverRefused}
    {
      hide Valid, Pow2, Sent, KeptFrom, Wait, Retried, OneDay, Limited;
      NothingSent(d, requests, interval, world);
      asked := [];
      ghost var begin, first := Slot(lastRequestAt, now, interval), world.reply(d, requests);
      NothingRetried(d, begin, first);
      var attempt := 0;
      while attempt <= maxRetries
        invariant 0 <= attempt <= maxRetries && Valid() && requests == old(requests) + attempt
        invariant log == old(log) + asked && |asked| == attempt && Retried(d, asked, begin, first)
        invariant attempt == 0 ==> now == old(now) && lastRequestAt == old(lastRequestAt)
        invariant Sent(asked, d, old(requests), interval, world)
        invariant attempt > 0 ==>
                    && asked[attempt - 1].reply.RateLimited? && lastRequestAt == Some(asked[attempt - 1].end)
                    && now == asked[attempt - 1].end + Wait(asked[attempt - 1].reply.retryAfter, interval, attempt - 1)
        decreases maxRetries - attempt
      {
        var reply;
        ghost var request;
        reply, request := PacedAsk(d);
        OneMoreRequest(d, asked, request, begin, first);
        if attempt > 0 {
          WaitCoversInterval(asked[attempt - 1].reply.retryAfter, interval, attempt - 1);
        }
        OneMoreSent(asked, d, old(requests), interval, world, request);
        asked := asked + [request];
        if reply.Failed? {
          return Err(ProviderFailure), asked;
        }
        if reply.Records? {
          r := Observe(d, reply.rows);
          return;
        }
        if attempt >= maxRetries {
          return Err(RateLimitExhausted), asked;
        }
        BackOff(reply.retryAfter, attempt);
        attempt := attempt + 1;
      }
      assert false;
    }

    // A cached date costs no request; otherwise at most one more than the allowed retries. Success adds exactly this
    // date to the cache, with rows the client really sent; any error leaves the cache as it was.
    method GetDailyRecords(d: Date) returns (r: Result<CachedDay, Error>, ghost asked: seq<Request>)
      requires Valid()
      modifies `cache, `now, `requests, `lastRequestAt, `log
      ensures Valid() && log == old(log) + asked && requests == old(requests) + |asked| && |asked| <= maxRetries + 1
      ensures d in old(cache) ==> r == Ok(old(cache)[d]) && cache == old(cache) && asked == []
      ensures d !in old(cache) ==>
                && asked != [] && asked[0].begin == Slot(old(lastRequestAt), old(now), interval)
                && asked[0].reply == world.reply(d, old(requests))
      ensures d !in old(cache) && asked[0].reply.Failed? ==>
                && r == Err(ProviderFailure) && |asked| == 1 && now == asked[0].end
                && lastRequestAt == old(lastRequestAt)
      ensures r.Ok? ==> d in cache && cache == old(cache)[d := r.value]
      ensures r.Ok? && d !in old(cache) ==> OneDay(d, asked, maxRetries) && KeptFrom(d, r.value, requests - 1)
      ensures Sent(asked, d, old(requests), interval, world)
      ensures r.Err? ==> cache == old(cache) && r.error in {RateLimitExhausted, ProviderFailure, ObserverRefused}
    {
      asked := [];
      if d in cache {
        assert cache == cache[d := cache[d]] && log + [] == log;
        return Ok(cache[d]), asked;
      }
      r, asked := FetchDay(d);
      if r.Ok? {
        cache := cache[d := r.value];
      }
    }

    // One workday of the walk: its records are fetched or found cached, and it is a trading day or a closed one.
    method ClassifyDay(trading0: seq<Date>, closed0: seq<Date>, fetched0: seq<Date>, ghost uncached0: seq<Date>,
        ghost asked: seq<Request>, ghost before: map<Date, CachedDay>, current: Date, end: Date)
      returns (failed: Option<Error>, trading: seq<Date>, closed: seq<Date>, fetched: seq<Date>,
        ghost uncached: seq<Date>, ghost more: seq<Request>)
      requires Valid() && current <= end && Workday(current)
      requires Walked(trading0, closed0, fetched0, uncached0, asked, before, cache, current, end, maxRetries)
      modifies `cache, `now, `requests, `lastRequestAt, `log
      ensures Valid() && log == old(log) + more
      ensures failed.Some? ==> cache == old(cache) && failed.value != TooFewTradingDays && failed.value != BadArgument
      ensures failed.None? ==>
                && Walked(trading, closed, fetched, uncached, asked + more, before, cache, current - 1, end, maxRetries)
                && (trading == trading0 || trading == trading0 + [current])
    {
      trading, closed, fetched, uncached := trading0, closed0, fetched0, uncached0;
      var got;
      got, more := GetDailyRecords(current);
      if got.Err? {
        failed := Some(got.error);
        return;
      }
      WalkStep(trading, closed, fetched, uncached, asked, before, old(cache), cache, current, end, maxRetries, more);
      uncached := if current in before then uncached else uncached + [current];
      fetched := fetched + [current];
      if got.value.rows != [] {
        trading := trading + [current];
      } else {
        closed := closed + [current];
      }
      failed := None;
    }

    // The walk itself, from `end` back to the date the last trading day asked for was found, or to the lookback's
    // start.
    method WalkBack(end: Date, minimum: int, lookback: int)
      returns (failed: Option<Error>, trading: seq<Date>, closed: seq<Date>, fetched: seq<Date>, current: Date,
        ghost uncached: seq<Date>, ghost asked: seq<Request>)
      requires Valid() && minimum > 0 && lookback >= 1
      modifies `cache, `now, `requests, `lastRequestAt, `log
      ensures Valid() && log == old(log) + asked
      ensures Extends(old(cache), cache)
      ensures failed.None? ==>
                Walked(trading, closed, fetched, uncached, asked, old(cache), cache, current, end, maxRetries)
      ensures failed.Some? ==> failed.value != TooFewTradingDays && failed.value != BadArgument
      ensures failed.None? ==> end - lookback <= current && |trading| <= minimum
      ensures failed.None? && |trading| == minimum ==> trading[minimum - 1] == current + 1
      ensures failed.None? && |trading| < minimum ==> current == end - lookback
    {
      hide Valid, Walked;
      trading, closed, fetched, uncached, asked := [], [], [], [], [];
      current := end;
      WalkStarts(cache, end, maxRetries);
      WalkExtends(trading, closed, fetched, uncached, asked, old(cache), cache, current, end, maxRetries);
      while current > end - lookback && |trading| < minimum
        invariant Valid() && end - lookback <= current <= end && log == old(log) + asked
        invariant Walked(trading, closed, fetched, uncached, asked, old(cache), cache, current, end, maxRetries)
        invariant Extends(old(cache), cache)
        invariant |trading| <= minimum && (|trading| == minimum ==> trading[minimum - 1] == current + 1)
        decreases current - (end - lookback)
      {
        if Workday(current) {
          ghost var more;
          ghost var sofar := asked;
          failed, trading, closed, fetched, uncached, more :=
            ClassifyDay(trading, closed, fetched, uncached, asked, old(cache), current, end);
          asked := sofar + more;
          assert (old(log) + sofar) + more == old(log) + asked;
          if failed.Some? {
            return;
          }
        } else {
          WalkRest(trading, closed, fetched, uncached, asked, old(cache), cache, current, end, maxRetries);
        }
        WalkExtends(trading, closed, fetched, uncached, asked, old(cache), cache, current - 1, end, maxRetries);
        current := current - 1;
      }
      failed := None;
    }

    // Every workday from the earliest trading day found up to `end` is classified once, and cached.
    method PrefetchLatest(end: Date, minimum: int, lookback: int)
      returns (r: Result<Prefetch, Error>, ghost asked: seq<Request>)
      requires Valid()
      modifies `cache, `now, `requests, `lastRequestAt, `log
      ensures Valid() && Extends(old(cache), cache) && log == old(log) + asked
      ensures minimum <= 0 || lookback < 1 || lookback > 366 <==> r == Err(BadArgument)
      ensures r.Ok? ==>
                && |r.value.trading| == minimum && Classified(r.value, cache, end, lookback)
                && AskedFor(asked, r.value.fetched, old(cache), maxRetries)
      ensures r == Err(TooFewTradingDays) ==> FewTradingDays(cache, end, minimum, lookback)
    {
      asked := [];
      if minimum <= 0 || lookback < 1 || lookback > MAX_RANGE_DAYS {
        return Err(BadArgument), asked;
      }
      var failed, trading, closed, fetched, current;
      ghost var uncached;
      failed, trading, closed, fetched, current, uncached, asked := WalkBack(end, minimum, lookback);
      if failed.Some? {
        return Err(failed.value), asked;
      }
      if |trading| < minimum {
        ScannedCounts(trading, closed, fetched, cache, end, lookback, minimum);
        return Err(TooFewTradingDays), asked;
      }
      WalkFinishes(trading, closed, fetched, uncached, asked, old(cache), cache, current, end, maxRetries, lookback);
      return Ok(Prefetch(Ordered(trading), Ordered(closed), Ordered(fetched))), asked;
    }

    // One workday's contribution to the bars.
    method AddBar(symbol: string, start: Date, current: Date, bars: seq<Bar>) returns (r: Result<seq<Bar>, Error>)
      requires Valid() && start <= current && Workday(current)
      requires AllCached(cache, start, current - 1) && BarsIn(cache, symbol, start, current - 1) == Ok(bars)
      modifies `cache, `now, `requests, `lastRequestAt, `log
      ensures Valid() && Extends(old(cache), cache)
      ensures current in old(cache) ==> requests == old(requests) && cache == old(cache) && log == old(log)
      ensures r.Ok? || r == Err(BadSchema) ==>
                AllCached(cache, start, current) && r == BarsIn(cache, symbol, start, current)
      ensures r.Err? && r != Err(BadSchema) ==> current !in old(cache)
    {
      ghost var before := cache;
      ghost var asked;
      var got;
      got, asked := GetDailyRecords(current);
      if got.Err? {
        return Err(got.error);
      }
      BarsInExtends(before, cache, symbol, start, current - 1);
      var row := RowOf(got.value.rows, symbol);
      if row.None? {
        r := Ok(bars);
      } else if row.value.bar.None? {
        r := Err(BadSchema);
      } else {
        r := Ok(bars + [row.value.bar.value]);
      }
    }

    method CollectBars(symbol: string, start: Date, end: Date) returns (r: Result<seq<Bar>, Error>)
      requires Valid() && start <= end
      modifies `cache, `now, `requests, `lastRequestAt, `log
      ensures Valid() && Extends(old(cache), cache)
      ensures AllCached(old(cache), start, end) ==>
                && requests == old(requests) && cache == old(cache) && log == old(log)
                && r == BarsIn(cache, symbol, start, end)
      ensures r.Ok? ==> AllCached(cache, start, end) && r == BarsIn(cache, symbol, start, end)
    {
      var bars: seq<Bar> := [];
      var current := start;
      while current <= end
        invariant Valid() && Extends(old(cache), cache) && start <= current <= end + 1
        invariant AllCached(cache, start, current - 1) && BarsIn(cache, symbol, start, current - 1) == Ok(bars)
        invariant AllCached(old(cache), start, end) ==>
                    requests == old(requests) && cache == old(cache) && log == old(log)
        decreases end - current
      {
        if Workday(current) {
          var got := AddBar(symbol, start, current, bars);
          if got.Err? {
            if got == Err(BadSchema) {
              BadSchemaStays(cache, symbol, start, current, end);
            }
            return got;
          }
          bars := got.value;
        }
        current := current + 1;
      }
      r := Ok(bars);
    }

    // The bars of one symbol, a day at a time. Where every workday of the range is cached no request is made.
    method GetBars(instrument: string, daily: bool, raw: bool, start: Date, end: Date)
        returns (r: Result<seq<Bar>, Error>)
      requires Valid()
      modifies `cache, `now, `requests, `lastRequestAt, `log
      ensures Valid() && Extends(old(cache), cache)
      ensures ArgumentError(daily, raw, instrument in symbols, start, end).Some? ==>
                r == Err(ArgumentError(daily, raw, instrument in symbols, start, end).value) && cache == old(cache)
                    && requests == old(requests) && log == old(log)
      ensures ArgumentError(daily, raw, instrument in symbols, start, end).None? && AllCached(old(cache), start, end)
              ==>
                && requests == old(requests) && cache == old(cache) && log == old(log)
                && r == BarsIn(cache, symbols[instrument], start, end)
      ensures r.Ok? ==>
                && instrument in symbols && AllCached(cache, start, end)
                && r == BarsIn(cache, symbols[instrument], start, end)
    {
      var wrong := ArgumentError(daily, raw, instrument in symbols, start, end);
      if wrong.Some? {
        return Err(wrong.value);
      }
      r := CollectBars(symbols[instrument], start, end);
    }
  }

  // ---------- pacing ----------

  // When the latest answered request ended.
  function LastAnswered(log: seq<Request>): Option<real> {
    if log == [] then None
    else if log[|log| - 1].Answered() then Some(log[|log| - 1].end)
    else LastAnswered(log[..|log| - 1])
  }

  // Requests follow each other in time, and each starts no less than the interval after the latest answer before it.
  ghost predicate Paced(log: seq<Request>, interval: real) {
    log == [] ||
    var before, last := log[..|log| - 1], log[|log| - 1];
    && Paced(before, interval) && last.begin <= last.end && (before != [] ==> before[|before| - 1].end <= last.begin)
    && (LastAnswered(before).Some? ==> LastAnswered(before).value + interval <= last.begin)
  }

  lemma {:induction false} PacedMore(log: seq<Request>, interval: real, next: Request)
    requires Paced(log, interval) && next.begin <= next.end && (log != [] ==> log[|log| - 1].end <= next.begin)
    requires LastAnswered(log).Some? ==> LastAnswered(log).value + interval <= next.begin
    ensures Paced(log + [next], interval)
    ensures LastAnswered(log + [next]) == if next.Answered() then Some(next.end) else LastAnswered(log)
  {
    assert (log + [next])[..|log|] == log;
  }

  lemma {:induction false} AnswersAscend(log: seq<Request>, interval: real, i: nat)
    requires Paced(log, interval) && i < |log| && log[i].Answered()
    ensures LastAnswered(log).Some? && log[i].end <= LastAnswered(log).value <= log[|log| - 1].end
  {
    var n := |log| - 1;
    if i < n {
      AnswersAscend(log[..n], interval, i);
    }
  }

  // No request starts less than the interval after an answered one, however long before.
  lemma {:induction false} PacedAfterAnswers(log: seq<Request>, interval: real, i: nat, j: nat)
    requires Paced(log, interval) && i < j < |log| && log[i].Answered()
    ensures log[i].end + interval <= log[j].begin
  {
    var n := |log| - 1;
    if j < n {
      PacedAfterAnswers(log[..n], interval, i, j);
    } else {
      AnswersAscend(log[..n], interval, i);
    }
  }

  // ---------- what has been asked ----------

  predicate Limited(d: Date, reqs: seq<Request>) {
    forall i :: 0 <= i < |reqs| ==> reqs[i].date == d && reqs[i].reply.RateLimited?
  }

  // The requests of one date: some cut off by the rate limit, at most as many as there are retries, then one answered
  // with records.
  predicate OneDay(d: Date, reqs: seq<Request>, retries: nat) {
    && 1 <= |reqs| <= retries + 1 && Limited(d, reqs[..|reqs| - 1])
    && reqs[|reqs| - 1].date == d && reqs[|reqs| - 1].reply.Records?
  }

  // The requests of one date, the first of them number `from`: the client's replies in turn, and each after the first
  // begins exactly that wait after the end of the one before.
  ghost predicate Sent(reqs: seq<Request>, d: Date, from: nat, interval: real, world: World) {
    && (forall k :: 0 <= k < |reqs| ==> reqs[k].reply == world.reply(d, from + k))
    && forall k :: 0 < k < |reqs| ==> FollowsWait(reqs, k, interval)
  }

  predicate FollowsWait(reqs: seq<Request>, k: int, interval: real)
    requires 0 < k < |reqs|
  {
    && reqs[k - 1].reply.RateLimited?
    && reqs[k].begin == reqs[k - 1].end + Wait(reqs[k - 1].reply.retryAfter, interval, k - 1)
  }

  lemma {:induction false} NothingSent(d: Date, from: nat, interval: real, world: World)
    ensures Sent([], d, from, interval, world)
  {
  }

  lemma {:induction false} NothingRetried(d: Date, begin: real, first: Reply)
    ensures Retried(d, [], begin, first)
  {
  }

  lemma {:induction false} OneMoreSent(reqs: seq<Request>, d: Date, from: nat, interval: real, world: World,
      next: Request)
    requires Sent(reqs, d, from, interval, world) && next.reply == world.reply(d, from + |reqs|)
    requires reqs != [] ==>
               var n := |reqs| - 1;
               reqs[n].reply.RateLimited? && next.begin == reqs[n].end + Wait(reqs[n].reply.retryAfter, interval, n)
    ensures Sent(reqs + [next], d, from, interval, world)
  {
    var all := reqs + [next];
    forall k | 0 < k < |all|
      ensures FollowsWait(all, k, interval)
    {
      assert k < |reqs| ==> FollowsWait(reqs, k, interval);
    }
  }

  // All cut off so far; the first one began then and got this reply.
  predicate Retried(d: Date, reqs: seq<Request>, begin: real, first: Reply) {
    Limited(d, reqs) && (reqs != [] ==> reqs[0].begin == begin && reqs[0].reply == first)
  }

  lemma {:induction false} OneMoreRequest(d: Date, reqs: seq<Request>, last: Request, begin: real, first: Reply)
    requires Retried(d, reqs, begin, first) && last.date == d
    requires reqs == [] ==> last.begin == begin && last.reply == first
    ensures last.reply.RateLimited? ==> Retried(d, reqs + [last], begin, first)
    ensures (reqs + [last])[0].begin == begin && (reqs + [last])[0].reply == first
    ensures reqs != [] ==> first.RateLimited? && reqs[|reqs| - 1].reply.RateLimited?
    ensures forall retries: nat :: last.reply.Records? && |reqs| <= retries ==> OneDay(d, reqs + [last], retries)
  {
    assert (reqs + [last])[..|reqs|] == reqs;
  }

  // The dates were asked for one after the other, each in that way, and nothing else was.
  ghost predicate AskedInTurn(reqs: seq<Request>, dates: seq<Date>, retries: nat)
    decreases |dates|
  {
    if dates == [] then reqs == []
    else
      var n := |dates| - 1;
      exists cut: nat :: cut <= |reqs| && AskedInTurn(reqs[..cut], dates[..n], retries)
          && OneDay(dates[n], reqs[cut..], retries)
  }

  // Exactly the dates that were not cached before.
  ghost predicate AskedFor(reqs: seq<Request>, fetched: seq<Date>, before: map<Date, CachedDay>, retries: nat) {
    exists uncached :: Asking(reqs, uncached, fetched, before, retries)
  }

  // The dates fetched so far, walking backwards, and among them those that were not cached before.
  ghost predicate Asking(reqs: seq<Request>, uncached: seq<Date>, fetched: seq<Date>, before: map<Date, CachedDay>,
      retries: nat) {
    && Descending(uncached) && (forall d :: d in uncached <==> d in fetched && d !in before)
    && AskedInTurn(reqs, uncached, retries)
  }

  lemma {:induction false} AskingStep(reqs: seq<Request>, uncached: seq<Date>, fetched: seq<Date>,
      before: map<Date, CachedDay>, retries: nat, d: Date, more: seq<Request>)
    requires Asking(reqs, uncached, fetched, before, retries) && forall e :: e in fetched ==> e > d
    requires if d in before then more == [] else OneDay(d, more, retries)
    ensures Asking(reqs + more, if d in before then uncached else uncached + [d], fetched + [d], before, retries)
  {
    if d in before {
      assert reqs + more == reqs;
    } else {
      AppendDescending(uncached, d);
      AskedMore(reqs, uncached, d, more, retries);
    }
  }

  lemma {:induction false} AskedMore(reqs: seq<Request>, dates: seq<Date>, d: Date, more: seq<Request>, retries: nat)
    requires AskedInTurn(reqs, dates, retries) && OneDay(d, more, retries)
    ensures AskedInTurn(reqs + more, dates + [d], retries)
  {
    var all, ds := reqs + more, dates + [d];
    assert all[..|reqs|] == reqs && all[|reqs|..] == more && ds[..|dates|] == dates;
  }

  // How many requests for the date were answered with records.
  function RecordReplies(reqs: seq<Request>, d: Date): nat {
    if reqs == [] then 0
    else
      var last := reqs[|reqs| - 1];
      RecordReplies(reqs[..|reqs| - 1], d) + (if last.date == d && last.reply.Records? then 1 else 0)
  }

  lemma {:induction false} RepliesSplit(reqs: seq<Request>, cut: nat, d: Date)
    requires cut <= |reqs|
    ensures RecordReplies(reqs, d) == RecordReplies(reqs[..cut], d) + RecordReplies(reqs[cut..], d)
  {
    var n := |reqs| - 1;
    if cut <= n {
      RepliesSplit(reqs[..n], cut, d);
      assert reqs[..n][..cut] == reqs[..cut] && reqs[..n][cut..] == reqs[cut..][..n - cut];
    } else {
      assert reqs[..cut] == reqs;
    }
  }

  lemma {:induction false} LimitedGivesNone(d: Date, reqs: seq<Request>, e: Date)
    requires Limited(d, reqs)
    ensures RecordReplies(reqs, e) == 0
  {
    if reqs != [] {
      LimitedGivesNone(d, reqs[..|reqs| - 1], e);
    }
  }

  lemma {:induction false} OneDayReplies(e: Date, reqs: seq<Request>, retries: nat, d: Date)
    requires OneDay(e, reqs, retries)
    ensures RecordReplies(reqs, d) == if d == e then 1 else 0
  {
    LimitedGivesNone(e, reqs[..|reqs| - 1], d);
  }

  lemma {:induction false} LastCut(reqs: seq<Request>, dates: seq<Date>, retries: nat) returns (cut: nat)
    requires dates != [] && AskedInTurn(reqs, dates, retries)
    ensures cut <= |reqs| && AskedInTurn(reqs[..cut], dates[..|dates| - 1], retries)
    ensures OneDay(dates[|dates| - 1], reqs[cut..], retries)
  {
    cut :| cut <= |reqs| && AskedInTurn(reqs[..cut], dates[..|dates| - 1], retries)
      && OneDay(dates[|dates| - 1], reqs[cut..], retries);
  }

  // So every date that was asked for got exactly one answer with records, and no other date any.
  lemma {:induction false} OneReplyEach(reqs: seq<Request>, dates: seq<Date>, retries: nat, d: Date)
    requires Descending(dates) && AskedInTurn(reqs, dates, retries)
    ensures RecordReplies(reqs, d) == if d in dates then 1 else 0
    decreases |dates|
  {
    if dates != [] {
      var n := |dates| - 1;
      var cut := LastCut(reqs, dates, retries);
      OneReplyEach(reqs[..cut], dates[..n], retries, d);
      RepliesSplit(reqs, cut, d);
      OneDayReplies(dates[n], reqs[cut..], retries, d);
      assert dates == dates[..n] + [dates[n]];
      assert dates[n] !in dates[..n];
    }
  }

  lemma {:induction false} RequestsBounded(reqs: seq<Request>, dates: seq<Date>, retries: nat)
    requires AskedInTurn(reqs, dates, retries)
    ensures |dates| <= |reqs| <= |dates| * (retries + 1)
    decreases |dates|
  {
    if dates != [] {
      var n := |dates| - 1;
      var cut := LastCut(reqs, dates, retries);
      RequestsBounded(reqs[..cut], dates[..n], retries);
      assert (n + 1) * (retries + 1) == n * (retries + 1) + (retries + 1);
    }
  }

  // Of the dates a prefetch reports as fetched, each that was not cached has exactly one answer with records.
  lemma {:induction false} FetchedOnce(reqs: seq<Request>, fetched: seq<Date>, before: map<Date, CachedDay>,
      retries: nat, d: Date)
    requires AskedFor(reqs, fetched, before, retries)
    ensures RecordReplies(reqs, d) == if d in fetched && d !in before then 1 else 0
  {
    var uncached :| Asking(reqs, uncached, fetched, before, retries);
    OneReplyEach(reqs, uncached, retries, d);
  }

  // ---------- what a scan has found ----------

  ghost predicate Extends(before: map<Date, CachedDay>, after: map<Date, CachedDay>) {
    forall d :: d in before ==> d in after && after[d] == before[d]
  }

  ghost predicate Descending(ds: seq<Date>) {
    forall i, j :: 0 <= i < j < |ds| ==> ds[i] > ds[j]
  }

  ghost predicate Ascending(ds: seq<Date>) {
    forall i, j :: 0 <= i < j < |ds| ==> ds[i] < ds[j]
  }

  ghost predicate Sorted3(trading: seq<Date>, closed: seq<Date>, fetched: seq<Date>) {
    Descending(trading) && Descending(closed) && Descending(fetched)
  }

  predicate Open(cache: map<Date, CachedDay>, d: Date) {
    d in cache && cache[d].rows != []
  }

  ghost predicate Scanned(trading: seq<Date>, closed: seq<Date>, fetched: seq<Date>, cache: map<Date, CachedDay>,
      current: Date, end: Date) {
    && Sorted3(trading, closed, fetched)
    && (forall d :: d in fetched <==> current < d <= end && Workday(d))
    && (forall d :: d in fetched ==> d in cache)
    && (forall d :: d in trading <==> d in fetched && Open(cache, d))
    && (forall d :: d in closed <==> d in fetched && !Open(cache, d))
  }

  lemma {:induction false} AppendDescending(ds: seq<Date>, d: Date)
    requires Descending(ds) && forall e :: e in ds ==> e > d
    ensures Descending(ds + [d])
  {
    forall i, j | 0 <= i < j < |ds + [d]|
      ensures (ds + [d])[i] > (ds + [d])[j]
    {
      assert ds[i] in ds;
    }
  }

  lemma {:induction false} ScanStep(trading: seq<Date>, closed: seq<Date>, fetched: seq<Date>,
      before: map<Date, CachedDay>, after: map<Date, CachedDay>, current: Date, end: Date)
    requires Scanned(trading, closed, fetched, before, current, end) && current <= end && Workday(current)
    requires current in after && (after == before || after == before[current := after[current]])
    ensures after[current].rows != [] ==>
        Scanned(trading + [current], closed, fetched + [current], after, current - 1, end)
    ensures after[current].rows == [] ==>
        Scanned(trading, closed + [current], fetched + [current], after, current - 1, end)
  {
    AppendDescending(trading, current);
    AppendDescending(closed, current);
    AppendDescending(fetched, current);
    assert forall d :: d in fetched ==> Open(after, d) == Open(before, d);
  }

  // The walk down to `current`: what it found, and what it asked for on the way.
  ghost predicate Walked(trading: seq<Date>, closed: seq<Date>, fetched: seq<Date>, uncached: seq<Date>,
      asked: seq<Request>, before: map<Date, CachedDay>, cache: map<Date, CachedDay>, current: Date, end: Date,
      retries: nat) {
    && Scanned(trading, closed, fetched, cache, current, end) && Asking(asked, uncached, fetched, before, retries)
    && Extends(before, cache) && forall d :: d <= current && d in cache ==> d in before
  }

  lemma {:induction false} WalkStep(trading: seq<Date>, closed: seq<Date>, fetched: seq<Date>, uncached: seq<Date>,
      asked: seq<Request>, before: map<Date, CachedDay>, cache: map<Date, CachedDay>, cache': map<Date, CachedDay>,
      current: Date, end: Date, retries: nat, more: seq<Request>)
    requires Walked(trading, closed, fetched, uncached, asked, before, cache, current, end, retries)
    requires current <= end && Workday(current) && current in cache'
    requires if current in cache then cache' == cache && more == []
             else cache' == cache[current := cache'[current]] && OneDay(current, more, retries)
    ensures var uncached' := if current in before then uncached else uncached + [current];
            var open := cache'[current].rows != [];
            Walked(if open then trading + [current] else trading, if open then closed else closed + [current],
                   fetched + [current], uncached', asked + more, before, cache', current - 1, end, retries)
  {
    ScanStep(trading, closed, fetched, cache, cache', current, end);
    AskingStep(asked, uncached, fetched, before, retries, current, more);
  }

  lemma {:induction false} WalkRest(trading: seq<Date>, closed: seq<Date>, fetched: seq<Date>, uncached: seq<Date>,
      asked: seq<Request>, before: map<Date, CachedDay>, cache: map<Date, CachedDay>, current: Date, end: Date,
      retries: nat)
    requires Walked(trading, closed, fetched, uncached, asked, before, cache, current, end, retries)
    requires !Workday(current)
    ensures Walked(trading, closed, fetched, uncached, asked, before, cache, current - 1, end, retries)
  {
    ScanRest(trading, closed, fetched, cache, current, end);
  }

  lemma {:induction false} ScanRest(trading: seq<Date>, closed: seq<Date>, fetched: seq<Date>,
      cache: map<Date, CachedDay>, current: Date, end: Date)
    requires Scanned(trading, closed, fetched, cache, current, end) && !Workday(current)
    ensures Scanned(trading, closed, fetched, cache, current - 1, end)
  {
  }

  predicate DateLe(a: Date, b: Date) { a <= b }

  function Ordered(ds: seq<Date>): seq<Date> {
    Sort(ds, DateLe)
  }

  lemma {:induction false} DescendingCounts(ds: seq<Date>, d: Date)
    requires Descending(ds)
    ensures multiset(ds)[d] <= 1
  {
    if ds != [] {
      var n := |ds| - 1;
      DescendingCounts(ds[..n], d);
      assert ds == ds[..n] + [ds[n]];
      assert ds[n] !in ds[..n];
    }
  }

  lemma {:induction false} TwiceIsTwo(ds: seq<Date>, i: nat, j: nat)
    requires i < j < |ds| && ds[i] == ds[j]
    ensures multiset(ds)[ds[i]] >= 2
  {
    assert ds == ds[..j] + [ds[j]] + ds[j + 1..];
    assert ds[..j][i] == ds[i] && ds[i] in multiset(ds[..j]);
  }

  // Sorting what was met walking backwards gives each date once, in increasing order.
  lemma {:induction false} OrderedAscends(ds: seq<Date>)
    requires Descending(ds)
    ensures Ascending(Ordered(ds)) && |Ordered(ds)| == |ds| && forall d :: d in Ordered(ds) <==> d in ds
  {
    var s := Ordered(ds);
    SortSorts(ds, DateLe);
    forall i, j | 0 <= i < j < |s|
      ensures s[i] < s[j]
    {
      DescendingCounts(ds, s[i]);
      if s[i] == s[j] {
        TwiceIsTwo(s, i, j);
      }
    }
    assert forall d :: d in s <==> d in multiset(s);
    assert forall d :: d in ds <==> d in multiset(ds);
  }

  ghost predicate Classified(p: Prefetch, cache: map<Date, CachedDay>, end: Date, lookback: int) {
    && Ascending(p.trading) && Ascending(p.closed) && Ascending(p.fetched) && p.trading != []
    && end - lookback < p.trading[0] && p.trading[|p.trading| - 1] <= end
    && (forall d :: d in p.fetched <==> p.trading[0] <= d <= end && Workday(d))
    && (forall d :: d in p.fetched ==> d in cache)
    && (forall d :: d in p.trading <==> d in p.fetched && Open(cache, d))
    && (forall d :: d in p.closed <==> d in p.fetched && !Open(cache, d))
  }

  lemma {:induction false} ScannedIsClassified(trading: seq<Date>, closed: seq<Date>, fetched: seq<Date>,
      cache: map<Date, CachedDay>, current: Date, end: Date, lookback: int)
    requires Scanned(trading, closed, fetched, cache, current, end) && trading != [] && end - lookback <= current
    requires trading[|trading| - 1] == current + 1
    ensures Classified(Prefetch(Ordered(trading), Ordered(closed), Ordered(fetched)), cache, end, lookback)
    ensures |Ordered(trading)| == |trading|
  {
    OrderedAscends(trading);
    OrderedAscends(closed);
    OrderedAscends(fetched);
    var s := Ordered(trading);
    assert trading[|trading| - 1] in s;
    var k :| 0 <= k < |s| && s[k] == trading[|trading| - 1];
    assert s[0] in trading;
    assert s[0] == current + 1;
    assert s[|s| - 1] in trading;
  }

  lemma {:induction false} WalkExtends(trading: seq<Date>, closed: seq<Date>, fetched: seq<Date>, uncached: seq<Date>,
      asked: seq<Request>, before: map<Date, CachedDay>, cache: map<Date, CachedDay>, current: Date, end: Date,
      retries: nat)
    requires Walked(trading, closed, fetched, uncached, asked, before, cache, current, end, retries)
    ensures Extends(before, cache)
  {
  }

  lemma {:induction false} WalkStarts(cache: map<Date, CachedDay>, end: Date, retries: nat)
    ensures Walked([], [], [], [], [], cache, cache, end, end, retries)
  {
  }

  lemma {:induction false} WalkFinishes(trading: seq<Date>, closed: seq<Date>, fetched: seq<Date>, uncached: seq<Date>,
      asked: seq<Request>, before: map<Date, CachedDay>, cache: map<Date, CachedDay>, current: Date, end: Date,
      retries: nat, lookback: int)
    requires Walked(trading, closed, fetched, uncached, asked, before, cache, current, end, retries)
    requires trading != [] && end - lookback <= current && trading[|trading| - 1] == current + 1
    ensures Classified(Prefetch(Ordered(trading), Ordered(closed), Ordered(fetched)), cache, end, lookback)
    ensures |Ordered(trading)| == |trading| && AskedFor(asked, Ordered(fetched), before, retries)
  {
    ScannedIsClassified(trading, closed, fetched, cache, current, end, lookback);
    OrderedAscends(fetched);
    assert Asking(asked, uncached, Ordered(fetched), before, retries);
  }

  function OpenDays(cache: map<Date, CachedDay>, from: Date, end: Date): set<Date> {
    set d | from < d <= end && Workday(d) && Open(cache, d)
  }

  // The whole lookback has been searched, and it holds fewer trading days than asked for.
  ghost predicate FewTradingDays(cache: map<Date, CachedDay>, end: Date, minimum: int, lookback: int) {
    && (forall d :: end - lookback < d <= end && Workday(d) ==> d in cache)
    && |OpenDays(cache, end - lookback, end)| < minimum
  }

  lemma {:induction false} DescendingSize(ds: seq<Date>)
    requires Descending(ds)
    ensures |(set d | d in ds)| == |ds|
  {
    if ds != [] {
      var n := |ds| - 1;
      DescendingSize(ds[..n]);
      assert ds == ds[..n] + [ds[n]];
      assert (set d | d in ds) == (set d | d in ds[..n]) + {ds[n]};
      assert ds[n] !in ds[..n];
    }
  }

  lemma {:induction false} ScannedCounts(trading: seq<Date>, closed: seq<Date>, fetched: seq<Date>,
      cache: map<Date, CachedDay>, end: Date, lookback: int, minimum: int)
    requires Scanned(trading, closed, fetched, cache, end - lookback, end) && |trading| < minimum
    ensures FewTradingDays(cache, end, minimum, lookback)
  {
    DescendingSize(trading);
    assert (set d | d in trading) == OpenDays(cache, end - lookback, end);
  }

  // ---------- bars ----------

  function ArgumentError(daily: bool, raw: bool, known: bool, start: Date, end: Date): Option<Error> {
    if !daily then Some(BadPeriod)
    else if !raw then Some(BadAdjustment)
    else if !known then Some(UnknownInstrument)
    else if end < start then Some(RangeReversed)
    else if end - start > MAX_RANGE_DAYS then Some(RangeTooLong)
    else None
  }

  ghost predicate AllCached(cache: map<Date, CachedDay>, start: Date, end: Date) {
    forall d :: start <= d <= end && Workday(d) ==> d in cache
  }

  // The first row with the symbol.
  function RowOf(rows: seq<Row>, symbol: string): Option<Row> {
    if rows == [] then None
    else if rows[0].symbol == symbol then Some(rows[0])
    else RowOf(rows[1..], symbol)
  }

  ghost function BarsIn(cache: map<Date, CachedDay>, symbol: string, start: Date, end: Date): Result<seq<Bar>, Error>
    requires AllCached(cache, start, end)
    decreases end - start + 1
  {
    if end < start then Ok([])
    else
      var before := BarsIn(cache, symbol, start, end - 1);
      if before.Err? || !Workday(end) then before
      else
        match RowOf(cache[end].rows, symbol)
        case None => before
        case Some(row) => if row.bar.None? then Err(BadSchema) else Ok(before.value + [row.bar.value])
  }

  lemma {:induction false} BarsInExtends(before: map<Date, CachedDay>, after: map<Date, CachedDay>, symbol: string,
      start: Date, end: Date)
    requires AllCached(before, start, end) && Extends(before, after)
    ensures AllCached(after, start, end) && BarsIn(after, symbol, start, end) == BarsIn(before, symbol, start, end)
    decreases end - start + 1
  {
    if start <= end {
      BarsInExtends(before, after, symbol, start, end - 1);
    }
  }

  lemma {:induction false} BadSchemaStays(cache: map<Date, CachedDay>, symbol: string, start: Date, at: Date, end: Date)
    requires AllCached(cache, start, at) && BarsIn(cache, symbol, start, at) == Err(BadSchema) && start <= at <= end
    ensures AllCached(cache, start, end) ==> BarsIn(cache, symbol, start, end) == Err(BadSchema)
    decreases end - at
  {
    if AllCached(cache, start, end) && at < end {
      BadSchemaStays(cache, symbol, start, at, end - 1);
    }
  }

  // ---------- the calendar and the coverage check ----------

  predicate IsTradingDay(holidays: set<Date>, d: Date) {
    Workday(d) && d !in holidays
  }

  function Expected(holidays: set<Date>, start: Date, end: Date): seq<Date>
    decreases end - start + 1
  {
    if end < start then []
    else Expected(holidays, start, end - 1) + (if IsTradingDay(holidays, end) then [end] else [])
  }

  method ExpectedTradingDays(holidays: set<Date>, start: Date, end: Date) returns (days: seq<Date>)
    ensures days == Expected(holidays, start, end)
  {
    days := [];
    var current := start;
    while current <= end
      invariant (end < start && current == start && days == [])
          || (start <= current <= end + 1 && days == Expected(holidays, start, current - 1))
      decreases end - current
    {
      if IsTradingDay(holidays, current) {
        days := days + [current];
      }
      current := current + 1;
    }
  }

  lemma {:induction false} ExpectedMembers(holidays: set<Date>, start: Date, end: Date)
    ensures Ascending(Expected(holidays, start, end))
    ensures forall d :: d in Expected(holidays, start, end) <==> start <= d <= end && IsTradingDay(holidays, d)
    decreases end - start + 1
  {
    if start <= end {
      ExpectedMembers(holidays, start, end - 1);
      var before := Expected(holidays, start, end - 1);
      forall i | 0 <= i < |before|
        ensures before[i] < end
      {
        assert before[i] in before;
      }
    }
  }

  lemma {:induction false} AscendingSize(ds: seq<Date>)
    requires Ascending(ds)
    ensures |(set d | d in ds)| == |ds|
  {
    if ds != [] {
      var n := |ds| - 1;
      AscendingSize(ds[..n]);
      assert ds == ds[..n] + [ds[n]];
      assert (set d | d in ds) == (set d | d in ds[..n]) + {ds[n]};
      assert ds[n] !in ds[..n];
    }
  }

  lemma {:induction false} InTail(xs: seq<Date>, d: Date)
    requires xs != [] && Ascending(xs)
    ensures d in xs[1..] <==> d in xs && d != xs[0]
  {
    assert xs == [xs[0]] + xs[1..];
    if d in xs[1..] {
      var i :| 0 <= i < |xs[1..]| && xs[1..][i] == d;
      assert xs[1 + i] == d;
    }
  }

  lemma {:induction false} HeadIsLeast(ds: seq<Date>, d: Date)
    requires Ascending(ds) && d in ds
    ensures ds != [] && ds[0] <= d
  {
    var k :| 0 <= k < |ds| && ds[k] == d;
  }

  lemma {:induction false} SameSize(xs: seq<Date>, ys: seq<Date>)
    requires Ascending(xs) && Ascending(ys) && forall d :: d in xs <==> d in ys
    ensures |xs| == |ys|
  {
    AscendingSize(xs);
    AscendingSize(ys);
    assert (set d | d in xs) == (set d | d in ys);
  }

  lemma {:induction false} AscendingUnique(xs: seq<Date>, ys: seq<Date>)
    requires Ascending(xs) && Ascending(ys) && forall d :: d in xs <==> d in ys
    ensures xs == ys
  {
    SameSize(xs, ys);
    if xs != [] {
      HeadIsLeast(xs, ys[0]);
      HeadIsLeast(ys, xs[0]);
      forall d
        ensures d in xs[1..] <==> d in ys[1..]
      {
        InTail(xs, d);
        InTail(ys, d);
      }
      AscendingUnique(xs[1..], ys[1..]);
      assert xs == [xs[0]] + xs[1..] && ys == [ys[0]] + ys[1..];
    }
  }

  function Holidays(p: Prefetch): set<Date> {
    set d | d in p.closed
  }

  // The calendar built from the closed workdays expects exactly the trading dates the prefetch found.
  lemma {:induction false} CalendarMatchesPrefetch(p: Prefetch, cache: map<Date, CachedDay>, end: Date, lookback: int)
    requires Classified(p, cache, end, lookback)
    ensures Expected(Holidays(p), p.trading[0], p.trading[|p.trading| - 1]) == p.trading
  {
    var first, last := p.trading[0], p.trading[|p.trading| - 1];
    ExpectedMembers(Holidays(p), first, last);
    forall d
      ensures d in Expected(Holidays(p), first, last) <==> d in p.trading
    {
      if d in p.trading {
        var k :| 0 <= k < |p.trading| && p.trading[k] == d;
      }
    }
    AscendingUnique(Expected(Holidays(p), first, last), p.trading);
  }

  datatype Coverage = Coverage(expected: nat, covered: int, missing: seq<Date>)
  {
    predicate MeetsMinimum(minimum: int) {
      missing == [] && covered >= minimum
    }
  }

  function Without(expected: seq<Date>, covered: set<Date>): seq<Date> {
    if expected == [] then []
    else
      var n := |expected| - 1;
      Without(expected[..n], covered) + (if expected[n] in covered then [] else [expected[n]])
  }

  lemma {:induction false} WithoutMembers(expected: seq<Date>, covered: set<Date>)
    ensures forall d :: d in Without(expected, covered) <==> d in expected && d !in covered
    ensures |Without(expected, covered)| <= |expected|
  {
    if expected != [] {
      var n := |expected| - 1;
      WithoutMembers(expected[..n], covered);
      assert expected == expected[..n] + [expected[n]];
    }
  }

  function BarDates(bars: seq<Bar>): set<Date> {
    set b | b in bars :: b.date
  }

  method VerifyCoverage(holidays: set<Date>, start: Date, end: Date, bars: seq<Bar>) returns (c: Coverage)
    ensures c.missing == Without(Expected(holidays, start, end), BarDates(bars))
    ensures c.expected == |Expected(holidays, start, end)| && c.covered == c.expected - |c.missing|
  {
    var expected := ExpectedTradingDays(holidays, start, end);
    var missing := Without(expected, BarDates(bars));
    c := Coverage(|expected|, |expected| - |missing|, missing);
  }

  // Each row of the symbol carries the date it was asked for.
  ghost predicate ProperlyDated(cache: map<Date, CachedDay>, symbol: string, start: Date, end: Date) {
    forall d :: start <= d <= end && d in cache ==> DatedAs(RowOf(cache[d].rows, symbol), d)
  }

  predicate DatedAs(row: Option<Row>, d: Date) {
    row.Some? && row.value.bar.Some? ==> row.value.bar.value.date == d
  }

  predicate HasRow(cache: map<Date, CachedDay>, symbol: string, d: Date) {
    d in cache && RowOf(cache[d].rows, symbol).Some?
  }

  lemma {:induction false} BarDatesAppend(bars: seq<Bar>, b: Bar)
    ensures BarDates(bars + [b]) == BarDates(bars) + {b.date}
  {
  }

  lemma {:induction false} BarsCoverRows(cache: map<Date, CachedDay>, symbol: string, start: Date, end: Date)
    requires AllCached(cache, start, end) && BarsIn(cache, symbol, start, end).Ok?
        && ProperlyDated(cache, symbol, start, end)
    ensures forall d :: d in BarDates(BarsIn(cache, symbol, start, end).value) <==>
              start <= d <= end && Workday(d) && HasRow(cache, symbol, d)
    decreases end - start + 1
  {
    if start <= end {
      var before := BarsIn(cache, symbol, start, end - 1);
      BarsCoverRows(cache, symbol, start, end - 1);
      if Workday(end) && HasRow(cache, symbol, end) {
        var bar := RowOf(cache[end].rows, symbol).value.bar.value;
        assert DatedAs(RowOf(cache[end].rows, symbol), end);
        BarDatesAppend(before.value, bar);
      }
    }
  }

  // After a prefetch the missing dates are exactly the trading dates on which the symbol has no row.
  lemma {:induction false} MissingAreRowless(p: Prefetch, cache: map<Date, CachedDay>, end: Date, lookback: int,
      symbol: string, bars: seq<Bar>)
    requires Classified(p, cache, end, lookback)
    requires var first, last := p.trading[0], p.trading[|p.trading| - 1];
             AllCached(cache, first, last) && BarsIn(cache, symbol, first, last) == Ok(bars)
                 && ProperlyDated(cache, symbol, first, last)
    ensures forall d :: d in Without(p.trading, BarDates(bars)) <==> d in p.trading && !HasRow(cache, symbol, d)
  {
    var first, last := p.trading[0], p.trading[|p.trading| - 1];
    BarsCoverRows(cache, symbol, first, last);
    WithoutMembers(p.trading, BarDates(bars));
    forall d | d in p.trading
      ensures d in BarDates(bars) <==> HasRow(cache, symbol, d)
    {
    }
  }

  // What a coverage report says about the rows: the missing dates are those without one, and the report meets the
  // minimum when there is none.
  ghost predicate Covers(p: Prefetch, cache: map<Date, CachedDay>, symbol: string, c: Coverage, minimum: int) {
    && (forall d :: d in c.missing <==> d in p.trading && !HasRow(cache, symbol, d))
    && (c.MeetsMinimum(minimum) <==> forall d :: d in p.trading ==> HasRow(cache, symbol, d))
  }

  lemma {:induction false} ReportCovers(p: Prefetch, cache: map<Date, CachedDay>, end: Date, lookback: int,
      symbol: string, bars: seq<Bar>, c: Coverage)
    requires Classified(p, cache, end, lookback)
    requires var first, last := p.trading[0], p.trading[|p.trading| - 1];
             AllCached(cache, first, last) && BarsIn(cache, symbol, first, last) == Ok(bars)
                 && ProperlyDated(cache, symbol, first, last)
    requires c == Coverage(|p.trading|, |p.trading| - |Without(p.trading, BarDates(bars))|,
        Without(p.trading, BarDates(bars)))
    ensures Covers(p, cache, symbol, c, |p.trading|)
  {
    MissingAreRowless(p, cache, end, lookback, symbol, bars);
    if c.missing != [] {
      var d := c.missing[0];
      assert d in c.missing && d in p.trading && !HasRow(cache, symbol, d);
    } else {
      forall d | d in p.trading
        ensures HasRow(cache, symbol, d)
      {
        assert d !in c.missing;
      }
    }
  }

  // The bars of one symbol between the first and the last prefetched trading date, out of the cache.
  ghost function BarsFor(cache: map<Date, CachedDay>, symbol: string, p: Prefetch): Result<seq<Bar>, Error> {
    if p.trading != [] && AllCached(cache, p.trading[0], p.trading[|p.trading| - 1])
    then BarsIn(cache, symbol, p.trading[0], p.trading[|p.trading| - 1])
    else Err(ProviderFailure)
  }

  ghost function ReportOn(trading: seq<Date>, bars: seq<Bar>): (c: Coverage)
    ensures c.expected == |trading|
  {
    WithoutMembers(trading, BarDates(bars));
    Coverage(|trading|, |trading| - |Without(trading, BarDates(bars))|, Without(trading, BarDates(bars)))
  }

  // What those bars say about the prefetched trading dates.
  ghost function CoverageOf(cache: map<Date, CachedDay>, symbol: string, p: Prefetch): Result<Coverage, Error> {
    match BarsFor(cache, symbol, p)
    case Err(e) => Err(e)
    case Ok(bars) => Ok(ReportOn(p.trading, bars))
  }

  lemma {:induction false} PrefetchCaches(p: Prefetch, cache: map<Date, CachedDay>, end: Date, lookback: int)
    requires Classified(p, cache, end, lookback)
    ensures p.trading != [] && p.trading[0] <= p.trading[|p.trading| - 1] < p.trading[0] + lookback
    ensures AllCached(cache, p.trading[0], p.trading[|p.trading| - 1])
  {
  }

  // A target goes through: its instrument is known, no row of it is malformed, and no trading date is missing.
  ghost predicate Covered(cache: map<Date, CachedDay>, symbols: map<string, string>, p: Prefetch, target: string,
      minimum: int) {
    && target in symbols && CoverageOf(cache, symbols[target], p).Ok?
    && CoverageOf(cache, symbols[target], p).value.MeetsMinimum(minimum)
  }

  // If the rows carry the date they were asked for, that is when every trading date has a well-formed row.
  lemma {:induction false} CoveredIff(cache: map<Date, CachedDay>, symbols: map<string, string>, p: Prefetch,
      target: string, end: Date, lookback: int)
    requires Classified(p, cache, end, lookback) && target in symbols
    requires ProperlyDated(cache, symbols[target], p.trading[0], p.trading[|p.trading| - 1])
    ensures Covered(cache, symbols, p, target, |p.trading|) <==>
              && BarsFor(cache, symbols[target], p).Ok?
              && forall d :: d in p.trading ==> HasRow(cache, symbols[target], d)
  {
    var bars := BarsFor(cache, symbols[target], p);
    PrefetchCaches(p, cache, end, lookback);
    if bars.Ok? {
      ReportCovers(p, cache, end, lookback, symbols[target], bars.value, ReportOn(p.trading, bars.value));
    }
  }

  // Each target before k goes through, with this coverage.
  ghost predicate AllCovered(cache: map<Date, CachedDay>, symbols: map<string, string>, p: Prefetch,
      targets: seq<string>, minimum: int, coverages: seq<Coverage>) {
    && |coverages| <= |targets|
    && forall i :: 0 <= i < |coverages| ==> CoveredAs(cache, symbols, p, targets[i], minimum, coverages[i])
  }

  ghost predicate CoveredAs(cache: map<Date, CachedDay>, symbols: map<string, string>, p: Prefetch, target: string,
      minimum: int, c: Coverage) {
    Covered(cache, symbols, p, target, minimum) && c == CoverageOf(cache, symbols[target], p).value
  }

  // A backfill: one prefetch, then bars and coverage of every target out of the cache alone. Its requests are those of
  // the prefetch, for the dates that were not cached; it goes through exactly when every target does.
  method Backfill(provider: KrxProvider, targets: seq<string>, end: Date, minimum: int, lookback: int)
    returns (found: Result<Prefetch, Error>, r: Result<seq<Coverage>, Error>, ghost asked: seq<Request>)
    requires provider.Valid()
    modifies provider`cache, provider`now, provider`requests, provider`lastRequestAt, provider`log
    ensures provider.Valid() && provider.log == old(provider.log) + asked
    ensures found.Err? ==> r == Err(found.error)
    ensures found.Ok? ==>
              && Classified(found.value, provider.cache, end, lookback) && |found.value.trading| == minimum
              && AskedFor(asked, found.value.fetched, old(provider.cache), provider.maxRetries)
    ensures found.Ok? ==> Verdict(provider.cache, provider.symbols, found.value, targets, minimum, r)
  {
    found, asked := provider.PrefetchLatest(end, minimum, lookback);
    if found.Err? {
      return found, Err(found.error), asked;
    }
    r := CoverTargets(provider, found.value, targets, end, minimum, lookback);
  }

  // Either every target goes through, with its coverage, or some target does not.
  ghost predicate Verdict(cache: map<Date, CachedDay>, symbols: map<string, string>, p: Prefetch, targets: seq<string>,
      minimum: int, r: Result<seq<Coverage>, Error>) {
    match r
    case Ok(coverages) => |coverages| == |targets| && AllCovered(cache, symbols, p, targets, minimum, coverages)
    case Err(_) => exists t :: t in targets && !Covered(cache, symbols, p, t, minimum)
  }

  lemma {:induction false} NotCovered(cache: map<Date, CachedDay>, symbols: map<string, string>, p: Prefetch,
      targets: seq<string>, minimum: int, k: nat, e: Error)
    requires k < |targets| && !Covered(cache, symbols, p, targets[k], minimum)
    ensures Verdict(cache, symbols, p, targets, minimum, Err(e))
  {
  }

  method CoverTargets(provider: KrxProvider, p: Prefetch, targets: seq<string>, end: Date, minimum: int, lookback: int)
    returns (r: Result<seq<Coverage>, Error>)
    requires provider.Valid() && Classified(p, provider.cache, end, lookback) && lookback <= MAX_RANGE_DAYS
    modifies provider`cache, provider`now, provider`requests, provider`lastRequestAt, provider`log
    ensures provider.Valid() && provider.log == old(provider.log) && provider.cache == old(provider.cache)
    ensures Verdict(provider.cache, provider.symbols, p, targets, minimum, r)
  {
    var coverages: seq<Coverage> := [];
    for k := 0 to |targets|
      invariant provider.Valid() && provider.cache == old(provider.cache) && provider.log == old(provider.log)
      invariant |coverages| == k && AllCovered(provider.cache, provider.symbols, p, targets, minimum, coverages)
    {
      var coverage := CoverPrefetched(provider, p, targets[k], end, lookback);
      if coverage.Err? || !coverage.value.MeetsMinimum(minimum) {
        var e := if coverage.Err? then coverage.error else CoverageShort;
        NotCovered(provider.cache, provider.symbols, p, targets, minimum, k, e);
        return Err(e);
      }
      coverages := coverages + [coverage.value];
    }
    r := Ok(coverages);
  }

  // No request is made: everything between the first and the last trading date is in the cache.
  method CoverPrefetched(provider: KrxProvider, p: Prefetch, instrument: string, end: Date, lookback: int)
      returns (r: Result<Coverage, Error>)
    requires provider.Valid() && Classified(p, provider.cache, end, lookback) && lookback <= MAX_RANGE_DAYS
    modifies provider`cache, provider`now, provider`requests, provider`lastRequestAt, provider`log
    ensures provider.Valid() && provider.log == old(provider.log) && provider.cache == old(provider.cache)
    ensures r == if instrument in provider.symbols then CoverageOf(provider.cache, provider.symbols[instrument], p)
                 else Err(UnknownInstrument)
    ensures r.Err? ==> r.error in {UnknownInstrument, BadSchema}
  {
    hide Classified, BarsIn, Expected, Without, BarDates;
    PrefetchCaches(p, provider.cache, end, lookback);
    var first, last := p.trading[0], p.trading[|p.trading| - 1];
    CalendarMatchesPrefetch(p, provider.cache, end, lookback);
    if instrument in provider.symbols {
      OnlySchemaFails(provider.cache, provider.symbols[instrument], first, last);
    }
    var bars := provider.GetBars(instrument, true, true, first, last);
    if bars.Err? {
      return Err(bars.error);
    }
    var coverage := VerifyCoverage(Holidays(p), first, last, bars.value);
    assert coverage == ReportOn(p.trading, bars.value);
    r := Ok(coverage);
  }

  // A client that fails once and then answers: the second request starts at once, whatever the interval.
  method FailureUndercuts(interval: real) returns (provider: KrxProvider)
    requires interval > 0.0
    ensures provider.Valid() && provider.interval == interval && |provider.log| == 2
    ensures provider.log[0].reply.Failed? && provider.log[1].begin == provider.log[0].end
  {
    var world := World((d, n) => if n == 0 then Failed else Records([]), n => 0.0, n => 0, (d, rows, at) => Kept);
    provider := new KrxProvider(map[], interval, 0, world);
    ghost var one, other;
    var first, second;
    first, one := provider.GetDailyRecords(0);
    second, other := provider.GetDailyRecords(0);
  }

  lemma {:induction false} OnlySchemaFails(cache: map<Date, CachedDay>, symbol: string, start: Date, end: Date)
    requires AllCached(cache, start, end)
    ensures BarsIn(cache, symbol, start, end).Err? ==> BarsIn(cache, symbol, start, end).error == BadSchema
    decreases end - start + 1
  {
    if start <= end {
      OnlySchemaFails(cache, symbol, start, end - 1);
    }
  }
}

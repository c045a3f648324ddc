/** Properties of whole engine runs: each order runs as if alone, its fills stay in bounds,
    input order is irrelevant. */
module OrderProjection {
  import opened Wrappers
  import opened Numbers
  import opened SimulationEvents
  import opened Portfolio
  import opened Backtest
  import StableSort

  // ---------- one order by itself ----------

  datatype Progress = Progress(remaining: real, done: seq<Execution>)

  // The order offered one quote: what is left and what was executed.
  function SoloStep(order: OrderIntent, s: Progress, e: SimulationEvent, rate: real): Progress
    requires order.Valid()
  {
    if !IsQuote(e) then s
    else
      match Taken(OrderView(order, 0, s.remaining, []), e.payload.quote, rate)
      case None => s
      case Some(x) => Progress(x.unfilled, s.done + [x])
  }

  function Solo(order: OrderIntent, events: seq<SimulationEvent>, rate: real): Progress
    requires order.Valid()
  {
    if events == [] then Progress(order.legs[0].quantity, [])
    else SoloStep(order, Solo(order, events[..|events| - 1], rate), events[|events| - 1], rate)
  }

  function Executions(fills: seq<PaperFill>): seq<Execution> {
    if fills == [] then [] else Executions(fills[..|fills| - 1]) + [fills[|fills| - 1].execution]
  }

  function OfOrder(fills: seq<PaperFill>, id: string): seq<PaperFill> {
    if fills == [] then []
    else
      var last := fills[|fills| - 1];
      OfOrder(fills[..|fills| - 1], id) + (if last.execution.orderId == id then [last] else [])
  }

  ghost predicate DistinctOrderIds(orders: seq<OrderIntent>) {
    forall i, j :: 0 <= i < j < |orders| ==> orders[i].orderId != orders[j].orderId
  }

  // ---------- the joint run, seen from order i ----------

  ghost predicate Tracks(s: EngineState, i: nat, order: OrderIntent, p: Progress) {
    && i < |s.orders| && order.Valid()
    && s.orders[i].order == order && s.orders[i].legIndex == 0
    && s.orders[i].remaining == p.remaining
    && Executions(s.orders[i].fills) == p.done
    && OfOrder(s.fills, order.orderId) == s.orders[i].fills
  }

  lemma {:induction false} Appended(fills: seq<PaperFill>, f: PaperFill, id: string)
    ensures Executions(fills + [f]) == Executions(fills) + [f.execution]
    ensures OfOrder(fills + [f], id) == OfOrder(fills, id) + (if f.execution.orderId == id then [f] else [])
  {
    assert (fills + [f])[..|fills|] == fills;
  }

  lemma {:induction false} OfferOther(s: EngineState, i: nat, order: OrderIntent, p: Progress, j: nat, q: MarketQuote,
      rate: real, seed: int)
    requires Ready(s) && Tracks(s, i, order, p) && j < |s.orders| && j != i
    requires s.orders[j].order.orderId != order.orderId
    ensures Tracks(OfferOne(s, j, q, rate, seed), i, order, p)
  {
    match Taken(s.orders[j], q, rate)
    case None =>
    case Some(e) => Appended(s.fills, PaperFill(FillId(seed, |s.fills| + 1), e), order.orderId);
  }

  lemma {:induction false} OfferSelf(s: EngineState, i: nat, order: OrderIntent, p: Progress, e: SimulationEvent,
      rate: real, seed: int)
    requires Ready(s) && Tracks(s, i, order, p) && IsQuote(e)
    ensures Tracks(OfferOne(s, i, e.payload.quote, rate, seed), i, order, SoloStep(order, p, e, rate))
  {
    assert Taken(s.orders[i], e.payload.quote, rate)
        == Taken(OrderView(order, 0, p.remaining, []), e.payload.quote, rate);
    match Taken(s.orders[i], e.payload.quote, rate)
    case None =>
    case Some(x) =>
      var fill := PaperFill(FillId(seed, |s.fills| + 1), x);
      Appended(s.fills, fill, order.orderId);
      Appended(s.orders[i].fills, fill, order.orderId);
  }

  ghost predicate Holds(s: EngineState, orders: seq<OrderIntent>) {
    && |s.orders| == |orders|
    && forall i :: 0 <= i < |orders| ==> s.orders[i].order == orders[i]
  }

  lemma {:induction false} OfferKeepsOrders(s: EngineState, orders: seq<OrderIntent>, n: nat, q: MarketQuote,
      rate: real, seed: int)
    requires Ready(s) && Holds(s, orders) && n <= |orders|
    ensures Holds(OfferUpTo(s, n, q, rate, seed), orders)
  {
    if n > 0 {
      OfferKeepsOrders(s, orders, n - 1, q, rate, seed);
    }
  }

  lemma {:induction false} OfferAny(s: EngineState, orders: seq<OrderIntent>, i: nat, p: Progress, j: nat,
      e: SimulationEvent, rate: real, seed: int)
    requires Ready(s) && Holds(s, orders) && DistinctOrderIds(orders) && j < |orders| && i < |orders| && IsQuote(e)
    requires Tracks(s, i, orders[i], p)
    ensures var p' := if i == j then SoloStep(orders[i], p, e, rate) else p;
            Tracks(OfferOne(s, j, e.payload.quote, rate, seed), i, orders[i], p')
  {
    if i == j {
      OfferSelf(s, i, orders[i], p, e, rate, seed);
    } else {
      assert s.orders[j].order == orders[j];
      OfferOther(s, i, orders[i], p, j, e.payload.quote, rate, seed);
    }
  }

  lemma {:induction false} OfferTracks(s: EngineState, orders: seq<OrderIntent>, i: nat, p: Progress, n: nat,
      e: SimulationEvent, rate: real, seed: int)
    requires Ready(s) && Holds(s, orders) && DistinctOrderIds(orders) && n <= |orders| && i < |orders| && IsQuote(e)
    requires Tracks(s, i, orders[i], p)
    ensures var p' := if i < n then SoloStep(orders[i], p, e, rate) else p;
            Tracks(OfferUpTo(s, n, e.payload.quote, rate, seed), i, orders[i], p')
  {
    hide OfferOne;
    if n > 0 {
      OfferTracks(s, orders, i, p, n - 1, e, rate, seed);
      OfferKeepsOrders(s, orders, n - 1, e.payload.quote, rate, seed);
      var t := OfferUpTo(s, n - 1, e.payload.quote, rate, seed);
      OfferAny(t, orders, i, if i < n - 1 then SoloStep(orders[i], p, e, rate) else p, n - 1, e, rate, seed);
    }
  }

  lemma {:induction false} RunTracks(orders: seq<OrderIntent>, events: seq<SimulationEvent>, i: nat, rate: real,
      seed: int)
    requires ValidOrders(orders) && DistinctOrderIds(orders) && i < |orders|
    ensures var s := RunOver(Start(orders), events, rate, seed);
            Holds(s, orders) && Tracks(s, i, orders[i], Solo(orders[i], events, rate))
  {
    if events != [] {
      var before, e := events[..|events| - 1], events[|events| - 1];
      RunTracks(orders, before, i, rate, seed);
      if IsQuote(e) {
        var s := RunOver(Start(orders), before, rate, seed);
        OfferKeepsOrders(s, orders, |orders|, e.payload.quote, rate, seed);
        OfferTracks(s, orders, i, Solo(orders[i], before, rate), |orders|, e, rate, seed);
      }
    }
  }

  // Running many orders together projects to running each alone, up to the numbering of the fills.
  lemma {:induction false} JointRunProjects(orders: seq<OrderIntent>, events: seq<SimulationEvent>, i: nat, rate: real,
      seed: int)
    requires ValidOrders(orders) && DistinctOrderIds(orders) && i < |orders|
    ensures var joint := RunOver(Start(orders), events, rate, seed);
            var alone := RunOver(Start([orders[i]]), events, rate, seed);
            && Executions(OfOrder(joint.fills, orders[i].orderId))
                == Executions(OfOrder(alone.fills, orders[i].orderId))
            && Executions(OfOrder(joint.fills, orders[i].orderId)) == Solo(orders[i], events, rate).done
            && joint.orders[i].remaining == alone.orders[0].remaining
  {
    RunTracks(orders, events, i, rate, seed);
    RunTracks([orders[i]], events, 0, rate, seed);
  }

  // ---------- what every fill of an order satisfies ----------

  function Filled(done: seq<Execution>): real {
    if done == [] then 0.0 else Filled(done[..|done| - 1]) + done[|done| - 1].filled
  }

  // The execution was made against this very event, inside the order's life, within its limit and the quote's size.
  predicate MadeAgainst(order: OrderIntent, x: Execution, e: SimulationEvent, rate: real)
    requires order.Valid()
  {
    var leg := order.legs[0];
    && IsQuote(e) && e.payload.quote.instrumentId == leg.instrumentId && !Blocked(e.payload.quote)
    && x.orderId == order.orderId && x.filledAt == e.payload.quote.eventTime
    && order.createdAt < x.filledAt <= order.expiresAt
    && x.price == QuotePrice(leg.side, e.payload.quote)
    && (if leg.side == BUY then x.price <= leg.limitPrice else x.price >= leg.limitPrice)
    && 0.0 < x.filled <= Capacity(leg.side, e.payload.quote, rate)
    && x.unfilled >= 0.0 && (x.status == FILLED <==> x.unfilled == 0.0)
    && x.slippage <= 0.0
  }

  // The executions were made against events of the stream, one after the other and no two against the same one.
  ghost predicate MadeInTurn(order: OrderIntent, done: seq<Execution>, events: seq<SimulationEvent>, rate: real,
      at: seq<nat>)
    requires order.Valid()
  {
    && |at| == |done|
    && (forall k, l :: 0 <= k < l < |at| ==> at[k] < at[l])
    && forall k :: 0 <= k < |at| ==> at[k] < |events| && MadeAgainst(order, done[k], events[at[k]], rate)
  }

  ghost predicate EachAgainstItsOwn(order: OrderIntent, done: seq<Execution>, events: seq<SimulationEvent>, rate: real)
    requires order.Valid()
  {
    exists at: seq<nat> :: MadeInTurn(order, done, events, rate, at)
  }

  // What one event has to offer an order: nothing, or the quote's size times the participation rate.
  function OfferedBy(order: OrderIntent, e: SimulationEvent, rate: real): real
    requires order.Valid()
  {
    var leg := order.legs[0];
    if IsQuote(e) && e.payload.quote.instrumentId == leg.instrumentId && !Blocked(e.payload.quote)
       && order.createdAt < e.payload.quote.eventTime <= order.expiresAt && Marketable(leg, e.payload.quote)
    then Max(0.0, Capacity(leg.side, e.payload.quote, rate))
    else 0.0
  }

  function Offered(order: OrderIntent, events: seq<SimulationEvent>, rate: real): real
    requires order.Valid()
  {
    if events == [] then 0.0
    else Offered(order, events[..|events| - 1], rate) + OfferedBy(order, events[|events| - 1], rate)
  }

  lemma {:induction false} SoloStepBounds(order: OrderIntent, s: Progress, e: SimulationEvent, rate: real)
    requires order.Valid() && s.remaining >= 0.0
    ensures var p := SoloStep(order, s, e, rate);
            && p.remaining == Max(0.0, s.remaining - OfferedBy(order, e, rate))
            && (|| (p == s)
                || (&& |p.done| == |s.done| + 1 && p.done[..|s.done|] == s.done
                    && MadeAgainst(order, p.done[|s.done|], e, rate)
                    && p.done[|s.done|].filled + p.remaining == s.remaining))
  {
  }

  // At every point of a run: filled + remaining = requested; the order has taken exactly what the quotes it met had
  // to offer, up to its size; and each fill is in the bounds of a quote of its own.
  lemma {:induction false} FillBounds(order: OrderIntent, events: seq<SimulationEvent>, rate: real)
    requires order.Valid()
    ensures var p := Solo(order, events, rate);
            && p.remaining >= 0.0
            && Filled(p.done) + p.remaining == order.legs[0].quantity
            && Filled(p.done) == Min(order.legs[0].quantity, Offered(order, events, rate))
            && EachAgainstItsOwn(order, p.done, events, rate)
  {
    if events == [] {
      assert MadeInTurn(order, [], events, rate, []);
    } else {
      var before, e := events[..|events| - 1], events[|events| - 1];
      FillBounds(order, before, rate);
      SoloStepBounds(order, Solo(order, before, rate), e, rate);
      OneMore(order, Solo(order, before, rate), events, rate);
    }
  }

  lemma {:induction false} OneMore(order: OrderIntent, s: Progress, events: seq<SimulationEvent>, rate: real)
    requires order.Valid() && events != [] && s.remaining >= 0.0
    requires EachAgainstItsOwn(order, s.done, events[..|events| - 1], rate)
    ensures var p := SoloStep(order, s, events[|events| - 1], rate);
            EachAgainstItsOwn(order, p.done, events, rate)
                && Filled(p.done) + p.remaining == Filled(s.done) + s.remaining
  {
    hide SoloStep, MadeAgainst;
    var n := |events| - 1;
    var p := SoloStep(order, s, events[n], rate);
    var at :| MadeInTurn(order, s.done, events[..n], rate, at);
    SoloStepBounds(order, s, events[n], rate);
    if p == s {
      assert MadeInTurn(order, p.done, events, rate, at);
    } else {
      assert MadeInTurn(order, p.done, events, rate, at + [n]) by {
        assert forall k :: 0 <= k < |at| ==> p.done[k] == p.done[..|s.done|][k] == s.done[k];
      }
    }
  }

  // The same of the joint run: whatever runs beside it, an order gets what its own quotes had to offer.
  lemma {:induction false} JointFillBounds(orders: seq<OrderIntent>, events: seq<SimulationEvent>, i: nat, rate: real,
      seed: int)
    requires ValidOrders(orders) && DistinctOrderIds(orders) && i < |orders|
    ensures var s := RunOver(Start(orders), events, rate, seed);
            var mine := Executions(OfOrder(s.fills, orders[i].orderId));
            && Filled(mine) + s.orders[i].remaining == orders[i].legs[0].quantity
            && 0.0 <= s.orders[i].remaining
            && Filled(mine) == Min(orders[i].legs[0].quantity, Offered(orders[i], events, rate))
            && EachAgainstItsOwn(orders[i], mine, events, rate)
  {
    RunTracks(orders, events, i, rate, seed);
    FillBounds(orders[i], events, rate);
  }

  // Two runs on permutations of the same events with distinct ids agree in fills, book and journal.
  lemma {:induction false} PermutationDeterminism(events: seq<SimulationEvent>, shuffled: seq<SimulationEvent>,
      orders: seq<OrderIntent>, rate: real, seed: int)
    requires ValidOrders(orders) && multiset(shuffled) == multiset(events) && DistinctIds(events)
    ensures RunOver(Start(orders), SortEvents(shuffled), rate, seed)
        == RunOver(Start(orders), SortEvents(events), rate, seed)
    ensures Journal(SortEvents(shuffled)) == Journal(SortEvents(events))
  {
    SortDeterminism(events);
    assert StableSort.Sort(shuffled, EventLe) == StableSort.Sort(events, EventLe);
  }

  // ---------- conservation over the whole run ----------

  function Signed(side: Side, quantity: real): real {
    if side == BUY then quantity else -quantity
  }

  // What executions on one side have cost, sales counting as income.
  function Spent(side: Side, done: seq<Execution>): real {
    if done == [] then 0.0
    else Spent(side, done[..|done| - 1]) + Outlay(done[|done| - 1].filled, side, done[|done| - 1].price)
  }

  // What the orders on instrument k have executed so far, buys positive and sells negative.
  function NetDone(vs: seq<OrderView>, k: string): real {
    if vs == [] then 0.0 else NetDone(vs[..|vs| - 1], k) + NetOfOrder(vs[|vs| - 1], k)
  }

  function NetOfOrder(v: OrderView, k: string): real {
    if !v.Valid() || v.Leg().instrumentId != k then 0.0
    else Signed(v.Leg().side, Filled(Executions(v.fills)))
  }

  function SpentByAll(vs: seq<OrderView>): real {
    if vs == [] then 0.0 else SpentByAll(vs[..|vs| - 1]) + SpentByOrder(vs[|vs| - 1])
  }

  function SpentByOrder(v: OrderView): real {
    if !v.Valid() then 0.0 else Spent(v.Leg().side, Executions(v.fills))
  }

  function FillCount(vs: seq<OrderView>): nat {
    if vs == [] then 0 else FillCount(vs[..|vs| - 1]) + |vs[|vs| - 1].fills|
  }

  lemma {:induction false} TotalsUpdate(vs: seq<OrderView>, j: nat, v: OrderView, k: string)
    requires j < |vs|
    ensures NetDone(vs[j := v], k) == NetDone(vs, k) - NetOfOrder(vs[j], k) + NetOfOrder(v, k)
    ensures SpentByAll(vs[j := v]) == SpentByAll(vs) - SpentByOrder(vs[j]) + SpentByOrder(v)
    ensures FillCount(vs[j := v]) == FillCount(vs) - |vs[j].fills| + |v.fills|
  {
    var n := |vs| - 1;
    if j == n {
      assert vs[j := v][..n] == vs[..n];
    } else {
      assert vs[j := v][..n] == vs[..n][j := v];
      TotalsUpdate(vs[..n], j, v, k);
    }
  }

  // Every quote of the stream is in the currency; one that names none is in won.
  predicate QuotesIn(events: seq<SimulationEvent>, currency: string) {
    forall j :: 0 <= j < |events| && IsQuote(events[j]) ==> QuoteIn(events[j].payload.quote, currency)
  }

  predicate QuoteIn(q: MarketQuote, currency: string) {
    (if q.currency.Some? then q.currency.value else "KRW") == currency
  }

  ghost predicate Conserves(s: EngineState, k: string) {
    && At(s.book.positions, k) == NetDone(s.orders, k)
    && |s.fills| == FillCount(s.orders)
  }

  ghost predicate PaidFor(s: EngineState, currency: string) {
    At(s.book.cash, currency) == -SpentByAll(s.orders)
  }

  lemma {:induction false} OfferConserves(s: EngineState, j: nat, q: MarketQuote, rate: real, seed: int, k: string)
    requires Ready(s) && Conserves(s, k) && j < |s.orders|
    ensures Conserves(OfferOne(s, j, q, rate, seed), k)
    ensures forall c :: QuoteIn(q, c) && PaidFor(s, c) ==> PaidFor(OfferOne(s, j, q, rate, seed), c)
  {
    var v := s.orders[j];
    match Taken(v, q, rate)
    case None =>
    case Some(e) =>
      var fill := PaperFill(FillId(seed, |s.fills| + 1), e);
      TotalsUpdate(s.orders, j, v.(remaining := e.unfilled, fills := v.fills + [fill]), k);
      AppendedTotals(v.Leg().side, v.fills, fill);
  }

  lemma {:induction false} AppendedTotals(side: Side, fills: seq<PaperFill>, f: PaperFill)
    ensures Filled(Executions(fills + [f])) == Filled(Executions(fills)) + f.execution.filled
    ensures Spent(side, Executions(fills + [f])) == Spent(side, Executions(fills))
        + Outlay(f.execution.filled, side, f.execution.price)
  {
    Appended(fills, f, "");
    assert (Executions(fills) + [f.execution])[..|Executions(fills)|] == Executions(fills);
  }

  lemma {:induction false} OfferUpToConserves(s: EngineState, n: nat, q: MarketQuote, rate: real, seed: int, k: string)
    requires Ready(s) && Conserves(s, k) && n <= |s.orders|
    ensures Conserves(OfferUpTo(s, n, q, rate, seed), k)
    ensures forall c :: QuoteIn(q, c) && PaidFor(s, c) ==> PaidFor(OfferUpTo(s, n, q, rate, seed), c)
  {
    if n > 0 {
      OfferUpToConserves(s, n - 1, q, rate, seed, k);
      OfferConserves(OfferUpTo(s, n - 1, q, rate, seed), n - 1, q, rate, seed, k);
    }
  }

  lemma {:induction false} NothingDoneYet(vs: seq<OrderView>, k: string)
    requires forall j :: 0 <= j < |vs| ==> vs[j].Valid() && vs[j].fills == []
    ensures NetDone(vs, k) == 0.0 && SpentByAll(vs) == 0.0 && FillCount(vs) == 0
  {
    if vs != [] {
      NothingDoneYet(vs[..|vs| - 1], k);
    }
  }

  // Over every run the ledger's position in an instrument is what the fills of its orders add up to, buys minus
  // sells; the run's fills are as many as the orders'; and the cash is what those fills earned and cost.
  lemma {:induction false} PositionConservation(orders: seq<OrderIntent>, events: seq<SimulationEvent>, rate: real,
      seed: int, k: string)
    requires ValidOrders(orders)
    ensures Conserves(RunOver(Start(orders), events, rate, seed), k)
    ensures forall c :: QuotesIn(events, c) ==> PaidFor(RunOver(Start(orders), events, rate, seed), c)
  {
    if events == [] {
      NothingDoneYet(Start(orders).orders, k);
    } else {
      var before, e := events[..|events| - 1], events[|events| - 1];
      PositionConservation(orders, before, rate, seed, k);
      var s := RunOver(Start(orders), before, rate, seed);
      forall c | QuotesIn(events, c)
        ensures QuotesIn(before, c) && (IsQuote(e) ==> QuoteIn(e.payload.quote, c))
      {
      }
      if IsQuote(e) {
        OfferUpToConserves(s, |s.orders|, e.payload.quote, rate, seed, k);
      }
    }
  }

  // ---------- the ledger of a whole run ----------

  // The ledger fill has the quantity and price of the fill, and instrument and side of the order that holds the fill.
  ghost predicate BookedAs(s: EngineState, f: PaperFill, b: LedgerFill) {
    && b.quantity == f.execution.filled && b.price == f.execution.price
    && exists j :: 0 <= j < |s.orders| && HeldBy(s.orders[j], f, b)
  }

  predicate HeldBy(v: OrderView, f: PaperFill, b: LedgerFill) {
    f in v.fills && v.Valid() && f.execution.orderId == v.order.orderId && f.execution.legId == v.Leg().legId
    && b.instrument == v.Leg().instrumentId && b.side == v.Leg().side
  }

  // The ledger has been applied to exactly the run's fills, in their order.
  ghost predicate Booked(s: EngineState, booked: seq<LedgerFill>) {
    && s.book == AppliedAll(booked) && |booked| == |s.fills|
    && forall i :: 0 <= i < |booked| ==> BookedAs(s, s.fills[i], booked[i])
  }

  // A later offer takes nothing away from an order.
  lemma {:induction false} StillHeld(s: EngineState, j: nat, q: MarketQuote, rate: real, seed: int, f: PaperFill,
      b: LedgerFill)
    requires Ready(s) && j < |s.orders| && BookedAs(s, f, b)
    ensures BookedAs(OfferOne(s, j, q, rate, seed), f, b)
  {
    var t := OfferOne(s, j, q, rate, seed);
    var k :| 0 <= k < |s.orders| && HeldBy(s.orders[k], f, b);
    assert HeldBy(t.orders[k], f, b);
  }

  lemma {:induction false} OneBooked(s: EngineState, j: nat, q: MarketQuote, rate: real, seed: int,
      booked: seq<LedgerFill>)
    returns (more: seq<LedgerFill>)
    requires Ready(s) && j < |s.orders| && Booked(s, booked)
    ensures Booked(OfferOne(s, j, q, rate, seed), more)
    ensures forall c :: QuoteIn(q, c) && InCurrency(booked, c) ==> InCurrency(more, c)
  {
    more := booked;
    var t := OfferOne(s, j, q, rate, seed);
    forall i | 0 <= i < |booked|
      ensures BookedAs(t, s.fills[i], booked[i])
    {
      StillHeld(s, j, q, rate, seed, s.fills[i], booked[i]);
    }
    var taken := Taken(s.orders[j], q, rate);
    if taken.Some? {
      var next := Booking(s.orders[j].Leg(), taken.value, q);
      assert (booked + [next])[..|booked|] == booked;
      assert HeldBy(t.orders[j], t.fills[|s.fills|], next);
      more := booked + [next];
    }
  }

  lemma {:induction false} OfferBooked(s: EngineState, n: nat, q: MarketQuote, rate: real, seed: int,
      booked: seq<LedgerFill>) returns (more: seq<LedgerFill>)
    requires Ready(s) && n <= |s.orders| && Booked(s, booked)
    ensures Booked(OfferUpTo(s, n, q, rate, seed), more)
    ensures forall c :: QuoteIn(q, c) && InCurrency(booked, c) ==> InCurrency(more, c)
  {
    hide OfferOne;
    more := booked;
    if n > 0 {
      var before := OfferBooked(s, n - 1, q, rate, seed, booked);
      more := OneBooked(OfferUpTo(s, n - 1, q, rate, seed), n - 1, q, rate, seed, before);
    }
  }

  // The accounting identity of a whole engine run: there is the list of fills the ledger was given, and cash plus cost
  // basis is realised profit plus the error of the missed reversals among them.
  lemma {:induction false} EngineIdentity(orders: seq<OrderIntent>, events: seq<SimulationEvent>, rate: real, seed: int,
      currency: string)
    returns (booked: seq<LedgerFill>)
    requires ValidOrders(orders) && QuotesIn(events, currency)
    ensures var s := RunOver(Start(orders), events, rate, seed);
            Booked(s, booked) && InCurrency(booked, currency) && Defect(s.book, currency) == TotalError(booked)
  {
    booked := [];
    if events != [] {
      var before, e := events[..|events| - 1], events[|events| - 1];
      assert forall j :: 0 <= j < |before| ==> before[j] == events[j];
      booked := EngineIdentity(orders, before, rate, seed, currency);
      var s := RunOver(Start(orders), before, rate, seed);
      if IsQuote(e) {
        booked := OfferBooked(s, |s.orders|, e.payload.quote, rate, seed, booked);
      }
    }
    AccountingIdentity(booked, currency);
  }
}

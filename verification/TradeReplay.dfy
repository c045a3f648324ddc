/** The daily-proxy replay: two orders and two quotes per trade candidate, run through the engine fold by fold. */
module TradeReplay {
  import opened Numbers
  import opened Wrappers
  import opened SimulationEvents
  import opened Portfolio
  import opened Backtest
  import opened OrderProjection

  datatype SignalDirection = LONG | SHORT

  datatype Bar = Bar(instrumentId: string, open: real, close: real, volume: real)

  // `signalDate` is the ISO text of the trading date.
  datatype Candidate = Candidate(signalDate: string, direction: SignalDirection, bar: Bar, replayOpen: int)

  const INSTRUMENT := "KRX_000660_COMMON_STOCK"

  function Depth(bar: Bar): (d: real)
    ensures d >= 1.0
  {
    Max(bar.volume, 1.0)
  }

  function QuoteAt(bar: Bar, price: real, time: int): MarketQuote {
    MarketQuote(bar.instrumentId, time, price, price, Depth(bar), Depth(bar), [], Some("KRW"))
  }

  function EntryId(date: string): string { "daily-proxy-entry:" + date }
  function ExitId(date: string): string { "daily-proxy-exit:" + date }

  function OrderOf(id: string, side: Side, price: real, quantity: real, created: int, expires: int): OrderIntent {
    OrderIntent(id, [OrderLeg("leg:" + id, INSTRUMENT, side, quantity, price)], created, expires)
  }

  function EntrySide(d: SignalDirection): Side { if d == LONG then BUY else SELL }
  function ExitSide(d: SignalDirection): Side { if d == LONG then SELL else BUY }

  function EntryOrder(c: Candidate, quantity: real): OrderIntent {
    OrderOf(EntryId(c.signalDate), EntrySide(c.direction), c.bar.open, quantity, c.replayOpen - 1, c.replayOpen + 1)
  }

  function ExitOrder(c: Candidate, quantity: real): OrderIntent {
    OrderOf(ExitId(c.signalDate), ExitSide(c.direction), c.bar.close, quantity, c.replayOpen + 1, c.replayOpen + 4)
  }

  function OpenEvent(c: Candidate): SimulationEvent {
    SimulationEvent("krx-daily-open:" + c.signalDate, c.replayOpen, c.replayOpen, "KRX", "quote", None,
                    QuotePayload(QuoteAt(c.bar, c.bar.open, c.replayOpen)))
  }

  function CloseEvent(c: Candidate): SimulationEvent {
    SimulationEvent("krx-daily-close:" + c.signalDate, c.replayOpen + 3, c.replayOpen + 3, "KRX", "quote", None,
                    QuotePayload(QuoteAt(c.bar, c.bar.close, c.replayOpen + 3)))
  }

  function ReplayEvents(cs: seq<Candidate>): seq<SimulationEvent> {
    if cs == [] then []
    else var c := cs[|cs| - 1]; ReplayEvents(cs[..|cs| - 1]) + [OpenEvent(c), CloseEvent(c)]
  }

  function ReplayOrders(cs: seq<Candidate>, quantity: real): seq<OrderIntent> {
    if cs == [] then []
    else
      var c := cs[|cs| - 1];
      ReplayOrders(cs[..|cs| - 1], quantity) + [EntryOrder(c, quantity), ExitOrder(c, quantity)]
  }

  /**
    What the candidate builder guarantees of one fold: the bars are those of the one instrument, the dates
    differ, and the replay times are a base plus a hundred ticks per bar index.
   */
  ghost predicate FoldReady(cs: seq<Candidate>) {
    && (forall i :: 0 <= i < |cs| ==>
          cs[i].bar.instrumentId == INSTRUMENT && cs[i].bar.open >= 0.0 && cs[i].bar.close >= 0.0)
    && (forall i, j :: 0 <= i < j < |cs| ==> cs[i].signalDate != cs[j].signalDate)
    && (forall i, j :: 0 <= i < j < |cs| ==>
          cs[i].replayOpen + 100 <= cs[j].replayOpen || cs[j].replayOpen + 100 <= cs[i].replayOpen)
  }

  // ---------- positions of events and orders ----------

  lemma {:induction false} EventsAt(cs: seq<Candidate>)
    ensures |ReplayEvents(cs)| == 2 * |cs|
    ensures forall i :: 0 <= i < |cs| ==> ReplayEvents(cs)[2 * i] == OpenEvent(cs[i])
    ensures forall i :: 0 <= i < |cs| ==> ReplayEvents(cs)[2 * i + 1] == CloseEvent(cs[i])
  {
    if cs != [] {
      EventsAt(cs[..|cs| - 1]);
    }
  }

  lemma {:induction false} OrdersAt(cs: seq<Candidate>, quantity: real)
    ensures |ReplayOrders(cs, quantity)| == 2 * |cs|
    ensures forall i :: 0 <= i < |cs| ==> ReplayOrders(cs, quantity)[2 * i] == EntryOrder(cs[i], quantity)
    ensures forall i :: 0 <= i < |cs| ==> ReplayOrders(cs, quantity)[2 * i + 1] == ExitOrder(cs[i], quantity)
  {
    if cs != [] {
      OrdersAt(cs[..|cs| - 1], quantity);
    }
  }

  lemma {:induction false} IdsDiffer(a: string, b: string)
    ensures EntryId(a) != ExitId(b)
    ensures EntryId(a) == EntryId(b) ==> a == b
    ensures ExitId(a) == ExitId(b) ==> a == b
    ensures OpenId(a) != CloseId(b)
    ensures OpenId(a) == OpenId(b) ==> a == b
    ensures CloseId(a) == CloseId(b) ==> a == b
  {
    assert EntryId(a)[13] == 'n' && ExitId(b)[13] == 'x';
    assert EntryId(a)[18..] == a && EntryId(b)[18..] == b;
    assert ExitId(a)[17..] == a && ExitId(b)[17..] == b;
    assert OpenId(a)[10] == 'o' && CloseId(b)[10] == 'c';
    assert OpenId(a)[15..] == a && OpenId(b)[15..] == b;
    assert CloseId(a)[16..] == a && CloseId(b)[16..] == b;
  }

  function OpenId(date: string): string { "krx-daily-open:" + date }
  function CloseId(date: string): string { "krx-daily-close:" + date }

  // ---------- an order that meets exactly one quote ----------

  predicate InWindow(order: OrderIntent, e: SimulationEvent) {
    IsQuote(e) && order.createdAt < e.payload.quote.eventTime <= order.expiresAt
  }

  lemma {:induction false} SoloIdle(order: OrderIntent, events: seq<SimulationEvent>, rate: real)
    requires order.Valid() && forall j :: 0 <= j < |events| ==> !InWindow(order, events[j])
    ensures Solo(order, events, rate) == Progress(order.legs[0].quantity, [])
  {
    if events != [] {
      SoloIdle(order, events[..|events| - 1], rate);
    }
  }

  lemma {:induction false} SoloMeetsOne(order: OrderIntent, events: seq<SimulationEvent>, k: nat, rate: real)
    requires order.Valid() && k < |events|
    requires forall j :: 0 <= j < |events| && j != k ==> !InWindow(order, events[j])
    ensures Solo(order, events, rate) == SoloStep(order, Progress(order.legs[0].quantity, []), events[k], rate)
  {
    var n := |events| - 1;
    if k == n {
      SoloIdle(order, events[..n], rate);
    } else {
      SoloMeetsOne(order, events[..n], k, rate);
    }
  }

  lemma {:induction false} ReplayEventIds(cs: seq<Candidate>)
    requires FoldReady(cs)
    ensures DistinctIds(ReplayEvents(cs))
  {
    EventsAt(cs);
    var es := ReplayEvents(cs);
    forall a, b | 0 <= a < b < |es|
      ensures es[a].eventId != es[b].eventId
    {
      IdsDiffer(cs[a / 2].signalDate, cs[b / 2].signalDate);
      IdsDiffer(cs[b / 2].signalDate, cs[a / 2].signalDate);
      EventNumber(cs, a);
      EventNumber(cs, b);
    }
  }

  // The a-th event and order of a fold: opens and entries at even places, closes and exits at odd ones.
  function EventOf(cs: seq<Candidate>, a: nat): SimulationEvent
    requires a < 2 * |cs|
  {
    if a % 2 == 0 then OpenEvent(cs[a / 2]) else CloseEvent(cs[a / 2])
  }

  function OrderAt(cs: seq<Candidate>, quantity: real, a: nat): OrderIntent
    requires a < 2 * |cs|
  {
    if a % 2 == 0 then EntryOrder(cs[a / 2], quantity) else ExitOrder(cs[a / 2], quantity)
  }

  lemma {:induction false} EventNumber(cs: seq<Candidate>, a: nat)
    requires a < 2 * |cs|
    ensures |ReplayEvents(cs)| == 2 * |cs| && ReplayEvents(cs)[a] == EventOf(cs, a)
  {
    EventsAt(cs);
    assert a == 2 * (a / 2) + a % 2;
  }

  lemma {:induction false} OrderNumber(cs: seq<Candidate>, quantity: real, a: nat)
    requires a < 2 * |cs|
    ensures |ReplayOrders(cs, quantity)| == 2 * |cs| && ReplayOrders(cs, quantity)[a] == OrderAt(cs, quantity, a)
  {
    OrdersAt(cs, quantity);
    assert a == 2 * (a / 2) + a % 2;
  }

  lemma {:induction false} ReplayOrdersReady(cs: seq<Candidate>, quantity: real)
    requires FoldReady(cs) && quantity > 0.0
    ensures ValidOrders(ReplayOrders(cs, quantity)) && DistinctOrderIds(ReplayOrders(cs, quantity))
  {
    OrdersAt(cs, quantity);
    var os := ReplayOrders(cs, quantity);
    forall a | 0 <= a < |os|
      ensures os[a].Valid()
    {
      OrderNumber(cs, quantity, a);
    }
    forall a, b | 0 <= a < b < |os|
      ensures os[a].orderId != os[b].orderId
    {
      IdsDiffer(cs[a / 2].signalDate, cs[b / 2].signalDate);
      IdsDiffer(cs[b / 2].signalDate, cs[a / 2].signalDate);
      OrderNumber(cs, quantity, a);
      OrderNumber(cs, quantity, b);
    }
  }

  // Of all the events of a fold, an order's window admits only its own quote.
  lemma {:induction false} OwnQuoteOnly(cs: seq<Candidate>, i: nat, quantity: real, b: nat)
    requires FoldReady(cs) && i < |cs| && b < 2 * |cs|
    ensures InWindow(EntryOrder(cs[i], quantity), EventOf(cs, b)) <==> b == 2 * i
    ensures InWindow(ExitOrder(cs[i], quantity), EventOf(cs, b)) <==> b == 2 * i + 1
  {
    var j := b / 2;
    assert j == i || cs[i].replayOpen + 100 <= cs[j].replayOpen || cs[j].replayOpen + 100 <= cs[i].replayOpen;
  }

  // Distinct events keep their place when sorted: each is found at exactly one index.
  lemma {:induction false} FoundOnce(es: seq<SimulationEvent>, b: nat) returns (k: nat)
    requires DistinctIds(es) && b < |es|
    ensures |SortEvents(es)| == |es| && k < |es| && SortEvents(es)[k] == es[b]
    ensures forall j :: 0 <= j < |es| && j != k ==> SortEvents(es)[j] != es[b] && SortEvents(es)[j] in es
  {
    SortedByTime(es);
    var s := SortEvents(es);
    assert es[b] in multiset(s);
    k :| 0 <= k < |s| && s[k] == es[b];
    forall j | 0 <= j < |s| && j != k
      ensures s[j] != es[b] && s[j] in es
    {
      assert s[j] in multiset(es);
      if s[j] == es[b] {
        TwiceCounts(s, j, k);
        OnceCounts(es, b);
      }
    }
  }

  lemma {:induction false} TwiceCounts<T>(s: seq<T>, j: nat, k: nat)
    requires j < |s| && k < |s| && j != k && s[j] == s[k]
    ensures multiset(s)[s[j]] >= 2
  {
    var a, b := if j < k then j else k, if j < k then k else j;
    assert s == s[..a] + [s[a]] + s[a + 1..b] + [s[b]] + s[b + 1..];
  }

  lemma {:induction false} OnceCounts(es: seq<SimulationEvent>, b: nat)
    requires DistinctIds(es) && b < |es|
    ensures multiset(es)[es[b]] == 1
  {
    assert es == es[..b] + [es[b]] + es[b + 1..];
    assert es[b] !in es[..b] && es[b] !in es[b + 1..];
  }

  // ---------- the executions of one candidate ----------

  function EntryExecution(c: Candidate, quantity: real): Execution {
    var m := Min(quantity, Depth(c.bar));
    Execution(EntryId(c.signalDate), "leg:" + EntryId(c.signalDate), m, quantity - m, c.bar.open, 0.0, c.replayOpen,
              if quantity <= Depth(c.bar) then FILLED else PARTIALLY_FILLED)
  }

  function ExitExecution(c: Candidate, quantity: real): Execution {
    var m := Min(quantity, Depth(c.bar));
    Execution(ExitId(c.signalDate), "leg:" + ExitId(c.signalDate), m, quantity - m, c.bar.close, 0.0, c.replayOpen + 3,
              if quantity <= Depth(c.bar) then FILLED else PARTIALLY_FILLED)
  }

  lemma {:induction false} StepFills(c: Candidate, quantity: real)
    requires quantity > 0.0 && c.bar.instrumentId == INSTRUMENT && c.bar.open >= 0.0 && c.bar.close >= 0.0
    ensures var m := Min(quantity, Depth(c.bar));
            && SoloStep(EntryOrder(c, quantity), Progress(quantity, []), OpenEvent(c), 1.0)
               == Progress(quantity - m, [EntryExecution(c, quantity)])
            && SoloStep(ExitOrder(c, quantity), Progress(quantity, []), CloseEvent(c), 1.0)
               == Progress(quantity - m, [ExitExecution(c, quantity)])
  {
  }

  lemma {:induction false} SoloOfReplay(cs: seq<Candidate>, quantity: real, a: nat)
    requires FoldReady(cs) && quantity > 0.0 && a < 2 * |cs|
    ensures var order, c := OrderAt(cs, quantity, a), cs[a / 2];
            && order.Valid()
            && Solo(order, SortEvents(ReplayEvents(cs)), 1.0)
               == Progress(quantity - Min(quantity, Depth(c.bar)),
                           [if a % 2 == 0 then EntryExecution(c, quantity) else ExitExecution(c, quantity)])
  {
    var es, i := ReplayEvents(cs), a / 2;
    EventNumber(cs, a);
    ReplayEventIds(cs);
    var order := OrderAt(cs, quantity, a);
    var k := FoundOnce(es, a);
    forall j | 0 <= j < |es| && j != k
      ensures !InWindow(order, SortEvents(es)[j])
    {
      var b :| 0 <= b < |es| && es[b] == SortEvents(es)[j];
      EventNumber(cs, b);
      OwnQuoteOnly(cs, i, quantity, b);
    }
    SoloMeetsOne(order, SortEvents(es), k, 1.0);
    StepFills(cs[i], quantity);
  }

  // ---------- the whole fold ----------

  // {fill.order_id: fill for fill in fills}
  function ByOrder(fills: seq<PaperFill>): map<string, PaperFill> {
    if fills == [] then map[]
    else var last := fills[|fills| - 1]; ByOrder(fills[..|fills| - 1])[last.execution.orderId := last]
  }

  lemma {:induction false} ByOrderFinds(fills: seq<PaperFill>, id: string)
    ensures id in ByOrder(fills) <==> OfOrder(fills, id) != []
    ensures id in ByOrder(fills) ==> ByOrder(fills)[id] == OfOrder(fills, id)[|OfOrder(fills, id)| - 1]
  {
    if fills != [] {
      ByOrderFinds(fills[..|fills| - 1], id);
    }
  }

  function ReplayEnd(cs: seq<Candidate>, quantity: real, seed: int): EngineState
    requires ValidOrders(ReplayOrders(cs, quantity))
  {
    RunOver(Start(ReplayOrders(cs, quantity)), SortEvents(ReplayEvents(cs)), 1.0, seed)
  }

  lemma {:induction false} ExecutionsLength(fills: seq<PaperFill>)
    ensures |Executions(fills)| == |fills|
  {
    if fills != [] {
      ExecutionsLength(fills[..|fills| - 1]);
    }
  }

  lemma {:induction false} SingleExecution(fills: seq<PaperFill>, x: Execution)
    requires Executions(fills) == [x]
    ensures |fills| == 1 && fills[0].execution == x
  {
    ExecutionsLength(fills);
    assert Executions(fills) == Executions(fills[..0]) + [fills[0].execution];
    assert Executions(fills)[0] == fills[0].execution;
  }

  // In the joint run, order a has exactly one fill, the execution of its own candidate at its own price.
  lemma {:induction false} ReplayOrderEnds(cs: seq<Candidate>, quantity: real, seed: int, a: nat)
    requires FoldReady(cs) && quantity > 0.0 && a < 2 * |cs| && ValidOrders(ReplayOrders(cs, quantity))
    ensures var s, c := ReplayEnd(cs, quantity, seed), cs[a / 2];
            var x := if a % 2 == 0 then EntryExecution(c, quantity) else ExitExecution(c, quantity);
            && |s.orders| == 2 * |cs|
            && s.orders[a].order == OrderAt(cs, quantity, a)
            && s.orders[a].remaining == quantity - Min(quantity, Depth(c.bar))
            && |s.orders[a].fills| == 1 && s.orders[a].fills[0].execution == x
            && x.orderId in ByOrder(s.fills) && ByOrder(s.fills)[x.orderId].execution == x
  {
    ReplayOrdersReady(cs, quantity);
    OrderNumber(cs, quantity, a);
    SoloOfReplay(cs, quantity, a);
    var orders := ReplayOrders(cs, quantity);
    RunTracks(orders, SortEvents(ReplayEvents(cs)), a, 1.0, seed);
    var s := ReplayEnd(cs, quantity, seed);
    var x := if a % 2 == 0 then EntryExecution(cs[a / 2], quantity) else ExitExecution(cs[a / 2], quantity);
    SingleExecution(s.orders[a].fills, x);
    ByOrderFinds(s.fills, x.orderId);
  }

  // What the trade really earned: the cash of its two executions.
  function Earned(c: Candidate, quantity: real): real {
    Gross(c.direction, EntryExecution(c, quantity).price, ExitExecution(c, quantity).price,
        EntryExecution(c, quantity).filled)
  }

  function EarnedByAll(cs: seq<Candidate>, quantity: real): real {
    if cs == [] then 0.0 else EarnedByAll(cs[..|cs| - 1], quantity) + Earned(cs[|cs| - 1], quantity)
  }

  lemma {:induction false} TwoMore(vs: seq<OrderView>, n: nat)
    requires |vs| == n + 2
    ensures NetDone(vs, INSTRUMENT) == NetDone(vs[..n], INSTRUMENT) + NetOfOrder(vs[n], INSTRUMENT)
        + NetOfOrder(vs[n + 1], INSTRUMENT)
    ensures SpentByAll(vs) == SpentByAll(vs[..n]) + SpentByOrder(vs[n]) + SpentByOrder(vs[n + 1])
    ensures FillCount(vs) == FillCount(vs[..n]) + |vs[n].fills| + |vs[n + 1].fills|
  {
    assert vs[..n + 1][..n] == vs[..n];
  }

  // Both orders of candidate c are done: one fill each, no position left, and the cash is the trade's.
  ghost predicate Settled(c: Candidate, quantity: real, entry: OrderView, exit: OrderView) {
    && |entry.fills| == 1 && |exit.fills| == 1
    && NetOfOrder(entry, INSTRUMENT) + NetOfOrder(exit, INSTRUMENT) == 0.0
    && SpentByOrder(entry) + SpentByOrder(exit) == -Earned(c, quantity)
  }

  lemma {:induction false} PairsCancel(vs: seq<OrderView>, cs: seq<Candidate>, quantity: real)
    requires |vs| == 2 * |cs| && forall i :: 0 <= i < |cs| ==> Settled(cs[i], quantity, vs[2 * i], vs[2 * i + 1])
    ensures NetDone(vs, INSTRUMENT) == 0.0 && FillCount(vs) == 2 * |cs|
    ensures SpentByAll(vs) == -EarnedByAll(cs, quantity)
  {
    if cs != [] {
      var n := |cs| - 1;
      TwoMore(vs, 2 * n);
      PairsCancel(vs[..2 * n], cs[..n], quantity);
      assert Settled(cs[n], quantity, vs[2 * n], vs[2 * n + 1]);
    }
  }

  lemma {:induction false} OneFill(v: OrderView, x: Execution)
    requires v.Valid() && |v.fills| == 1 && v.fills[0].execution == x
    ensures NetOfOrder(v, v.Leg().instrumentId) == Signed(v.Leg().side, x.filled)
    ensures SpentByOrder(v) == Outlay(x.filled, v.Leg().side, x.price)
  {
    assert v.fills == [] + [v.fills[0]];
    AppendedTotals(v.Leg().side, [], v.fills[0]);
  }

  lemma {:induction false} RoundTripEarns(direction: SignalDirection, open: real, close: real, m: real)
    ensures Outlay(m, EntrySide(direction), open) + Outlay(m, ExitSide(direction), close)
        == -Gross(direction, open, close, m)
  {
    Spread(m, open, close, (open - close) * m);
    Spread(m, close, open, (close - open) * m);
  }

  lemma {:induction false} PairCancels(cs: seq<Candidate>, quantity: real, seed: int, i: nat)
    requires FoldReady(cs) && quantity > 0.0 && i < |cs| && ValidOrders(ReplayOrders(cs, quantity))
    ensures var vs := ReplayEnd(cs, quantity, seed).orders;
            && |vs| == 2 * |cs|
            && Settled(cs[i], quantity, vs[2 * i], vs[2 * i + 1])
  {
    var vs, c := ReplayEnd(cs, quantity, seed).orders, cs[i];
    ReplayOrderEnds(cs, quantity, seed, 2 * i);
    ReplayOrderEnds(cs, quantity, seed, 2 * i + 1);
    OneFill(vs[2 * i], EntryExecution(c, quantity));
    OneFill(vs[2 * i + 1], ExitExecution(c, quantity));
    RoundTripEarns(c.direction, c.bar.open, c.bar.close, Min(quantity, Depth(c.bar)));
  }

  lemma {:induction false} ReplayQuotesInWon(cs: seq<Candidate>)
    ensures QuotesIn(SortEvents(ReplayEvents(cs)), "KRW")
  {
    var es := ReplayEvents(cs);
    SortedByTime(es);
    EventsAt(cs);
    forall j | 0 <= j < |es|
      ensures IsQuote(SortEvents(es)[j]) && QuoteIn(SortEvents(es)[j].payload.quote, "KRW")
    {
      assert SortEvents(es)[j] in multiset(es);
      var b :| 0 <= b < |es| && es[b] == SortEvents(es)[j];
      EventNumber(cs, b);
    }
  }

  // The replay of any fold: two fills per candidate; the ledger ends flat, and its cash is what the trades earned.
  lemma {:induction false} ReplayEndsFlat(cs: seq<Candidate>, quantity: real, seed: int)
    requires FoldReady(cs) && quantity > 0.0 && ValidOrders(ReplayOrders(cs, quantity))
    ensures var s := ReplayEnd(cs, quantity, seed);
            && |s.fills| == 2 * |cs| && At(s.book.positions, INSTRUMENT) == 0.0
            && At(s.book.cash, "KRW") == EarnedByAll(cs, quantity)
  {
    var s := ReplayEnd(cs, quantity, seed);
    ReplayQuotesInWon(cs);
    PositionConservation(ReplayOrders(cs, quantity), SortEvents(ReplayEvents(cs)), 1.0, seed, INSTRUMENT);
    OrdersAt(cs, quantity);
    forall i | 0 <= i < |cs|
      ensures Settled(cs[i], quantity, s.orders[2 * i], s.orders[2 * i + 1])
    {
      PairCancels(cs, quantity, seed, i);
    }
    PairsCancel(s.orders, cs, quantity);
  }

  datatype Trade = Trade(date: string, grossPnl: real)

  function Gross(direction: SignalDirection, open: real, close: real, quantity: real): real {
    if direction == LONG then (close - open) * quantity else (open - close) * quantity
  }

  // `missing` stands for the error raised when a candidate's entry or exit has no fill.
  method ExecuteFold(cs: seq<Candidate>, quantity: real, seed: int)
    returns (missing: bool, fillCount: nat, trades: seq<Trade>, portfolio: PortfolioLedger)
    requires FoldReady(cs) && quantity > 0.0
    ensures !missing && fillCount == 2 * |cs| && |trades| == |cs|
    ensures forall i :: 0 <= i < |cs| ==>
              trades[i] == Trade(cs[i].signalDate, Gross(cs[i].direction, cs[i].bar.open, cs[i].bar.close, quantity))
    ensures At(portfolio.View().positions, INSTRUMENT) == 0.0
        && At(portfolio.View().cash, "KRW") == EarnedByAll(cs, quantity)
    ensures fresh(portfolio)
  {
    var events: seq<SimulationEvent> := [];
    var orders: seq<OrderIntent> := [];
    for i := 0 to |cs|
      invariant events == ReplayEvents(cs[..i]) && orders == ReplayOrders(cs[..i], quantity)
    {
      assert cs[..i + 1][..i] == cs[..i];
      events := events + [OpenEvent(cs[i]), CloseEvent(cs[i])];
      orders := orders + [EntryOrder(cs[i], quantity), ExitOrder(cs[i], quantity)];
    }
    assert cs[..|cs|] == cs;
    ReplayOrdersReady(cs, quantity);
    ReplayEndsFlat(cs, quantity, seed);
    var rewound, fills, ledger, journal := RunBacktest(events, orders, 1.0, seed);
    portfolio := ledger;
    fillCount := |fills|;
    trades := TradesOf(cs, quantity, fills, seed);
    missing := |trades| < |cs|;
  }

  method TradesOf(cs: seq<Candidate>, quantity: real, fills: seq<PaperFill>, ghost seed: int)
      returns (trades: seq<Trade>)
    requires FoldReady(cs) && quantity > 0.0 && ValidOrders(ReplayOrders(cs, quantity))
    requires fills == ReplayEnd(cs, quantity, seed).fills
    ensures |trades| == |cs|
    ensures forall i :: 0 <= i < |cs| ==>
              trades[i] == Trade(cs[i].signalDate, Gross(cs[i].direction, cs[i].bar.open, cs[i].bar.close, quantity))
  {
    var byOrder := ByOrder(fills);
    trades := [];
    for i := 0 to |cs|
      invariant |trades| == i
      invariant forall k :: 0 <= k < i ==>
                  trades[k] == Trade(cs[k].signalDate,
                      Gross(cs[k].direction, cs[k].bar.open, cs[k].bar.close, quantity))
    {
      ReplayOrderEnds(cs, quantity, seed, 2 * i);
      ReplayOrderEnds(cs, quantity, seed, 2 * i + 1);
      var entryId, exitId := EntryId(cs[i].signalDate), ExitId(cs[i].signalDate);
      if entryId !in byOrder || exitId !in byOrder {
        assert false;
        return;
      }
      var entry, exit := byOrder[entryId].execution, byOrder[exitId].execution;
      trades := trades + [Trade(cs[i].signalDate, Gross(cs[i].direction, entry.price, exit.price, quantity))];
    }
  }

  // The reported profit is the earned one exactly when the day's volume covers the order, or the price stood still.
  lemma {:induction false} ReportedIffCovered(c: Candidate, quantity: real)
    requires quantity > 0.0
    ensures Gross(c.direction, c.bar.open, c.bar.close, quantity) == Earned(c, quantity)
            <==> quantity <= Max(c.bar.volume, 1.0) || c.bar.open == c.bar.close
    ensures EntryExecution(c, quantity).status == FILLED <==> quantity <= Max(c.bar.volume, 1.0)
  {
    var m := Min(quantity, Depth(c.bar));
  }

  // Ten ordered on a day with a volume of three, bought at 100 and sold at 110: the fold reports a profit of 100, and
  // the ledger holds 30.
  lemma {:induction false} ShortVolumeOverstates(seed: int)
    ensures var c := Candidate("2026-01-05", LONG, Bar(INSTRUMENT, 100.0, 110.0, 3.0), 1000);
            && FoldReady([c]) && ValidOrders(ReplayOrders([c], 10.0))
            && Gross(c.direction, c.bar.open, c.bar.close, 10.0) == 100.0
            && At(ReplayEnd([c], 10.0, seed).book.cash, "KRW") == 30.0
  {
    var c := Candidate("2026-01-05", LONG, Bar(INSTRUMENT, 100.0, 110.0, 3.0), 1000);
    ReplayOrdersReady([c], 10.0);
    ReplayEndsFlat([c], 10.0, seed);
    assert [c][..0] == [];
  }

  // ---------- where the candidates come from ----------

  datatype DailyBar = DailyBar(date: string, bar: Bar)

  const FIRST_BASIS := 19
  const REPLAY_SPACING := 100

  ghost predicate StoredBars(bars: seq<DailyBar>) {
    && (forall i :: 0 <= i < |bars| ==>
          bars[i].bar.instrumentId == INSTRUMENT && bars[i].bar.open >= 0.0 && bars[i].bar.close >= 0.0)
    && (forall i, j :: 0 <= i < j < |bars| ==> bars[i].date != bars[j].date)
  }

  function CandidateAt(bars: seq<DailyBar>, index: nat, direction: SignalDirection, replayBase: int): Candidate
    requires index + 1 < |bars|
  {
    Candidate(bars[index + 1].date, direction, bars[index + 1].bar, replayBase + (index + 1) * REPLAY_SPACING)
  }

  // Candidate i was built at bar index at[i], and the indices rise.
  ghost predicate BuiltAt(cs: seq<Candidate>, at: seq<nat>, bars: seq<DailyBar>, replayBase: int, end: int) {
    && |at| == |cs|
    && (forall i :: 0 <= i < |at| ==> FIRST_BASIS <= at[i] < end && at[i] + 1 < |bars|)
    && (forall i, j :: 0 <= i < j < |at| ==> at[i] < at[j])
    && (forall i :: 0 <= i < |cs| ==> cs[i] == CandidateAt(bars, at[i], cs[i].direction, replayBase))
  }

  // What feature and strategy make of the twenty bars up to a basis day: no fund snapshot on that day, an error, or a
  // feature with a direction or none.
  datatype Judgement = NoFunds | Failed | Judged(direction: Option<SignalDirection>)

  type Judge = seq<DailyBar> -> Judgement

  function Window(bars: seq<DailyBar>, index: nat): seq<DailyBar>
    requires FIRST_BASIS <= index < |bars|
  {
    bars[index - FIRST_BASIS..index + 1]
  }

  predicate Trades(j: Judgement) {
    j.Judged? && j.direction.Some?
  }

  // The candidates and the feature dates of the basis days before `end`.
  function Built(bars: seq<DailyBar>, judge: Judge, replayBase: int, end: nat): seq<Candidate>
    requires end < |bars| || end <= FIRST_BASIS
  {
    if end <= FIRST_BASIS then []
    else
      var k := end - 1;
      var j := judge(Window(bars, k));
      Built(bars, judge, replayBase, k)
      + (if Trades(j) then [CandidateAt(bars, k, j.direction.value, replayBase)] else [])
  }

  function FeatureDates(bars: seq<DailyBar>, judge: Judge, end: nat): seq<string>
    requires end < |bars| || end <= FIRST_BASIS
  {
    if end <= FIRST_BASIS then []
    else FeatureDates(bars, judge, end - 1) + (if judge(Window(bars, end - 1)).Judged? then [bars[end].date] else [])
  }

  ghost predicate BreaksBefore(bars: seq<DailyBar>, judge: Judge, end: nat) {
    exists k :: FIRST_BASIS <= k < end && k < |bars| && judge(Window(bars, k)).Failed?
  }

  // Where the basis days end: the last bar is only a target.
  function BasisEnd(bars: seq<DailyBar>): (end: nat)
    ensures end < |bars| || end <= FIRST_BASIS
  {
    if bars == [] then 0 else |bars| - 1
  }

  // `failed` stands for the error of the first basis day that has one. Otherwise every basis day with a direction gives
  // one candidate, in order of the days.
  method BuildCandidates(bars: seq<DailyBar>, judge: Judge, replayBase: int)
    returns (failed: bool, cs: seq<Candidate>, dates: seq<string>)
    ensures BuildOf(bars, judge, replayBase) == if failed then Broken else Made(cs, dates)
  {
    failed, cs, dates := false, [], [];
    var index := FIRST_BASIS;
    while index < |bars| - 1
      invariant FIRST_BASIS <= index && (index < |bars| || index == FIRST_BASIS)
      invariant cs == Built(bars, judge, replayBase, index) && dates == FeatureDates(bars, judge, index)
      invariant !BreaksBefore(bars, judge, index)
    {
      var j := judge(Window(bars, index));
      if j.Failed? {
        failed := true;
        return;
      }
      if j.Judged? {
        dates := dates + [bars[index + 1].date];
      }
      if Trades(j) {
        cs := cs + [CandidateAt(bars, index, j.direction.value, replayBase)];
      }
      index := index + 1;
    }
  }

  // One candidate per listed index, in its direction, and no basis day with a direction is left out.
  ghost predicate Listed(cs: seq<Candidate>, at: seq<nat>, bars: seq<DailyBar>, judge: Judge, replayBase: int, end: int)
  {
    && BuiltAt(cs, at, bars, replayBase, end)
    && (forall i :: 0 <= i < |cs| ==> judge(bars[at[i] - 19..at[i] + 1]) == Judged(Some(cs[i].direction)))
    && (forall k: nat :: FIRST_BASIS <= k < end && k + 1 < |bars| && Trades(judge(Window(bars, k))) ==> k in at)
  }

  lemma {:induction false} ListOneMore(cs: seq<Candidate>, at: seq<nat>, bars: seq<DailyBar>, judge: Judge,
      replayBase: int, k: nat)
    requires Listed(cs, at, bars, judge, replayBase, k) && FIRST_BASIS <= k && k + 1 < |bars|
    requires Trades(judge(Window(bars, k)))
    ensures Listed(cs + [CandidateAt(bars, k, judge(Window(bars, k)).direction.value, replayBase)], at + [k], bars,
        judge,
                   replayBase, k + 1)
  {
    var c := CandidateAt(bars, k, judge(Window(bars, k)).direction.value, replayBase);
    var longer := at + [k];
    forall i | 0 <= i < |longer|
      ensures judge(bars[longer[i] - 19..longer[i] + 1]) == Judged(Some((cs + [c])[i].direction))
    {
      assert i < |at| ==> longer[i] == at[i] && (cs + [c])[i] == cs[i];
    }
    forall m: nat | FIRST_BASIS <= m < k + 1 && Trades(judge(Window(bars, m)))
      ensures m in longer
    {
      assert m < k ==> m in at;
      assert longer[|at|] == k;
    }
  }

  lemma {:induction false} ListNoMore(cs: seq<Candidate>, at: seq<nat>, bars: seq<DailyBar>, judge: Judge,
      replayBase: int, k: nat)
    requires Listed(cs, at, bars, judge, replayBase, k) && FIRST_BASIS <= k && k + 1 < |bars|
    requires !Trades(judge(Window(bars, k)))
    ensures Listed(cs, at, bars, judge, replayBase, k + 1)
  {
  }

  // The candidates come from rising bar indices, one for every basis day with a direction, and their replay times keep
  // the windows of a fold apart.
  lemma {:induction false} BuiltIsReady(bars: seq<DailyBar>, judge: Judge, replayBase: int, end: nat)
      returns (at: seq<nat>)
    requires StoredBars(bars) && (end < |bars| || end <= FIRST_BASIS)
    ensures Listed(Built(bars, judge, replayBase, end), at, bars, judge, replayBase, end)
    ensures FoldReady(Built(bars, judge, replayBase, end))
  {
    at := BuiltIsListed(bars, judge, replayBase, end);
    SpacedApart(Built(bars, judge, replayBase, end), at, bars, replayBase, end);
  }

  lemma {:induction false} BuiltIsListed(bars: seq<DailyBar>, judge: Judge, replayBase: int, end: nat)
      returns (at: seq<nat>)
    requires end < |bars| || end <= FIRST_BASIS
    ensures Listed(Built(bars, judge, replayBase, end), at, bars, judge, replayBase, end)
  {
    at := [];
    if end > FIRST_BASIS {
      var k := end - 1;
      at := BuiltIsListed(bars, judge, replayBase, k);
      if Trades(judge(Window(bars, k))) {
        ListOneMore(Built(bars, judge, replayBase, k), at, bars, judge, replayBase, k);
        at := at + [k];
      } else {
        ListNoMore(Built(bars, judge, replayBase, k), at, bars, judge, replayBase, k);
      }
    }
  }

  lemma {:induction false} SpacedApart(cs: seq<Candidate>, at: seq<nat>, bars: seq<DailyBar>, replayBase: int, end: nat)
    requires StoredBars(bars) && BuiltAt(cs, at, bars, replayBase, end)
    ensures FoldReady(cs)
  {
    forall i, j | 0 <= i < j < |cs|
      ensures cs[i].signalDate != cs[j].signalDate && cs[i].replayOpen + 100 <= cs[j].replayOpen
    {
      assert at[i] < at[j];
      assert cs[i] == CandidateAt(bars, at[i], cs[i].direction, replayBase);
      assert cs[j] == CandidateAt(bars, at[j], cs[j].direction, replayBase);
    }
  }

  // The candidates with their replay times moved.
  function Moved(cs: seq<Candidate>, shift: int): (r: seq<Candidate>)
    ensures |r| == |cs| && forall i :: 0 <= i < |cs| ==> r[i] == cs[i].(replayOpen := cs[i].replayOpen + shift)
  {
    seq(|cs|, i requires 0 <= i < |cs| => cs[i].(replayOpen := cs[i].replayOpen + shift))
  }

  lemma {:induction false} SliceOfPrefix(s: seq<DailyBar>, length: nat, from: nat, to: nat)
    requires from <= to <= length <= |s|
    ensures s[from..to] == s[..length][from..to]
  {
  }

  lemma {:induction false} SameWindow(xs: seq<DailyBar>, ys: seq<DailyBar>, end: nat, k: nat)
    requires end < |xs| && end < |ys| && xs[..end + 1] == ys[..end + 1] && FIRST_BASIS <= k < end
    ensures Window(xs, k) == Window(ys, k) && xs[k + 1] == ys[k + 1]
  {
    SliceOfPrefix(xs, end + 1, k - FIRST_BASIS, k + 1);
    SliceOfPrefix(ys, end + 1, k - FIRST_BASIS, k + 1);
    assert xs[k + 1] == xs[..end + 1][k + 1] && ys[k + 1] == ys[..end + 1][k + 1];
  }

  lemma {:induction false} MovedOneMore(cs: seq<Candidate>, c: Candidate, shift: int)
    ensures Moved(cs + [c], shift) == Moved(cs, shift) + [c.(replayOpen := c.replayOpen + shift)]
  {
  }

  lemma {:induction false} CandidatesSettled(xs: seq<DailyBar>, ys: seq<DailyBar>, judge: Judge, base: int, base': int,
      end: nat)
    requires end < |xs| && end < |ys| && xs[..end + 1] == ys[..end + 1]
    ensures Built(ys, judge, base', end) == Moved(Built(xs, judge, base, end), base' - base)
  {
    if end > FIRST_BASIS {
      var k := end - 1;
      assert xs[..end] == xs[..end + 1][..end] && ys[..end] == ys[..end + 1][..end];
      CandidatesSettled(xs, ys, judge, base, base', k);
      SameWindow(xs, ys, end, k);
      var j := judge(Window(xs, k));
      if Trades(j) {
        MovedOneMore(Built(xs, judge, base, k), CandidateAt(xs, k, j.direction.value, base), base' - base);
      }
    }
  }

  lemma {:induction false} DatesSettled(xs: seq<DailyBar>, ys: seq<DailyBar>, judge: Judge, end: nat)
    requires end < |xs| && end < |ys| && xs[..end + 1] == ys[..end + 1]
    ensures FeatureDates(ys, judge, end) == FeatureDates(xs, judge, end)
  {
    if end > FIRST_BASIS {
      assert xs[..end] == xs[..end + 1][..end] && ys[..end] == ys[..end + 1][..end];
      DatesSettled(xs, ys, judge, end - 1);
      SameWindow(xs, ys, end, end - 1);
    }
  }

  lemma {:induction false} BreaksSettled(xs: seq<DailyBar>, ys: seq<DailyBar>, judge: Judge, end: nat)
    requires end < |xs| && end < |ys| && xs[..end + 1] == ys[..end + 1] && BreaksBefore(xs, judge, end)
    ensures BreaksBefore(ys, judge, end)
  {
    var k :| FIRST_BASIS <= k < end && k < |xs| && judge(Window(xs, k)).Failed?;
    SameWindow(xs, ys, end, k);
  }

  // A candidate is settled by the bars up to its own day: those after it may be anything. The replay base, which comes
  // from the receipt times of all stored records, only moves the replay times. Whether a basis day breaks is settled
  // too.
  lemma {:induction false} CandidatesNeverLookAhead(xs: seq<DailyBar>, ys: seq<DailyBar>, judge: Judge, base: int,
      base': int, end: nat)
    requires end < |xs| && end < |ys| && xs[..end + 1] == ys[..end + 1]
    ensures Built(ys, judge, base', end) == Moved(Built(xs, judge, base, end), base' - base)
    ensures FeatureDates(ys, judge, end) == FeatureDates(xs, judge, end)
    ensures BreaksBefore(ys, judge, end) <==> BreaksBefore(xs, judge, end)
  {
    CandidatesSettled(xs, ys, judge, base, base', end);
    DatesSettled(xs, ys, judge, end);
    if BreaksBefore(xs, judge, end) {
      BreaksSettled(xs, ys, judge, end);
    }
    if BreaksBefore(ys, judge, end) {
      BreaksSettled(ys, xs, judge, end);
    }
  }

  lemma {:induction false} BuiltGrows(bars: seq<DailyBar>, judge: Judge, replayBase: int, end: nat, later: nat)
    requires end <= later < |bars|
    ensures Built(bars, judge, replayBase, end) <= Built(bars, judge, replayBase, later)
    ensures FeatureDates(bars, judge, end) <= FeatureDates(bars, judge, later)
    decreases later
  {
    if end < later {
      BuiltGrows(bars, judge, replayBase, end, later - 1);
    }
  }

  // What the builder returns.
  datatype Build = Broken | Made(candidates: seq<Candidate>, dates: seq<string>)

  ghost function BuildOf(bars: seq<DailyBar>, judge: Judge, replayBase: int): Build {
    if BreaksBefore(bars, judge, BasisEnd(bars)) then Broken
    else Made(Built(bars, judge, replayBase, BasisEnd(bars)), FeatureDates(bars, judge, BasisEnd(bars)))
  }

  // One of the basis days that came with the new bars breaks.
  ghost predicate NewDayBreaks(bars: seq<DailyBar>, more: seq<DailyBar>, judge: Judge) {
    exists k :: FIRST_BASIS <= k && |bars| - 1 <= k < |bars + more| - 1 && judge(Window(bars + more, k)).Failed?
  }

  lemma {:induction false} OldDaysAsBefore(bars: seq<DailyBar>, more: seq<DailyBar>, judge: Judge, k: nat)
    requires FIRST_BASIS <= k < |bars| - 1
    ensures Window(bars + more, k) == Window(bars, k)
  {
    SameWindow(bars, bars + more, |bars| - 1, k);
  }

  // After a build that did not fail, more days are stored. The next build fails if and only if a new basis day breaks;
  // otherwise the earlier candidates come first, with their replay times moved by the change of the base.
  lemma {:induction false} MoreBarsOnlyAdd(bars: seq<DailyBar>, more: seq<DailyBar>, judge: Judge, base: int,
      base': int)
    requires bars != [] && BuildOf(bars, judge, base).Made?
    ensures BuildOf(bars + more, judge, base').Broken? <==> NewDayBreaks(bars, more, judge)
    ensures var r, r' := BuildOf(bars, judge, base), BuildOf(bars + more, judge, base');
            r'.Made? ==> Moved(r.candidates, base' - base) <= r'.candidates && r.dates <= r'.dates
  {
    var all := bars + more;
    assert all[..|bars|] == bars[..|bars|];
    CandidatesNeverLookAhead(bars, all, judge, base, base', |bars| - 1);
    BuiltGrows(all, judge, base', |bars| - 1, |all| - 1);
    forall k | FIRST_BASIS <= k < |bars| - 1
      ensures Window(all, k) == Window(bars, k)
    {
      OldDaysAsBefore(bars, more, judge, k);
    }
  }

  // A fold takes some of the candidates, in any order, each at most once; it is ready too.
  lemma {:induction false} SelectionIsReady(cs: seq<Candidate>, fold: seq<Candidate>, picks: seq<nat>)
    requires FoldReady(cs) && |picks| == |fold|
    requires forall i :: 0 <= i < |picks| ==> picks[i] < |cs| && fold[i] == cs[picks[i]]
    requires forall i, j :: 0 <= i < j < |picks| ==> picks[i] != picks[j]
    ensures FoldReady(fold)
  {
    forall i, j | 0 <= i < j < |fold|
      ensures fold[i].signalDate != fold[j].signalDate
      ensures fold[i].replayOpen + 100 <= fold[j].replayOpen || fold[j].replayOpen + 100 <= fold[i].replayOpen
    {
      if picks[i] < picks[j] {
        assert cs[picks[i]].signalDate != cs[picks[j]].signalDate;
      } else {
        assert cs[picks[j]].signalDate != cs[picks[i]].signalDate;
      }
    }
  }
}

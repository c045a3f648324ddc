/** The fill model and the event loop of the backtest engine. */
module Backtest {
  import opened Wrappers
  import opened Numbers
  import opened SimulationEvents
  import opened Portfolio

  datatype OrderLeg = OrderLeg(legId: string, instrumentId: string, side: Side, quantity: real, limitPrice: real)

  datatype OrderIntent = OrderIntent(orderId: string, legs: seq<OrderLeg>, createdAt: int, expiresAt: int)
  {
    // what the order type itself validates
    predicate Valid() {
      && legs != []
      && createdAt < expiresAt
      && forall i :: 0 <= i < |legs| ==> legs[i].quantity >= 0.0 && legs[i].limitPrice >= 0.0
    }
  }

  datatype OrderStatus = FILLED | PARTIALLY_FILLED

  datatype FillId = FillId(seed: int, number: nat)

  // A fill without its id: what was done, apart from how many fills came before it.
  datatype Execution = Execution(
    orderId: string, legId: string, filled: real, unfilled: real, price: real, slippage: real,
    filledAt: int, status: OrderStatus)

  datatype PaperFill = PaperFill(fillId: FillId, execution: Execution)

  // ---------- one order against one quote ----------

  predicate Blocked(q: MarketQuote) {
    HALTED in q.qualityFlags || MARKET_CLOSED in q.qualityFlags
  }

  predicate Marketable(leg: OrderLeg, q: MarketQuote) {
    if leg.side == BUY then q.askPrice <= leg.limitPrice else q.bidPrice >= leg.limitPrice
  }

  function QuotePrice(side: Side, q: MarketQuote): real {
    if side == BUY then q.askPrice else q.bidPrice
  }

  function Capacity(side: Side, q: MarketQuote, rate: real): real {
    (if side == BUY then q.askSize else q.bidSize) * rate
  }

  // try_fill_leg without its effects
  function Execute(order: OrderIntent, leg: OrderLeg, remaining: real, q: MarketQuote, rate: real): Option<Execution> {
    if q.eventTime <= order.createdAt then None
    else if q.eventTime > order.expiresAt then None
    else if Blocked(q) then None
    else if !Marketable(leg, q) then None
    else
      var fillable := Min(remaining, Capacity(leg.side, q, rate));
      if fillable <= 0.0 then None
      else
        var price := QuotePrice(leg.side, q);
        Some(Execution(order.orderId, leg.legId, fillable, remaining - fillable, price,
                       if leg.side == BUY then price - leg.limitPrice else leg.limitPrice - price,
                       q.eventTime, if remaining - fillable <= 0.0 then FILLED else PARTIALLY_FILLED))
  }

  datatype OrderView = OrderView(order: OrderIntent, legIndex: nat, remaining: real, fills: seq<PaperFill>)
  {
    predicate Valid() { legIndex < |order.legs| }
    function Leg(): OrderLeg
      requires Valid()
    {
      order.legs[legIndex]
    }
  }

  class OrderState {
    const order: OrderIntent
    const legIndex: nat
    var remaining: real
    var fills: seq<PaperFill>

    function View(): OrderView
      reads this
    {
      OrderView(order, legIndex, remaining, fills)
    }

    constructor (order: OrderIntent, legIndex: nat, remaining: real)
      ensures View() == OrderView(order, legIndex, remaining, [])
    {
      this.order, this.legIndex, this.remaining, this.fills := order, legIndex, remaining, [];
    }
  }

  // `nextId` is the id that the id factory would hand out; it is used only when there is a fill.
  method TryFillLeg(state: OrderState, quote: MarketQuote, rate: real, nextId: FillId) returns (fill: Option<PaperFill>)
    requires state.View().Valid()
    modifies state
    ensures var v := old(state.View());
            match Execute(v.order, v.Leg(), v.remaining, quote, rate)
            case None => fill == None && state.View() == v
            case Some(e) =>
              && fill == Some(PaperFill(nextId, e))
              && state.View() == v.(remaining := e.unfilled, fills := v.fills + [PaperFill(nextId, e)])
  {
    var leg := state.order.legs[state.legIndex];
    if quote.eventTime <= state.order.createdAt {
      return None;
    }
    if quote.eventTime > state.order.expiresAt {
      return None;
    }
    if Blocked(quote) {
      return None;
    }
    if !Marketable(leg, quote) {
      return None;
    }
    var fillable := Min(state.remaining, Capacity(leg.side, quote, rate));
    if fillable <= 0.0 {
      return None;
    }
    var price := QuotePrice(leg.side, quote);
    var slippage := if leg.side == BUY then price - leg.limitPrice else leg.limitPrice - price;
    state.remaining := state.remaining - fillable;
    var status := if state.remaining <= 0.0 then FILLED else PARTIALLY_FILLED;
    var made := PaperFill(nextId, Execution(state.order.orderId, leg.legId, fillable, state.remaining, price, slippage,
                                            quote.eventTime, status));
    state.fills := state.fills + [made];
    return Some(made);
  }

  // ---------- the event loop as a function ----------

  datatype EngineState = EngineState(orders: seq<OrderView>, book: Book, fills: seq<PaperFill>)

  ghost predicate ValidOrders(orders: seq<OrderIntent>) {
    forall i :: 0 <= i < |orders| ==> orders[i].Valid()
  }

  function Opening(order: OrderIntent): OrderView
    requires order.Valid()
  {
    OrderView(order, 0, order.legs[0].quantity, [])
  }

  function Start(orders: seq<OrderIntent>): (s: EngineState)
    requires ValidOrders(orders)
    ensures Ready(s)
  {
    EngineState(seq(|orders|, i requires 0 <= i < |orders| => Opening(orders[i])), EMPTY, [])
  }

  ghost predicate Ready(s: EngineState) {
    forall i :: 0 <= i < |s.orders| ==> s.orders[i].Valid()
  }

  function Booking(leg: OrderLeg, e: Execution, q: MarketQuote): LedgerFill {
    LedgerFill(leg.instrumentId, leg.side, e.filled, e.price, if q.currency.Some? then q.currency.value else "KRW")
  }

  function Taken(v: OrderView, q: MarketQuote, rate: real): Option<Execution>
    requires v.Valid()
  {
    if v.remaining <= 0.0 || v.Leg().instrumentId != q.instrumentId then None
    else Execute(v.order, v.Leg(), v.remaining, q, rate)
  }

  function OfferOne(s: EngineState, j: nat, q: MarketQuote, rate: real, seed: int): (s': EngineState)
    requires Ready(s) && j < |s.orders|
    ensures Ready(s') && |s'.orders| == |s.orders|
  {
    var v := s.orders[j];
    match Taken(v, q, rate)
    case None => s
    case Some(e) =>
      var fill := PaperFill(FillId(seed, |s.fills| + 1), e);
      EngineState(s.orders[j := v.(remaining := e.unfilled, fills := v.fills + [fill])],
                  Applied(s.book, Booking(v.Leg(), e, q)),
                  s.fills + [fill])
  }

  function OfferUpTo(s: EngineState, n: nat, q: MarketQuote, rate: real, seed: int): (s': EngineState)
    requires Ready(s) && n <= |s.orders|
    ensures Ready(s') && |s'.orders| == |s.orders|
  {
    if n == 0 then s else OfferOne(OfferUpTo(s, n - 1, q, rate, seed), n - 1, q, rate, seed)
  }

  predicate IsQuote(e: SimulationEvent) {
    e.eventType == "quote" && e.payload.QuotePayload?
  }

  function StepEvent(s: EngineState, e: SimulationEvent, rate: real, seed: int): (s': EngineState)
    requires Ready(s)
    ensures Ready(s') && |s'.orders| == |s.orders|
  {
    if IsQuote(e) then OfferUpTo(s, |s.orders|, e.payload.quote, rate, seed) else s
  }

  function RunOver(s: EngineState, events: seq<SimulationEvent>, rate: real, seed: int): (s': EngineState)
    requires Ready(s)
    ensures Ready(s') && |s'.orders| == |s.orders|
  {
    if events == [] then s
    else StepEvent(RunOver(s, events[..|events| - 1], rate, seed), events[|events| - 1], rate, seed)
  }

  datatype JournalEntry = JournalEntry(eventId: string, availableTime: int, eventTime: int, venue: string,
      eventType: string)

  function Entry(e: SimulationEvent): JournalEntry {
    JournalEntry(e.eventId, e.availableTime, e.eventTime, e.venue, e.eventType)
  }

  function Journal(events: seq<SimulationEvent>): (j: seq<JournalEntry>)
    ensures |j| == |events|
  {
    seq(|events|, i requires 0 <= i < |events| => Entry(events[i]))
  }

  // ---------- the event loop ----------

  ghost function Views(states: seq<OrderState>): (vs: seq<OrderView>)
    reads states
    ensures |vs| == |states|
  {
    seq(|states|, i requires 0 <= i < |states| reads states => states[i].View())
  }

  ghost predicate Separate(states: seq<OrderState>) {
    forall i, j :: 0 <= i < j < |states| ==> states[i] != states[j]
  }

  method OpenOrders(orders: seq<OrderIntent>) returns (states: seq<OrderState>)
    requires ValidOrders(orders)
    ensures fresh(states) && Separate(states) && Views(states) == Start(orders).orders
  {
    states := [];
    for i := 0 to |orders|
      invariant fresh(states) && Separate(states) && |states| == i
      invariant forall k :: 0 <= k < i ==> states[k].View() == Opening(orders[k])
    {
      var state := new OrderState(orders[i], 0, orders[i].legs[0].quantity);
      states := states + [state];
    }
  }

  // The objects of a run, read as one value.
  ghost predicate Shows(states: seq<OrderState>, portfolio: PortfolioLedger, fills: seq<PaperFill>, s: EngineState)
    reads states, portfolio
  {
    Views(states) == s.orders && portfolio.View() == s.book && fills == s.fills
  }

  // `rewound` stands for ClockRewindError.
  method RunBacktest(events: seq<SimulationEvent>, orders: seq<OrderIntent>, rate: real, seed: int)
    returns (rewound: bool, fills: seq<PaperFill>, portfolio: PortfolioLedger, journal: seq<JournalEntry>)
    requires ValidOrders(orders)
    ensures !rewound
    ensures var end := RunOver(Start(orders), SortEvents(events), rate, seed);
            fills == end.fills && portfolio.View() == end.book
    ensures journal == Journal(SortEvents(events))
    ensures fresh(portfolio)
  {
    SortedByTime(events);
    rewound, fills, portfolio, journal := RunOrdered(SortEvents(events), orders, rate, seed);
  }

  ghost predicate TimesAscend(events: seq<SimulationEvent>) {
    forall i, j :: 0 <= i < j < |events| ==> events[i].availableTime <= events[j].availableTime
  }

  method RunOrdered(ordered: seq<SimulationEvent>, orders: seq<OrderIntent>, rate: real, seed: int)
    returns (rewound: bool, fills: seq<PaperFill>, portfolio: PortfolioLedger, journal: seq<JournalEntry>)
    requires ValidOrders(orders) && TimesAscend(ordered)
    ensures !rewound
    ensures var end := RunOver(Start(orders), ordered, rate, seed); fills == end.fills && portfolio.View() == end.book
    ensures journal == Journal(ordered)
    ensures fresh(portfolio)
  {
    var clock := new SimulationClock(if ordered != [] then ordered[0].availableTime else 0);
    portfolio := new PortfolioLedger();
    journal, fills := [], [];
    rewound := false;
    var states := OpenOrders(orders);
    ghost var s := Start(orders);
    for k := 0 to |ordered|
      invariant fresh(states) && fresh(portfolio) && fresh(clock) && Separate(states)
      invariant journal == Journal(ordered[..k])
      invariant k < |ordered| ==> clock.current <= ordered[k].availableTime
      invariant s == RunOver(Start(orders), ordered[..k], rate, seed) && Shows(states, portfolio, fills, s)
    {
      var event := ordered[k];
      var ok := clock.AdvanceTo(event.availableTime);
      if !ok {
        assert false;
        return true, fills, portfolio, journal;
      }
      journal := journal + [Entry(event)];
      fills := ProcessEvent(states, portfolio, fills, event, rate, seed, s);
      NextPrefix(Start(orders), ordered, k, rate, seed);
      s := StepEvent(s, event, rate, seed);
    }
    assert ordered[..|ordered|] == ordered;
  }

  lemma {:induction false} NextPrefix(s: EngineState, events: seq<SimulationEvent>, k: nat, rate: real, seed: int)
    requires Ready(s) && k < |events|
    ensures RunOver(s, events[..k + 1], rate, seed)
        == StepEvent(RunOver(s, events[..k], rate, seed), events[k], rate, seed)
    ensures Journal(events[..k + 1]) == Journal(events[..k]) + [Entry(events[k])]
  {
    assert events[..k + 1][..k] == events[..k];
  }

  method ProcessEvent(states: seq<OrderState>, portfolio: PortfolioLedger, fills0: seq<PaperFill>,
      event: SimulationEvent, rate: real, seed: int, ghost s: EngineState)
    returns (fills: seq<PaperFill>)
    requires Ready(s) && Shows(states, portfolio, fills0, s) && Separate(states)
    modifies states, portfolio
    ensures Shows(states, portfolio, fills, StepEvent(s, event, rate, seed))
  {
    if event.eventType != "quote" || !event.payload.QuotePayload? {
      return fills0;
    }
    fills := fills0;
    ghost var t := s;
    for j := 0 to |states|
      invariant t == OfferUpTo(s, j, event.payload.quote, rate, seed) && Shows(states, portfolio, fills, t)
    {
      assert states[j].View() == Views(states)[j] == t.orders[j];
      ghost var others := Views(states);
      fills := OfferOrder(states[j], portfolio, fills, event.payload.quote, rate, seed);
      assert Views(states) == others[j := states[j].View()];
      t := OfferOne(t, j, event.payload.quote, rate, seed);
    }
  }

  method OfferOrder(state: OrderState, portfolio: PortfolioLedger, fills0: seq<PaperFill>, quote: MarketQuote,
                    rate: real, seed: int)
    returns (fills: seq<PaperFill>)
    requires state.View().Valid()
    modifies state, portfolio
    ensures var v, book := old(state.View()), old(portfolio.View());
            match Taken(v, quote, rate)
            case None => state.View() == v && portfolio.View() == book && fills == fills0
            case Some(e) =>
              var fill := PaperFill(FillId(seed, |fills0| + 1), e);
              && state.View() == v.(remaining := e.unfilled, fills := v.fills + [fill])
              && portfolio.View() == Applied(book, Booking(v.Leg(), e, quote))
              && fills == fills0 + [fill]
  {
    fills := fills0;
    if state.remaining <= 0.0 {
      return;
    }
    var leg := state.order.legs[state.legIndex];
    if leg.instrumentId != quote.instrumentId {
      return;
    }
    var fill := TryFillLeg(state, quote, rate, FillId(seed, |fills0| + 1));
    if fill == None {
      return;
    }
    fills := fills + [fill.value];
    portfolio.ApplyFill(leg.instrumentId, leg.side, fill.value.execution.filled, fill.value.execution.price,
                        if quote.currency.Some? then quote.currency.value else "KRW");
  }
}

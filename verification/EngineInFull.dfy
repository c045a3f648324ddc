/**
  An engine run stated on its orders and events: what a quote offers an order, what every fill is, in which order the
  fills come, and what the ledger is given.
 */
module EngineInFull {
  import opened Wrappers
  import opened SimulationEvents
  import opened Portfolio
  import opened Backtest
  import opened OrderProjection
  import StableSort

  // The quote can reach the order: it is of the order's instrument, no halt or closed market is flagged, and it comes
  // after the order's creation and no later than its expiry.
  predicate Reaches(q: MarketQuote, order: OrderIntent)
    requires order.Valid()
  {
    && q.instrumentId == order.legs[0].instrumentId && HALTED !in q.qualityFlags && MARKET_CLOSED !in q.qualityFlags
    && order.createdAt < q.eventTime <= order.expiresAt
  }

  // A quote offers a buyer its ask size, and a seller its bid size, times the participation rate, at a price within the
  // limit; any other event offers nothing.
  lemma {:induction false} OfferInFull(order: OrderIntent, e: SimulationEvent, rate: real)
    requires order.Valid()
    ensures OfferedBy(order, e, rate) >= 0.0
    ensures !(e.eventType == "quote" && e.payload.QuotePayload?) ==> OfferedBy(order, e, rate) == 0.0
    ensures e.eventType == "quote" && e.payload.QuotePayload? ==>
              var q, leg := e.payload.quote, order.legs[0];
              && (!Reaches(q, order) ==> OfferedBy(order, e, rate) == 0.0)
              && (Reaches(q, order) && leg.side == BUY && q.askPrice <= leg.limitPrice && q.askSize * rate >= 0.0 ==>
                    OfferedBy(order, e, rate) == q.askSize * rate)
              && (Reaches(q, order) && leg.side == SELL && q.bidPrice >= leg.limitPrice && q.bidSize * rate >= 0.0 ==>
                    OfferedBy(order, e, rate) == q.bidSize * rate)
              && (leg.side == BUY && (q.askPrice > leg.limitPrice || q.askSize * rate < 0.0) ==>
                    OfferedBy(order, e, rate) == 0.0)
              && (leg.side == SELL && (q.bidPrice < leg.limitPrice || q.bidSize * rate < 0.0) ==>
                    OfferedBy(order, e, rate) == 0.0)
  {
  }

  // Fill number k of the run, made by this order against this event.
  predicate FilledBy(f: PaperFill, k: nat, order: OrderIntent, e: SimulationEvent, rate: real, seed: int)
    requires order.Valid()
  {
    var x, leg := f.execution, order.legs[0];
    && f.fillId == FillId(seed, k + 1) && x.orderId == order.orderId && x.legId == leg.legId
    && e.eventType == "quote" && e.payload.QuotePayload? && Reaches(e.payload.quote, order)
    && x.filledAt == e.payload.quote.eventTime && x.filled > 0.0 && x.unfilled >= 0.0
    && (x.status == FILLED <==> x.unfilled == 0.0)
    && (leg.side == BUY ==>
          && x.price == e.payload.quote.askPrice && x.price <= leg.limitPrice
          && x.filled <= e.payload.quote.askSize * rate && x.slippage == x.price - leg.limitPrice)
    && (leg.side == SELL ==>
          && x.price == e.payload.quote.bidPrice && x.price >= leg.limitPrice
          && x.filled <= e.payload.quote.bidSize * rate && x.slippage == leg.limitPrice - x.price)
  }

  // Where a fill belongs: the number of its event and the number of its order.
  datatype Place = Place(event: nat, order: nat)
  {
    predicate Before(other: Place) {
      event < other.event || (event == other.event && order < other.order)
    }
  }

  // The fills come in the order of their events, and on one event in the order of the orders, each pair at most once.
  ghost predicate InTurn(fills: seq<PaperFill>, at: seq<Place>, orders: seq<OrderIntent>, events: seq<SimulationEvent>,
      rate: real, seed: int)
    requires ValidOrders(orders)
  {
    && |at| == |fills| && (forall k, l :: 0 <= k < l < |at| ==> at[k].Before(at[l]))
    && forall k :: 0 <= k < |at| ==>
         && at[k].event < |events| && at[k].order < |orders|
         && FilledBy(fills[k], k, orders[at[k].order], events[at[k].event], rate, seed)
  }

  ghost predicate AllBefore(at: seq<Place>, place: Place) {
    forall k :: 0 <= k < |at| ==> at[k].Before(place)
  }

  // The order states belong to the orders, and none is overfilled.
  ghost predicate Belongs(s: EngineState, orders: seq<OrderIntent>) {
    && Holds(s, orders) && Ready(s)
    && forall j :: 0 <= j < |s.orders| ==> s.orders[j].legIndex == 0 && s.orders[j].remaining >= 0.0
  }

  lemma {:induction false} OneOffer(s: EngineState, orders: seq<OrderIntent>, events: seq<SimulationEvent>, m: nat,
      j: nat, rate: real, seed: int, at: seq<Place>) returns (more: seq<Place>)
    requires ValidOrders(orders) && m < |events| && IsQuote(events[m]) && j < |orders| && Belongs(s, orders)
    requires InTurn(s.fills, at, orders, events, rate, seed) && AllBefore(at, Place(m, j))
    ensures var t := OfferOne(s, j, events[m].payload.quote, rate, seed);
            Belongs(t, orders) && InTurn(t.fills, more, orders, events, rate, seed) && AllBefore(more, Place(m, j + 1))
  {
    var q := events[m].payload.quote;
    more := at;
    if Taken(s.orders[j], q, rate).Some? {
      TakenIs(s.orders[j], events[m], rate, seed, |s.fills|);
      more := at + [Place(m, j)];
    }
  }

  lemma {:induction false} TakenIs(v: OrderView, e: SimulationEvent, rate: real, seed: int, k: nat)
    requires v.order.Valid() && v.legIndex == 0 && v.remaining >= 0.0 && IsQuote(e)
    requires Taken(v, e.payload.quote, rate).Some?
    ensures FilledBy(PaperFill(FillId(seed, k + 1), Taken(v, e.payload.quote, rate).value), k, v.order, e, rate, seed)
    ensures Taken(v, e.payload.quote, rate).value.unfilled >= 0.0
  {
  }

  lemma {:induction false} OneEvent(s: EngineState, orders: seq<OrderIntent>, events: seq<SimulationEvent>, m: nat,
      n: nat, rate: real, seed: int, at: seq<Place>) returns (more: seq<Place>)
    requires ValidOrders(orders) && m < |events| && IsQuote(events[m]) && n <= |orders| && Belongs(s, orders)
    requires InTurn(s.fills, at, orders, events, rate, seed) && AllBefore(at, Place(m, 0))
    ensures var t := OfferUpTo(s, n, events[m].payload.quote, rate, seed);
            Belongs(t, orders) && InTurn(t.fills, more, orders, events, rate, seed) && AllBefore(more, Place(m, n))
  {
    hide OfferOne, InTurn;
    more := at;
    if n > 0 {
      var before := OneEvent(s, orders, events, m, n - 1, rate, seed, at);
      more := OneOffer(OfferUpTo(s, n - 1, events[m].payload.quote, rate, seed), orders, events, m, n - 1, rate, seed,
          before);
    }
  }

  lemma {:induction false} LongerStream(fills: seq<PaperFill>, at: seq<Place>, orders: seq<OrderIntent>,
      events: seq<SimulationEvent>, more: seq<SimulationEvent>, rate: real, seed: int)
    requires ValidOrders(orders) && InTurn(fills, at, orders, events, rate, seed) && events <= more
    ensures InTurn(fills, at, orders, more, rate, seed) && AllBefore(at, Place(|events|, 0))
  {
  }

  // Every fill of a run is one of these, with its number, and the fills come in that order.
  lemma {:induction false} FillsInFull(orders: seq<OrderIntent>, events: seq<SimulationEvent>, rate: real, seed: int)
      returns (at: seq<Place>)
    requires ValidOrders(orders)
    ensures Belongs(RunOver(Start(orders), events, rate, seed), orders)
    ensures InTurn(RunOver(Start(orders), events, rate, seed).fills, at, orders, events, rate, seed)
  {
    at := [];
    if events != [] {
      var n := |events| - 1;
      var s := RunOver(Start(orders), events[..n], rate, seed);
      at := FillsInFull(orders, events[..n], rate, seed);
      LongerStream(s.fills, at, orders, events[..n], events, rate, seed);
      if IsQuote(events[n]) {
        hide InTurn, Belongs, OfferUpTo;
        assert |s.orders| == |orders|;
        at := OneEvent(s, orders, events, n, |orders|, rate, seed, at);
      }
    }
  }

  // The journal lists every event of the run, in order.
  lemma {:induction false} JournalInFull(events: seq<SimulationEvent>, k: nat)
    requires k < |events|
    ensures |Journal(events)| == |events|
    ensures Journal(events)[k].eventId == events[k].eventId && Journal(events)[k].eventType == events[k].eventType
    ensures Journal(events)[k].availableTime == events[k].availableTime
        && Journal(events)[k].eventTime == events[k].eventTime && Journal(events)[k].venue == events[k].venue
  {
  }

  // ---------- the order of the events ----------

  const VENUES := ["KRX", "NXT", "NASDAQ", "HKEX", "OTC", "REFERENCE"]
  const EVENT_TYPES := ["reference", "bar", "quote", "trade", "timer"]

  // In the order of the list; a name that is not listed comes last.
  ghost predicate ListedOrder(names: seq<string>, a: string, b: string) {
    && (a !in names ==> b !in names)
    && forall p, q :: 0 <= p < |names| && 0 <= q < |names| && names[p] == a && names[q] == b ==> p <= q
  }

  // The provider's sequence number; an event without one comes after all numbers below 2^62.
  function SequenceOf(e: SimulationEvent): int {
    match e.providerSequence case Some(n) => n case None => 4611686018427387904
  }

  lemma {:induction false} LessDigits(a: seq<int>, b: seq<int>)
    requires |a| == |b| == 5 && (NumbersLess(a, b) || a == b)
    ensures a[0] <= b[0]
    ensures a[0] == b[0] ==> a[1] <= b[1]
    ensures a[0] == b[0] && a[1] == b[1] ==> a[2] <= b[2]
    ensures a[0] == b[0] && a[1] == b[1] && a[2] == b[2] ==> a[3] <= b[3]
    ensures a[0] == b[0] && a[1] == b[1] && a[2] == b[2] && a[3] == b[3] ==> a[4] <= b[4]
  {
    if NumbersLess(a, b) && a[0] == b[0] {
      assert NumbersLess(a[1..], b[1..]);
      if a[1] == b[1] {
        assert NumbersLess(a[1..][1..], b[1..][1..]);
        if a[2] == b[2] {
          assert NumbersLess(a[1..][1..][1..], b[1..][1..][1..]);
          if a[3] == b[3] {
            assert NumbersLess(a[1..][1..][1..][1..], b[1..][1..][1..][1..]);
          }
        }
      }
    }
  }

  lemma {:induction false} VenueOrder(a: string, b: string)
    ensures VenuePriority(a) <= VenuePriority(b) ==> ListedOrder(VENUES, a, b)
    ensures VenuePriority(a) == VenuePriority(b) <==> a == b || (a !in VENUES && b !in VENUES)
  {
  }

  lemma {:induction false} TypeOrder(a: string, b: string)
    ensures EventTypeRank(a) <= EventTypeRank(b) ==> ListedOrder(EVENT_TYPES, a, b)
    ensures EventTypeRank(a) == EventTypeRank(b) <==> a == b || (a !in EVENT_TYPES && b !in EVENT_TYPES)
  {
  }

  ghost predicate SameMoment(a: SimulationEvent, b: SimulationEvent) {
    a.availableTime == b.availableTime && a.eventTime == b.eventTime && SequenceOf(a) == SequenceOf(b)
  }

  // What comes before what in a run: available time, then event time, then sequence number, then the venue, then the
  // type of event, and last the event id.
  lemma {:induction false} SortedInFull(events: seq<SimulationEvent>, i: nat, j: nat, a: SimulationEvent,
      b: SimulationEvent)
    requires i < j < |events|
    requires |SortEvents(events)| == |events| ==> a == SortEvents(events)[i] && b == SortEvents(events)[j]
    ensures |SortEvents(events)| == |events|
    ensures a.availableTime <= b.availableTime
    ensures a.availableTime == b.availableTime ==> a.eventTime <= b.eventTime
    ensures a.availableTime == b.availableTime && a.eventTime == b.eventTime ==> SequenceOf(a) <= SequenceOf(b)
    ensures SameMoment(a, b) ==> ListedOrder(VENUES, a.venue, b.venue)
    ensures SameMoment(a, b) && a.venue == b.venue ==> ListedOrder(EVENT_TYPES, a.eventType, b.eventType)
    ensures SameMoment(a, b) && a.venue == b.venue && a.eventType == b.eventType ==> StringLe(a.eventId, b.eventId)
  {
    EventOrderIsTotal();
    StableSort.SortSorts(events, EventLe);
    assert EventLe(a, b);
    LessDigits(SortKey(a).numbers, SortKey(b).numbers);
    NumbersTrichotomy(SortKey(a).numbers, SortKey(b).numbers);
    hide NumbersLess, StringLe, VenuePriority, EventTypeRank;
    VenueOrder(a.venue, b.venue);
    TypeOrder(a.eventType, b.eventType);
  }

  // Event ids compare character by character.
  lemma {:induction false} IdsCompare(a: string, b: string, k: nat)
    requires k <= |a| && k <= |b| && a[..k] == b[..k]
    ensures k == |a| ==> StringLe(a, b)
    ensures k < |a| && k == |b| ==> !StringLe(a, b)
    ensures k < |a| && k < |b| && a[k] < b[k] ==> StringLe(a, b)
    ensures k < |a| && k < |b| && a[k] > b[k] ==> !StringLe(a, b)
  {
    if k > 0 {
      assert a[0] == a[..k][0] == b[..k][0] == b[0];
      assert a[1..][..k - 1] == a[..k][1..] && b[1..][..k - 1] == b[..k][1..];
      IdsCompare(a[1..], b[1..], k - 1);
    }
  }

  // The ledger's fills are the run's, one for one: the same quantity and price, on the instrument and the side of a leg
  // of the order that the run's fill names.
  lemma {:induction false} BookedInFull(s: EngineState, booked: seq<LedgerFill>, i: nat) returns (j: nat)
    requires Booked(s, booked) && i < |booked|
    ensures |booked| == |s.fills| && s.book == AppliedAll(booked)
    ensures booked[i].quantity == s.fills[i].execution.filled && booked[i].price == s.fills[i].execution.price
    ensures j < |s.orders| && s.fills[i] in s.orders[j].fills
    ensures s.fills[i].execution.orderId == s.orders[j].order.orderId && s.orders[j].Valid()
    ensures s.fills[i].execution.legId == s.orders[j].Leg().legId
    ensures booked[i].instrument == s.orders[j].Leg().instrumentId && booked[i].side == s.orders[j].Leg().side
  {
    assert BookedAs(s, s.fills[i], booked[i]);
    j :| 0 <= j < |s.orders| && HeldBy(s.orders[j], s.fills[i], booked[i]);
  }

  // What the ledger is given for a fill: the leg's instrument and side, the filled quantity at the fill's price, and
  // the currency of the quote, which is KRW for a quote that names none.
  lemma {:induction false} BookingInFull(leg: OrderLeg, e: Execution, q: MarketQuote, currency: string)
    requires q.currency == Some(currency) || (q.currency == None && currency == "KRW")
    ensures Booking(leg, e, q) == LedgerFill(leg.instrumentId, leg.side, e.filled, e.price, currency)
  {
  }
}

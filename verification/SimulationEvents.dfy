/** Simulation events, their sort key, and the clock that only moves forward. */
module SimulationEvents {
  import opened Wrappers
  import opened StableSort

  datatype QualityFlag =
    | STALE | DELAYED | OUT_OF_ORDER | DUPLICATE | GAP | SOURCE_DIVERGENCE | MARKET_CLOSED | HALTED
    | UNADJUSTED_CORPORATE_ACTION | UNKNOWN_CONVERSION | BORROW_UNAVAILABLE | UNVERIFIED_SOCIAL_CLAIM

  datatype MarketQuote = MarketQuote(
    instrumentId: string, eventTime: int,
    bidPrice: real, askPrice: real, bidSize: real, askSize: real,
    qualityFlags: seq<QualityFlag>, currency: Option<string>)

  datatype Payload = QuotePayload(quote: MarketQuote) | OtherPayload(text: string)

  datatype SimulationEvent = SimulationEvent(
    eventId: string, availableTime: int, eventTime: int, venue: string, eventType: string,
    providerSequence: Option<int>, payload: Payload)

  const NO_SEQUENCE := 0x4000_0000_0000_0000  // 2^62: an event without a provider sequence sorts last

  function VenuePriority(venue: string): int {
    match venue
    case "KRX" => 0
    case "NXT" => 1
    case "NASDAQ" => 2
    case "HKEX" => 3
    case "OTC" => 4
    case "REFERENCE" => 5
    case _ => 99
  }

  function EventTypeRank(eventType: string): int {
    match eventType
    case "reference" => 0
    case "bar" => 1
    case "quote" => 2
    case "trade" => 3
    case "timer" => 4
    case _ => 99
  }

  datatype Key = Key(numbers: seq<int>, eventId: string)

  function SortKey(e: SimulationEvent): (k: Key)
    ensures |k.numbers| == 5
  {
    Key([e.availableTime, e.eventTime,
         if e.providerSequence.Some? then e.providerSequence.value else NO_SEQUENCE,
         VenuePriority(e.venue), EventTypeRank(e.eventType)],
        e.eventId)
  }

  // ---------- the order of tuples and strings ----------

  predicate NumbersLess(a: seq<int>, b: seq<int>)
    requires |a| == |b|
  {
    a != [] && (a[0] < b[0] || (a[0] == b[0] && NumbersLess(a[1..], b[1..])))
  }

  predicate StringLe(a: string, b: string) {
    a == "" || (b != "" && (a[0] < b[0] || (a[0] == b[0] && StringLe(a[1..], b[1..]))))
  }

  predicate EventLe(a: SimulationEvent, b: SimulationEvent) {
    var x, y := SortKey(a), SortKey(b);
    NumbersLess(x.numbers, y.numbers) || (x.numbers == y.numbers && StringLe(x.eventId, y.eventId))
  }

  lemma {:induction false} NumbersTrichotomy(a: seq<int>, b: seq<int>)
    requires |a| == |b|
    ensures NumbersLess(a, b) || NumbersLess(b, a) || a == b
    ensures !(NumbersLess(a, b) && NumbersLess(b, a)) && !NumbersLess(a, a)
  {
    if a != [] {
      NumbersTrichotomy(a[1..], b[1..]);
      assert a == [a[0]] + a[1..] && b == [b[0]] + b[1..];
    }
  }

  lemma {:induction false} NumbersTransitive(a: seq<int>, b: seq<int>, c: seq<int>)
    requires |a| == |b| == |c| && NumbersLess(a, b) && NumbersLess(b, c)
    ensures NumbersLess(a, c)
  {
    if a[0] == b[0] && b[0] == c[0] {
      NumbersTransitive(a[1..], b[1..], c[1..]);
    }
  }

  lemma {:induction false} StringTotal(a: string, b: string)
    ensures StringLe(a, b) || StringLe(b, a)
    ensures StringLe(a, b) && StringLe(b, a) ==> a == b
  {
    if a != "" && b != "" {
      StringTotal(a[1..], b[1..]);
      assert a == [a[0]] + a[1..] && b == [b[0]] + b[1..];
    }
  }

  lemma {:induction false} StringTransitive(a: string, b: string, c: string)
    requires StringLe(a, b) && StringLe(b, c)
    ensures StringLe(a, c)
  {
    if a != "" && a[0] == b[0] && b[0] == c[0] {
      StringTransitive(a[1..], b[1..], c[1..]);
    }
  }

  lemma {:induction false} EventOrderIsTotal()
    ensures TotalPreorder(EventLe)
  {
    forall a, b
      ensures EventLe(a, b) || EventLe(b, a)
    {
      NumbersTrichotomy(SortKey(a).numbers, SortKey(b).numbers);
      StringTotal(a.eventId, b.eventId);
    }
    forall a, b, c | EventLe(a, b) && EventLe(b, c)
      ensures EventLe(a, c)
    {
      EventLeTransitive(a, b, c);
    }
  }

  lemma {:induction false} EventLeTransitive(a: SimulationEvent, b: SimulationEvent, c: SimulationEvent)
    requires EventLe(a, b) && EventLe(b, c)
    ensures EventLe(a, c)
  {
    var x, y, z := SortKey(a), SortKey(b), SortKey(c);
    if NumbersLess(x.numbers, y.numbers) && NumbersLess(y.numbers, z.numbers) {
      NumbersTransitive(x.numbers, y.numbers, z.numbers);
    }
    if StringLe(x.eventId, y.eventId) && StringLe(y.eventId, z.eventId) {
      StringTransitive(x.eventId, y.eventId, z.eventId);
    }
  }

  lemma {:induction false} TiedMeansSameKey(a: SimulationEvent, b: SimulationEvent)
    ensures Tied(a, b, EventLe) <==> SortKey(a) == SortKey(b)
  {
    NumbersTrichotomy(SortKey(a).numbers, SortKey(b).numbers);
    StringTotal(a.eventId, b.eventId);
  }

  function SortEvents(events: seq<SimulationEvent>): seq<SimulationEvent> {
    Sort(events, EventLe)
  }

  ghost predicate DistinctIds(events: seq<SimulationEvent>) {
    forall i, j :: 0 <= i < j < |events| ==> events[i].eventId != events[j].eventId
  }

  // Any permutation of the input sorts to the same sequence exactly when no two different events share a key.
  lemma {:induction false} SortDeterminism(events: seq<SimulationEvent>)
    ensures OrderIndependent(events, EventLe)
            <==> (forall a, b :: a in events && b in events && SortKey(a) == SortKey(b) ==> a == b)
    ensures DistinctIds(events) ==> OrderIndependent(events, EventLe)
  {
    EventOrderIsTotal();
    OrderIndependentIff(events, EventLe);
    forall a, b
      ensures Tied(a, b, EventLe) <==> SortKey(a) == SortKey(b)
    {
      TiedMeansSameKey(a, b);
    }
  }

  // Sorted events come in the order of their available times, so the clock never has to turn back.
  lemma {:induction false} SortedByTime(events: seq<SimulationEvent>)
    ensures multiset(SortEvents(events)) == multiset(events) && |SortEvents(events)| == |events|
    ensures forall i, j :: 0 <= i < j < |events| ==>
        SortEvents(events)[i].availableTime <= SortEvents(events)[j].availableTime
  {
    EventOrderIsTotal();
    SortSorts(events, EventLe);
    var s := SortEvents(events);
    forall i, j | 0 <= i < j < |events|
      ensures s[i].availableTime <= s[j].availableTime
    {
      assert EventLe(s[i], s[j]);
      assert SortKey(s[i]).numbers[0] == s[i].availableTime && SortKey(s[j]).numbers[0] == s[j].availableTime;
    }
  }

  class SimulationClock {
    var current: int

    constructor (start: int)
      ensures current == start
    {
      current := start;
    }

    // `ok` is false where the program raises ClockRewindError.
    method AdvanceTo(eventTime: int) returns (ok: bool)
      modifies this
      ensures ok == (old(current) <= eventTime)
      ensures current == if ok then eventTime else old(current)
    {
      if eventTime < current {
        return false;
      }
      current := eventTime;
      return true;
    }
  }
}

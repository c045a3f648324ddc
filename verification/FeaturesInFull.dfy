/**
  The ten-minute feature stated on its input: what every number of the vector is in terms of the quotes and program
  events themselves.
 */
module FeaturesInFull {
  import opened Numbers
  import opened Wrappers
  import opened OfiFeatures
  import opened FiltersInFull

  // ---------- the events of the window ----------

  // The first m quotes are those up to the window's end, and quote b is the last one up to its start.
  ghost predicate Window(i: Input, m: nat, b: nat) {
    && b < m <= |i.quotes|
    && (forall k :: 0 <= k < |i.quotes| ==> i.quotes[k].time.Some? && (k < m <==> i.quotes[k].time.value <= i.end))
    && (forall k :: 0 <= k < |i.quotes| ==> (k <= b <==> i.quotes[k].time.value <= i.start))
  }

  lemma {:induction false} WindowExists(i: Input) returns (m: nat, b: nat)
    requires Clean(i)
    ensures Window(i, m, b)
  {
    m := EligiblePrefix(i.quotes, i.end);
    var n := EligiblePrefix(i.quotes, i.start);
    var k := BaselineAmong(QuotesBy(i.quotes, i.end), i.start);
    assert i.quotes[..m][k] == i.quotes[k];
    b := n - 1;
  }

  lemma {:induction false} EligibleAre(i: Input, m: nat, b: nat)
    requires Clean(i) && Window(i, m, b)
    ensures QuotesBy(i.quotes, i.end) == i.quotes[..m]
  {
    QuotesByPrefix(i.quotes, m, i.end);
  }

  lemma {:induction false} TicksAre(i: Input, m: nat, b: nat)
    requires Clean(i) && Window(i, m, b)
    ensures |WindowTicks(i)| == m && Rising(WindowTicks(i))
    ensures forall k :: 0 <= k < m ==> Sound(i.quotes[k]) && WindowTicks(i)[k] == TickOf(i.quotes[k])
  {
    EligibleAre(i, m, b);
    TicksTrack(i);
    EligibleRises(i);
    var ts, events := WindowTicks(i), QuotesBy(i.quotes, i.end);
    forall k | 0 <= k < m
      ensures Sound(i.quotes[k]) && ts[k] == TickOf(i.quotes[k])
    {
      assert events[k] == i.quotes[k];
    }
  }

  // ---------- order flow ----------

  // One change of the best prices: a better bid brings its size, a worse one takes the old size away, the same one
  // brings the difference; and the ask the other way round.
  predicate IsFlow(before: Quote, now: Quote, flow: real)
    requires Complete(before) && Complete(now)
  {
    var bid0, bid, size0, size :=
      before.bidPrices[0].value, now.bidPrices[0].value, before.bidQtys[0].value, now.bidQtys[0].value;
    var ask0, ask, depth0, depth :=
      before.askPrices[0].value, now.askPrices[0].value, before.askQtys[0].value, now.askQtys[0].value;
    var bought := if bid > bid0 then size else if bid < bid0 then -size0 else size - size0;
    var sold := if ask < ask0 then depth else if ask > ask0 then -depth0 else depth - depth0;
    flow == bought - sold
  }

  lemma {:induction false} FlowIsIncrement(before: Quote, now: Quote, flow: real)
    requires Complete(before) && Complete(now) && IsFlow(before, now, flow)
    ensures flow == Increment(BookOf(before), BookOf(now))
  {
  }

  lemma {:induction false} OfiIsTotal(ts: seq<Tick>, start: int, b: nat, flows: seq<real>)
    requires Rising(ts) && b < |ts| && |flows| == |ts| - 1 - b
    requires forall k :: 0 <= k < |ts| ==> (k <= b <==> ts[k].time <= start)
    requires forall k :: 0 <= k < |flows| ==> flows[k] == Increment(ts[b + k].book, ts[b + k + 1].book)
    ensures Ofi(ts, start) == Total(flows)
  {
    var n := |ts| - 1;
    if n == b {
      OfiBeforeWindow(ts, start);
    } else {
      OfiIsTotal(ts[..n], start, b, flows[..|flows| - 1]);
    }
  }

  // ---------- time weights ----------

  lemma {:induction false} IntegralIsTotal(m: Measure, ts: seq<Tick>, start: int, until: int, b: nat, terms: seq<real>)
    requires Rising(ts) && b < |ts| && |terms| == |ts| - b && ts[b].time <= start
    requires forall k :: 0 <= k < |terms| ==>
               terms[k] == Weighted(Value(m, ts[b + k].book),
                   Span(start, ts[b + k].time, if b + k + 1 < |ts| then ts[b + k + 1].time else until))
    ensures Integral(m, ts, start, until) == Total(terms)
  {
    var n := |ts| - 1;
    IntegralUnfolds(m, ts, ts[..n], ts[n], start, until);
    if n == b {
      NothingBeforeWindow(m, ts[..b], start, ts[b].time);
      assert terms[..0] == [];
    } else {
      IntegralIsTotal(m, ts[..n], start, ts[n].time, b, terms[..|terms| - 1]);
    }
  }

  // For how long quote k is the standing one inside the window, in seconds.
  ghost predicate Stands(i: Input, m: nat, b: nat, seconds: seq<real>)
    requires Window(i, m, b)
  {
    && |seconds| == m - b
    && forall k :: 0 <= k < |seconds| ==> seconds[k] == StandsFor(i, m, b + k)
  }

  ghost function StandsFor(i: Input, m: nat, k: nat): real
    requires k < m <= |i.quotes| && forall j :: 0 <= j < |i.quotes| ==> i.quotes[j].time.Some?
  {
    var from := if i.quotes[k].time.value < i.start then i.start else i.quotes[k].time.value;
    var to := if k + 1 < m then i.quotes[k + 1].time.value else i.end;
    (to - from) as real / 1000000000.0
  }

  lemma {:induction false} SpanIs(i: Input, m: nat, b: nat, k: nat)
    requires Clean(i) && Window(i, m, b) && b <= k < m
    ensures var until := if k + 1 < m then i.quotes[k + 1].time.value else i.end;
            StandsFor(i, m, k) == Span(i.start, i.quotes[k].time.value, until) && StandsFor(i, m, k) >= 0.0
  {
    if k + 1 < m {
      IncreasingQuotes(i.quotes, k, k + 1);
    }
  }

  // The ten sizes of one side.
  function Sizes(vs: Levels): (r: seq<real>)
    ensures |r| == |vs| && forall j :: 0 <= j < |vs| ==> r[j] == if vs[j].Some? then vs[j].value else 0.0
  {
    seq(|vs|, j requires 0 <= j < |vs| => if vs[j].Some? then vs[j].value else 0.0)
  }

  lemma {:induction false} SizesAddUp(vs: Levels)
    ensures SumOfLevels(vs) == Total(Sizes(vs))
  {
    if vs != [] {
      SizesAddUp(vs[..|vs| - 1]);
      assert Sizes(vs)[..|vs| - 1] == Sizes(vs[..|vs| - 1]);
    }
  }

  lemma {:induction false} Quotient(part: real, whole: real, quotient: real)
    requires whole != 0.0
    ensures quotient == part / whole <==> quotient * whole == part
  {
  }

  // ---------- the vector ----------

  lemma {:induction false} OutcomeParts(ts: seq<Tick>, start: int, end: int, tick: real, adv: real, net: ProgramNet,
      live: bool, lineage: seq<string>, v: Vector, ids: seq<string>, source: bool)
    requires ts != [] && tick > 0.0 && adv > 0.0
    requires Outcome(ts, start, end, tick, adv, net, live, lineage) == Computable(v, ids, source)
    ensures var last := ts[|ts| - 1].book;
            && v.ofi == Ofi(ts, start) && v.meanDepth == Mean(Integral(BestDepth, ts, start, end)) && v.meanDepth > 0.0
            && v.xDepth == Mean(Integral(Imbalance, ts, start, end))
            && last.bidQty + last.askQty > 0.0 && v.xMicro == XMicro(last, tick)
            && net == Net(v.programNet) && v.xOfi == v.ofi / v.meanDepth && v.xProgram == v.programNet / adv
            && v.xConflict == Conflict(v.xOfi, v.xProgram) && source == live && ids == lineage
  {
    hide Ofi, Integral, XMicro, Conflict, Mean;
  }

  ghost predicate Computes(i: Input, v: Vector) {
    Features(i).Computable? && Features(i).vector == v && Features(i).sourceEligible == i.liveCapture
  }

  lemma {:induction false} ComputedSource(i: Input)
    requires Features(i).Computable?
    ensures Computes(i, Features(i).vector)
  {
    FiltersPassIffClean(i);
  }

  // A computed vector, part by part.
  ghost predicate HasParts(i: Input, ts: seq<Tick>, v: Vector)
    requires ts != [] && i.tickSize.Some? && i.tickSize.value > 0.0 && i.adv.value.Some? && i.adv.value.value > 0.0
  {
    var last := ts[|ts| - 1].book;
    && v.ofi == Ofi(ts, i.start) && v.meanDepth == Mean(Integral(BestDepth, ts, i.start, i.end)) && v.meanDepth > 0.0
    && v.xDepth == Mean(Integral(Imbalance, ts, i.start, i.end))
    && last.bidQty + last.askQty > 0.0 && v.xMicro == XMicro(last, i.tickSize.value)
    && ProgramNotional(ProgramsBy(i.programs, i.end), i.start, i.semantics) == Net(v.programNet)
    && v.xOfi == v.ofi / v.meanDepth && v.xProgram == v.programNet / i.adv.value.value
    && v.xConflict == Conflict(v.xOfi, v.xProgram)
  }

  lemma {:induction false} VectorParts(i: Input, v: Vector)
    requires Computes(i, v)
    ensures Clean(i) && i.tickSize.Some? && i.tickSize.value > 0.0 && i.adv.value.Some? && i.adv.value.value > 0.0
    ensures HasParts(i, WindowTicks(i), v)
  {
    hide Outcome, HardReasons, Clean, WindowTicks, ProgramNotional, ProgramsBy, Lineage, Integral, Ofi, XMicro,
        Conflict,
      Mean;
    FeaturesOfClean(i);
    TickAndAdv(i);
    OutcomeParts(WindowTicks(i), i.start, i.end, i.tickSize.value, i.adv.value.value,
        ProgramNotional(ProgramsBy(i.programs, i.end), i.start, i.semantics), i.liveCapture, Lineage(i), v,
        Features(i).lineage, Features(i).sourceEligible);
  }

  lemma {:induction false} TickAndAdv(i: Input)
    requires Clean(i)
    ensures i.tickSize.Some? && i.tickSize.value > 0.0 && i.adv.value.Some? && i.adv.value.value > 0.0
  {
  }

  lemma {:induction false} PartDepth(i: Input, ts: seq<Tick>, v: Vector)
    requires ts != [] && i.tickSize.Some? && i.tickSize.value > 0.0 && i.adv.value.Some? && i.adv.value.value > 0.0
    requires HasParts(i, ts, v)
    ensures v.meanDepth == Integral(BestDepth, ts, i.start, i.end) / 600.0
    ensures v.xDepth == Integral(Imbalance, ts, i.start, i.end) / 600.0
  {
    hide Integral, Ofi, XMicro, Conflict, ProgramNotional;
  }

  // The order flow is the sum of the flows between neighbouring quotes, from the last one up to the window's start on.
  lemma {:induction false} OfiInFull(i: Input, v: Vector, m: nat, b: nat, flows: seq<real>)
    requires Window(i, m, b) && |flows| == m - 1 - b
    requires forall k :: 0 <= k < m ==> Complete(i.quotes[k])
    requires forall k :: 0 <= k < |flows| ==> IsFlow(i.quotes[b + k], i.quotes[b + k + 1], flows[k])
    requires Computes(i, v)
    ensures v.ofi == Total(flows)
  {
    hide Computes, Features, Clean, WindowTicks, Integral, Ofi, XMicro, Conflict, ProgramNotional, ProgramsBy, Complete;
    VectorParts(i, v);
    TicksAre(i, m, b);
    var ts := WindowTicks(i);
    forall k | 0 <= k < |flows|
      ensures flows[k] == Increment(ts[b + k].book, ts[b + k + 1].book)
    {
      FlowIsIncrement(i.quotes[b + k], i.quotes[b + k + 1], flows[k]);
    }
    OfiIsTotal(ts, i.start, b, flows);
  }

  // The two best sizes, halved, times the seconds.
  predicate IsDepth(q: Quote, seconds: real, term: real)
    requires Complete(q)
  {
    term == (q.bidQtys[0].value + q.askQtys[0].value) / 2.0 * seconds
  }

  // (bids - asks) / (bids + asks) over the ten levels.
  predicate IsLean(q: Quote, lean: real) {
    var bids, asks := Total(Sizes(q.bidQtys)), Total(Sizes(q.askQtys));
    lean * (bids + asks) == bids - asks
  }

  // The mean depth is the mean of the two best sizes over the 600 seconds, each pair weighted by how long it stood.
  lemma {:induction false} MeanDepthInFull(i: Input, v: Vector, m: nat, b: nat, seconds: seq<real>, terms: seq<real>)
    requires Window(i, m, b) && Stands(i, m, b, seconds) && |terms| == m - b
    requires forall k :: 0 <= k < m ==> Complete(i.quotes[k])
    requires forall k :: 0 <= k < |terms| ==> IsDepth(i.quotes[b + k], seconds[k], terms[k])
    requires Computes(i, v)
    ensures v.meanDepth == Total(terms) / 600.0
  {
    hide Computes, Features, Clean, WindowTicks, Integral, Ofi, XMicro, Conflict, ProgramNotional, ProgramsBy, Complete;
    VectorParts(i, v);
    TicksAre(i, m, b);
    hide HasParts, Total, Value, Span, IsDepth, IsLean, StandsFor, TickOf;
    var ts := WindowTicks(i);
    forall k | 0 <= k < |terms|
      ensures terms[k] == Weighted(Value(BestDepth, ts[b + k].book),
                  Span(i.start, ts[b + k].time, if b + k + 1 < |ts| then ts[b + k + 1].time else i.end))
    {
      DepthTerm(i, m, b, b + k, seconds[k], terms[k]);
    }
    IntegralIsTotal(BestDepth, ts, i.start, i.end, b, terms);
    PartDepth(i, ts, v);
  }

  lemma {:induction false} DepthTerm(i: Input, m: nat, b: nat, k: nat, seconds: real, term: real)
    requires Clean(i) && Window(i, m, b) && b <= k < m && Sound(i.quotes[k]) && seconds == StandsFor(i, m, k)
    requires IsDepth(i.quotes[k], seconds, term)
    ensures term == Weighted(Value(BestDepth, BookOf(i.quotes[k])),
                Span(i.start, i.quotes[k].time.value, if k + 1 < m then i.quotes[k + 1].time.value else i.end))
  {
    SpanIs(i, m, b, k);
    SameProduct((i.quotes[k].bidQtys[0].value + i.quotes[k].askQtys[0].value) / 2.0,
        Value(BestDepth, BookOf(i.quotes[k])), seconds, term);
  }

  lemma {:induction false} SameProduct(x: real, y: real, s: real, xs: real)
    requires x == y && xs == x * s
    ensures xs == Weighted(y, s)
  {
  }

  // The depth feature is the mean of the leans over the 600 seconds, each weighted by how long its quote stood.
  lemma {:induction false} DepthInFull(i: Input, v: Vector, m: nat, b: nat, seconds: seq<real>, leans: seq<real>,
      terms: seq<real>)
    requires Window(i, m, b) && Stands(i, m, b, seconds) && |leans| == |terms| == m - b
    requires forall k :: 0 <= k < |leans| ==> IsLean(i.quotes[b + k], leans[k])
    requires forall k :: 0 <= k < |terms| ==> terms[k] == leans[k] * seconds[k]
    requires Computes(i, v)
    ensures v.xDepth == Total(terms) / 600.0
  {
    hide Computes, Features, Clean, WindowTicks, Integral, Ofi, XMicro, Conflict, ProgramNotional, ProgramsBy, Complete;
    VectorParts(i, v);
    TicksAre(i, m, b);
    hide HasParts, Total, Value, Span;
    LeanTerms(i, m, b, seconds, leans, terms);
    IntegralIsTotal(Imbalance, WindowTicks(i), i.start, i.end, b, terms);
    PartDepth(i, WindowTicks(i), v);
  }

  lemma {:induction false} LeanTerms(i: Input, m: nat, b: nat, seconds: seq<real>, leans: seq<real>, terms: seq<real>)
    requires Clean(i) && Window(i, m, b) && Stands(i, m, b, seconds) && |leans| == |terms| == m - b
    requires |WindowTicks(i)| == m
    requires forall k :: 0 <= k < m ==> Sound(i.quotes[k]) && WindowTicks(i)[k] == TickOf(i.quotes[k])
    requires forall k :: 0 <= k < |leans| ==> IsLean(i.quotes[b + k], leans[k])
    requires forall k :: 0 <= k < |terms| ==> terms[k] == leans[k] * seconds[k]
    ensures var ts := WindowTicks(i);
            forall k :: 0 <= k < |terms| ==>
              terms[k] == Weighted(Value(Imbalance, ts[b + k].book),
                  Span(i.start, ts[b + k].time, if b + k + 1 < |ts| then ts[b + k + 1].time else i.end))
  {
    hide Clean, WindowTicks, Total, Value, Span, IsLean, StandsFor, Complete;
    forall k | 0 <= k < |terms|
      ensures terms[k] == Weighted(Value(Imbalance, WindowTicks(i)[b + k].book),
                  Span(i.start, WindowTicks(i)[b + k].time,
                      if b + k + 1 < m then WindowTicks(i)[b + k + 1].time else i.end))
    {
      LeanTerm(i, m, b, b + k, seconds[k], leans[k], terms[k]);
    }
  }

  lemma {:induction false} LeanTerm(i: Input, m: nat, b: nat, k: nat, seconds: real, lean: real, term: real)
    requires Clean(i) && Window(i, m, b) && b <= k < m && Sound(i.quotes[k]) && seconds == StandsFor(i, m, k)
    requires IsLean(i.quotes[k], lean)
    requires term == lean * seconds
    ensures term == Weighted(Value(Imbalance, BookOf(i.quotes[k])),
                Span(i.start, i.quotes[k].time.value, if k + 1 < m then i.quotes[k + 1].time.value else i.end))
  {
    var book: SoundBook := BookOf(i.quotes[k]);
    SpanIs(i, m, b, k);
    SizesAddUp(i.quotes[k].bidQtys);
    SizesAddUp(i.quotes[k].askQtys);
    Quotient(book.bidTotal - book.askTotal, book.bidTotal + book.askTotal, lean);
    SameProduct(lean, Value(Imbalance, book), seconds, term);
  }

  // The micro-price deviation, in ticks: half the spread of the last quote, leaning to the side of the larger size.
  lemma {:induction false} MicroInFull(i: Input, v: Vector, m: nat, b: nat, bid: real, ask: real, size: real,
      depth: real)
    requires Window(i, m, b) && Complete(i.quotes[m - 1])
    requires bid == i.quotes[m - 1].bidPrices[0].value && ask == i.quotes[m - 1].askPrices[0].value
    requires size == i.quotes[m - 1].bidQtys[0].value && depth == i.quotes[m - 1].askQtys[0].value
    requires Computes(i, v)
    ensures size + depth > 0.0 && i.tickSize.Some?
    ensures v.xMicro * i.tickSize.value == (ask - bid) / 2.0 * ((size - depth) / (size + depth))
  {
    hide Computes, Features, Clean, WindowTicks, Integral, Ofi, XMicro, Conflict, ProgramNotional, ProgramsBy, Complete;
    VectorParts(i, v);
    TicksAre(i, m, b);
    var ts := WindowTicks(i);
    assert ts[|ts| - 1] == TickOf(i.quotes[m - 1]);
    hide HasParts;
    PartMicro(i, ts, v);
    MicroOfBook(ts[|ts| - 1].book, i.tickSize.value, v.xMicro);
  }

  lemma {:induction false} PartMicro(i: Input, ts: seq<Tick>, v: Vector)
    requires ts != [] && i.tickSize.Some? && i.tickSize.value > 0.0 && i.adv.value.Some? && i.adv.value.value > 0.0
    requires HasParts(i, ts, v)
    ensures var last := ts[|ts| - 1].book;
            last.bidQty + last.askQty > 0.0 && v.xMicro == XMicro(last, i.tickSize.value)
  {
    hide Integral, Ofi, XMicro, Conflict, ProgramNotional;
  }

  lemma {:induction false} MicroOfBook(book: SoundBook, tick: real, micro: real)
    requires book.bidQty + book.askQty > 0.0 && tick > 0.0 && micro == XMicro(book, tick)
    ensures micro * tick == (book.ask - book.bid) / 2.0 * ((book.bidQty - book.askQty) / (book.bidQty + book.askQty))
  {
    Quotient(Microprice(book) - (book.bid + book.ask) / 2.0, tick, micro);
    Leaning(book.bid, book.ask, book.bidQty, book.askQty, Microprice(book),
        (book.bidQty - book.askQty) / (book.bidQty + book.askQty));
  }

  lemma {:induction false} Leaning(bid: real, ask: real, size: real, depth: real, micro: real, lean: real)
    requires size + depth > 0.0 && micro == (ask * size + bid * depth) / (size + depth)
    requires lean == (size - depth) / (size + depth)
    ensures micro - (bid + ask) / 2.0 == (ask - bid) / 2.0 * lean
  {
    var whole := size + depth;
    Quotient(ask * size + bid * depth, whole, micro);
    Quotient(size - depth, whole, lean);
    LeaningScaled(bid, ask, size, depth, micro, lean, whole);
    SameTimes(micro - (bid + ask) / 2.0, (ask - bid) / 2.0 * lean, whole);
  }

  lemma {:induction false} LeaningScaled(bid: real, ask: real, size: real, depth: real, micro: real, lean: real,
      whole: real)
    requires whole == size + depth && micro * whole == ask * size + bid * depth && lean * whole == size - depth
    ensures (micro - (bid + ask) / 2.0) * whole == ((ask - bid) / 2.0 * lean) * whole
  {
    var mid, half := (bid + ask) / 2.0, (ask - bid) / 2.0;
    assert (half * lean) * whole == half * (lean * whole);
    assert (micro - mid) * whole == micro * whole - mid * whole;
    assert mid * whole == mid * size + mid * depth;
    assert half * (size - depth) == half * size - half * depth;
    assert ask * size - mid * size == half * size;
    assert bid * depth - mid * depth == -(half * depth);
  }

  lemma {:induction false} SameTimes(x: real, y: real, whole: real)
    requires whole > 0.0 && x * whole == y * whole
    ensures x == y
  {
    assert (x - y) * whole == 0.0;
  }

  // ---------- the program net ----------

  lemma {:induction false} ProgramsByAll(ps: seq<Program>, cutoff: int)
    requires forall k :: 0 <= k < |ps| ==> ProgramBy(ps[k], cutoff)
    ensures ProgramsBy(ps, cutoff) == ps
  {
    if ps != [] {
      var n := |ps| - 1;
      ProgramsByAll(ps[..n], cutoff);
      assert ps == ps[..n] + [ps[n]];
    }
  }

  lemma {:induction false} ProgramsByPrefix(ps: seq<Program>, m: nat, cutoff: int)
    requires m <= |ps| && forall k :: 0 <= k < |ps| ==> (k < m <==> ProgramBy(ps[k], cutoff))
    ensures ProgramsBy(ps, cutoff) == ps[..m]
  {
    var early, late := ps[..m], ps[m..];
    assert ps == early + late;
    ProgramsByAll(early, cutoff);
    ProgramsByDropsLate(early, late, cutoff);
  }

  // The first n program events are those up to the window's end, and the first s those up to its start.
  ghost predicate ProgramWindow(i: Input, n: nat, s: nat) {
    && s <= n <= |i.programs|
    && forall k :: 0 <= k < |i.programs| ==>
         && i.programs[k].time.Some?
         && (k < n <==> i.programs[k].time.value <= i.end) && (k < s <==> i.programs[k].time.value <= i.start)
  }

  lemma {:induction false} NetsPresent(i: Input, n: nat, s: nat)
    requires Clean(i) && ProgramWindow(i, n, s)
    ensures ProgramsBy(i.programs, i.end) == i.programs[..n] && n > 0
    ensures forall k :: 0 <= k < n ==> i.programs[k].net.Some?
    ensures i.semantics.Cumulative? ==> s > 0
  {
    ProgramsByPrefix(i.programs, n, i.end);
    forall k | 0 <= k < n
      ensures i.programs[k].net.Some?
    {
      assert i.programs[..n][k] in ProgramsBy(i.programs, i.end);
    }
    if i.semantics.Cumulative? {
      var p :| p in i.programs[..n] && ProgramBy(p, i.start);
    }
  }

  // With cumulative values the net is the last value up to the window's end less the last one up to its start.
  lemma {:induction false} CumulativeNet(i: Input, n: nat, s: nat, v: Vector)
    requires i.semantics.Cumulative? && ProgramWindow(i, n, s) && Computes(i, v)
    ensures 0 < s <= n && i.programs[n - 1].net.Some? && i.programs[s - 1].net.Some?
    ensures v.programNet == i.programs[n - 1].net.value - i.programs[s - 1].net.value
  {
    hide Features, Clean, WindowTicks, HasParts, ProgramNotional, ProgramsBy;
    VectorParts(i, v);
    NetsPresent(i, n, s);
    PartNet(i, WindowTicks(i), v);
    CumulativeNotional(i.programs[..n], i.start, s, v.programNet);
  }

  lemma {:induction false} PartNet(i: Input, ts: seq<Tick>, v: Vector)
    requires ts != [] && i.tickSize.Some? && i.tickSize.value > 0.0 && i.adv.value.Some? && i.adv.value.value > 0.0
    requires HasParts(i, ts, v)
    ensures ProgramNotional(ProgramsBy(i.programs, i.end), i.start, i.semantics) == Net(v.programNet)
  {
    hide Integral, Ofi, XMicro, Conflict, ProgramNotional, ProgramsBy;
  }

  lemma {:induction false} CumulativeNotional(eligible: seq<Program>, start: int, s: nat, net: real)
    requires 0 < s <= |eligible| && forall k :: 0 <= k < |eligible| ==> eligible[k].net.Some?
    requires forall k :: 0 <= k < |eligible| ==> (k < s <==> ProgramBy(eligible[k], start))
    requires ProgramNotional(eligible, start, Cumulative) == Net(net)
    ensures net == eligible[|eligible| - 1].net.value - eligible[s - 1].net.value
  {
    ProgramsByPrefix(eligible, s, start);
  }

  // The amounts of program events.
  function Nets(ps: seq<Program>): (r: seq<real>)
    ensures |r| == |ps| && forall k :: 0 <= k < |ps| ==> r[k] == if ps[k].net.Some? then ps[k].net.value else 0.0
  {
    seq(|ps|, k requires 0 <= k < |ps| => if ps[k].net.Some? then ps[k].net.value else 0.0)
  }

  lemma {:induction false} NetSumIsTotal(ps: seq<Program>, start: int, f: nat)
    requires f <= |ps|
    requires forall k :: 0 <= k < |ps| ==>
               ps[k].time.Some? && ps[k].net.Some? && (f <= k <==> start <= ps[k].time.value)
    ensures NetSum(ps, start) == Total(Nets(ps[f..]))
  {
    if ps != [] {
      var n := |ps| - 1;
      if f <= n {
        NetSumIsTotal(ps[..n], start, f);
        assert Nets(ps[f..])[..n - f] == Nets(ps[..n][f..]);
      } else {
        NetSumIsTotal(ps[..n], start, n);
        assert ps[n..][1..] == [] && ps[..n][n..] == [] && ps[f..] == [];
      }
    }
  }

  // With incremental values it is the sum of those from the window's start to its end, both included.
  lemma {:induction false} IncrementalNet(i: Input, n: nat, s: nat, f: nat, v: Vector)
    requires i.semantics.Incremental? && ProgramWindow(i, n, s) && f <= n
    requires forall k :: 0 <= k < |i.programs| ==>
               i.programs[k].time.Some? && (f <= k <==> i.start <= i.programs[k].time.value)
    requires Computes(i, v)
    ensures v.programNet == Total(Nets(i.programs[f..n]))
  {
    hide Features, Clean, WindowTicks, HasParts, ProgramNotional, ProgramsBy;
    VectorParts(i, v);
    NetsPresent(i, n, s);
    PartNet(i, WindowTicks(i), v);
    IncrementalNotional(i.programs[..n], i.start, v.programNet);
    NetSumIsTotal(i.programs[..n], i.start, f);
    assert i.programs[..n][f..] == i.programs[f..n];
  }

  lemma {:induction false} IncrementalNotional(eligible: seq<Program>, start: int, net: real)
    requires ProgramNotional(eligible, start, Incremental) == Net(net)
    ensures net == NetSum(eligible, start)
  {
  }

  lemma {:induction false} TotalSplits(xs: seq<real>, ys: seq<real>)
    ensures Total(xs + ys) == Total(xs) + Total(ys)
  {
    if ys == [] {
      assert xs + ys == xs;
    } else {
      var n := |ys| - 1;
      TotalSplits(xs, ys[..n]);
      assert (xs + ys)[..|xs| + n] == xs + ys[..n];
    }
  }

  // The same day twice: amounts per event, and their running sums as cumulative values.
  ghost predicate RunningSums(i: Input, j: Input) {
    && i.semantics.Incremental? && j == i.(semantics := Cumulative, programs := j.programs)
    && |j.programs| == |i.programs|
    && forall k :: 0 <= k < |i.programs| ==>
         j.programs[k] == i.programs[k].(net := Some(Total(Nets(i.programs[..k + 1]))))
  }

  lemma {:induction false} FirstInside(i: Input, n: nat, s: nat) returns (f: nat)
    requires Clean(i) && ProgramWindow(i, n, s)
    ensures f <= n && (f == s || f + 1 == s)
    ensures forall k :: 0 <= k < |i.programs| ==> (f <= k <==> i.start <= i.programs[k].time.value)
    ensures f + 1 == s <==> s > 0 && i.programs[s - 1].time.value == i.start
  {
    f := if s > 0 && i.programs[s - 1].time.value == i.start then s - 1 else s;
    forall k | 0 <= k < |i.programs|
      ensures f <= k <==> i.start <= i.programs[k].time.value
    {
      if k + 1 < s { IncreasingPrograms(i.programs, k, s - 1); }
    }
  }

  lemma {:induction false} NetsSplit(ps: seq<Program>, f: nat, n: nat)
    requires f <= n <= |ps|
    ensures Total(Nets(ps[..n])) == Total(Nets(ps[..f])) + Total(Nets(ps[f..n]))
  {
    TotalSplits(Nets(ps[..f]), Nets(ps[f..n]));
    assert Nets(ps[..n]) == Nets(ps[..f]) + Nets(ps[f..n]);
  }

  lemma {:induction false} NetsLast(ps: seq<Program>, s: nat)
    requires 0 < s <= |ps| && ps[s - 1].net.Some?
    ensures Total(Nets(ps[..s])) == Total(Nets(ps[..s - 1])) + ps[s - 1].net.value
  {
    assert Nets(ps[..s])[..s - 1] == Nets(ps[..s - 1]);
  }

  // On such a day both readings give the same net if and only if no event at exactly the window's start has an amount:
  // the sum includes that event, the difference does not.
  lemma {:induction false} ReadingsAgreeIff(i: Input, j: Input, v: Vector, w: Vector)
    requires RunningSums(i, j) && Computes(i, v) && Computes(j, w)
    ensures v.programNet == w.programNet <==>
              forall k :: 0 <= k < |i.programs| && i.programs[k].time == Some(i.start) ==>
                i.programs[k].net == Some(0.0)
  {
    hide Computes, Features, Clean, WindowTicks, HasParts, Total, Nets;
    VectorParts(i, v);
    var n, s := ProgramWindowExists(i);
    assert ProgramWindow(j, n, s);
    NetsPresent(i, n, s);
    var f := FirstInside(i, n, s);
    CumulativeNet(j, n, s, w);
    IncrementalNet(i, n, s, f, v);
    NetsSplit(i.programs, f, n);
    AgreeAt(i, n, s, f);
  }

  lemma {:induction false} AgreeAt(i: Input, n: nat, s: nat, f: nat)
    requires ProgramWindow(i, n, s) && f <= n && (f == s || f + 1 == s)
    requires forall k :: 0 <= k < n ==> i.programs[k].net.Some?
    requires forall k :: 0 <= k < |i.programs| ==> (f <= k <==> i.start <= i.programs[k].time.value)
    ensures Total(Nets(i.programs[..s])) == Total(Nets(i.programs[..f])) <==>
              forall k :: 0 <= k < |i.programs| && i.programs[k].time == Some(i.start) ==>
                i.programs[k].net == Some(0.0)
  {
    if f + 1 == s {
      NetsLast(i.programs, s);
    }
  }

  lemma {:induction false} ProgramWindowExists(i: Input) returns (n: nat, s: nat)
    requires Clean(i)
    ensures ProgramWindow(i, n, s)
  {
    n := CountUpTo(i.programs, i.end);
    s := CountUpTo(i.programs, i.start);
    assert s > 0 ==> i.programs[s - 1].time.value <= i.start;
  }

  lemma {:induction false} CountUpTo(ps: seq<Program>, cutoff: int) returns (m: nat)
    requires ProgramsTimed(ps) && ProgramsIncrease(ps)
    ensures m <= |ps| && forall k :: 0 <= k < |ps| ==> (k < m <==> ps[k].time.value <= cutoff)
  {
    m := 0;
    while m < |ps| && ps[m].time.value <= cutoff
      invariant m <= |ps| && forall k :: 0 <= k < m ==> ps[k].time.value <= cutoff
    {
      m := m + 1;
    }
    forall k | m <= k < |ps|
      ensures ps[k].time.value > cutoff
    {
      if m < k { IncreasingPrograms(ps, m, k); }
    }
  }

  // ---------- the scaled features ----------

  lemma {:induction false} SignOfQuotient(part: real, whole: real, quotient: real)
    requires whole > 0.0 && quotient * whole == part
    ensures (quotient > 0.0 <==> part > 0.0) && (quotient < 0.0 <==> part < 0.0)
  {
    if quotient > 0.0 {
      assert quotient * whole > 0.0;
    } else if quotient < 0.0 {
      assert (-quotient) * whole > 0.0;
    }
  }

  // Order flow per mean depth, program flow per average turnover, and the flag of their conflict: one when the two
  // flows have opposite signs, and else zero.
  lemma {:induction false} ScaledInFull(i: Input, v: Vector)
    requires Computes(i, v)
    ensures i.adv.value.Some?
    ensures v.xOfi * v.meanDepth == v.ofi && v.xProgram * i.adv.value.value == v.programNet
            && (v.xConflict == 1.0 <==> (v.ofi > 0.0 && v.programNet < 0.0) || (v.ofi < 0.0 && v.programNet > 0.0))
            && (v.xConflict == 0.0 || v.xConflict == 1.0)
  {
    hide Computes, Features, Clean, WindowTicks, Integral, Ofi, XMicro, ProgramNotional, ProgramsBy;
    VectorParts(i, v);
    Quotient(v.ofi, v.meanDepth, v.xOfi);
    Quotient(v.programNet, i.adv.value.value, v.xProgram);
    SignOfQuotient(v.ofi, v.meanDepth, v.xOfi);
    SignOfQuotient(v.programNet, i.adv.value.value, v.xProgram);
  }

  // An input that passes the filters and is not computable has a mean depth of zero or an empty last quote, and says
  // so.
  lemma {:induction false} NotComputableInFull(i: Input)
    requires HardReasons(i) == [] && !Features(i).Computable?
    ensures Features(i) == NotComputable([BestDepthZero], Lineage(i))
  {
    FiltersPassIffClean(i);
    ProgramNeverRaises(i);
  }
}

/**
  The ten-minute order-flow feature: hard filters on the inputs, then time-weighted sums over the book
  events of the window. A missing number is None, and so is a non-finite one in a book. Times are nanoseconds, amounts
  exact reals.
 */
module OfiFeatures {
  import opened Numbers
  import opened Wrappers

  datatype Reason =
    | SnapshotAfterCutoff | PostCutoffAvailable | ProviderEventTimeMissing | SnapshotStale | ClockSyncError
    | WebsocketDisconnect | ParseFailure | OutOfOrder | PacketGap | WindowNotFullyCovered | DepthIncomplete
    | CrossedOrLockedBook | UnitUnconfirmed | ProgramMissing | ProgramSemanticsUnsealed | ProgramSourceNotKrx
    | ProgramResetUnexplained | BestDepthZero | TickSizeInvalid | AdvMissingOrInvalid | StructuralInputMissing
    | Vi | Halted | PriceLimit | MarketStateUnknown | ApiSchemaDrift | ForbiddenLineage

  type Levels = seq<Option<real>>

  datatype Quote = Quote(time: Option<int>, bidPrices: Levels, askPrices: Levels, bidQtys: Levels, askQtys: Levels,
      id: string)

  datatype Program = Program(time: Option<int>, net: Option<real>, id: string, trId: string, venue: string)

  datatype Semantics = Cumulative | Incremental | Unsealed

  datatype Causal = Causal(value: Option<real>, availableAt: Option<int>, id: Option<string>)

  datatype Quality = Quality(
    clockErrorMs: Option<real>, quoteMaxGap: Option<real>, tradeMaxGap: Option<real>,
    disconnects: int, parseFailures: int, outOfOrder: int, tradeDuringGap: bool, unitsConfirmed: bool,
    semanticsSealed: bool, programReset: bool, vi: bool, halted: bool, priceLimit: bool, stateKnown: bool,
    schemaDrift: bool, postCutoffLineage: bool, forbiddenLineage: bool)

  datatype Input = Input(
    start: int, end: int, quotes: seq<Quote>, programs: seq<Program>, semantics: Semantics,
    adv: Causal, tickSize: Option<real>, quality: Quality, liveCapture: bool, structuralComplete: bool)

  datatype Vector = Vector(
    xOfi: real, xDepth: real, xMicro: real, xProgram: real, xConflict: real, ofi: real, meanDepth: real,
        programNet: real)

  datatype Result =
    | Computable(vector: Vector, lineage: seq<string>, sourceEligible: bool)
    | NotComputable(reasons: seq<Reason>, lineage: seq<string>)

  const PROGRAM_TR := "H0STPGM0"
  const KRX := "KRX"

  function Seconds(nanos: int): real {
    nanos as real / 1000000000.0
  }

  function Later(x: int, y: int): int { if x >= y then x else y }

  // ---------- books ----------

  predicate Present(v: Option<real>) {
    v.Some? && v.value >= 0.0
  }

  predicate AllPresent(vs: Levels) {
    |vs| == 10 && forall i :: 0 <= i < |vs| ==> Present(vs[i])
  }

  predicate AllPositive(vs: Levels) {
    forall i :: 0 <= i < |vs| ==> vs[i].Some? && vs[i].value > 0.0
  }

  predicate Complete(q: Quote) {
    && AllPresent(q.bidPrices) && AllPresent(q.askPrices) && AllPresent(q.bidQtys) && AllPresent(q.askQtys)
    && AllPositive(q.bidPrices) && AllPositive(q.askPrices)
  }

  function SumOfLevels(vs: Levels): real {
    if vs == [] then 0.0
    else SumOfLevels(vs[..|vs| - 1]) + (if vs[|vs| - 1].Some? then vs[|vs| - 1].value else 0.0)
  }

  // Everything the sums read from one complete quote.
  datatype Book = Book(bid: real, ask: real, bidQty: real, askQty: real, bidTotal: real, askTotal: real)
  {
    predicate Valid() {
      && 0.0 < bid < ask && bidQty >= 0.0 && askQty >= 0.0
      && bidTotal >= 0.0 && askTotal >= 0.0 && bidTotal + askTotal > 0.0
    }

    function BestDepth(): real {
      (bidQty + askQty) / 2.0
    }

    function Imbalance(): real
      requires bidTotal + askTotal > 0.0
    {
      (bidTotal - askTotal) / (bidTotal + askTotal)
    }
  }

  function BookOf(q: Quote): Book
    requires Complete(q)
  {
    Book(q.bidPrices[0].value, q.askPrices[0].value, q.bidQtys[0].value, q.askQtys[0].value, SumOfLevels(q.bidQtys),
        SumOfLevels(q.askQtys))
  }

  // Complete, neither crossed nor locked, and with some depth.
  predicate Proper(q: Quote) {
    Complete(q) && BookOf(q).Valid()
  }

  function BookFault(q: Quote): Option<Reason> {
    if !Complete(q) then Some(DepthIncomplete)
    else if BookOf(q).bid >= BookOf(q).ask then Some(CrossedOrLockedBook)
    else if BookOf(q).bidTotal + BookOf(q).askTotal <= 0.0 then Some(BestDepthZero)
    else None
  }

  // ---------- which events count ----------

  predicate QuoteBy(q: Quote, cutoff: int) {
    q.time.Some? && q.time.value <= cutoff
  }

  predicate ProgramBy(p: Program, cutoff: int) {
    p.time.Some? && p.time.value <= cutoff
  }

  function QuotesBy(qs: seq<Quote>, cutoff: int): seq<Quote> {
    if qs == [] then []
    else QuotesBy(qs[..|qs| - 1], cutoff) + (if QuoteBy(qs[|qs| - 1], cutoff) then [qs[|qs| - 1]] else [])
  }

  lemma {:induction false} QuotesByMembers(qs: seq<Quote>, cutoff: int)
    ensures forall q :: q in QuotesBy(qs, cutoff) <==> q in qs && QuoteBy(q, cutoff)
    ensures QuotesBy(qs, cutoff) != [] ==> QuoteBy(QuotesBy(qs, cutoff)[|QuotesBy(qs, cutoff)| - 1], cutoff)
  {
    if qs != [] {
      var n := |qs| - 1;
      QuotesByMembers(qs[..n], cutoff);
      assert qs == qs[..n] + [qs[n]];
    }
  }

  function ProgramsBy(ps: seq<Program>, cutoff: int): seq<Program> {
    if ps == [] then []
    else ProgramsBy(ps[..|ps| - 1], cutoff) + (if ProgramBy(ps[|ps| - 1], cutoff) then [ps[|ps| - 1]] else [])
  }

  lemma {:induction false} ProgramsByMembers(ps: seq<Program>, cutoff: int)
    ensures forall p :: p in ProgramsBy(ps, cutoff) <==> p in ps && ProgramBy(p, cutoff)
    ensures ProgramsBy(ps, cutoff) != [] ==> ProgramBy(ProgramsBy(ps, cutoff)[|ProgramsBy(ps, cutoff)| - 1], cutoff)
  {
    if ps != [] {
      var n := |ps| - 1;
      ProgramsByMembers(ps[..n], cutoff);
      assert ps == ps[..n] + [ps[n]];
    }
  }

  predicate QuotesTimed(qs: seq<Quote>) {
    forall i :: 0 <= i < |qs| ==> qs[i].time.Some?
  }

  predicate ProgramsTimed(ps: seq<Program>) {
    forall i :: 0 <= i < |ps| ==> ps[i].time.Some?
  }

  predicate QuotesIncrease(qs: seq<Quote>)
    requires QuotesTimed(qs)
  {
    forall i :: 0 <= i < |qs| - 1 ==> qs[i].time.value < qs[i + 1].time.value
  }

  predicate ProgramsIncrease(ps: seq<Program>)
    requires ProgramsTimed(ps)
  {
    forall i :: 0 <= i < |ps| - 1 ==> ps[i].time.value < ps[i + 1].time.value
  }

  predicate SomeQuoteBy(qs: seq<Quote>, cutoff: int) {
    exists q :: q in qs && QuoteBy(q, cutoff)
  }

  predicate SomeQuoteAfter(qs: seq<Quote>, cutoff: int) {
    exists q :: q in qs && q.time.Some? && q.time.value > cutoff
  }

  predicate SomeProgramBy(ps: seq<Program>, cutoff: int) {
    exists p :: p in ps && ProgramBy(p, cutoff)
  }

  predicate FromKrx(p: Program) {
    p.trId == PROGRAM_TR && p.venue == KRX
  }

  predicate SomeForeign(ps: seq<Program>) {
    exists p :: p in ps && !FromKrx(p)
  }

  predicate SomeNetMissing(ps: seq<Program>) {
    exists p :: p in ps && p.net.None?
  }

  // ---------- the hard filters ----------

  function When(holds: bool, r: Reason): seq<Reason> {
    if holds then [r] else []
  }

  function FirstFault(qs: seq<Quote>): seq<Reason> {
    if qs == [] then []
    else
      var before := FirstFault(qs[..|qs| - 1]);
      if before != [] then before
      else if BookFault(qs[|qs| - 1]).Some? then [BookFault(qs[|qs| - 1]).value]
      else []
  }

  function GapReason(q: Quality): bool {
    || q.quoteMaxGap.None? || q.tradeMaxGap.None?
    || q.quoteMaxGap.value > 2.0 || q.tradeMaxGap.value > 2.0 || q.tradeDuringGap
  }

  function AdvReasons(adv: Causal, end: int): seq<Reason> {
    if adv.value.None? || adv.value.value <= 0.0 then [AdvMissingOrInvalid]
    else When(adv.availableAt.None? || adv.availableAt.value > end, PostCutoffAvailable)
  }

  function SettingReasons(start: int, end: int, tick: Option<real>, adv: Causal, complete: bool): seq<Reason> {
    When(Seconds(end - start) != 600.0, WindowNotFullyCovered)
    + When(tick.None? || tick.value <= 0.0, TickSizeInvalid)
    + AdvReasons(adv, end)
    + When(!complete, StructuralInputMissing)
  }

  function CaptureReasons(q: Quality): seq<Reason> {
    When(q.clockErrorMs.None? || Abs(q.clockErrorMs.value) > 50.0, ClockSyncError)
    + When(q.disconnects != 0, WebsocketDisconnect)
    + When(q.parseFailures != 0, ParseFailure)
    + When(q.outOfOrder != 0, OutOfOrder)
    + When(GapReason(q), PacketGap)
    + When(!q.unitsConfirmed, UnitUnconfirmed)
    + When(!q.semanticsSealed, ProgramSemanticsUnsealed)
  }

  function MarketReasons(q: Quality): seq<Reason> {
    When(q.programReset, ProgramResetUnexplained)
    + When(q.vi, Vi)
    + When(q.halted, Halted)
    + When(q.priceLimit, PriceLimit)
    + When(!q.stateKnown, MarketStateUnknown)
    + When(q.schemaDrift, ApiSchemaDrift)
    + When(q.postCutoffLineage, PostCutoffAvailable)
    + When(q.forbiddenLineage, ForbiddenLineage)
  }

  function QualityReasons(q: Quality): seq<Reason> {
    CaptureReasons(q) + MarketReasons(q)
  }

  function StaticReasons(i: Input): seq<Reason> {
    SettingReasons(i.start, i.end, i.tickSize, i.adv, i.structuralComplete) + QualityReasons(i.quality)
  }

  predicate Stale(last: Option<int>, end: int) {
    last.Some? && Seconds(end - last.value) > 2.0
  }

  // `late` says whether any quote at all comes after the window.
  function QuoteReasons(eligible: seq<Quote>, start: int, end: int, late: bool): seq<Reason> {
    (if SomeQuoteBy(eligible, start) then [] else When(late, SnapshotAfterCutoff) + [WindowNotFullyCovered])
    + (if eligible == [] then [WindowNotFullyCovered]
        else When(Stale(eligible[|eligible| - 1].time, end), SnapshotStale))
    + FirstFault(eligible)
  }

  function ProgramReasons(eligible: seq<Program>, start: int, end: int, semantics: Semantics): seq<Reason> {
    (if eligible == [] then [ProgramMissing]
     else
       When(SomeForeign(eligible), ProgramSourceNotKrx)
       + When(SomeNetMissing(eligible), ProgramMissing)
       + When(Stale(eligible[|eligible| - 1].time, end), SnapshotStale)
       + When(semantics.Cumulative? && !SomeProgramBy(eligible, start), ProgramMissing))
    + When(semantics.Unsealed?, ProgramSemanticsUnsealed)
  }

  function EventReasons(i: Input): seq<Reason> {
    if !QuotesTimed(i.quotes) || !ProgramsTimed(i.programs) then [ProviderEventTimeMissing]
    else
      When(!QuotesIncrease(i.quotes) || !ProgramsIncrease(i.programs), OutOfOrder)
      + QuoteReasons(QuotesBy(i.quotes, i.end), i.start, i.end, SomeQuoteAfter(i.quotes, i.end))
      + ProgramReasons(ProgramsBy(i.programs, i.end), i.start, i.end, i.semantics)
  }

  // The first occurrence of each reason.
  function Deduped<T(==,!new)>(xs: seq<T>): (r: seq<T>)
    ensures forall x :: x in r <==> x in xs
    ensures forall i, j :: 0 <= i < j < |r| ==> r[i] != r[j]
  {
    if xs == [] then []
    else
      var before := Deduped(xs[..|xs| - 1]);
      if xs[|xs| - 1] in before then before else before + [xs[|xs| - 1]]
  }

  function HardReasons(i: Input): seq<Reason> {
    Deduped(StaticReasons(i) + EventReasons(i))
  }

  // What an input without a single reason looks like.
  ghost predicate Clean(i: Input) {
    && i.end - i.start == 600000000000
    && i.tickSize.Some? && i.tickSize.value > 0.0
    && i.adv.value.Some? && i.adv.value.value > 0.0 && i.adv.availableAt.Some? && i.adv.availableAt.value <= i.end
    && i.structuralComplete && QualityClean(i.quality)
    && EventsClean(i)
  }

  ghost predicate QualityClean(q: Quality) {
    && q.clockErrorMs.Some? && -50.0 <= q.clockErrorMs.value <= 50.0
    && q.quoteMaxGap.Some? && q.quoteMaxGap.value <= 2.0 && q.tradeMaxGap.Some? && q.tradeMaxGap.value <= 2.0
    && q.disconnects == 0 && q.parseFailures == 0 && q.outOfOrder == 0 && !q.tradeDuringGap && q.unitsConfirmed
    && q.semanticsSealed && !q.programReset && !q.vi && !q.halted && !q.priceLimit && q.stateKnown
    && !q.schemaDrift && !q.postCutoffLineage && !q.forbiddenLineage
  }

  ghost predicate EventsClean(i: Input) {
    && QuotesTimed(i.quotes) && QuotesIncrease(i.quotes) && ProgramsTimed(i.programs) && ProgramsIncrease(i.programs)
    && QuotesClean(QuotesBy(i.quotes, i.end), i.start, i.end)
    && ProgramsClean(ProgramsBy(i.programs, i.end), i.start, i.end, i.semantics)
  }

  ghost predicate Fresh(eligible: seq<Quote>, end: int) {
    eligible != [] && QuoteBy(eligible[|eligible| - 1], end)
        && Seconds(end - eligible[|eligible| - 1].time.value) <= 2.0
  }

  ghost predicate QuotesClean(eligible: seq<Quote>, start: int, end: int) {
    && SomeQuoteBy(eligible, start) && Fresh(eligible, end)
    && forall q :: q in eligible ==> Proper(q)
  }

  ghost predicate ProgramsClean(eligible: seq<Program>, start: int, end: int, semantics: Semantics) {
    && eligible != [] && ProgramBy(eligible[|eligible| - 1], end)
        && Seconds(end - eligible[|eligible| - 1].time.value) <= 2.0
    && (forall p :: p in eligible ==> FromKrx(p) && p.net.Some?)
    && !semantics.Unsealed?
    && (semantics.Cumulative? ==> SomeProgramBy(eligible, start))
  }

  lemma {:induction false} TotalNonNegative(vs: Levels)
    requires forall i :: 0 <= i < |vs| ==> Present(vs[i])
    ensures SumOfLevels(vs) >= 0.0
  {
    if vs != [] {
      TotalNonNegative(vs[..|vs| - 1]);
    }
  }

  lemma {:induction false} FaultlessBook(q: Quote)
    ensures BookFault(q).None? <==> Proper(q)
  {
    if Complete(q) {
      TotalNonNegative(q.bidQtys);
      TotalNonNegative(q.askQtys);
      assert q.bidPrices[0].value > 0.0;
      assert Present(q.bidQtys[0]) && Present(q.askQtys[0]);
    }
  }

  lemma {:induction false} FirstFaultNone(qs: seq<Quote>)
    ensures FirstFault(qs) == [] <==> forall q :: q in qs ==> Proper(q)
  {
    if qs != [] {
      var n := |qs| - 1;
      FirstFaultNone(qs[..n]);
      FaultlessBook(qs[n]);
      assert qs == qs[..n] + [qs[n]];
    }
  }

  lemma {:induction false} StaticClean(i: Input)
    ensures StaticReasons(i) == [] <==>
              && i.end - i.start == 600000000000
              && i.tickSize.Some? && i.tickSize.value > 0.0
              && i.adv.value.Some? && i.adv.value.value > 0.0 && i.adv.availableAt.Some?
                  && i.adv.availableAt.value <= i.end
              && i.structuralComplete && QualityClean(i.quality)
  {
  }

  lemma {:induction false} QuoteReasonsNone(i: Input, late: bool)
    ensures QuoteReasons(QuotesBy(i.quotes, i.end), i.start, i.end, late) == []
        <==> QuotesClean(QuotesBy(i.quotes, i.end), i.start, i.end)
  {
    FirstFaultNone(QuotesBy(i.quotes, i.end));
    QuotesByMembers(i.quotes, i.end);
  }

  lemma {:induction false} ProgramReasonsNone(i: Input)
    ensures ProgramReasons(ProgramsBy(i.programs, i.end), i.start, i.end, i.semantics) == [] <==>
              ProgramsClean(ProgramsBy(i.programs, i.end), i.start, i.end, i.semantics)
  {
    ProgramsByMembers(i.programs, i.end);
  }

  lemma {:induction false} EventReasonsNone(i: Input)
    ensures EventReasons(i) == [] <==> EventsClean(i)
  {
    ProgramReasonsNone(i);
    QuoteReasonsNone(i, SomeQuoteAfter(i.quotes, i.end));
  }

  // The filters pass exactly the clean inputs.
  lemma {:induction false} FiltersPassIffClean(i: Input)
    ensures HardReasons(i) == [] <==> Clean(i)
  {
    var reasons := StaticReasons(i) + EventReasons(i);
    if reasons != [] {
      assert reasons[0] in HardReasons(i);
    }
    StaticClean(i);
    EventReasonsNone(i);
  }

  // ---------- the sums over the window ----------

  type SoundBook = b: Book | b.Valid() witness Book(1.0, 2.0, 1.0, 1.0, 1.0, 1.0)

  datatype Tick = Tick(time: int, book: SoundBook)

  ghost predicate Rising(ts: seq<Tick>) {
    forall i, j :: 0 <= i < j < |ts| ==> ts[i].time < ts[j].time
  }

  function Increment(previous: Book, current: Book): real {
    (if current.bid >= previous.bid then current.bidQty else 0.0)
    - (if current.bid <= previous.bid then previous.bidQty else 0.0)
    - (if current.ask <= previous.ask then current.askQty else 0.0)
    + (if current.ask >= previous.ask then previous.askQty else 0.0)
  }

  // Order flow: the increments of every tick after the window's start.
  function Ofi(ts: seq<Tick>, start: int): real {
    if |ts| < 2 then 0.0
    else
      var n := |ts| - 1;
      Ofi(ts[..n], start) + (if ts[n].time > start then Increment(ts[n - 1].book, ts[n].book) else 0.0)
  }

  function Lean(b: Book): real {
    b.bidQty - b.askQty
  }

  // At equal prices the increment is the change of bid size less ask size; walked backwards it is undone; and one move
  // adds no more than the sizes it can have brought or taken.
  lemma {:induction false} IncrementMeans(previous: SoundBook, current: SoundBook)
    ensures previous.bid == current.bid && previous.ask == current.ask ==>
              Increment(previous, current) == Lean(current) - Lean(previous)
    ensures Increment(current, previous) == -Increment(previous, current)
    ensures -(previous.bidQty + current.askQty) <= Increment(previous, current) <= current.bidQty + previous.askQty
  {
  }

  ghost predicate PricesStand(ts: seq<Tick>, from: nat) {
    forall k :: from < k < |ts| ==> ts[k].book.bid == ts[k - 1].book.bid && ts[k].book.ask == ts[k - 1].book.ask
  }

  // While the best prices stand, the order flow of the window is the change of size from the baseline to the last book.
  lemma {:induction false} OfiWhilePricesStand(ts: seq<Tick>, start: int, base: nat)
    requires base < |ts| && PricesStand(ts, base)
    requires forall k :: 0 <= k < |ts| ==> (ts[k].time <= start <==> k <= base)
    ensures Ofi(ts, start) == Lean(ts[|ts| - 1].book) - Lean(ts[base].book)
  {
    var n := |ts| - 1;
    if n == base {
      OfiBeforeWindow(ts, start);
    } else {
      OfiWhilePricesStand(ts[..n], start, base);
      IncrementMeans(ts[n - 1].book, ts[n].book);
    }
  }

  // How long a book that arrived at `time` stands inside the window before `until`.
  function Span(start: int, time: int, until: int): real {
    if until > Later(time, start) then Seconds(until - Later(time, start)) else 0.0
  }

  function Weighted(amount: real, seconds: real): real {
    amount * seconds
  }

  datatype Measure = One | BestDepth | Imbalance

  function Value(m: Measure, b: SoundBook): real {
    match m
    case One => 1.0
    case BestDepth => b.BestDepth()
    case Imbalance => b.Imbalance()
  }

  // The measure integrated over time, each book standing until the next one and the last one until `until`.
  function Integral(m: Measure, ts: seq<Tick>, start: int, until: int): real {
    if ts == [] then 0.0
    else
      var n := |ts| - 1;
      Integral(m, ts[..n], start, ts[n].time) + Weighted(Value(m, ts[n].book), Span(start, ts[n].time, until))
  }

  // Books that end before the window weigh nothing.
  lemma {:induction false} NothingBeforeWindow(m: Measure, ts: seq<Tick>, start: int, until: int)
    requires Rising(ts) && until <= start && (ts != [] ==> ts[|ts| - 1].time <= start)
    ensures Integral(m, ts, start, until) == 0.0
  {
    if ts != [] {
      NothingBeforeWindow(m, ts[..|ts| - 1], start, ts[|ts| - 1].time);
    }
  }

  // The spans of the books partition the window exactly.
  lemma {:induction false} SpansPartition(ts: seq<Tick>, start: int, until: int)
    requires Rising(ts) && ts != [] && ts[0].time <= start && ts[|ts| - 1].time <= until && start <= until
    ensures Integral(One, ts, start, until) == Seconds(until - start)
  {
    var n := |ts| - 1;
    var last := ts[n].time;
    if n > 0 {
      if last <= start {
        NothingBeforeWindow(One, ts[..n], start, last);
      } else {
        SpansPartition(ts[..n], start, last);
      }
    }
  }

  ghost predicate Bounded(m: Measure, ts: seq<Tick>, start: int, until: int, low: real, high: real) {
    forall i :: 0 <= i < |ts| && Standing(ts, i, start, until) ==> low <= Value(m, ts[i].book) <= high
  }

  // Book i is the standing one at some instant of the window.
  predicate Standing(ts: seq<Tick>, i: int, start: int, until: int)
    requires 0 <= i < |ts|
  {
    Later(ts[i].time, start) < (if i + 1 < |ts| then ts[i + 1].time else until)
  }

  lemma {:induction false} WeightedBetween(low: real, x: real, high: real, seconds: real)
    requires low <= x <= high && seconds >= 0.0
    ensures Weighted(low, seconds) <= Weighted(x, seconds) <= Weighted(high, seconds)
  {
  }

  lemma {:induction false} WeightedAdds(x: real, s: real, t: real)
    ensures Weighted(x, s) + Weighted(x, t) == Weighted(x, s + t)
    ensures Weighted(x, 0.0) == 0.0 && Weighted(1.0, s) == s
  {
  }

  lemma {:induction false} OneMoreSpan(low: real, x: real, high: real, seconds: real, span: real, sum: real)
    requires Weighted(low, seconds) <= sum <= Weighted(high, seconds)
    requires span >= 0.0 && (span > 0.0 ==> low <= x <= high)
    ensures Weighted(low, seconds + span) <= sum + Weighted(x, span) <= Weighted(high, seconds + span)
  {
    WeightedAdds(low, seconds, span);
    WeightedAdds(high, seconds, span);
    if span > 0.0 {
      WeightedBetween(low, x, high, span);
    } else {
      WeightedAdds(x, 0.0, 0.0);
    }
  }

  // A bound on every standing book bounds the integral.
  lemma {:induction false} IntegralBetween(m: Measure, ts: seq<Tick>, start: int, until: int, low: real, high: real)
    requires Bounded(m, ts, start, until, low, high)
    ensures Weighted(low, Integral(One, ts, start, until)) <= Integral(m, ts, start, until)
    ensures Integral(m, ts, start, until) <= Weighted(high, Integral(One, ts, start, until))
  {
    if ts == [] {
      WeightedAdds(low, 0.0, 0.0);
      WeightedAdds(high, 0.0, 0.0);
    } else {
      var n := |ts| - 1;
      var span := Span(start, ts[n].time, until);
      IntegralBetween(m, ts[..n], start, ts[n].time, low, high);
      OneMoreSpan(low, Value(m, ts[n].book), high, Integral(One, ts[..n], start, ts[n].time), span,
          Integral(m, ts[..n], start, ts[n].time));
      WeightedAdds(1.0, span, 0.0);
    }
  }

  lemma {:induction false} ImbalanceWithinOne(b: SoundBook)
    ensures -1.0 <= b.Imbalance() <= 1.0
  {
    QuotientWithinOne(b.bidTotal - b.askTotal, b.bidTotal + b.askTotal, b.Imbalance());
  }

  lemma {:induction false} QuotientWithinOne(part: real, whole: real, quotient: real)
    requires whole > 0.0 && -whole <= part <= whole && quotient == part / whole
    ensures -1.0 <= quotient <= 1.0
  {
    assert quotient * whole == part;
  }

  // ---------- a book that repeats ----------

  // Insert at position k a tick that repeats the book before it.
  function Stuttered(ts: seq<Tick>, k: nat, time: int): seq<Tick>
    requires 0 < k <= |ts|
  {
    ts[..k] + [Tick(time, ts[k - 1].book)] + ts[k..]
  }

  ghost predicate FitsBetween(ts: seq<Tick>, k: nat, time: int, until: int)
    requires 0 < k <= |ts|
  {
    ts[k - 1].time < time && (if k < |ts| then time < ts[k].time else time <= until)
  }

  lemma {:induction false} StutterShape(ts: seq<Tick>, k: nat, time: int)
    requires 0 < k <= |ts|
    ensures |Stuttered(ts, k, time)| == |ts| + 1
    ensures Stuttered(ts, k, time)[k - 1] == ts[k - 1] && Stuttered(ts, k, time)[k] == Tick(time, ts[k - 1].book)
    ensures Stuttered(ts, k, time)[|ts|].book == ts[|ts| - 1].book
    ensures k < |ts| ==>
              && Stuttered(ts, k, time)[|ts|] == ts[|ts| - 1]
              && Stuttered(ts, k, time)[..|ts|] == Stuttered(ts[..|ts| - 1], k, time)
    ensures k == |ts| ==> Stuttered(ts, k, time)[..|ts|] == ts
  {
    var s, n := Stuttered(ts, k, time), |ts| - 1;
    if k < |ts| {
      assert s[..|ts|] == ts[..k] + [Tick(time, ts[k - 1].book)] + ts[k..n];
      assert ts[..n][..k] == ts[..k] && ts[..n][k..] == ts[k..n];
    }
  }

  // The increments telescope across the repeat.
  lemma {:induction false} StutterKeepsOfi(ts: seq<Tick>, k: nat, time: int, start: int)
    requires 0 < k <= |ts|
    ensures Ofi(Stuttered(ts, k, time), start) == Ofi(ts, start)
  {
    var s, n := Stuttered(ts, k, time), |ts| - 1;
    StutterShape(ts, k, time);
    if k == |ts| {
      assert s[n + 1].book == s[n].book;
    } else {
      StutterKeepsOfi(ts[..n], k, time, start);
      assert s[n].book == ts[n - 1].book by { StutterShape(ts[..n], k, time); }
    }
  }

  lemma {:induction false} IntegralUnfolds(m: Measure, ts: seq<Tick>, before: seq<Tick>, last: Tick, start: int,
      until: int)
    requires ts == before + [last]
    ensures Integral(m, ts, start, until) ==
              Integral(m, before, start, last.time) + Weighted(Value(m, last.book), Span(start, last.time, until))
  {
    assert ts[..|before|] == before;
  }

  lemma {:induction false} StutterAtEnd(m: Measure, ts: seq<Tick>, time: int, start: int, until: int)
    requires ts != [] && FitsBetween(ts, |ts|, time, until)
    ensures Integral(m, Stuttered(ts, |ts|, time), start, until) == Integral(m, ts, start, until)
  {
    var n := |ts| - 1;
    var last, again := ts[n], Tick(time, ts[n].book);
    assert ts == ts[..n] + [last] && Stuttered(ts, |ts|, time) == ts + [again];
    IntegralUnfolds(m, ts, ts[..n], last, start, time);
    IntegralUnfolds(m, ts, ts[..n], last, start, until);
    IntegralUnfolds(m, Stuttered(ts, |ts|, time), ts, again, start, until);
    WeightedAdds(Value(m, last.book), Span(start, last.time, time), Span(start, time, until));
  }

  // The weight of the repeated book splits exactly.
  lemma {:induction false} StutterKeepsIntegral(m: Measure, ts: seq<Tick>, k: nat, time: int, start: int, until: int)
    requires 0 < k <= |ts| && FitsBetween(ts, k, time, until)
    ensures Integral(m, Stuttered(ts, k, time), start, until) == Integral(m, ts, start, until)
  {
    if k == |ts| {
      StutterAtEnd(m, ts, time, start, until);
    } else {
      var before, last := ts[..|ts| - 1], ts[|ts| - 1];
      StutterKeepsIntegral(m, before, k, time, start, last.time);
      IntegralUnfolds(m, ts, before, last, start, until);
      IntegralUnfolds(m, Stuttered(ts, k, time), Stuttered(before, k, time), last, start, until);
    }
  }

  // ---------- the features ----------

  predicate Sound(q: Quote) {
    q.time.Some? && Proper(q)
  }

  function TickOf(q: Quote): Tick
    requires Sound(q)
  {
    Tick(q.time.value, BookOf(q))
  }

  function TicksOf(qs: seq<Quote>): (ts: seq<Tick>)
    requires forall q :: q in qs ==> Sound(q)
    ensures |ts| == |qs| && forall i :: 0 <= i < |qs| ==> ts[i] == TickOf(qs[i])
  {
    seq(|qs|, i requires 0 <= i < |qs| => TickOf(qs[i]))
  }

  datatype ProgramNet = Net(value: real) | Raised(reason: Reason)

  function NetSum(ps: seq<Program>, start: int): real {
    if ps == [] then 0.0
    else
      var last := ps[|ps| - 1];
      NetSum(ps[..|ps| - 1], start)
      + (if last.time.Some? && start <= last.time.value && last.net.Some? then last.net.value else 0.0)
  }

  function ProgramNotional(eligible: seq<Program>, start: int, semantics: Semantics): ProgramNet {
    if semantics.Unsealed? then Raised(ProgramSemanticsUnsealed)
    else if SomeForeign(eligible) then Raised(ProgramSourceNotKrx)
    else if SomeNetMissing(eligible) then Raised(ProgramMissing)
    else if semantics.Incremental? then Net(NetSum(eligible, start))
    else
      var starts := ProgramsBy(eligible, start);
      if starts == [] || eligible == [] then Raised(ProgramMissing)
      else
        ProgramsByMembers(eligible, start);
        assert starts[|starts| - 1] in eligible;
        Net(eligible[|eligible| - 1].net.value - starts[|starts| - 1].net.value)
  }

  // A clean input never makes the program notional raise.
  lemma {:induction false} ProgramNeverRaises(i: Input)
    requires Clean(i)
    ensures ProgramNotional(ProgramsBy(i.programs, i.end), i.start, i.semantics).Net?
  {
    var eligible := ProgramsBy(i.programs, i.end);
    if i.semantics.Cumulative? {
      ProgramsByMembers(eligible, i.start);
    }
  }

  function Microprice(b: SoundBook): real
    requires b.bidQty + b.askQty > 0.0
  {
    (b.ask * b.bidQty + b.bid * b.askQty) / (b.bidQty + b.askQty)
  }

  function XMicro(b: SoundBook, tick: real): real
    requires b.bidQty + b.askQty > 0.0 && tick > 0.0
  {
    (Microprice(b) - (b.bid + b.ask) / 2.0) / tick
  }

  function Conflict(xOfi: real, xProgram: real): real {
    if xOfi != 0.0 && xProgram != 0.0 && ((xOfi > 0.0) != (xProgram > 0.0)) then 1.0 else 0.0
  }

  function VectorOf(ofi: real, mean: real, imbalance: real, last: SoundBook, tick: real, net: real, adv: real): Vector
    requires mean > 0.0 && tick > 0.0 && adv > 0.0 && last.bidQty + last.askQty > 0.0
  {
    Vector(ofi / mean, imbalance, XMicro(last, tick), net / adv, Conflict(ofi / mean, net / adv), ofi, mean, net)
  }

  function Mean(sum: real): real {
    sum / 600.0
  }

  // What a list of window ticks, with the other inputs sound, comes to.
  function Outcome(ts: seq<Tick>, start: int, end: int, tick: real, adv: real, net: ProgramNet, live: bool,
      lineage: seq<string>): Result
    requires ts != [] && tick > 0.0 && adv > 0.0
  {
    var mean := Mean(Integral(BestDepth, ts, start, end));
    var last := ts[|ts| - 1].book;
    if mean <= 0.0 || last.bidQty + last.askQty <= 0.0 then NotComputable([BestDepthZero], lineage)
    else
      match net
      case Raised(reason) => NotComputable([reason], lineage)
      case Net(v) =>
        Computable(VectorOf(Ofi(ts, start), mean, Mean(Integral(Imbalance, ts, start, end)), last, tick, v, adv),
            lineage, live)
  }

  function EligibleIds(i: Input): seq<string> {
    QuoteIds(i.quotes, i.end) + ProgramIds(i.programs, i.end)
  }

  function QuoteIds(qs: seq<Quote>, end: int): seq<string> {
    if qs == [] then []
    else
      var q := qs[|qs| - 1];
      QuoteIds(qs[..|qs| - 1], end) + (if QuoteBy(q, end) && q.id != "" then [q.id] else [])
  }

  function ProgramIds(ps: seq<Program>, end: int): seq<string> {
    if ps == [] then []
    else
      var p := ps[|ps| - 1];
      ProgramIds(ps[..|ps| - 1], end) + (if ProgramBy(p, end) && p.id != "" then [p.id] else [])
  }

  predicate AdvTraced(adv: Causal, end: int) {
    adv.id.Some? && adv.id.value != "" && adv.availableAt.Some? && adv.availableAt.value <= end
  }

  function Lineage(i: Input): seq<string> {
    Deduped(EligibleIds(i) + (if AdvTraced(i.adv, i.end) then [i.adv.id.value] else []))
  }

  lemma {:induction false} CleanQuotesSound(i: Input)
    requires Clean(i)
    ensures forall q :: q in QuotesBy(i.quotes, i.end) ==> Sound(q)
  {
    QuotesByMembers(i.quotes, i.end);
  }

  // The books of the eligible quotes of a clean input.
  ghost function WindowTicks(i: Input): (ts: seq<Tick>)
    requires Clean(i)
    ensures ts != [] && |ts| == |QuotesBy(i.quotes, i.end)|
  {
    CleanQuotesSound(i);
    TicksOf(QuotesBy(i.quotes, i.end))
  }

  ghost function Features(i: Input): Result {
    if HardReasons(i) != [] then NotComputable(HardReasons(i), Lineage(i))
    else
      FiltersPassIffClean(i);
      Outcome(WindowTicks(i), i.start, i.end, i.tickSize.value, i.adv.value.value,
              ProgramNotional(ProgramsBy(i.programs, i.end), i.start, i.semantics), i.liveCapture, Lineage(i))
  }

  // ---------- what the filters leave ----------

  lemma {:induction false} QuotesByAll(qs: seq<Quote>, cutoff: int)
    requires forall i :: 0 <= i < |qs| ==> QuoteBy(qs[i], cutoff)
    ensures QuotesBy(qs, cutoff) == qs
  {
    if qs != [] {
      var n := |qs| - 1;
      QuotesByAll(qs[..n], cutoff);
      assert qs == qs[..n] + [qs[n]];
    }
  }

  // Quotes after the cutoff leave no trace among the eligible ones.
  lemma {:induction false} QuotesByDropsLate(qs: seq<Quote>, late: seq<Quote>, cutoff: int)
    requires forall i :: 0 <= i < |late| ==> !QuoteBy(late[i], cutoff)
    ensures QuotesBy(qs + late, cutoff) == QuotesBy(qs, cutoff)
  {
    if late == [] {
      assert qs + late == qs;
    } else {
      var n := |late| - 1;
      QuotesByDropsLate(qs, late[..n], cutoff);
      assert (qs + late)[..|qs| + n] == qs + late[..n];
    }
  }

  lemma {:induction false} QuotesByPrefix(qs: seq<Quote>, m: nat, cutoff: int)
    requires m <= |qs|
    requires forall i :: 0 <= i < m ==> QuoteBy(qs[i], cutoff)
    requires forall i :: m <= i < |qs| ==> !QuoteBy(qs[i], cutoff)
    ensures QuotesBy(qs, cutoff) == qs[..m]
  {
    var early, late := qs[..m], qs[m..];
    assert qs == early + late;
    forall i | 0 <= i < |late|
      ensures !QuoteBy(late[i], cutoff)
    {
      assert late[i] == qs[m + i];
    }
    QuotesByAll(early, cutoff);
    QuotesByDropsLate(early, late, cutoff);
  }

  lemma {:induction false} IncreasingQuotes(qs: seq<Quote>, i: nat, j: nat)
    requires QuotesTimed(qs) && QuotesIncrease(qs) && i < j < |qs|
    ensures qs[i].time.value < qs[j].time.value
    decreases j - i
  {
    if i + 1 < j {
      IncreasingQuotes(qs, i + 1, j);
    }
    assert qs[i].time.value < qs[i + 1].time.value;
  }

  // In increasing quotes, the eligible ones are a prefix.
  lemma {:induction false} EligiblePrefix(qs: seq<Quote>, cutoff: int) returns (m: nat)
    requires QuotesTimed(qs) && QuotesIncrease(qs)
    ensures m <= |qs| && QuotesBy(qs, cutoff) == qs[..m]
    ensures forall i :: 0 <= i < |qs| ==> (i < m <==> qs[i].time.value <= cutoff)
  {
    m := 0;
    while m < |qs| && qs[m].time.value <= cutoff
      invariant m <= |qs| && forall i :: 0 <= i < m ==> qs[i].time.value <= cutoff
    {
      m := m + 1;
    }
    forall i | m <= i < |qs|
      ensures qs[i].time.value > cutoff
    {
      if m < i { IncreasingQuotes(qs, m, i); }
    }
    QuotesByPrefix(qs, m, cutoff);
  }

  lemma {:induction false} EligibleRises(i: Input)
    requires Clean(i)
    ensures Rising(WindowTicks(i))
  {
    var m := EligiblePrefix(i.quotes, i.end);
    var ts := WindowTicks(i);
    CleanQuotesSound(i);
    forall a, b | 0 <= a < b < |ts|
      ensures ts[a].time < ts[b].time
    {
      IncreasingQuotes(i.quotes, a, b);
    }
  }

  lemma {:induction false} BaselineAmong(qs: seq<Quote>, start: int) returns (k: nat)
    requires SomeQuoteBy(qs, start)
    ensures k < |qs| && QuoteBy(qs[k], start)
  {
    var q :| q in qs && QuoteBy(q, start);
    k :| 0 <= k < |qs| && qs[k] == q;
  }

  lemma {:induction false} WindowTicksShape(i: Input)
    requires Clean(i)
    ensures var ts := WindowTicks(i);
            Rising(ts) && ts[0].time <= i.start && ts[|ts| - 1].time <= i.end && i.start < i.end
  {
    EligibleRises(i);
    CleanQuotesSound(i);
    var k := BaselineAmong(QuotesBy(i.quotes, i.end), i.start);
    assert WindowTicks(i)[0].time <= WindowTicks(i)[k].time;
  }

  // Once the filters pass, the durations add up to the sealed ten minutes.
  lemma {:induction false} DurationsFillWindow(i: Input)
    requires Clean(i)
    ensures Integral(One, WindowTicks(i), i.start, i.end) == 600.0
  {
    WindowTicksShape(i);
    SpansPartition(WindowTicks(i), i.start, i.end);
  }

  // The mean best depth lies between any bounds on the best depths of the books that stand in the window.
  lemma {:induction false} MeanDepthBetween(i: Input, low: real, high: real)
    requires Clean(i) && Bounded(BestDepth, WindowTicks(i), i.start, i.end, low, high)
    ensures low <= Mean(Integral(BestDepth, WindowTicks(i), i.start, i.end)) <= high
  {
    DurationsFillWindow(i);
    var ts := WindowTicks(i);
    IntegralBetween(BestDepth, ts, i.start, i.end, low, high);
  }

  lemma {:induction false} MeanImbalanceWithinOne(i: Input)
    requires Clean(i)
    ensures -1.0 <= Mean(Integral(Imbalance, WindowTicks(i), i.start, i.end)) <= 1.0
  {
    var ts := WindowTicks(i);
    DurationsFillWindow(i);
    forall k | 0 <= k < |ts|
      ensures -1.0 <= Value(Imbalance, ts[k].book) <= 1.0
    {
      ImbalanceWithinOne(ts[k].book);
    }
    IntegralBetween(Imbalance, ts, i.start, i.end, -1.0, 1.0);
  }

  lemma {:induction false} ComputedDepth(i: Input)
    requires Features(i).Computable?
    ensures Clean(i) && Features(i).vector.xDepth == Mean(Integral(Imbalance, WindowTicks(i), i.start, i.end))
    ensures Features(i).vector.meanDepth == Mean(Integral(BestDepth, WindowTicks(i), i.start, i.end))
  {
    FiltersPassIffClean(i);
  }

  // The depth feature is an average of imbalances, so it stays within [-1, 1].
  lemma {:induction false} DepthWithinOne(i: Input)
    requires Features(i).Computable?
    ensures -1.0 <= Features(i).vector.xDepth <= 1.0
  {
    ComputedDepth(i);
    MeanImbalanceWithinOne(i);
  }

  lemma {:induction false} MicroWithinHalfSpread(b: SoundBook, tick: real)
    requires b.bidQty + b.askQty > 0.0 && tick > 0.0
    ensures Abs(Weighted(XMicro(b, tick), tick)) <= (b.ask - b.bid) / 2.0
  {
    var depth := b.bidQty + b.askQty;
    var micro := Microprice(b);
    var offset := micro - (b.bid + b.ask) / 2.0;
    assert Weighted(micro, depth) == b.ask * b.bidQty + b.bid * b.askQty;
    assert Weighted(XMicro(b, tick), tick) == offset;
    MicroBetween(b.bid, b.ask, b.bidQty, b.askQty, micro, b.ask * b.bidQty, b.bid * b.askQty);
  }

  lemma {:induction false} MicroBetween(bid: real, ask: real, bidQty: real, askQty: real, micro: real, up: real,
      down: real)
    requires bid < ask && bidQty >= 0.0 && askQty >= 0.0 && bidQty + askQty > 0.0
    requires up == ask * bidQty && down == bid * askQty && Weighted(micro, bidQty + askQty) == up + down
    ensures bid <= micro <= ask
  {
    WeightedBetween(bid, ask, ask, bidQty);
    WeightedBetween(bid, bid, ask, askQty);
    WeightedAdds(bid, bidQty, askQty);
    WeightedAdds(ask, bidQty, askQty);
  }

  // Computable exactly when the filters pass and the two depth checks do; nothing else can stop it.
  lemma {:induction false} ComputableIff(i: Input)
    ensures Features(i).Computable? <==>
              && Clean(i)
              && Integral(BestDepth, WindowTicks(i), i.start, i.end) > 0.0
              && (var b := WindowTicks(i)[|WindowTicks(i)| - 1].book; b.bidQty + b.askQty > 0.0)
  {
    FiltersPassIffClean(i);
    if Clean(i) {
      ProgramNeverRaises(i);
    }
  }

  // The microprice lies within the spread of the last eligible quote, so its offset is at most half of it.
  lemma {:induction false} MicroBounded(i: Input)
    requires Features(i).Computable?
    ensures Clean(i)
    ensures var last := WindowTicks(i)[|WindowTicks(i)| - 1].book;
            Abs(Weighted(Features(i).vector.xMicro, i.tickSize.value)) <= (last.ask - last.bid) / 2.0
  {
    FiltersPassIffClean(i);
    MicroWithinHalfSpread(WindowTicks(i)[|WindowTicks(i)| - 1].book, i.tickSize.value);
  }

  // ---------- events after the cutoff ----------

  // Later quotes and program events, all after the window's end and in increasing time after what is there.
  ghost predicate Continues(i: Input, quotes: seq<Quote>, programs: seq<Program>) {
    && QuotesTimed(quotes) && QuotesIncrease(quotes) && (forall q :: q in quotes ==> q.time.value > i.end)
    && (quotes != [] && i.quotes != [] && i.quotes[|i.quotes| - 1].time.Some? ==>
          i.quotes[|i.quotes| - 1].time.value < quotes[0].time.value)
    && ProgramsTimed(programs) && ProgramsIncrease(programs) && (forall p :: p in programs ==> p.time.value > i.end)
    && (programs != [] && i.programs != [] && i.programs[|i.programs| - 1].time.Some? ==>
          i.programs[|i.programs| - 1].time.value < programs[0].time.value)
  }

  function Appended(i: Input, quotes: seq<Quote>, programs: seq<Program>): Input {
    i.(quotes := i.quotes + quotes, programs := i.programs + programs)
  }

  lemma {:induction false} ProgramsByDropsLate(ps: seq<Program>, late: seq<Program>, cutoff: int)
    requires forall i :: 0 <= i < |late| ==> !ProgramBy(late[i], cutoff)
    ensures ProgramsBy(ps + late, cutoff) == ProgramsBy(ps, cutoff)
    ensures ProgramIds(ps + late, cutoff) == ProgramIds(ps, cutoff)
  {
    if late == [] {
      assert ps + late == ps;
    } else {
      var n := |late| - 1;
      ProgramsByDropsLate(ps, late[..n], cutoff);
      assert (ps + late)[..|ps| + n] == ps + late[..n];
    }
  }

  lemma {:induction false} QuoteIdsDropLate(qs: seq<Quote>, late: seq<Quote>, cutoff: int)
    requires forall i :: 0 <= i < |late| ==> !QuoteBy(late[i], cutoff)
    ensures QuoteIds(qs + late, cutoff) == QuoteIds(qs, cutoff)
  {
    if late == [] {
      assert qs + late == qs;
    } else {
      var n := |late| - 1;
      QuoteIdsDropLate(qs, late[..n], cutoff);
      assert (qs + late)[..|qs| + n] == qs + late[..n];
    }
  }

  lemma {:induction false} TimedJoin(qs: seq<Quote>, late: seq<Quote>)
    requires QuotesTimed(late)
    ensures QuotesTimed(qs + late) <==> QuotesTimed(qs)
  {
    if QuotesTimed(qs + late) {
      forall i | 0 <= i < |qs|
        ensures qs[i].time.Some?
      {
        assert (qs + late)[i] == qs[i];
      }
    }
  }

  lemma {:induction false} IncreaseJoin(qs: seq<Quote>, late: seq<Quote>)
    requires QuotesTimed(qs) && QuotesTimed(late) && QuotesTimed(qs + late) && QuotesIncrease(late)
    requires late != [] && qs != [] ==> qs[|qs| - 1].time.value < late[0].time.value
    ensures QuotesIncrease(qs + late) <==> QuotesIncrease(qs)
  {
    var all := qs + late;
    if QuotesIncrease(all) {
      forall i | 0 <= i < |qs| - 1
        ensures qs[i].time.value < qs[i + 1].time.value
      {
        assert all[i] == qs[i] && all[i + 1] == qs[i + 1];
        assert all[i].time.value < all[i + 1].time.value;
      }
    }
    if QuotesIncrease(qs) {
      forall i | 0 <= i < |all| - 1
        ensures all[i].time.value < all[i + 1].time.value
      {
        if i >= |qs| {
          assert late[i - |qs|].time.value < late[i - |qs| + 1].time.value;
        }
      }
    }
  }

  lemma {:induction false} ProgramsTimedJoin(ps: seq<Program>, late: seq<Program>)
    requires ProgramsTimed(late)
    ensures ProgramsTimed(ps + late) <==> ProgramsTimed(ps)
  {
    if ProgramsTimed(ps + late) {
      forall i | 0 <= i < |ps|
        ensures ps[i].time.Some?
      {
        assert (ps + late)[i] == ps[i];
      }
    }
  }

  lemma {:induction false} ProgramsIncreaseJoin(ps: seq<Program>, late: seq<Program>)
    requires ProgramsTimed(ps) && ProgramsTimed(late) && ProgramsTimed(ps + late) && ProgramsIncrease(late)
    requires late != [] && ps != [] ==> ps[|ps| - 1].time.value < late[0].time.value
    ensures ProgramsIncrease(ps + late) <==> ProgramsIncrease(ps)
  {
    var all := ps + late;
    if ProgramsIncrease(all) {
      forall i | 0 <= i < |ps| - 1
        ensures ps[i].time.value < ps[i + 1].time.value
      {
        assert all[i] == ps[i] && all[i + 1] == ps[i + 1];
        assert all[i].time.value < all[i + 1].time.value;
      }
    }
    if ProgramsIncrease(ps) {
      forall i | 0 <= i < |all| - 1
        ensures all[i].time.value < all[i + 1].time.value
      {
        if i >= |ps| {
          assert late[i - |ps|].time.value < late[i - |ps| + 1].time.value;
        }
      }
    }
  }

  lemma {:induction false} LateLeavesNoTrace(i: Input, quotes: seq<Quote>, programs: seq<Program>)
    requires Continues(i, quotes, programs)
    ensures var j := Appended(i, quotes, programs);
            && QuotesBy(j.quotes, i.end) == QuotesBy(i.quotes, i.end)
                && ProgramsBy(j.programs, i.end) == ProgramsBy(i.programs, i.end)
            && Lineage(j) == Lineage(i)
  {
    QuotesByDropsLate(i.quotes, quotes, i.end);
    ProgramsByDropsLate(i.programs, programs, i.end);
    QuoteIdsDropLate(i.quotes, quotes, i.end);
  }

  // The one way late quotes show: there was no baseline, and no quote after the cutoff until now.
  ghost predicate CutoffNoticed(i: Input, quotes: seq<Quote>) {
    && quotes != [] && QuotesTimed(i.quotes) && ProgramsTimed(i.programs)
    && !SomeQuoteBy(QuotesBy(i.quotes, i.end), i.start) && !SomeQuoteAfter(i.quotes, i.end)
  }

  lemma {:induction false} AfterJoin(i: Input, quotes: seq<Quote>)
    requires QuotesTimed(quotes) && forall q :: q in quotes ==> q.time.value > i.end
    ensures SomeQuoteAfter(i.quotes + quotes, i.end) <==> SomeQuoteAfter(i.quotes, i.end) || quotes != []
  {
    if quotes != [] {
      assert quotes[0] in i.quotes + quotes && quotes[0] in quotes;
    }
  }

  lemma {:induction false} LateKeepsOrder(i: Input, quotes: seq<Quote>, programs: seq<Program>)
    requires Continues(i, quotes, programs)
    ensures var j := Appended(i, quotes, programs);
            && (QuotesTimed(j.quotes) <==> QuotesTimed(i.quotes))
                && (ProgramsTimed(j.programs) <==> ProgramsTimed(i.programs))
            && (QuotesTimed(i.quotes) ==> (QuotesIncrease(j.quotes) <==> QuotesIncrease(i.quotes)))
            && (ProgramsTimed(i.programs) ==> (ProgramsIncrease(j.programs) <==> ProgramsIncrease(i.programs)))
  {
    TimedJoin(i.quotes, quotes);
    ProgramsTimedJoin(i.programs, programs);
    if QuotesTimed(i.quotes) { IncreaseJoin(i.quotes, quotes); }
    if ProgramsTimed(i.programs) { ProgramsIncreaseJoin(i.programs, programs); }
  }

  lemma {:induction false} LateKeepsReasons(i: Input, quotes: seq<Quote>, programs: seq<Program>)
    requires Continues(i, quotes, programs) && !CutoffNoticed(i, quotes)
    ensures EventReasons(Appended(i, quotes, programs)) == EventReasons(i)
  {
    LateLeavesNoTrace(i, quotes, programs);
    LateKeepsOrder(i, quotes, programs);
    AfterJoin(i, quotes);
  }

  lemma {:induction false} FaultIsAboutBooks(qs: seq<Quote>)
    ensures SnapshotAfterCutoff !in FirstFault(qs)
  {
    if qs != [] {
      FaultIsAboutBooks(qs[..|qs| - 1]);
    }
  }

  lemma {:induction false} CutoffNotInSetting(start: int, end: int, tick: Option<real>, adv: Causal, complete: bool)
    ensures SnapshotAfterCutoff !in SettingReasons(start, end, tick, adv, complete)
  {
  }

  lemma {:induction false} CutoffNotInCapture(q: Quality)
    ensures SnapshotAfterCutoff !in CaptureReasons(q)
  {
  }

  lemma {:induction false} CutoffNotInMarket(q: Quality)
    ensures SnapshotAfterCutoff !in MarketReasons(q)
  {
  }

  lemma {:induction false} CutoffNotInQuality(q: Quality)
    ensures SnapshotAfterCutoff !in QualityReasons(q)
  {
    CutoffNotInCapture(q);
    CutoffNotInMarket(q);
  }

  lemma {:induction false} CutoffNotInProgram(eligible: seq<Program>, start: int, end: int, semantics: Semantics)
    ensures SnapshotAfterCutoff !in ProgramReasons(eligible, start, end, semantics)
  {
  }

  lemma {:induction false} CutoffInQuotes(eligible: seq<Quote>, start: int, end: int, late: bool)
    ensures SnapshotAfterCutoff in QuoteReasons(eligible, start, end, late) <==> !SomeQuoteBy(eligible, start) && late
  {
    FaultIsAboutBooks(eligible);
  }

  lemma {:induction false} InThree(a: seq<Reason>, b: seq<Reason>, c: seq<Reason>, r: Reason)
    ensures r in a + b + c <==> r in a || r in b || r in c
  {
  }

  lemma {:induction false} CutoffInEvents(i: Input)
    ensures SnapshotAfterCutoff in EventReasons(i) <==>
              && QuotesTimed(i.quotes) && ProgramsTimed(i.programs)
              && !SomeQuoteBy(QuotesBy(i.quotes, i.end), i.start) && SomeQuoteAfter(i.quotes, i.end)
  {
    if QuotesTimed(i.quotes) && ProgramsTimed(i.programs) {
      var quotes, programs, late := QuotesBy(i.quotes, i.end), ProgramsBy(i.programs, i.end),
          SomeQuoteAfter(i.quotes, i.end);
      CutoffNotInProgram(programs, i.start, i.end, i.semantics);
      CutoffInQuotes(quotes, i.start, i.end, late);
      InThree(When(!QuotesIncrease(i.quotes) || !ProgramsIncrease(i.programs), OutOfOrder),
              QuoteReasons(quotes, i.start, i.end, late), ProgramReasons(programs, i.start, i.end, i.semantics),
                  SnapshotAfterCutoff);
    }
  }

  lemma {:induction false} CutoffReason(i: Input)
    ensures SnapshotAfterCutoff in HardReasons(i) <==>
              && QuotesTimed(i.quotes) && ProgramsTimed(i.programs)
              && !SomeQuoteBy(QuotesBy(i.quotes, i.end), i.start) && SomeQuoteAfter(i.quotes, i.end)
  {
    CutoffNotInSetting(i.start, i.end, i.tickSize, i.adv, i.structuralComplete);
    CutoffNotInQuality(i.quality);
    CutoffInEvents(i);
    InThree(SettingReasons(i.start, i.end, i.tickSize, i.adv, i.structuralComplete), QualityReasons(i.quality),
            EventReasons(i), SnapshotAfterCutoff);
  }

  lemma {:induction false} SameEligibleSameFeatures(i: Input, j: Input)
    requires HardReasons(j) == HardReasons(i) && Lineage(j) == Lineage(i)
    requires j == i.(quotes := j.quotes, programs := j.programs)
    requires QuotesBy(j.quotes, i.end) == QuotesBy(i.quotes, i.end)
        && ProgramsBy(j.programs, i.end) == ProgramsBy(i.programs, i.end)
    ensures Features(j) == Features(i)
  {
    if HardReasons(i) == [] {
      FiltersPassIffClean(i);
      FiltersPassIffClean(j);
      assert WindowTicks(j) == WindowTicks(i);
    }
  }

  lemma {:induction false} NoticedCutoffReason(i: Input, quotes: seq<Quote>, programs: seq<Program>)
    requires Continues(i, quotes, programs) && CutoffNoticed(i, quotes)
    ensures SnapshotAfterCutoff in HardReasons(Appended(i, quotes, programs)) && SnapshotAfterCutoff !in HardReasons(i)
  {
    LateLeavesNoTrace(i, quotes, programs);
    LateKeepsOrder(i, quotes, programs);
    AfterJoin(i, quotes);
    CutoffReason(i);
    CutoffReason(Appended(i, quotes, programs));
  }

  lemma {:induction false} ReasonShows(i: Input, j: Input, r: Reason)
    requires r in HardReasons(j) && r !in HardReasons(i) && HardReasons(i) != []
    ensures Features(j) != Features(i)
  {
    assert Features(j) == NotComputable(HardReasons(j), Lineage(j));
    assert Features(i) == NotComputable(HardReasons(i), Lineage(i));
  }

  // Appending events after the cutoff changes nothing, unless it makes a missing baseline read as a late snapshot.
  lemma {:induction false} AppendUnchangedIff(i: Input, quotes: seq<Quote>, programs: seq<Program>)
    requires Continues(i, quotes, programs)
    ensures Features(Appended(i, quotes, programs)) == Features(i) <==> !CutoffNoticed(i, quotes)
  {
    if CutoffNoticed(i, quotes) {
      NoticedCutoffReason(i, quotes, programs);
      FiltersPassIffClean(i);
      ReasonShows(i, Appended(i, quotes, programs), SnapshotAfterCutoff);
    } else {
      LateLeavesNoTrace(i, quotes, programs);
      LateKeepsReasons(i, quotes, programs);
      SameEligibleSameFeatures(i, Appended(i, quotes, programs));
    }
  }

  // An input without any quote, and a quote that arrives one nanosecond after its cutoff.
  const QUIET_DAY := Input(0, 600000000000, [], [Program(Some(0), Some(0.0), "p", PROGRAM_TR, KRX)], Incremental,
    Causal(Some(1.0), Some(0), None), Some(1.0),
    Quality(Some(0.0), Some(0.0), Some(0.0), 0, 0, 0, false, true, true, false, false, false, false, true, false, false,
        false),
    true, true)

  const LATE_QUOTE := Quote(Some(600000000001), [], [], [], [], "late")

  // Appending it adds SNAPSHOT_AFTER_151000 to the reasons.
  lemma {:induction false} LateQuoteShows()
    ensures Continues(QUIET_DAY, [LATE_QUOTE], [])
    ensures SnapshotAfterCutoff !in HardReasons(QUIET_DAY)
    ensures SnapshotAfterCutoff in HardReasons(Appended(QUIET_DAY, [LATE_QUOTE], []))
    ensures Features(Appended(QUIET_DAY, [LATE_QUOTE], [])) != Features(QUIET_DAY)
  {
    NoticedCutoffReason(QUIET_DAY, [LATE_QUOTE], []);
    AppendUnchangedIff(QUIET_DAY, [LATE_QUOTE], []);
  }

  // In particular a clean input never sees anything after its cutoff.
  lemma {:induction false} CleanIgnoresLater(i: Input, quotes: seq<Quote>, programs: seq<Program>)
    requires Clean(i) && Continues(i, quotes, programs)
    ensures Features(Appended(i, quotes, programs)) == Features(i)
  {
    AppendUnchangedIff(i, quotes, programs);
  }

  // ---------- repeated books ----------

  function Inserted(qs: seq<Quote>, k: nat, q: Quote): seq<Quote>
    requires k <= |qs|
  {
    qs[..k] + [q] + qs[k..]
  }

  // A quote that repeats the book before it, strictly between its neighbours and no later than the cutoff.
  ghost predicate Repeats(qs: seq<Quote>, k: nat, q: Quote, end: int) {
    && 0 < k <= |qs| && q == qs[k - 1].(time := q.time, id := q.id)
    && q.time.Some? && q.time.value <= end
    && (qs[k - 1].time.Some? ==> qs[k - 1].time.value < q.time.value)
    && (k < |qs| && qs[k].time.Some? ==> q.time.value < qs[k].time.value)
  }

  lemma {:induction false} RepeatKeepsOrder(qs: seq<Quote>, k: nat, q: Quote, end: int)
    requires Repeats(qs, k, q, end) && QuotesTimed(qs) && QuotesIncrease(qs)
    ensures QuotesTimed(Inserted(qs, k, q)) && QuotesIncrease(Inserted(qs, k, q))
  {
    var all := Inserted(qs, k, q);
    forall i | 0 <= i < |all| - 1
      ensures all[i].time.value < all[i + 1].time.value
    {
      if i + 1 < k {
        assert qs[i].time.value < qs[i + 1].time.value;
      } else if i > k {
        assert qs[i - 1].time.value < qs[i - 1 + 1].time.value;
      }
    }
  }

  lemma {:induction false} InsertedPrefix(qs: seq<Quote>, k: nat, q: Quote, m: nat)
    requires k <= m <= |qs|
    ensures Inserted(qs, k, q)[..m + 1] == Inserted(qs[..m], k, q)
  {
  }

  lemma {:induction false} InsertedEligibility(qs: seq<Quote>, k: nat, q: Quote, m: nat, end: int)
    requires k <= m <= |qs| && QuoteBy(q, end)
    requires forall i :: 0 <= i < |qs| ==> (i < m <==> QuoteBy(qs[i], end))
    ensures QuotesBy(Inserted(qs, k, q), end) == Inserted(qs[..m], k, q)
  {
    QuotesByPrefix(Inserted(qs, k, q), m + 1, end);
    InsertedPrefix(qs, k, q, m);
  }

  lemma {:induction false} RepeatIsEligible(qs: seq<Quote>, k: nat, q: Quote, end: int)
    requires Repeats(qs, k, q, end) && QuotesTimed(qs) && QuotesIncrease(qs)
    ensures Repeats(QuotesBy(qs, end), k, q, end)
    ensures QuotesBy(Inserted(qs, k, q), end) == Inserted(QuotesBy(qs, end), k, q)
  {
    var m := EligiblePrefix(qs, end);
    assert QuoteBy(qs[k - 1], end);
    InsertedEligibility(qs, k, q, m, end);
  }

  lemma {:induction false} SameBook(p: Quote, q: Quote)
    requires q == p.(time := q.time, id := q.id) && Proper(p)
    ensures Proper(q) && BookOf(q) == BookOf(p)
  {
  }

  lemma {:induction false} InsertedMembers(qs: seq<Quote>, k: nat, q: Quote)
    requires k <= |qs|
    ensures forall p :: p in Inserted(qs, k, q) <==> p in qs || p == q
  {
    assert qs == qs[..k] + qs[k..];
  }

  lemma {:induction false} RepeatKeepsBaseline(eligible: seq<Quote>, k: nat, q: Quote, start: int)
    requires k <= |eligible| && SomeQuoteBy(eligible, start)
    ensures SomeQuoteBy(Inserted(eligible, k, q), start)
  {
    InsertedMembers(eligible, k, q);
    var b :| b in eligible && QuoteBy(b, start);
    assert b in Inserted(eligible, k, q);
  }

  lemma {:induction false} RepeatKeepsProper(eligible: seq<Quote>, k: nat, q: Quote, end: int)
    requires (forall p :: p in eligible ==> Proper(p)) && Repeats(eligible, k, q, end)
    ensures forall p :: p in Inserted(eligible, k, q) ==> Proper(p)
  {
    InsertedMembers(eligible, k, q);
    assert eligible[k - 1] in eligible;
    SameBook(eligible[k - 1], q);
  }

  lemma {:induction false} RepeatKeepsFresh(eligible: seq<Quote>, k: nat, q: Quote, end: int)
    requires Fresh(eligible, end) && Repeats(eligible, k, q, end)
    ensures Fresh(Inserted(eligible, k, q), end)
  {
  }

  lemma {:induction false} RepeatKeepsQuotesClean(eligible: seq<Quote>, k: nat, q: Quote, start: int, end: int)
    requires QuotesClean(eligible, start, end) && Repeats(eligible, k, q, end)
    ensures QuotesClean(Inserted(eligible, k, q), start, end)
  {
    RepeatKeepsBaseline(eligible, k, q, start);
    RepeatKeepsProper(eligible, k, q, end);
    RepeatKeepsFresh(eligible, k, q, end);
  }

  function WithQuotes(i: Input, qs: seq<Quote>): Input {
    i.(quotes := qs)
  }

  lemma {:induction false} RepeatKeepsClean(i: Input, k: nat, q: Quote)
    requires Clean(i) && Repeats(i.quotes, k, q, i.end)
    ensures Clean(WithQuotes(i, Inserted(i.quotes, k, q)))
  {
    RepeatKeepsOrder(i.quotes, k, q, i.end);
    RepeatIsEligible(i.quotes, k, q, i.end);
    RepeatKeepsQuotesClean(QuotesBy(i.quotes, i.end), k, q, i.start, i.end);
  }

  lemma {:induction false} TicksOfRepeat(eligible: seq<Quote>, k: nat, q: Quote, end: int)
    requires (forall p :: p in eligible ==> Sound(p)) && Repeats(eligible, k, q, end)
    ensures forall p :: p in Inserted(eligible, k, q) ==> Sound(p)
    ensures TicksOf(Inserted(eligible, k, q)) == Stuttered(TicksOf(eligible), k, q.time.value)
  {
    assert eligible[k - 1] in eligible;
    SameBook(eligible[k - 1], q);
    var all := Inserted(eligible, k, q);
    forall i | 0 <= i < |all|
      ensures Sound(all[i])
    {
      if i != k {
        assert eligible[if i < k then i else i - 1] in eligible;
      }
    }
    var ts, stuttered := TicksOf(all), Stuttered(TicksOf(eligible), k, q.time.value);
    forall i | 0 <= i < |ts|
      ensures ts[i] == stuttered[i]
    {
      assert ts[i] == TickOf(all[i]);
    }
  }

  lemma {:induction false} RepeatStutters(i: Input, k: nat, q: Quote)
    requires Clean(i) && Repeats(i.quotes, k, q, i.end)
    ensures Clean(WithQuotes(i, Inserted(i.quotes, k, q)))
    ensures k <= |WindowTicks(i)|
    ensures WindowTicks(WithQuotes(i, Inserted(i.quotes, k, q))) == Stuttered(WindowTicks(i), k, q.time.value)
    ensures FitsBetween(WindowTicks(i), k, q.time.value, i.end)
  {
    RepeatKeepsClean(i, k, q);
    RepeatIsEligible(i.quotes, k, q, i.end);
    CleanQuotesSound(i);
    TicksOfRepeat(QuotesBy(i.quotes, i.end), k, q, i.end);
    RepeatFits(QuotesBy(i.quotes, i.end), k, q, i.end);
  }

  lemma {:induction false} RepeatFits(eligible: seq<Quote>, k: nat, q: Quote, end: int)
    requires (forall p :: p in eligible ==> Sound(p)) && Repeats(eligible, k, q, end)
    ensures FitsBetween(TicksOf(eligible), k, q.time.value, end)
  {
    assert eligible[k - 1] in eligible;
    assert k < |eligible| ==> eligible[k] in eligible;
  }

  lemma {:induction false} StutterKeepsOutcome(ts: seq<Tick>, k: nat, time: int, start: int, end: int, tick: real,
      adv: real, net: ProgramNet, live: bool, lineage: seq<string>, lineage': seq<string>)
    requires 0 < k <= |ts| && FitsBetween(ts, k, time, end) && tick > 0.0 && adv > 0.0
    ensures var r, r' := Outcome(ts, start, end, tick, adv, net, live, lineage),
        Outcome(Stuttered(ts, k, time), start, end, tick, adv, net, live, lineage');
            SameButLineage(r, r')
  {
    StutterKeepsOfi(ts, k, time, start);
    StutterKeepsIntegral(BestDepth, ts, k, time, start, end);
    StutterKeepsIntegral(Imbalance, ts, k, time, start, end);
    StutterShape(ts, k, time);
  }

  predicate SameButLineage(r: Result, r': Result) {
    match r
    case Computable(v, _, live) => r'.Computable? && r'.vector == v && r'.sourceEligible == live
    case NotComputable(reasons, _) => r'.NotComputable? && r'.reasons == reasons
  }

  // Repeating a book anywhere up to the cutoff leaves the verdict and the whole feature vector as they were.
  lemma {:induction false} StutterInvariance(i: Input, k: nat, q: Quote)
    requires Clean(i) && Repeats(i.quotes, k, q, i.end)
    ensures var r, s := Features(i), Features(WithQuotes(i, Inserted(i.quotes, k, q)));
            if r.Computable? then s.Computable? && s.vector == r.vector && s.sourceEligible == r.sourceEligible
            else s.NotComputable? && s.reasons == r.reasons
  {
    var j := WithQuotes(i, Inserted(i.quotes, k, q));
    RepeatStutters(i, k, q);
    FiltersPassIffClean(i);
    FiltersPassIffClean(j);
    StutterKeepsOutcome(WindowTicks(i), k, q.time.value, i.start, i.end, i.tickSize.value, i.adv.value.value,
                        ProgramNotional(ProgramsBy(i.programs, i.end), i.start, i.semantics), i.liveCapture, Lineage(i),
                            Lineage(j));
    assert SameButLineage(Features(i), Features(j));
  }

  // ---------- the computation, step by step ----------

  method FirstBookFault(qs: seq<Quote>) returns (reasons: seq<Reason>)
    ensures reasons == FirstFault(qs)
  {
    reasons := [];
    var k := 0;
    while k < |qs| && reasons == []
      invariant 0 <= k <= |qs| && reasons == FirstFault(qs[..k])
    {
      assert qs[..k + 1][..k] == qs[..k];
      var fault := BookFault(qs[k]);
      if fault.Some? {
        reasons := [fault.value];
      }
      k := k + 1;
    }
    FaultStays(qs, k);
  }

  lemma {:induction false} FaultStays(qs: seq<Quote>, k: nat)
    requires k <= |qs| && (FirstFault(qs[..k]) != [] || k == |qs|)
    ensures FirstFault(qs) == FirstFault(qs[..k])
    decreases |qs| - k
  {
    if k == |qs| {
      assert qs[..k] == qs;
    } else {
      assert qs[..k + 1][..k] == qs[..k];
      FaultStays(qs, k + 1);
    }
  }

  method HardFilterReasons(i: Input) returns (reasons: seq<Reason>)
    ensures reasons == HardReasons(i)
  {
    var found := StaticReasons(i);
    if !QuotesTimed(i.quotes) || !ProgramsTimed(i.programs) {
      found := found + [ProviderEventTimeMissing];
    } else {
      var quotes := QuotesBy(i.quotes, i.end);
      var events := When(!QuotesIncrease(i.quotes) || !ProgramsIncrease(i.programs), OutOfOrder);
      var quoteReasons := [];
      if !SomeQuoteBy(quotes, i.start) {
        quoteReasons := When(SomeQuoteAfter(i.quotes, i.end), SnapshotAfterCutoff) + [WindowNotFullyCovered];
      }
      if quotes == [] {
        quoteReasons := quoteReasons + [WindowNotFullyCovered];
      } else {
        quoteReasons := quoteReasons + When(Stale(quotes[|quotes| - 1].time, i.end), SnapshotStale);
      }
      var fault := FirstBookFault(quotes);
      quoteReasons := quoteReasons + fault;
      events := events + quoteReasons + ProgramReasons(ProgramsBy(i.programs, i.end), i.start, i.end, i.semantics);
      found := found + events;
    }
    reasons := Deduped(found);
  }

  method CollectLineage(i: Input) returns (values: seq<string>)
    ensures values == Lineage(i)
  {
    values := [];
    ghost var ids: seq<string> := [];
    for k := 0 to |i.quotes|
      invariant ids == QuoteIds(i.quotes[..k], i.end) && values == Deduped(ids)
    {
      assert i.quotes[..k + 1][..k] == i.quotes[..k];
      if QuoteBy(i.quotes[k], i.end) && i.quotes[k].id != "" {
        values, ids := AppendNew(values, ids, i.quotes[k].id);
      }
    }
    assert i.quotes[..|i.quotes|] == i.quotes;
    for k := 0 to |i.programs|
      invariant ids == QuoteIds(i.quotes, i.end) + ProgramIds(i.programs[..k], i.end) && values == Deduped(ids)
    {
      assert i.programs[..k + 1][..k] == i.programs[..k];
      if ProgramBy(i.programs[k], i.end) && i.programs[k].id != "" {
        values, ids := AppendNew(values, ids, i.programs[k].id);
      }
    }
    assert i.programs[..|i.programs|] == i.programs;
    if AdvTraced(i.adv, i.end) {
      values, ids := AppendNew(values, ids, i.adv.id.value);
    } else {
      assert ids + [] == ids;
    }
  }

  method AppendNew(values: seq<string>, ghost ids: seq<string>, id: string)
      returns (longer: seq<string>, ghost ids': seq<string>)
    requires values == Deduped(ids)
    ensures ids' == ids + [id] && longer == Deduped(ids')
  {
    ids' := ids + [id];
    assert ids'[..|ids|] == ids;
    longer := if id in values then values else values + [id];
  }

  method OfiIncrement(previous: Quote, current: Quote) returns (increment: real)
    requires Complete(previous) && Complete(current)
    ensures increment == Increment(BookOf(previous), BookOf(current))
  {
    var before, now := BookOf(previous), BookOf(current);
    increment := 0.0;
    if now.bid >= before.bid { increment := increment + now.bidQty; }
    if now.bid <= before.bid { increment := increment - before.bidQty; }
    if now.ask <= before.ask { increment := increment - now.askQty; }
    if now.ask >= before.ask { increment := increment + before.askQty; }
  }

  lemma {:induction false} OfiBeforeWindow(ts: seq<Tick>, start: int)
    requires forall k :: 0 <= k < |ts| ==> ts[k].time <= start
    ensures Ofi(ts, start) == 0.0
  {
    if |ts| >= 2 {
      OfiBeforeWindow(ts[..|ts| - 1], start);
    }
  }

  // The latest eligible quote no later than the start of the window: the maximum exists.
  method Baseline(events: seq<Quote>, start: int) returns (index: nat)
    requires SomeQuoteBy(events, start)
    ensures index < |events| && QuoteBy(events[index], start)
    ensures forall k :: index < k < |events| ==> !QuoteBy(events[k], start)
  {
    var found := false;
    index := 0;
    for k := 0 to |events|
      invariant found ==>
                  index < k && QuoteBy(events[index], start) && forall j :: index < j < k ==> !QuoteBy(events[j], start)
      invariant !found ==> forall j :: 0 <= j < k ==> !QuoteBy(events[j], start)
    {
      if QuoteBy(events[k], start) {
        found, index := true, k;
      }
    }
    ghost var some := BaselineAmong(events, start);
  }

  // The ticks are those of the events, in order of time.
  ghost predicate Tracks(ts: seq<Tick>, events: seq<Quote>) {
    |ts| == |events| && forall k :: 0 <= k < |events| ==> Sound(events[k]) && ts[k] == TickOf(events[k])
  }

  method SumIncrements(events: seq<Quote>, baseline: nat, start: int, ghost ts: seq<Tick>) returns (ofi: real)
    requires Tracks(ts, events) && baseline < |events| && Ofi(ts[..baseline + 1], start) == 0.0
    ensures ofi == Ofi(ts, start)
  {
    ofi := 0.0;
    var k := baseline + 1;
    while k < |events|
      invariant baseline < k <= |events| && ofi == Ofi(ts[..k], start)
    {
      assert ts[..k + 1][..k] == ts[..k] && ts[k - 1] == TickOf(events[k - 1]);
      if events[k].time.value > start {
        var increment := OfiIncrement(events[k - 1], events[k]);
        ofi := ofi + increment;
      }
      k := k + 1;
    }
    assert ts[..|events|] == ts;
  }

  // One pass of the weighting loop; a book that does not stand in the window adds nothing.
  method WeighOne(q: Quote, start: int, next: int, depth: real, imbalance: real)
      returns (depth': real, imbalance': real)
    requires Sound(q)
    ensures var span := Span(start, q.time.value, next);
            && depth' == depth + Weighted(Value(BestDepth, BookOf(q)), span)
            && imbalance' == imbalance + Weighted(Value(Imbalance, BookOf(q)), span)
  {
    var from := Later(q.time.value, start);
    var duration := Seconds(next - from);
    var book: SoundBook := BookOf(q);
    if duration <= 0.0 {
      WeightedAdds(Value(BestDepth, book), 0.0, 0.0);
      WeightedAdds(Value(Imbalance, book), 0.0, 0.0);
      return depth, imbalance;
    }
    depth' := depth + Weighted(Value(BestDepth, book), duration);
    imbalance' := imbalance + Weighted(Value(Imbalance, book), duration);
  }

  lemma {:induction false} IntegralStep(m: Measure, ts: seq<Tick>, k: nat, start: int, next: int)
    requires k < |ts|
    ensures Integral(m, ts[..k + 1], start, next) ==
              Integral(m, ts[..k], start, ts[k].time) + Weighted(Value(m, ts[k].book), Span(start, ts[k].time, next))
  {
    assert ts[..k + 1] == ts[..k] + [ts[k]];
    IntegralUnfolds(m, ts[..k + 1], ts[..k], ts[k], start, next);
  }

  ghost predicate NoWeightBefore(ts: seq<Tick>, baseline: nat, start: int)
    requires baseline < |ts|
  {
    && Integral(BestDepth, ts[..baseline], start, ts[baseline].time) == 0.0
    && Integral(Imbalance, ts[..baseline], start, ts[baseline].time) == 0.0
  }

  lemma {:induction false} BaselineStartsEmpty(ts: seq<Tick>, baseline: nat, start: int)
    requires Rising(ts) && baseline < |ts| && ts[baseline].time <= start
    ensures Ofi(ts[..baseline + 1], start) == 0.0 && NoWeightBefore(ts, baseline, start)
  {
    OfiBeforeWindow(ts[..baseline + 1], start);
    NothingBeforeWindow(BestDepth, ts[..baseline], start, ts[baseline].time);
    NothingBeforeWindow(Imbalance, ts[..baseline], start, ts[baseline].time);
  }

  // When book k - 1 stops standing: at the next event, or at the end of the window.
  ghost function StandsUntil(ts: seq<Tick>, k: nat, end: int): int {
    if k < |ts| then ts[k].time else end
  }

  method NextTime(events: seq<Quote>, k: nat, end: int, ghost ts: seq<Tick>) returns (next: int)
    requires Tracks(ts, events) && (k < |ts| ==> ts[k].time <= end)
    ensures next == StandsUntil(ts, k, end)
  {
    next := end;
    if k < |events| {
      assert ts[k] == TickOf(events[k]);
      next := if events[k].time.value <= end then events[k].time.value else end;
    }
  }

  method WeighBooks(events: seq<Quote>, baseline: nat, start: int, end: int, ghost ts: seq<Tick>)
      returns (depth: real, imbalance: real)
    requires Tracks(ts, events) && baseline < |events| && (forall k :: 0 <= k < |ts| ==> ts[k].time <= end)
    requires NoWeightBefore(ts, baseline, start)
    ensures depth == Integral(BestDepth, ts, start, end) && imbalance == Integral(Imbalance, ts, start, end)
  {
    depth, imbalance := 0.0, 0.0;
    var k := baseline;
    while k < |events|
      invariant baseline <= k <= |events|
      invariant depth == Integral(BestDepth, ts[..k], start, StandsUntil(ts, k, end))
      invariant imbalance == Integral(Imbalance, ts[..k], start, StandsUntil(ts, k, end))
    {
      var next := NextTime(events, k + 1, end, ts);
      assert ts[k] == TickOf(events[k]);
      depth, imbalance := WeighOne(events[k], start, next, depth, imbalance);
      IntegralStep(BestDepth, ts, k, start, next);
      IntegralStep(Imbalance, ts, k, start, next);
      k := k + 1;
    }
    assert ts[..|events|] == ts;
  }

  method FromEvents(events: seq<Quote>, start: int, end: int, tick: real, adv: real, net: ProgramNet, live: bool,
      lineage: seq<string>, ghost ts: seq<Tick>) returns (r: Result)
    requires Tracks(ts, events) && Rising(ts) && (forall k :: 0 <= k < |ts| ==> ts[k].time <= end)
    requires SomeQuoteBy(events, start) && events != [] && tick > 0.0 && adv > 0.0
    ensures r == Outcome(ts, start, end, tick, adv, net, live, lineage)
  {
    var baseline := Baseline(events, start);
    assert ts[baseline] == TickOf(events[baseline]);
    BaselineStartsEmpty(ts, baseline, start);
    var ofi := SumIncrements(events, baseline, start, ts);
    var depth, imbalance := WeighBooks(events, baseline, start, end, ts);
    var mean := Mean(depth);
    if mean <= 0.0 {
      return NotComputable([BestDepthZero], lineage);
    }
    assert ts[|ts| - 1] == TickOf(events[|events| - 1]);
    var last := BookOf(events[|events| - 1]);
    if last.bidQty + last.askQty <= 0.0 {
      return NotComputable([BestDepthZero], lineage);
    }
    if net.Raised? {
      return NotComputable([net.reason], lineage);
    }
    r := Computable(VectorOf(ofi, mean, Mean(imbalance), last, tick, net.value, adv), lineage, live);
  }

  lemma {:induction false} TicksTrack(i: Input)
    requires Clean(i)
    ensures Tracks(WindowTicks(i), QuotesBy(i.quotes, i.end))
  {
    var events, ts := QuotesBy(i.quotes, i.end), WindowTicks(i);
    CleanQuotesSound(i);
    forall k | 0 <= k < |events|
      ensures Sound(events[k]) && ts[k] == TickOf(events[k])
    {
      assert events[k] in events;
    }
  }

  lemma {:induction false} TicksByEnd(i: Input)
    requires Clean(i)
    ensures forall k :: 0 <= k < |WindowTicks(i)| ==> WindowTicks(i)[k].time <= i.end
  {
    WindowTicksShape(i);
    var ts := WindowTicks(i);
    forall k | 0 <= k < |ts|
      ensures ts[k].time <= i.end
    {
      assert k < |ts| - 1 ==> ts[k].time < ts[|ts| - 1].time;
    }
  }

  lemma {:induction false} FeaturesOfClean(i: Input)
    requires HardReasons(i) == []
    ensures Clean(i) && ProgramNotional(ProgramsBy(i.programs, i.end), i.start, i.semantics).Net?
    ensures Features(i) == Outcome(WindowTicks(i), i.start, i.end, i.tickSize.value, i.adv.value.value,
                                   ProgramNotional(ProgramsBy(i.programs, i.end), i.start, i.semantics), i.liveCapture,
                                       Lineage(i))
  {
    FiltersPassIffClean(i);
    ProgramNeverRaises(i);
  }

  // Everything the loops rely on, once the filters pass.
  lemma {:induction false} WindowIsReady(i: Input) returns (ts: seq<Tick>)
    requires HardReasons(i) == []
    ensures Tracks(ts, QuotesBy(i.quotes, i.end)) && Rising(ts) && ts != []
    ensures forall k :: 0 <= k < |ts| ==> ts[k].time <= i.end
    ensures SomeQuoteBy(QuotesBy(i.quotes, i.end), i.start)
    ensures i.tickSize.Some? && i.tickSize.value > 0.0 && i.adv.value.Some? && i.adv.value.value > 0.0
    ensures ProgramNotional(ProgramsBy(i.programs, i.end), i.start, i.semantics).Net?
    ensures Features(i) == Outcome(ts, i.start, i.end, i.tickSize.value, i.adv.value.value,
                                   ProgramNotional(ProgramsBy(i.programs, i.end), i.start, i.semantics), i.liveCapture,
                                       Lineage(i))
  {
    FeaturesOfClean(i);
    ts := WindowTicks(i);
    TicksTrack(i);
    TicksByEnd(i);
    EligibleRises(i);
  }

  // No lookup fails, no inner error is raised, and the maximum behind the baseline is never taken of nothing.
  method Compute(i: Input) returns (r: Result)
    ensures r == Features(i)
  {
    var reasons := HardFilterReasons(i);
    var lineage := CollectLineage(i);
    if reasons != [] {
      return NotComputable(reasons, lineage);
    }
    ghost var ts := WindowIsReady(i);
    var net := ProgramNotional(ProgramsBy(i.programs, i.end), i.start, i.semantics);
    r := FromEvents(QuotesBy(i.quotes, i.end), i.start, i.end, i.tickSize.value, i.adv.value.value, net, i.liveCapture,
        lineage, ts);
  }
}

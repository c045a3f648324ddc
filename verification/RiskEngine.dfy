/**
  The risk engine: kill switches first, then one common scale factor cut down by every cap and rounded
  to whole lots leg by leg. A decision is BLOCK, REDUCE or ALLOW. Quantities and money are exact reals.
 */
module RiskEngine {
  import opened Numbers
  import opened Wrappers

  datatype Reason =
    | WithinLimits | OrderExpired | DuplicateLegId | InvalidAccountEquity
    | CriticalProviderDisconnected | CriticalProviderDelayed | ProviderDivergence | ClockUnsynchronized
    | LegStateMissing | QuoteMissing | QuoteFromFuture | StaleQuote
    | MarketClosed | MarketHalted | MarketVi | MarketPriceLimit | MarketStateUnknown
    | ConversionUnavailable | BorrowUnavailable | BorrowCostMissing | BorrowCostExpired
    | HedgeFailure | UnhedgedLegTimeout | DailyLossLimit | CumulativeMddLimit
    | ExpectedCostNotBelowGross | StrategyVersionMismatch | ConfigVersionMismatch | DataSchemaVersionMismatch
    | StopDistanceMissing | LiquidityMissing | RiskBudgetExhausted
    | MaxRiskPerTrade | OrderRiskBudget | LiquidityLimit | MinimumLotRounding | NoExecutableQuantity

  datatype StrategyClass = H1 | H2 | H3
  datatype MarketState = Open | Closed | Halted | Vi | PriceLimit | Unknown
  datatype ConversionStatus = NotKnown | Announced | Operational | Suspended

  datatype RiskPolicy = RiskPolicy(
    tradeFraction: real, dailyLossFraction: real, mddFraction: real,
    h1QuoteMaxAge: real, h2h3QuoteMaxAge: real, legTimeout: real)
  {
    predicate Valid() {
      && 0.0 < tradeFraction < 1.0 && 0.0 < dailyLossFraction < 1.0 && 0.0 < mddFraction < 1.0
      && h1QuoteMaxAge > 0.0 && h2h3QuoteMaxAge > 0.0 && legTimeout > 0.0
    }

    function QuoteMaxAge(strategy: StrategyClass): real {
      if strategy.H1? then h1QuoteMaxAge else h2h3QuoteMaxAge
    }
  }

  datatype LegState = LegState(
    quoteAsOf: Option<int>, stopDistance: Option<real>, available: Option<real>, unit: real,
    market: MarketState, requiresBorrow: bool, borrowAvailable: bool, borrowCostExpires: Option<int>)
  {
    predicate Valid() {
      && unit > 0.0
      && (stopDistance.Some? ==> stopDistance.value >= 0.0)
      && (available.Some? ==> available.value >= 0.0)
    }
  }

  datatype Context = Context(
    now: nat, strategy: StrategyClass, equity: real, currentEquity: real, highWaterMark: real, dailyPnl: real,
    expectedGross: real, expectedCost: real, legStates: map<string, LegState>,
    connected: bool, delayed: bool, divergence: bool, clockSynchronized: bool,
    conversion: Option<ConversionStatus>, hedgeFailed: bool, unhedgedSince: Option<int>,
    strategyApproved: bool, configApproved: bool, schemaApproved: bool)
  {
    predicate Valid() {
      && equity >= 0.0 && currentEquity >= 0.0 && highWaterMark >= 0.0 && expectedGross >= 0.0 && expectedCost >= 0.0
      && forall id :: id in legStates ==> legStates[id].Valid()
    }
  }

  datatype Leg = Leg(id: string, quantity: real)

  datatype Order = Order(id: string, legs: seq<Leg>, riskBudget: real, expiresAt: int)
  {
    predicate Valid() {
      legs != [] && riskBudget >= 0.0 && forall i :: 0 <= i < |legs| ==> legs[i].quantity >= 0.0
    }
  }

  datatype Kind = Block | Reduce | Allow

  datatype Limit =
    | RequestedQuantity(leg: string) | AvailableQuantity(leg: string) | ApprovedQuantity(leg: string)
    | MaxTradeRisk | OrderBudget | EffectiveBudget | RequestedStopRisk | ApprovedStopRisk

  datatype Decision = Decision(
    orderId: string, kind: Kind, reasons: seq<Reason>, requested: real, approved: real,
    limits: map<Limit, real>, decidedAt: int)
  {
    // The validators of the decision record.
    predicate Valid() {
      && requested >= 0.0 && approved >= 0.0 && decidedAt >= 0
      && (kind.Block? ==> approved == 0.0)
      && (kind.Block? || kind.Reduce? ==> reasons != [])
      && approved <= requested
    }
  }

  // ---------- what stops an order outright ----------

  function Age(now: int, since: int): real {
    (now - since) as real / 1000000000.0
  }

  function DailyLoss(c: Context): real
    requires c.equity > 0.0
  {
    Max(-c.dailyPnl, 0.0) / c.equity
  }

  function MddFraction(c: Context): real
    requires c.highWaterMark > 0.0
  {
    Max(c.highWaterMark - c.currentEquity, 0.0) / c.highWaterMark
  }

  predicate DuplicateIds(legs: seq<Leg>) {
    exists i, j :: 0 <= i < j < |legs| && legs[i].id == legs[j].id
  }

  predicate OperationCause(r: Reason, o: Order, c: Context) {
    || (r == OrderExpired && c.now >= o.expiresAt)
    || (r == InvalidAccountEquity && (c.equity <= 0.0 || c.highWaterMark <= 0.0))
    || (r == CriticalProviderDisconnected && !c.connected)
    || (r == CriticalProviderDelayed && c.delayed)
    || (r == ProviderDivergence && c.divergence)
    || (r == ClockUnsynchronized && !c.clockSynchronized)
  }

  predicate LossCause(r: Reason, p: RiskPolicy, c: Context) {
    || (r == DailyLossLimit && c.equity > 0.0 && DailyLoss(c) >= p.dailyLossFraction)
    || (r == CumulativeMddLimit && c.highWaterMark > 0.0 && MddFraction(c) >= p.mddFraction)
    || (r == ExpectedCostNotBelowGross && c.expectedCost >= c.expectedGross)
  }

  predicate ApprovalCause(r: Reason, p: RiskPolicy, c: Context) {
    || (r == StrategyVersionMismatch && !c.strategyApproved)
    || (r == ConfigVersionMismatch && !c.configApproved)
    || (r == DataSchemaVersionMismatch && !c.schemaApproved)
    || (r == ConversionUnavailable && c.strategy.H2? && c.conversion != Some(Operational))
    || (r == HedgeFailure && c.hedgeFailed)
    || (r == UnhedgedLegTimeout && c.unhedgedSince.Some? && Age(c.now, c.unhedgedSince.value) >= p.legTimeout)
  }

  // The causes that do not look at a leg.
  predicate AccountCause(r: Reason, p: RiskPolicy, o: Order, c: Context) {
    OperationCause(r, o, c) || LossCause(r, p, c) || ApprovalCause(r, p, c)
  }

  predicate QuoteCause(r: Reason, now: int, maxAge: real, quoteAsOf: Option<int>) {
    || (r == QuoteMissing && quoteAsOf.None?)
    || (r == QuoteFromFuture && quoteAsOf.Some? && now < quoteAsOf.value)
    || (r == StaleQuote && quoteAsOf.Some? && quoteAsOf.value <= now && Age(now, quoteAsOf.value) > maxAge)
  }

  predicate SizingInputCause(r: Reason, s: LegState) {
    || (r == StopDistanceMissing && (s.stopDistance.None? || s.stopDistance.value <= 0.0))
    || (r == LiquidityMissing && s.available.None?)
  }

  predicate BorrowCause(r: Reason, now: int, s: LegState) {
    || (r == BorrowUnavailable && s.requiresBorrow && !s.borrowAvailable)
    || (r == BorrowCostMissing && s.requiresBorrow && s.borrowCostExpires.None?)
    || (r == BorrowCostExpired && s.requiresBorrow && s.borrowCostExpires.Some? && s.borrowCostExpires.value <= now)
  }

  // The causes one leg can give, once its state is known.
  predicate StateCause(r: Reason, now: int, maxAge: real, s: LegState) {
    || MarketReason(s.market) == Some(r)
    || QuoteCause(r, now, maxAge, s.quoteAsOf)
    || SizingInputCause(r, s)
    || BorrowCause(r, now, s)
  }

  function MarketReason(m: MarketState): Option<Reason> {
    match m
    case Open => None
    case Closed => Some(MarketClosed)
    case Halted => Some(MarketHalted)
    case Vi => Some(MarketVi)
    case PriceLimit => Some(MarketPriceLimit)
    case Unknown => Some(MarketStateUnknown)
  }

  predicate LegCause(r: Reason, p: RiskPolicy, c: Context, leg: Leg) {
    if leg.id in c.legStates then StateCause(r, c.now, p.QuoteMaxAge(c.strategy), c.legStates[leg.id])
    else r == LegStateMissing
  }

  predicate SomeLegCause(r: Reason, p: RiskPolicy, c: Context, legs: seq<Leg>) {
    exists leg :: leg in legs && LegCause(r, p, c, leg)
  }

  predicate Cause(r: Reason, p: RiskPolicy, o: Order, c: Context) {
    || (r == DuplicateLegId && DuplicateIds(o.legs))
    || AccountCause(r, p, o, c)
    || SomeLegCause(r, p, c, o.legs)
  }

  ghost predicate Clear(p: RiskPolicy, o: Order, c: Context) {
    forall r :: !Cause(r, p, o, c)
  }

  // ---------- the reason list ----------

  predicate Distinct(reasons: seq<Reason>) {
    forall i, j :: 0 <= i < j < |reasons| ==> reasons[i] != reasons[j]
  }

  function AppendUnique(reasons: seq<Reason>, r: Reason): seq<Reason> {
    if r in reasons then reasons else reasons + [r]
  }

  method AppendIf(reasons: seq<Reason>, r: Reason, holds: bool) returns (noted: seq<Reason>)
    requires Distinct(reasons)
    ensures Distinct(noted)
    ensures forall x :: x in noted <==> x in reasons || (holds && x == r)
  {
    noted := if holds then AppendUnique(reasons, r) else reasons;
  }

  method OperationReasons(o: Order, c: Context, noted: seq<Reason>) returns (reasons: seq<Reason>)
    requires Distinct(noted)
    ensures Distinct(reasons) && forall r :: r in reasons <==> r in noted || OperationCause(r, o, c)
  {
    reasons := AppendIf(noted, OrderExpired, c.now >= o.expiresAt);
    reasons := AppendIf(reasons, InvalidAccountEquity, c.equity <= 0.0 || c.highWaterMark <= 0.0);
    reasons := AppendIf(reasons, CriticalProviderDisconnected, !c.connected);
    reasons := AppendIf(reasons, CriticalProviderDelayed, c.delayed);
    reasons := AppendIf(reasons, ProviderDivergence, c.divergence);
    reasons := AppendIf(reasons, ClockUnsynchronized, !c.clockSynchronized);
  }

  method LossReasons(p: RiskPolicy, c: Context, noted: seq<Reason>) returns (reasons: seq<Reason>)
    requires Distinct(noted)
    ensures Distinct(reasons) && forall r :: r in reasons <==> r in noted || LossCause(r, p, c)
  {
    reasons := noted;
    if c.equity > 0.0 {
      reasons := AppendIf(reasons, DailyLossLimit, DailyLoss(c) >= p.dailyLossFraction);
    }
    if c.highWaterMark > 0.0 {
      reasons := AppendIf(reasons, CumulativeMddLimit, MddFraction(c) >= p.mddFraction);
    }
    reasons := AppendIf(reasons, ExpectedCostNotBelowGross, c.expectedCost >= c.expectedGross);
  }

  method ApprovalReasons(p: RiskPolicy, c: Context, noted: seq<Reason>) returns (reasons: seq<Reason>)
    requires Distinct(noted)
    ensures Distinct(reasons) && forall r :: r in reasons <==> r in noted || ApprovalCause(r, p, c)
  {
    reasons := AppendIf(noted, StrategyVersionMismatch, !c.strategyApproved);
    reasons := AppendIf(reasons, ConfigVersionMismatch, !c.configApproved);
    reasons := AppendIf(reasons, DataSchemaVersionMismatch, !c.schemaApproved);
    reasons := AppendIf(reasons, ConversionUnavailable, c.strategy.H2? && c.conversion != Some(Operational));
    reasons := AppendIf(reasons, HedgeFailure, c.hedgeFailed);
    if c.unhedgedSince.Some? {
      reasons := AppendIf(reasons, UnhedgedLegTimeout, Age(c.now, c.unhedgedSince.value) >= p.legTimeout);
    }
  }

  method QuoteReasons(now: int, maxAge: real, quoteAsOf: Option<int>, noted: seq<Reason>) returns (reasons: seq<Reason>)
    requires Distinct(noted)
    ensures Distinct(reasons) && forall r :: r in reasons <==> r in noted || QuoteCause(r, now, maxAge, quoteAsOf)
  {
    if quoteAsOf.None? {
      reasons := AppendIf(noted, QuoteMissing, true);
    } else {
      var age := Age(now, quoteAsOf.value);
      if age < 0.0 {
        reasons := AppendIf(noted, QuoteFromFuture, true);
      } else {
        reasons := AppendIf(noted, StaleQuote, age > maxAge);
      }
    }
  }

  method BorrowReasons(now: int, s: LegState, noted: seq<Reason>) returns (reasons: seq<Reason>)
    requires Distinct(noted)
    ensures Distinct(reasons) && forall r :: r in reasons <==> r in noted || BorrowCause(r, now, s)
  {
    reasons := noted;
    if s.requiresBorrow {
      reasons := AppendIf(reasons, BorrowUnavailable, !s.borrowAvailable);
      if s.borrowCostExpires.None? {
        reasons := AppendIf(reasons, BorrowCostMissing, true);
      } else {
        reasons := AppendIf(reasons, BorrowCostExpired, s.borrowCostExpires.value <= now);
      }
    }
  }

  method StateReasons(now: int, maxAge: real, s: LegState, noted: seq<Reason>) returns (reasons: seq<Reason>)
    requires Distinct(noted)
    ensures Distinct(reasons) && forall r :: r in reasons <==> r in noted || StateCause(r, now, maxAge, s)
  {
    reasons := noted;
    var marketReason := MarketReason(s.market);
    if marketReason.Some? {
      reasons := AppendIf(reasons, marketReason.value, true);
    }
    reasons := QuoteReasons(now, maxAge, s.quoteAsOf, reasons);
    reasons := AppendIf(reasons, StopDistanceMissing, s.stopDistance.None? || s.stopDistance.value <= 0.0);
    reasons := AppendIf(reasons, LiquidityMissing, s.available.None?);
    reasons := BorrowReasons(now, s, reasons);
  }

  lemma {:induction false} OneMoreLeg(r: Reason, p: RiskPolicy, c: Context, legs: seq<Leg>, k: nat)
    requires k < |legs|
    ensures SomeLegCause(r, p, c, legs[..k + 1]) <==> SomeLegCause(r, p, c, legs[..k]) || LegCause(r, p, c, legs[k])
  {
    assert legs[..k + 1] == legs[..k] + [legs[k]];
  }

  // The reason list holds exactly the causes, each once.
  method ApplyKillSwitches(p: RiskPolicy, o: Order, c: Context, noted: seq<Reason>) returns (reasons: seq<Reason>)
    requires Distinct(noted)
    ensures Distinct(reasons)
    ensures forall r :: r in reasons <==> r in noted || AccountCause(r, p, o, c) || SomeLegCause(r, p, c, o.legs)
  {
    reasons := OperationReasons(o, c, noted);
    reasons := LossReasons(p, c, reasons);
    reasons := ApprovalReasons(p, c, reasons);
    ghost var account := reasons;
    var maxAge := p.QuoteMaxAge(c.strategy);
    for k := 0 to |o.legs|
      invariant Distinct(reasons)
      invariant forall r :: r in reasons <==> r in account || SomeLegCause(r, p, c, o.legs[..k])
    {
      ghost var before := reasons;
      var id := o.legs[k].id;
      if id !in c.legStates {
        reasons := AppendIf(reasons, LegStateMissing, true);
      } else {
        reasons := StateReasons(c.now, maxAge, c.legStates[id], reasons);
      }
      forall r
        ensures r in reasons <==> r in account || SomeLegCause(r, p, c, o.legs[..k + 1])
      {
        OneMoreLeg(r, p, c, o.legs, k);
      }
    }
    assert o.legs[..|o.legs|] == o.legs;
  }

  // ---------- sizing ----------

  datatype SizedLeg = SizedLeg(requested: real, stop: real, available: real, unit: real)
  {
    predicate Valid() {
      requested >= 0.0 && stop > 0.0 && available >= 0.0 && unit > 0.0
    }
  }

  // What the kill switches have left to decide: the legs with their states, and the two risk caps.
  datatype Sizing = Sizing(legs: seq<SizedLeg>, maxTradeRisk: real, budget: real)
  {
    predicate Valid() {
      maxTradeRisk > 0.0 && budget >= 0.0 && forall i :: 0 <= i < |legs| ==> legs[i].Valid()
    }
  }

  function Risk(quantity: real, stop: real): real {
    quantity * stop
  }

  function Requested(legs: seq<SizedLeg>): (qs: seq<real>)
    ensures |qs| == |legs| && forall i :: 0 <= i < |legs| ==> qs[i] == legs[i].requested
  {
    seq(|legs|, i requires 0 <= i < |legs| => legs[i].requested)
  }

  // Stop risk of holding qs.
  function StopRisk(legs: seq<SizedLeg>, qs: seq<real>): (rs: seq<real>)
    requires |qs| == |legs|
    ensures |rs| == |legs| && forall i :: 0 <= i < |legs| ==> rs[i] == Risk(qs[i], legs[i].stop)
  {
    seq(|legs|, i requires 0 <= i < |legs| => Risk(qs[i], legs[i].stop))
  }

  function TotalRisk(legs: seq<SizedLeg>): real {
    Total(StopRisk(legs, Requested(legs)))
  }

  function Part(scale: real, amount: real): real {
    scale * amount
  }

  // A cap on `amount` cuts the scale down to limit / amount when the amount does not fit.
  function Capped(scale: real, amount: real, limit: real): real {
    if amount > 0.0 && amount > limit then Min(scale, limit / amount) else scale
  }

  function LiquidityScale(legs: seq<SizedLeg>, scale: real): real {
    if legs == [] then scale
    else
      var last := legs[|legs| - 1];
      Capped(LiquidityScale(legs[..|legs| - 1], scale), last.requested, last.available)
  }

  function Scale(z: Sizing): real {
    var total := TotalRisk(z.legs);
    LiquidityScale(z.legs, Capped(Capped(1.0, total, z.maxTradeRisk), total, z.budget))
  }

  function TowardZero(x: real): int {
    if x >= 0.0 then x.Floor else -(-x).Floor
  }

  function Lots(scaled: real, unit: real): int
    requires unit > 0.0
  {
    TowardZero(scaled / unit)
  }

  function OfLots(n: int, unit: real): real {
    Part(n as real, unit)
  }

  function WholeLots(scaled: real, unit: real): real
    requires unit > 0.0
  {
    OfLots(Lots(scaled, unit), unit)
  }

  function Approved(z: Sizing): (qs: seq<real>)
    requires z.Valid()
    ensures |qs| == |z.legs|
    ensures forall i :: 0 <= i < |qs| ==> qs[i] == WholeLots(Part(Scale(z), z.legs[i].requested), z.legs[i].unit)
  {
    var scale := Scale(z);
    seq(|z.legs|, i requires 0 <= i < |z.legs| => WholeLots(Part(scale, z.legs[i].requested), z.legs[i].unit))
  }

  predicate SomeLegLost(z: Sizing)
    requires z.Valid()
  {
    exists i :: 0 <= i < |z.legs| && z.legs[i].requested > 0.0 && Approved(z)[i] <= 0.0
  }

  function Verdict(z: Sizing): Kind
    requires z.Valid()
  {
    if Total(Requested(z.legs)) <= 0.0 || z.budget <= 0.0 then Block
    else if Total(Approved(z)) <= 0.0 || SomeLegLost(z) then Block
    else if Total(Approved(z)) < Total(Requested(z.legs)) then Reduce
    else Allow
  }

  // ---------- the scale is the largest that fits ----------

  predicate Fits(z: Sizing, s: real) {
    && Part(s, TotalRisk(z.legs)) <= z.maxTradeRisk
    && Part(s, TotalRisk(z.legs)) <= z.budget
    && forall i :: 0 <= i < |z.legs| ==> Part(s, z.legs[i].requested) <= z.legs[i].available
  }

  lemma {:induction false} QuotientOrder(s: real, amount: real, limit: real, quotient: real)
    requires amount > 0.0 && quotient == limit / amount
    ensures s <= quotient <==> Part(s, amount) <= limit
  {
    assert quotient * amount == limit;
    if s <= quotient {
      assert s * amount <= quotient * amount;
    } else {
      assert s * amount > quotient * amount;
    }
  }

  lemma {:induction false} PartOfLimit(s: real, amount: real, limit: real)
    requires 0.0 <= s <= 1.0 && 0.0 <= amount <= limit
    ensures Part(s, amount) <= limit
  {
    assert s * amount <= 1.0 * amount;
  }

  lemma {:induction false} QuotientBelowOne(amount: real, limit: real)
    requires 0.0 <= limit < amount
    ensures 0.0 <= limit / amount < 1.0
  {
    var q := limit / amount;
    assert q * amount == limit;
  }

  lemma {:induction false} CappedExact(s: real, scale: real, amount: real, limit: real)
    requires 0.0 <= s <= 1.0 && 0.0 <= scale <= 1.0 && amount >= 0.0 && limit >= 0.0
    ensures 0.0 <= Capped(scale, amount, limit) <= scale
    ensures s <= Capped(scale, amount, limit) <==> s <= scale && Part(s, amount) <= limit
  {
    if amount > limit {
      QuotientOrder(s, amount, limit, limit / amount);
      QuotientBelowOne(amount, limit);
    } else {
      PartOfLimit(s, amount, limit);
    }
  }

  lemma {:induction false} LiquidityScaleExact(legs: seq<SizedLeg>, s: real, scale: real)
    requires 0.0 <= s <= 1.0 && 0.0 <= scale <= 1.0 && forall i :: 0 <= i < |legs| ==> legs[i].Valid()
    ensures 0.0 <= LiquidityScale(legs, scale) <= scale
    ensures s <= LiquidityScale(legs, scale) <==>
              s <= scale && forall i :: 0 <= i < |legs| ==> Part(s, legs[i].requested) <= legs[i].available
  {
    if legs != [] {
      var n := |legs| - 1;
      LiquidityScaleExact(legs[..n], s, scale);
      CappedExact(s, LiquidityScale(legs[..n], scale), legs[n].requested, legs[n].available);
      assert forall i :: 0 <= i < n ==> legs[..n][i] == legs[i];
    }
  }

  lemma {:induction false} SumNonNegative(xs: seq<real>)
    requires forall i :: 0 <= i < |xs| ==> xs[i] >= 0.0
    ensures Total(xs) >= 0.0
  {
    if xs != [] {
      SumNonNegative(xs[..|xs| - 1]);
    }
  }

  lemma {:induction false} RiskNonNegative(q: real, stop: real)
    requires q >= 0.0 && stop >= 0.0
    ensures Risk(q, stop) >= 0.0
  {
  }

  lemma {:induction false} TotalRiskNonNegative(legs: seq<SizedLeg>)
    requires forall i :: 0 <= i < |legs| ==> legs[i].Valid()
    ensures TotalRisk(legs) >= 0.0
  {
    var rs := StopRisk(legs, Requested(legs));
    forall i | 0 <= i < |rs|
      ensures rs[i] >= 0.0
    {
      RiskNonNegative(legs[i].requested, legs[i].stop);
    }
    SumNonNegative(rs);
  }

  // The scale is in [0, 1], and it is the largest one there that every cap accepts.
  lemma {:induction false} ScaleIsLargest(z: Sizing, s: real)
    requires z.Valid() && 0.0 <= s <= 1.0
    ensures 0.0 <= Scale(z) <= 1.0
    ensures s <= Scale(z) <==> Fits(z, s)
  {
    var total := TotalRisk(z.legs);
    TotalRiskNonNegative(z.legs);
    var first := Capped(1.0, total, z.maxTradeRisk);
    CappedExact(s, 1.0, total, z.maxTradeRisk);
    CappedExact(s, first, total, z.budget);
    LiquidityScaleExact(z.legs, s, Capped(first, total, z.budget));
  }

  // ---------- what rounding to lots does ----------

  lemma {:induction false} WholeLotsBounds(scaled: real, unit: real)
    requires scaled >= 0.0 && unit > 0.0
    ensures 0.0 <= WholeLots(scaled, unit) <= scaled < WholeLots(scaled, unit) + unit
    ensures Lots(scaled, unit) >= 0
  {
    var quotient := scaled / unit;
    var n := quotient.Floor as real;
    assert quotient * unit == scaled;
    assert quotient >= 0.0;
    LotsBracket(quotient, n, unit, scaled, Part(n, unit));
  }

  lemma {:induction false} PartMonotone(s: real, t: real, amount: real)
    requires s <= t && amount >= 0.0
    ensures Part(s, amount) <= Part(t, amount)
  {
  }

  lemma {:induction false} PartStrict(s: real, t: real, amount: real)
    requires s < t && amount > 0.0
    ensures Part(s, amount) < Part(t, amount)
  {
  }

  lemma {:induction false} OneMoreLot(n: real, unit: real)
    ensures Part(n + 1.0, unit) == Part(n, unit) + unit
  {
    assert (n + 1.0) * unit == n * unit + 1.0 * unit;
  }

  lemma {:induction false} LotsBracket(quotient: real, n: real, unit: real, scaled: real, whole: real)
    requires unit > 0.0 && 0.0 <= n <= quotient < n + 1.0 && Part(quotient, unit) == scaled && whole == Part(n, unit)
    ensures 0.0 <= whole <= scaled < whole + unit
  {
    PartMonotone(0.0, n, unit);
    PartMonotone(n, quotient, unit);
    PartStrict(quotient, n + 1.0, unit);
    OneMoreLot(n, unit);
  }

  lemma {:induction false} WholeLotsMonotone(x: real, y: real, unit: real)
    requires 0.0 <= x <= y && unit > 0.0
    ensures WholeLots(x, unit) <= WholeLots(y, unit)
  {
    var m, n := Lots(x, unit), Lots(y, unit);
    WholeLotsBounds(x, unit);
    WholeLotsBounds(y, unit);
    if n < m {
      LotsApart(n as real, m as real, unit, WholeLots(y, unit), WholeLots(x, unit));
      assert false;
    } else {
      PartMonotone(m as real, n as real, unit);
    }
  }

  lemma {:induction false} LotsApart(n: real, m: real, unit: real, fewer: real, more: real)
    requires unit > 0.0 && n + 1.0 <= m && fewer == Part(n, unit) && more == Part(m, unit)
    ensures fewer + unit <= more
  {
    OneMoreLot(n, unit);
    PartMonotone(n + 1.0, m, unit);
  }

  // Rounding keeps a whole number of lots as it is, and nothing else.
  lemma {:induction false} WholeLotsExact(n: int, scaled: real, unit: real)
    requires scaled >= 0.0 && unit > 0.0 && scaled == OfLots(n, unit)
    ensures WholeLots(scaled, unit) == scaled
  {
    WholeLotsBounds(scaled, unit);
    var m := Lots(scaled, unit);
    if m < n {
      LotsApart(m as real, n as real, unit, WholeLots(scaled, unit), scaled);
      assert false;
    } else if n < m {
      LotsApart(n as real, m as real, unit, scaled, WholeLots(scaled, unit));
      assert false;
    }
  }

  // Each leg gets whole lots, at most what was asked and what is there, and less than a lot short of its share.
  lemma {:induction false} ApprovedBounds(z: Sizing, i: nat)
    requires z.Valid() && i < |z.legs|
    ensures var leg, q := z.legs[i], Approved(z)[i];
            && 0.0 <= q <= Part(Scale(z), leg.requested) < q + leg.unit
            && Part(Scale(z), leg.requested) <= leg.requested
            && q <= leg.available
            && q == Part(Lots(Part(Scale(z), leg.requested), leg.unit) as real, leg.unit)
  {
    var leg := z.legs[i];
    var scale := Scale(z);
    ScaleIsLargest(z, 0.0);
    ScaleIsLargest(z, scale);
    PartMonotone(0.0, scale, leg.requested);
    PartMonotone(scale, 1.0, leg.requested);
    assert Part(0.0, leg.requested) == 0.0 && Part(1.0, leg.requested) == leg.requested;
    WholeLotsBounds(Part(scale, leg.requested), leg.unit);
  }

  lemma {:induction false} SumMonotone(xs: seq<real>, ys: seq<real>)
    requires |xs| == |ys| && forall i :: 0 <= i < |xs| ==> xs[i] <= ys[i]
    ensures Total(xs) <= Total(ys)
    ensures Total(xs) == Total(ys) ==> xs == ys
  {
    if xs != [] {
      var n := |xs| - 1;
      SumMonotone(xs[..n], ys[..n]);
      if Total(xs) == Total(ys) {
        assert xs == xs[..n] + [xs[n]] && ys == ys[..n] + [ys[n]];
      }
    }
  }

  lemma {:induction false} SumScaled(s: real, xs: seq<real>, ys: seq<real>)
    requires |xs| == |ys| && forall i :: 0 <= i < |xs| ==> xs[i] <= Part(s, ys[i])
    ensures Total(xs) <= Part(s, Total(ys))
  {
    if xs != [] {
      var n := |xs| - 1;
      SumScaled(s, xs[..n], ys[..n]);
      PartAdds(s, Total(ys[..n]), ys[n]);
    }
  }

  lemma {:induction false} PartAdds(s: real, x: real, y: real)
    ensures Part(s, x + y) == Part(s, x) + Part(s, y)
  {
  }

  lemma {:induction false} RiskOfPart(s: real, q: real, requested: real, stop: real)
    requires stop >= 0.0 && q <= Part(s, requested)
    ensures Risk(q, stop) <= Part(s, Risk(requested, stop))
  {
    assert q * stop <= (s * requested) * stop;
    assert (s * requested) * stop == s * (requested * stop);
  }

  // The approved legs together risk no more than the order's budget and the per-trade cap.
  lemma {:induction false} ApprovedRiskWithinCaps(z: Sizing)
    requires z.Valid()
    ensures Total(StopRisk(z.legs, Approved(z))) <= Min(z.budget, z.maxTradeRisk)
  {
    var qs, rs := StopRisk(z.legs, Approved(z)), StopRisk(z.legs, Requested(z.legs));
    var scale := Scale(z);
    ScaleIsLargest(z, 0.0);
    ScaleIsLargest(z, scale);
    forall i | 0 <= i < |qs|
      ensures qs[i] <= Part(scale, rs[i])
    {
      ApprovedBounds(z, i);
      RiskOfPart(scale, Approved(z)[i], z.legs[i].requested, z.legs[i].stop);
    }
    SumScaled(scale, qs, rs);
  }

  lemma {:induction false} ApprovedAtMostRequested(z: Sizing)
    requires z.Valid()
    ensures Total(Approved(z)) <= Total(Requested(z.legs))
    ensures Total(Approved(z)) == Total(Requested(z.legs)) ==> Approved(z) == Requested(z.legs)
  {
    forall i | 0 <= i < |z.legs|
      ensures Approved(z)[i] <= Requested(z.legs)[i]
    {
      ApprovedBounds(z, i);
    }
    SumMonotone(Approved(z), Requested(z.legs));
  }

  // A leg gets something exactly when its share is at least one lot.
  lemma {:induction false} PositiveIffALot(scaled: real, unit: real)
    requires scaled >= 0.0 && unit > 0.0
    ensures WholeLots(scaled, unit) > 0.0 <==> scaled >= unit
  {
    WholeLotsBounds(scaled, unit);
    var n := Lots(scaled, unit);
    if n >= 1 {
      PartMonotone(1.0, n as real, unit);
      assert Part(1.0, unit) == unit;
    }
  }

  // Every leg that was asked for has a share of at least one lot.
  predicate EachHasALot(z: Sizing) {
    forall i :: 0 <= i < |z.legs| && z.legs[i].requested > 0.0 ==> Part(Scale(z), z.legs[i].requested) >= z.legs[i].unit
  }

  // The order goes through, whole or reduced, exactly when something is asked for, there is a budget, and no leg's
  // share falls below a lot; then every leg asked for gets a positive quantity, and no other leg gets anything.
  lemma {:induction false} NothingDropped(z: Sizing)
    requires z.Valid()
    ensures !Verdict(z).Block? <==> Total(Requested(z.legs)) > 0.0 && z.budget > 0.0 && EachHasALot(z)
    ensures !Verdict(z).Block? ==> forall i :: 0 <= i < |z.legs| ==>
        (Approved(z)[i] > 0.0 <==> z.legs[i].requested > 0.0)
  {
    forall i | 0 <= i < |z.legs|
      ensures 0.0 <= Approved(z)[i] <= z.legs[i].requested
      ensures Approved(z)[i] > 0.0 <==> Part(Scale(z), z.legs[i].requested) >= z.legs[i].unit
    {
      ApprovedBounds(z, i);
      PositiveIffALot(Part(Scale(z), z.legs[i].requested), z.legs[i].unit);
    }
    if Total(Requested(z.legs)) > 0.0 && EachHasALot(z) {
      var k := PositiveTerm(Requested(z.legs));
      SumNonNegative(Approved(z));
      TermBelowTotal(Approved(z), k);
    }
  }

  lemma {:induction false} TermBelowTotal(xs: seq<real>, k: nat)
    requires k < |xs| && forall i :: 0 <= i < |xs| ==> xs[i] >= 0.0
    ensures xs[k] <= Total(xs)
  {
    var n := |xs| - 1;
    SumNonNegative(xs[..n]);
    if k < n {
      TermBelowTotal(xs[..n], k);
    }
  }

  ghost predicate InLots(leg: SizedLeg) {
    exists n: nat :: leg.requested == OfLots(n, leg.unit)
  }

  ghost predicate Untouched(z: Sizing) {
    && Total(Requested(z.legs)) > 0.0 && z.budget > 0.0
    && TotalRisk(z.legs) <= z.maxTradeRisk && TotalRisk(z.legs) <= z.budget
    && forall i :: 0 <= i < |z.legs| ==> z.legs[i].requested <= z.legs[i].available && InLots(z.legs[i])
  }

  lemma {:induction false} FitsWhole(z: Sizing)
    requires z.Valid()
    ensures Scale(z) == 1.0 <==>
              && TotalRisk(z.legs) <= z.maxTradeRisk && TotalRisk(z.legs) <= z.budget
              && forall i :: 0 <= i < |z.legs| ==> z.legs[i].requested <= z.legs[i].available
  {
    ScaleIsLargest(z, 1.0);
    assert forall x :: Part(1.0, x) == x;
  }

  lemma {:induction false} PositiveTerm(xs: seq<real>) returns (k: nat)
    requires Total(xs) > 0.0
    ensures k < |xs| && xs[k] > 0.0
  {
    if xs[|xs| - 1] > 0.0 {
      k := |xs| - 1;
    } else {
      k := PositiveTerm(xs[..|xs| - 1]);
    }
  }

  // If every leg is approved as asked, no cap bit: some positive leg would have shrunk with the scale.
  lemma {:induction false} WholeMeansUntouched(z: Sizing)
    requires z.Valid() && Total(Requested(z.legs)) > 0.0 && z.budget > 0.0 && Approved(z) == Requested(z.legs)
    ensures Untouched(z)
  {
    var k := PositiveTerm(Requested(z.legs));
    ScaleIsLargest(z, 0.0);
    ApprovedBounds(z, k);
    assert z.legs[k].requested <= Part(Scale(z), z.legs[k].requested);
    ScaleIsOne(Scale(z), z.legs[k].requested);
    FitsWhole(z);
    forall i | 0 <= i < |z.legs|
      ensures InLots(z.legs[i])
    {
      assert Part(1.0, z.legs[i].requested) == z.legs[i].requested;
      assert Approved(z)[i] == Requested(z.legs)[i];
      WholeLotsBounds(z.legs[i].requested, z.legs[i].unit);
      var n: nat := Lots(z.legs[i].requested, z.legs[i].unit);
      assert z.legs[i].requested == OfLots(n, z.legs[i].unit);
    }
  }

  lemma {:induction false} ScaleIsOne(scale: real, amount: real)
    requires 0.0 <= scale <= 1.0 && amount > 0.0 && amount <= Part(scale, amount)
    ensures scale == 1.0
  {
    assert Part(scale, amount) == scale * amount;
    assert (1.0 - scale) * amount <= 0.0;
  }

  lemma {:induction false} UntouchedMeansWhole(z: Sizing)
    requires z.Valid() && Untouched(z)
    ensures Scale(z) == 1.0 && Approved(z) == Requested(z.legs) && Verdict(z) == Allow
  {
    FitsWhole(z);
    forall i | 0 <= i < |z.legs|
      ensures Approved(z)[i] == z.legs[i].requested
    {
      assert Part(1.0, z.legs[i].requested) == z.legs[i].requested;
      var n: nat :| z.legs[i].requested == OfLots(n, z.legs[i].unit);
      WholeLotsExact(n, z.legs[i].requested, z.legs[i].unit);
    }
    assert Approved(z) == Requested(z.legs);
  }

  // ALLOW exactly when no cap and no rounding bites.
  lemma {:induction false} AllowIffUntouched(z: Sizing)
    requires z.Valid()
    ensures Verdict(z).Allow? <==> Untouched(z)
  {
    if Untouched(z) {
      UntouchedMeansWhole(z);
    } else if Verdict(z).Allow? {
      ApprovedAtMostRequested(z);
      WholeMeansUntouched(z);
    }
  }

  // ---------- more room never takes anything away ----------

  predicate Roomier(z: Sizing, w: Sizing) {
    && |w.legs| == |z.legs| && z.maxTradeRisk <= w.maxTradeRisk && z.budget <= w.budget
    && forall i :: 0 <= i < |z.legs| ==>
         && w.legs[i].requested == z.legs[i].requested && w.legs[i].stop == z.legs[i].stop
         && w.legs[i].unit == z.legs[i].unit && z.legs[i].available <= w.legs[i].available
  }

  function Rank(k: Kind): nat {
    match k case Block => 0 case Reduce => 1 case Allow => 2
  }

  lemma {:induction false} RoomierScale(z: Sizing, w: Sizing)
    requires z.Valid() && w.Valid() && Roomier(z, w)
    ensures Scale(z) <= Scale(w)
  {
    assert Requested(z.legs) == Requested(w.legs);
    assert StopRisk(z.legs, Requested(z.legs)) == StopRisk(w.legs, Requested(w.legs));
    ScaleIsLargest(z, 0.0);
    ScaleIsLargest(z, Scale(z));
    ScaleIsLargest(w, Scale(z));
  }

  lemma {:induction false} RoomierLeg(z: Sizing, w: Sizing, i: nat)
    requires z.Valid() && w.Valid() && Roomier(z, w) && i < |z.legs|
    ensures Approved(z)[i] <= Approved(w)[i]
  {
    RoomierScale(z, w);
    ScaleIsLargest(z, 0.0);
    var requested := z.legs[i].requested;
    PartMonotone(0.0, Scale(z), requested);
    PartMonotone(Scale(z), Scale(w), requested);
    assert Part(0.0, requested) == 0.0;
    WholeLotsMonotone(Part(Scale(z), requested), Part(Scale(w), requested), z.legs[i].unit);
  }

  // A larger budget, a larger cap or more liquidity never shrinks a leg and never worsens the verdict.
  lemma {:induction false} RoomierNeverTightens(z: Sizing, w: Sizing)
    requires z.Valid() && w.Valid() && Roomier(z, w)
    ensures forall i :: 0 <= i < |z.legs| ==> Approved(z)[i] <= Approved(w)[i]
    ensures Rank(Verdict(z)) <= Rank(Verdict(w))
  {
    forall i | 0 <= i < |z.legs|
      ensures Approved(z)[i] <= Approved(w)[i]
    {
      RoomierLeg(z, w, i);
    }
    assert Requested(z.legs) == Requested(w.legs);
    SumMonotone(Approved(z), Approved(w));
    ApprovedAtMostRequested(w);
  }

  // ---------- from an order to its sizing ----------

  // What a clear order brings along: distinct ids, and for every leg a state that can be sized.
  ghost predicate Sizable(o: Order, c: Context) {
    && !DuplicateIds(o.legs)
    && forall i :: 0 <= i < |o.legs| ==> SizableLeg(o.legs[i], c)
  }

  predicate SizableLeg(leg: Leg, c: Context) {
    leg.id in c.legStates &&
    var s := c.legStates[leg.id];
    s.stopDistance.Some? && s.stopDistance.value > 0.0 && s.available.Some?
  }

  lemma {:induction false} ClearIsSizable(p: RiskPolicy, o: Order, c: Context)
    requires Clear(p, o, c)
    ensures Sizable(o, c) && c.equity > 0.0
  {
    assert !Cause(DuplicateLegId, p, o, c);
    assert !Cause(InvalidAccountEquity, p, o, c);
    forall i | 0 <= i < |o.legs|
      ensures SizableLeg(o.legs[i], c)
    {
      assert !Cause(LegStateMissing, p, o, c) && !LegCause(LegStateMissing, p, c, o.legs[i]);
      assert !Cause(StopDistanceMissing, p, o, c) && !LegCause(StopDistanceMissing, p, c, o.legs[i]);
      assert !Cause(LiquidityMissing, p, o, c) && !LegCause(LiquidityMissing, p, c, o.legs[i]);
    }
  }

  function SizedLegOf(leg: Leg, c: Context): SizedLeg
    requires SizableLeg(leg, c)
  {
    var s := c.legStates[leg.id];
    SizedLeg(leg.quantity, s.stopDistance.value, s.available.value, s.unit)
  }

  ghost function SizingOf(p: RiskPolicy, o: Order, c: Context): (z: Sizing)
    requires p.Valid() && o.Valid() && c.Valid() && c.equity > 0.0 && Sizable(o, c)
    ensures z.Valid() && |z.legs| == |o.legs|
    ensures forall i :: 0 <= i < |o.legs| ==> z.legs[i] == SizedLegOf(o.legs[i], c)
    ensures z.maxTradeRisk == Part(c.equity, p.tradeFraction) && z.budget == o.riskBudget
  {
    Sizing(seq(|o.legs|, i requires 0 <= i < |o.legs| => SizedLegOf(o.legs[i], c)),
           Part(c.equity, p.tradeFraction), o.riskBudget)
  }

  ghost function Decide(p: RiskPolicy, o: Order, c: Context): Kind
    requires p.Valid() && o.Valid() && c.Valid()
  {
    if Clear(p, o, c) then (ClearIsSizable(p, o, c); Verdict(SizingOf(p, o, c))) else Block
  }

  // ---------- the reasons sizing gives ----------

  predicate Short(leg: SizedLeg) {
    leg.requested > 0.0 && leg.available < leg.requested
  }

  predicate SomeShort(legs: seq<SizedLeg>) {
    exists leg :: leg in legs && Short(leg)
  }

  predicate Rounded(leg: SizedLeg, scale: real) {
    leg.unit > 0.0 && WholeLots(Part(scale, leg.requested), leg.unit) != Part(scale, leg.requested)
  }

  predicate SomeRounded(legs: seq<SizedLeg>, scale: real) {
    exists leg :: leg in legs && Rounded(leg, scale)
  }

  predicate SizingCause(r: Reason, z: Sizing)
    requires z.Valid()
  {
    || (r == MaxRiskPerTrade && TotalRisk(z.legs) > z.maxTradeRisk)
    || (r == OrderRiskBudget && TotalRisk(z.legs) > z.budget)
    || (r == LiquidityLimit && SomeShort(z.legs))
    || (r == MinimumLotRounding && SomeRounded(z.legs, Scale(z)))
    || (r == NoExecutableQuantity && (Total(Approved(z)) <= 0.0 || SomeLegLost(z)))
  }

  // An order that is not allowed whole has a reason.
  lemma {:induction false} UnallowedHasCause(z: Sizing)
    requires z.Valid() && Total(Requested(z.legs)) > 0.0 && z.budget > 0.0 && !Verdict(z).Allow?
    ensures exists r :: SizingCause(r, z)
  {
    hide Scale, Verdict, TotalRisk, Total;
    if forall r :: !SizingCause(r, z) {
      assert !SizingCause(MaxRiskPerTrade, z) && !SizingCause(OrderRiskBudget, z);
      assert !SizingCause(LiquidityLimit, z) && !SizingCause(MinimumLotRounding, z);
      forall i | 0 <= i < |z.legs|
        ensures z.legs[i].requested <= z.legs[i].available
      {
        assert !Short(z.legs[i]);
      }
      FitsWhole(z);
      forall i | 0 <= i < |z.legs|
        ensures InLots(z.legs[i])
      {
        assert !Rounded(z.legs[i], 1.0);
        assert Part(1.0, z.legs[i].requested) == z.legs[i].requested;
        WholeLotsBounds(z.legs[i].requested, z.legs[i].unit);
        var n: nat := Lots(z.legs[i].requested, z.legs[i].unit);
        assert z.legs[i].requested == OfLots(n, z.legs[i].unit);
      }
      AllowIffUntouched(z);
      assert false;
    }
  }

  // ---------- sizing an order ----------

  function Quantities(o: Order): (qs: seq<real>)
    ensures |qs| == |o.legs| && forall i :: 0 <= i < |qs| ==> qs[i] == o.legs[i].quantity
  {
    seq(|o.legs|, i requires 0 <= i < |o.legs| => o.legs[i].quantity)
  }

  method RiskOf(o: Order, c: Context, quantities: seq<real>, ghost z: Sizing) returns (total: real)
    requires Sizable(o, c) && |z.legs| == |o.legs| == |quantities|
    requires forall i :: 0 <= i < |o.legs| ==> z.legs[i] == SizedLegOf(o.legs[i], c)
    ensures total == Total(StopRisk(z.legs, quantities))
  {
    total := 0.0;
    ghost var rs := StopRisk(z.legs, quantities);
    for k := 0 to |o.legs|
      invariant total == Total(rs[..k])
    {
      assert SizableLeg(o.legs[k], c) && z.legs[k] == SizedLegOf(o.legs[k], c);
      assert rs[..k + 1][..k] == rs[..k];
      total := total + Risk(quantities[k], c.legStates[o.legs[k].id].stopDistance.value);
    }
    assert rs[..|o.legs|] == rs;
  }

  method TotalOf(xs: seq<real>) returns (total: real)
    ensures total == Total(xs)
  {
    total := 0.0;
    for k := 0 to |xs|
      invariant total == Total(xs[..k])
    {
      assert xs[..k + 1][..k] == xs[..k];
      total := total + xs[k];
    }
    assert xs[..|xs|] == xs;
  }

  lemma {:induction false} OneMoreShort(legs: seq<SizedLeg>, k: nat)
    requires k < |legs|
    ensures SomeShort(legs[..k + 1]) <==> SomeShort(legs[..k]) || Short(legs[k])
  {
    assert legs[..k + 1] == legs[..k] + [legs[k]];
    assert legs[k] in legs[..k + 1];
  }

  lemma {:induction false} OneMoreRounded(legs: seq<SizedLeg>, k: nat, scale: real)
    requires k < |legs|
    ensures SomeRounded(legs[..k + 1], scale) <==> SomeRounded(legs[..k], scale) || Rounded(legs[k], scale)
  {
    assert legs[..k + 1] == legs[..k] + [legs[k]];
    assert legs[k] in legs[..k + 1];
  }

  predicate Entry(limits: map<Limit, real>, key: Limit, value: real) {
    key in limits && limits[key] == value
  }

  function Availables(legs: seq<SizedLeg>): (qs: seq<real>)
    ensures |qs| == |legs| && forall i :: 0 <= i < |legs| ==> qs[i] == legs[i].available
  {
    seq(|legs|, i requires 0 <= i < |legs| => legs[i].available)
  }

  function QuantityOf(approved: bool, id: string): Limit {
    if approved then ApprovedQuantity(id) else AvailableQuantity(id)
  }

  // The snapshot with one more entry per leg, in the order of the legs.
  function Noted(approved: bool, legs: seq<Leg>, values: seq<real>, base: map<Limit, real>): map<Limit, real>
    requires |legs| <= |values|
  {
    if legs == [] then base
    else
      var n := |legs| - 1;
      Noted(approved, legs[..n], values, base)[QuantityOf(approved, legs[n].id) := values[n]]
  }

  lemma {:induction false} NotedKeeps(approved: bool, legs: seq<Leg>, values: seq<real>, base: map<Limit, real>,
      key: Limit, value: real)
    requires |legs| <= |values| && Entry(base, key, value)
        && forall i :: 0 <= i < |legs| ==> key != QuantityOf(approved, legs[i].id)
    ensures Entry(Noted(approved, legs, values, base), key, value)
  {
    if legs != [] {
      NotedKeeps(approved, legs[..|legs| - 1], values, base, key, value);
    }
  }

  lemma {:induction false} NotedHolds(approved: bool, legs: seq<Leg>, values: seq<real>, base: map<Limit, real>, i: nat)
    requires i < |legs| <= |values| && !DuplicateIds(legs)
    ensures Entry(Noted(approved, legs, values, base), QuantityOf(approved, legs[i].id), values[i])
  {
    var n := |legs| - 1;
    if i < n {
      assert legs[i].id != legs[n].id;
      NotedHolds(approved, legs[..n], values, base, i);
    }
  }

  lemma {:induction false} OneMoreCap(legs: seq<SizedLeg>, k: nat, start: real)
    requires k < |legs|
    ensures LiquidityScale(legs[..k + 1], start)
        == Capped(LiquidityScale(legs[..k], start), legs[k].requested, legs[k].available)
  {
    assert legs[..k + 1][..k] == legs[..k];
  }

  lemma {:induction false} OneMoreEntry(approved: bool, legs: seq<Leg>, values: seq<real>, base: map<Limit, real>,
      k: nat)
    requires k < |legs| <= |values|
    ensures Noted(approved, legs[..k + 1], values, base)
            == Noted(approved, legs[..k], values, base)[QuantityOf(approved, legs[k].id) := values[k]]
  {
    assert legs[..k + 1][..k] == legs[..k];
  }

  lemma {:induction false} NoLegYet(legs: seq<SizedLeg>, start: real, scale: real)
    ensures LiquidityScale(legs[..0], start) == start && !SomeShort(legs[..0]) && !SomeRounded(legs[..0], scale)
  {
  }

  lemma {:induction false} NoEntryYet(approved: bool, legs: seq<Leg>, values: seq<real>, base: map<Limit, real>)
    ensures Noted(approved, legs[..0], values, base) == base
  {
  }

  method ApplyLiquidity(o: Order, c: Context, start: real, noted: seq<Reason>, base: map<Limit, real>, ghost z: Sizing)
    returns (scale: real, reasons: seq<Reason>, limits: map<Limit, real>)
    requires Sizable(o, c) && |z.legs| == |o.legs|
    requires forall i :: 0 <= i < |o.legs| ==> z.legs[i] == SizedLegOf(o.legs[i], c)
    ensures scale == LiquidityScale(z.legs, start)
    ensures reasons == if SomeShort(z.legs) then AppendUnique(noted, LiquidityLimit) else noted
    ensures limits == Noted(false, o.legs, Availables(z.legs), base)
  {
    hide LiquidityScale, SomeShort, Noted;
    scale, reasons, limits := start, noted, base;
    NoLegYet(z.legs, start, start);
    NoEntryYet(false, o.legs, Availables(z.legs), base);
    for k := 0 to |o.legs|
      invariant limits == Noted(false, o.legs[..k], Availables(z.legs), base)
      invariant scale == LiquidityScale(z.legs[..k], start)
      invariant reasons == if SomeShort(z.legs[..k]) then AppendUnique(noted, LiquidityLimit) else noted
    {
      assert SizableLeg(o.legs[k], c) && z.legs[k] == SizedLegOf(o.legs[k], c);
      OneMoreEntry(false, o.legs, Availables(z.legs), base, k);
      OneMoreCap(z.legs, k, start);
      OneMoreShort(z.legs, k);
      var id, requested := o.legs[k].id, o.legs[k].quantity;
      var available := c.legStates[id].available.value;
      limits := limits[AvailableQuantity(id) := available];
      if requested > 0.0 && available < requested {
        scale := Min(scale, available / requested);
        reasons := AppendUnique(reasons, LiquidityLimit);
      }
    }
    assert z.legs[..|o.legs|] == z.legs && o.legs[..|o.legs|] == o.legs;
  }

  method RoundToLots(o: Order, c: Context, scale: real, noted: seq<Reason>, base: map<Limit, real>, ghost z: Sizing)
    returns (approved: seq<real>, reasons: seq<Reason>, limits: map<Limit, real>)
    requires Sizable(o, c) && |z.legs| == |o.legs| && z.Valid() && scale == Scale(z)
    requires forall i :: 0 <= i < |o.legs| ==> z.legs[i] == SizedLegOf(o.legs[i], c)
    ensures approved == Approved(z)
    ensures reasons == if SomeRounded(z.legs, scale) then AppendUnique(noted, MinimumLotRounding) else noted
    ensures limits == Noted(true, o.legs, approved, base)
  {
    hide SomeRounded, Noted, Scale;
    approved, reasons, limits := [], noted, base;
    ghost var target := Approved(z);
    NoLegYet(z.legs, scale, scale);
    NoEntryYet(true, o.legs, target, base);
    for k := 0 to |o.legs|
      invariant approved == target[..k]
      invariant limits == Noted(true, o.legs[..k], target, base)
      invariant reasons == if SomeRounded(z.legs[..k], scale) then AppendUnique(noted, MinimumLotRounding) else noted
    {
      assert SizableLeg(o.legs[k], c) && z.legs[k] == SizedLegOf(o.legs[k], c) && z.legs[k].Valid();
      OneMoreEntry(true, o.legs, target, base, k);
      OneMoreRounded(z.legs, k, scale);
      var id := o.legs[k].id;
      var scaled := Part(scale, o.legs[k].quantity);
      var quantity := WholeLots(scaled, c.legStates[id].unit);
      assert target[k] == quantity;
      approved := approved + [quantity];
      limits := limits[ApprovedQuantity(id) := quantity];
      if quantity != scaled {
        reasons := AppendUnique(reasons, MinimumLotRounding);
      }
    }
    assert z.legs[..|o.legs|] == z.legs && o.legs[..|o.legs|] == o.legs;
    assert target[..|o.legs|] == target;
  }

  // What the snapshot of a sized order holds: per leg what was asked, what is there and what is approved; and the caps
  // with the stop risks before and after.
  ghost predicate Snapshot(o: Order, z: Sizing, limits: map<Limit, real>)
    requires z.Valid() && |z.legs| == |o.legs|
  {
    && (forall i :: 0 <= i < |o.legs| ==>
          && Entry(limits, RequestedQuantity(o.legs[i].id), z.legs[i].requested)
          && Entry(limits, AvailableQuantity(o.legs[i].id), z.legs[i].available)
          && Entry(limits, ApprovedQuantity(o.legs[i].id), Approved(z)[i]))
    && Entry(limits, MaxTradeRisk, z.maxTradeRisk) && Entry(limits, OrderBudget, z.budget)
    && Entry(limits, EffectiveBudget, Min(z.budget, z.maxTradeRisk))
    && Entry(limits, RequestedStopRisk, TotalRisk(z.legs))
    && Entry(limits, ApprovedStopRisk, Total(StopRisk(z.legs, Approved(z))))
  }

  ghost predicate RequestsNoted(o: Order, limits: map<Limit, real>) {
    forall i :: 0 <= i < |o.legs| ==> Entry(limits, RequestedQuantity(o.legs[i].id), o.legs[i].quantity)
  }

  function NotedIf(reasons: seq<Reason>, r: Reason, holds: bool): seq<Reason> {
    if holds then AppendUnique(reasons, r) else reasons
  }

  lemma {:induction false} NotedIfMembers(reasons: seq<Reason>, r: Reason, holds: bool)
    requires Distinct(reasons)
    ensures Distinct(NotedIf(reasons, r, holds))
    ensures forall x :: x in NotedIf(reasons, r, holds) <==> x in reasons || (holds && x == r)
  {
  }

  predicate Unexecutable(z: Sizing)
    requires z.Valid()
  {
    Total(Approved(z)) <= 0.0 || SomeLegLost(z)
  }

  function SizingReasons(z: Sizing): seq<Reason>
    requires z.Valid()
  {
    var capped := NotedIf(NotedIf([], MaxRiskPerTrade, TotalRisk(z.legs) > z.maxTradeRisk),
                          OrderRiskBudget, TotalRisk(z.legs) > z.budget);
    var rounded := NotedIf(NotedIf(capped, LiquidityLimit, SomeShort(z.legs)),
                           MinimumLotRounding, SomeRounded(z.legs, Scale(z)));
    NotedIf(rounded, NoExecutableQuantity, Unexecutable(z))
  }

  lemma {:induction false} SizingReasonsAreCauses(z: Sizing)
    requires z.Valid()
    ensures Distinct(SizingReasons(z))
    ensures forall r :: r in SizingReasons(z) <==> SizingCause(r, z)
  {
    var total := TotalRisk(z.legs);
    var r1 := NotedIf([], MaxRiskPerTrade, total > z.maxTradeRisk);
    var r2 := NotedIf(r1, OrderRiskBudget, total > z.budget);
    var r3 := NotedIf(r2, LiquidityLimit, SomeShort(z.legs));
    var r4 := NotedIf(r3, MinimumLotRounding, SomeRounded(z.legs, Scale(z)));
    NotedIfMembers([], MaxRiskPerTrade, total > z.maxTradeRisk);
    NotedIfMembers(r1, OrderRiskBudget, total > z.budget);
    NotedIfMembers(r2, LiquidityLimit, SomeShort(z.legs));
    NotedIfMembers(r3, MinimumLotRounding, SomeRounded(z.legs, Scale(z)));
    NotedIfMembers(r4, NoExecutableQuantity, Unexecutable(z));
  }

  // The reasons a decision gives: one of the two early blocks, WITHIN_LIMITS alone, or exactly the causes that bit.
  ghost predicate ReasonsFit(z: Sizing, reasons: seq<Reason>)
    requires z.Valid()
  {
    if Total(Requested(z.legs)) <= 0.0 then reasons == [NoExecutableQuantity]
    else if z.budget <= 0.0 then reasons == [RiskBudgetExhausted]
    else if Verdict(z).Allow? then reasons == [WithinLimits]
    else
      && reasons != [] && reasons == SizingReasons(z) && Distinct(reasons)
      && forall r :: r in reasons <==> SizingCause(r, z)
  }

  // The entries and the reasons of the two risk caps, and the scale they leave.
  ghost predicate CapsNoted(z: Sizing, limits: map<Limit, real>) {
    && Entry(limits, MaxTradeRisk, z.maxTradeRisk) && Entry(limits, OrderBudget, z.budget)
    && Entry(limits, EffectiveBudget, Min(z.budget, z.maxTradeRisk))
    && Entry(limits, RequestedStopRisk, TotalRisk(z.legs))
  }

  method CapByRisk(p: RiskPolicy, o: Order, c: Context, base: map<Limit, real>, ghost z: Sizing)
    returns (scale: real, reasons: seq<Reason>, limits: map<Limit, real>)
    requires p.Valid() && o.Valid() && c.Valid() && c.equity > 0.0 && Sizable(o, c) && z == SizingOf(p, o, c)
    requires RequestsNoted(o, base)
    ensures scale == Capped(Capped(1.0, TotalRisk(z.legs), z.maxTradeRisk), TotalRisk(z.legs), z.budget)
    ensures reasons == NotedIf(NotedIf([], MaxRiskPerTrade, TotalRisk(z.legs) > z.maxTradeRisk),
                               OrderRiskBudget, TotalRisk(z.legs) > z.budget)
    ensures CapsNoted(z, limits) && RequestsNoted(o, limits)
  {
    assert Quantities(o) == Requested(z.legs);
    var total := RiskOf(o, c, Quantities(o), z);
    TotalRiskNonNegative(z.legs);
    var maxTradeRisk := Part(c.equity, p.tradeFraction);
    limits := base[MaxTradeRisk := maxTradeRisk][OrderBudget := o.riskBudget];
    limits := limits[EffectiveBudget := Min(o.riskBudget, maxTradeRisk)][RequestedStopRisk := total];
    scale := 1.0;
    reasons := [];
    if total > maxTradeRisk {
      scale := Min(scale, maxTradeRisk / total);
      reasons := AppendUnique(reasons, MaxRiskPerTrade);
    }
    if total > o.riskBudget {
      scale := Min(scale, o.riskBudget / total);
      reasons := AppendUnique(reasons, OrderRiskBudget);
    }
  }

  // The snapshot, put together entry by entry.
  lemma {:induction false} SnapshotMade(o: Order, z: Sizing, base: map<Limit, real>, limits: map<Limit, real>)
    requires z.Valid() && |z.legs| == |o.legs| && !DuplicateIds(o.legs) && CapsNoted(z, base) && RequestsNoted(o, base)
    requires forall i :: 0 <= i < |o.legs| ==> z.legs[i].requested == o.legs[i].quantity
    requires limits == Noted(true, o.legs, Approved(z), Noted(false, o.legs, Availables(z.legs), base))
    ensures Snapshot(o, z, limits[ApprovedStopRisk := Total(StopRisk(z.legs, Approved(z)))])
  {
    var available := Noted(false, o.legs, Availables(z.legs), base);
    forall key | key in base && !key.AvailableQuantity? && !key.ApprovedQuantity?
      ensures Entry(limits, key, base[key])
    {
      NotedKeeps(false, o.legs, Availables(z.legs), base, key, base[key]);
      NotedKeeps(true, o.legs, Approved(z), available, key, base[key]);
    }
    forall i | 0 <= i < |o.legs|
      ensures Entry(limits, ApprovedQuantity(o.legs[i].id), Approved(z)[i])
      ensures Entry(limits, AvailableQuantity(o.legs[i].id), z.legs[i].available)
    {
      NotedHolds(true, o.legs, Approved(z), available, i);
      NotedHolds(false, o.legs, Availables(z.legs), base, i);
      NotedKeeps(true, o.legs, Approved(z), available, AvailableQuantity(o.legs[i].id), z.legs[i].available);
    }
  }

  // The scale and the approved legs as the engine computes them, cap by cap.
  method ScaleAndRound(p: RiskPolicy, o: Order, c: Context, base: map<Limit, real>, ghost z: Sizing)
    returns (approved: seq<real>, reasons: seq<Reason>, limits: map<Limit, real>)
    requires p.Valid() && o.Valid() && c.Valid() && c.equity > 0.0 && Sizable(o, c) && z == SizingOf(p, o, c)
    requires RequestsNoted(o, base)
    ensures approved == Approved(z)
    ensures NotedIf(reasons, NoExecutableQuantity, Unexecutable(z)) == SizingReasons(z)
    ensures Snapshot(o, z, limits)
  {
    var scale;
    scale, reasons, limits := CapByRisk(p, o, c, base, z);
    ghost var capped := limits;
    scale, reasons, limits := ApplyLiquidity(o, c, scale, reasons, limits, z);
    approved, reasons, limits := RoundToLots(o, c, scale, reasons, limits, z);
    SnapshotMade(o, z, capped, limits);
    var approvedRisk := RiskOf(o, c, approved, z);
    limits := limits[ApprovedStopRisk := approvedRisk];
  }

  method AnyLegLost(o: Order, approved: seq<real>) returns (lost: bool)
    requires |approved| == |o.legs|
    ensures lost <==> exists i :: 0 <= i < |o.legs| && o.legs[i].quantity > 0.0 && approved[i] <= 0.0
  {
    lost := false;
    for k := 0 to |o.legs|
      invariant lost <==> exists i :: 0 <= i < k && o.legs[i].quantity > 0.0 && approved[i] <= 0.0
    {
      if o.legs[k].quantity > 0.0 && approved[k] <= 0.0 {
        lost := true;
      }
    }
  }

  method SizeOrder(p: RiskPolicy, o: Order, c: Context, requested: real, base: map<Limit, real>, ghost z: Sizing)
    returns (d: Decision)
    requires p.Valid() && o.Valid() && c.Valid() && c.equity > 0.0 && Sizable(o, c) && z == SizingOf(p, o, c)
    requires requested == Total(Requested(z.legs)) && requested >= 0.0 && RequestsNoted(o, base)
    ensures d.Valid() && d.kind == Verdict(z) && ReasonsFit(z, d.reasons)
    ensures d.requested == requested && d.approved == if d.kind.Block? then 0.0 else Total(Approved(z))
    ensures d.orderId == o.id && d.decidedAt == c.now
    ensures RequestsNoted(o, d.limits) && (requested > 0.0 && o.riskBudget > 0.0 ==> Snapshot(o, z, d.limits))
  {
    if requested <= 0.0 || o.riskBudget <= 0.0 {
      var reason := if requested <= 0.0 then NoExecutableQuantity else RiskBudgetExhausted;
      return Decision(o.id, Block, [reason], requested, 0.0, base, c.now);
    }
    var approved, reasons, limits := ScaleAndRound(p, o, c, base, z);
    var total := TotalOf(approved);
    var lost := AnyLegLost(o, approved);
    ApprovedAtMostRequested(z);
    SizingReasonsAreCauses(z);
    assert lost <==> SomeLegLost(z);
    if total <= 0.0 || lost {
      reasons := AppendUnique(reasons, NoExecutableQuantity);
      d := Decision(o.id, Block, reasons, requested, 0.0, limits, c.now);
    } else if total < requested {
      UnallowedHasCause(z);
      d := Decision(o.id, Reduce, reasons, requested, total, limits, c.now);
    } else {
      d := Decision(o.id, Allow, [WithinLimits], requested, requested, limits, c.now);
    }
  }

  // ---------- evaluating an order ----------

  function Ids(legs: seq<Leg>): set<string> {
    set leg | leg in legs :: leg.id
  }

  lemma {:induction false} OneMoreId(legs: seq<Leg>, k: nat)
    requires k < |legs|
    ensures Ids(legs[..k + 1]) == Ids(legs[..k]) + {legs[k].id}
  {
    assert legs[..k + 1] == legs[..k] + [legs[k]];
  }

  lemma {:induction false} RepeatedId(legs: seq<Leg>, n: nat) returns (i: nat)
    requires n < |legs| && legs[n].id in Ids(legs[..n])
    ensures i < n && legs[i].id == legs[n].id
  {
    var leg :| leg in legs[..n] && leg.id == legs[n].id;
    i :| 0 <= i < n && legs[..n][i] == leg;
  }

  lemma {:induction false} IdsCount(legs: seq<Leg>)
    ensures |Ids(legs)| <= |legs|
    ensures |Ids(legs)| == |legs| <==> !DuplicateIds(legs)
  {
    if legs != [] {
      var n := |legs| - 1;
      IdsCount(legs[..n]);
      OneMoreId(legs, n);
      assert legs[..n + 1] == legs;
      assert DuplicateIds(legs[..n]) ==> DuplicateIds(legs);
      if legs[n].id in Ids(legs[..n]) {
        var i := RepeatedId(legs, n);
        assert Ids(legs) == Ids(legs[..n]);
      } else if DuplicateIds(legs) {
        var i, j :| 0 <= i < j < |legs| && legs[i].id == legs[j].id;
        assert legs[..n][i] in legs[..n];
        assert legs[..n][i].id == legs[..n][j].id;
      }
    }
  }

  // {leg.leg_id: leg.quantity for leg in legs}: a repeated id keeps the quantity of its last leg.
  function ByLeg(legs: seq<Leg>): map<string, real> {
    if legs == [] then map[] else ByLeg(legs[..|legs| - 1])[legs[|legs| - 1].id := legs[|legs| - 1].quantity]
  }

  lemma {:induction false} ByLegKeys(legs: seq<Leg>)
    ensures ByLeg(legs).Keys == Ids(legs)
  {
    if legs != [] {
      var n := |legs| - 1;
      ByLegKeys(legs[..n]);
      OneMoreId(legs, n);
      assert legs[..n + 1] == legs;
    }
  }

  lemma {:induction false} ByLegFinds(legs: seq<Leg>, i: nat)
    requires !DuplicateIds(legs) && i < |legs|
    ensures legs[i].id in ByLeg(legs) && ByLeg(legs)[legs[i].id] == legs[i].quantity
  {
    var n := |legs| - 1;
    if i < n {
      assert legs[i].id != legs[n].id;
      ByLegFinds(legs[..n], i);
    }
  }

  // The dictionary of requested quantities is as long as the leg list exactly when no id repeats.
  method RequestedByLeg(legs: seq<Leg>) returns (byLeg: map<string, real>, duplicate: bool)
    ensures byLeg == ByLeg(legs) && byLeg.Keys == Ids(legs)
    ensures duplicate <==> DuplicateIds(legs)
    ensures !duplicate ==> forall i :: 0 <= i < |legs| ==> legs[i].id in byLeg && byLeg[legs[i].id] == legs[i].quantity
  {
    byLeg := map[];
    for k := 0 to |legs|
      invariant byLeg == ByLeg(legs[..k])
    {
      assert legs[..k + 1][..k] == legs[..k];
      byLeg := byLeg[legs[k].id := legs[k].quantity];
    }
    assert legs[..|legs|] == legs;
    ByLegKeys(legs);
    IdsCount(legs);
    assert |byLeg| == |byLeg.Keys|;
    duplicate := |byLeg| != |legs|;
    if !duplicate {
      forall i | 0 <= i < |legs|
        ensures legs[i].id in byLeg && byLeg[legs[i].id] == legs[i].quantity
      {
        ByLegFinds(legs, i);
      }
    }
  }

  function RequestEntries(byLeg: map<string, real>): map<Limit, real> {
    map id | id in byLeg :: RequestedQuantity(id) := byLeg[id]
  }

  lemma {:induction false} NoReasonMeansClear(p: RiskPolicy, o: Order, c: Context, reasons: seq<Reason>)
    requires reasons == [] && forall r :: r in reasons <==> Cause(r, p, o, c)
    ensures Clear(p, o, c)
  {
    forall r
      ensures !Cause(r, p, o, c)
    {
      assert r !in reasons;
    }
  }

  ghost predicate FitsOrder(p: RiskPolicy, o: Order, c: Context, d: Decision)
    requires p.Valid() && o.Valid() && c.Valid() && c.equity > 0.0 && Sizable(o, c)
  {
    var z := SizingOf(p, o, c);
    && ReasonsFit(z, d.reasons)
    && d.approved == (if d.kind.Block? then 0.0 else Total(Approved(z)))
    && (Total(Requested(z.legs)) > 0.0 && z.budget > 0.0 ==> Snapshot(o, z, d.limits))
  }

  // Every cause there is, each once.
  method AllReasons(p: RiskPolicy, o: Order, c: Context, duplicate: bool) returns (reasons: seq<Reason>)
    requires duplicate <==> DuplicateIds(o.legs)
    ensures Distinct(reasons) && forall r :: r in reasons <==> Cause(r, p, o, c)
  {
    reasons := AppendIf([], DuplicateLegId, duplicate);
    reasons := ApplyKillSwitches(p, o, c, reasons);
  }

  lemma {:induction false} RequestsFollow(o: Order, byLeg: map<string, real>)
    requires forall i :: 0 <= i < |o.legs| ==> o.legs[i].id in byLeg && byLeg[o.legs[i].id] == o.legs[i].quantity
    ensures RequestsNoted(o, RequestEntries(byLeg))
  {
  }

  // What the legs of an order that goes through have passed.
  lemma {:induction false} ClearLegs(p: RiskPolicy, o: Order, c: Context, i: nat)
    requires Clear(p, o, c) && i < |o.legs|
    ensures o.legs[i].id in c.legStates
    ensures var s := c.legStates[o.legs[i].id];
            && s.market == Open && s.quoteAsOf.Some? && s.quoteAsOf.value <= c.now
            && Age(c.now, s.quoteAsOf.value) <= p.QuoteMaxAge(c.strategy)
            && s.stopDistance.Some? && s.stopDistance.value > 0.0 && s.available.Some?
            && (s.requiresBorrow ==>
                  s.borrowAvailable && s.borrowCostExpires.Some? && c.now < s.borrowCostExpires.value)
  {
    var leg := o.legs[i];
    forall r
      ensures !LegCause(r, p, c, leg)
    {
      assert !Cause(r, p, o, c);
    }
    assert !LegCause(LegStateMissing, p, c, leg);
    var s := c.legStates[leg.id];
    var closed := MarketReason(s.market);
    assert closed.Some? ==> LegCause(closed.value, p, c, leg);
    assert !LegCause(QuoteMissing, p, c, leg) && !LegCause(QuoteFromFuture, p, c, leg);
    assert !LegCause(StaleQuote, p, c, leg) && !LegCause(StopDistanceMissing, p, c, leg);
    assert !LegCause(LiquidityMissing, p, c, leg) && !LegCause(BorrowUnavailable, p, c, leg);
    assert !LegCause(BorrowCostMissing, p, c, leg) && !LegCause(BorrowCostExpired, p, c, leg);
  }

  lemma {:induction false} NotReached(part: real, whole: real, limit: real)
    requires whole > 0.0 && Max(part, 0.0) / whole < limit
    ensures part < limit * whole
  {
    var q := Max(part, 0.0) / whole;
    assert q * whole == Max(part, 0.0);
    assert (limit - q) * whole > 0.0;
  }

  // And its account.
  lemma {:induction false} ClearOfLoss(p: RiskPolicy, o: Order, c: Context)
    requires !Cause(InvalidAccountEquity, p, o, c) && !Cause(DailyLossLimit, p, o, c)
    ensures c.equity > 0.0 && -c.dailyPnl < p.dailyLossFraction * c.equity
  {
    hide Age, SomeLegCause, DuplicateIds, MddFraction;
    NotReached(-c.dailyPnl, c.equity, p.dailyLossFraction);
  }

  lemma {:induction false} ClearOfDrawdown(p: RiskPolicy, o: Order, c: Context)
    requires !Cause(InvalidAccountEquity, p, o, c) && !Cause(CumulativeMddLimit, p, o, c)
    ensures c.highWaterMark > 0.0 && c.highWaterMark - c.currentEquity < p.mddFraction * c.highWaterMark
  {
    hide Age, SomeLegCause, DuplicateIds, DailyLoss;
    NotReached(c.highWaterMark - c.currentEquity, c.highWaterMark, p.mddFraction);
  }

  lemma {:induction false} ClearIsTradable(p: RiskPolicy, o: Order, c: Context)
    requires Clear(p, o, c)
    ensures c.equity > 0.0 && -c.dailyPnl < p.dailyLossFraction * c.equity
    ensures c.highWaterMark > 0.0 && c.highWaterMark - c.currentEquity < p.mddFraction * c.highWaterMark
    ensures forall i :: 0 <= i < |o.legs| ==>
              o.legs[i].id in c.legStates &&
              var s := c.legStates[o.legs[i].id];
              && s.market == Open && s.quoteAsOf.Some? && s.quoteAsOf.value <= c.now
              && (c.now - s.quoteAsOf.value) as real
                 <= (if c.strategy == H1 then p.h1QuoteMaxAge else p.h2h3QuoteMaxAge) * 1000000000.0
              && (s.requiresBorrow ==>
                    s.borrowAvailable && s.borrowCostExpires.Some? && c.now < s.borrowCostExpires.value)
  {
    hide Cause;
    assert !Cause(InvalidAccountEquity, p, o, c) && !Cause(DailyLossLimit, p, o, c);
    assert !Cause(CumulativeMddLimit, p, o, c);
    ClearOfLoss(p, o, c);
    ClearOfDrawdown(p, o, c);
    hide Clear;
    forall i | 0 <= i < |o.legs|
      ensures o.legs[i].id in c.legStates &&
              var s := c.legStates[o.legs[i].id];
              && s.market == Open && s.quoteAsOf.Some? && s.quoteAsOf.value <= c.now
              && (c.now - s.quoteAsOf.value) as real
                 <= (if c.strategy == H1 then p.h1QuoteMaxAge else p.h2h3QuoteMaxAge) * 1000000000.0
              && (s.requiresBorrow ==>
                    s.borrowAvailable && s.borrowCostExpires.Some? && c.now < s.borrowCostExpires.value)
    {
      ClearLegs(p, o, c, i);
    }
  }

  // No validator of the decision record can fire. With a kill switch on, the reasons are exactly the causes; with none
  // on, every lookup finds its leg and the decision is the one sizing prescribes. An order that is not blocked has
  // every market open and every quote fresh, its borrowing in place, and both losses under their limits.
  method Evaluate(p: RiskPolicy, o: Order, c: Context) returns (d: Decision)
    requires p.Valid() && o.Valid() && c.Valid()
    ensures d.Valid() && d.kind == Decide(p, o, c) && d.requested == Total(Quantities(o))
    ensures d.orderId == o.id && d.decidedAt == c.now
    ensures !Clear(p, o, c) ==>
              d.kind.Block? && Distinct(d.reasons) && forall r :: r in d.reasons <==> Cause(r, p, o, c)
    ensures Clear(p, o, c) ==> Sizable(o, c) && c.equity > 0.0 && FitsOrder(p, o, c, d)
    ensures !DuplicateIds(o.legs) ==> RequestsNoted(o, d.limits)
    ensures d.kind != Block ==>
              && c.equity > 0.0 && -c.dailyPnl < p.dailyLossFraction * c.equity
              && c.highWaterMark > 0.0 && c.highWaterMark - c.currentEquity < p.mddFraction * c.highWaterMark
    ensures d.kind != Block ==>
              forall i :: 0 <= i < |o.legs| ==>
                o.legs[i].id in c.legStates &&
                var s := c.legStates[o.legs[i].id];
                && s.market == Open && s.quoteAsOf.Some? && s.quoteAsOf.value <= c.now
                && (c.now - s.quoteAsOf.value) as real
                   <= (if c.strategy == H1 then p.h1QuoteMaxAge else p.h2h3QuoteMaxAge) * 1000000000.0
                && (s.requiresBorrow ==>
                      s.borrowAvailable && s.borrowCostExpires.Some? && c.now < s.borrowCostExpires.value)
  {
    var byLeg, duplicate := RequestedByLeg(o.legs);
    var requested := TotalOf(Quantities(o));
    SumNonNegative(Quantities(o));
    var limits := RequestEntries(byLeg);
    if !duplicate { RequestsFollow(o, byLeg); }
    var reasons := AllReasons(p, o, c, duplicate);
    if reasons != [] {
      assert Cause(reasons[0], p, o, c);
      return Decision(o.id, Block, reasons, requested, 0.0, limits, c.now);
    }
    NoReasonMeansClear(p, o, c, reasons);
    ClearIsSizable(p, o, c);
    ClearIsTradable(p, o, c);
    ghost var z := SizingOf(p, o, c);
    assert Quantities(o) == Requested(z.legs);
    d := SizeOrder(p, o, c, requested, limits, z);
  }

  // ---------- more room for the whole evaluation ----------

  // The same order and situation, but with a larger budget, more equity, or more liquidity in some legs.
  ghost predicate MoreRoom(o: Order, c: Context, o': Order, c': Context) {
    && o' == o.(riskBudget := o'.riskBudget) && o.riskBudget <= o'.riskBudget
    && c' == c.(equity := c'.equity, legStates := c'.legStates) && c.equity <= c'.equity
    && c'.legStates.Keys == c.legStates.Keys
    && forall id :: id in c.legStates ==> MoreLiquid(c.legStates[id], c'.legStates[id])
  }

  predicate MoreLiquid(s: LegState, s': LegState) {
    s' == s.(available := s'.available)
        && (s.available.Some? ==> s'.available.Some? && s.available.value <= s'.available.value)
  }

  lemma {:induction false} DailyLossFalls(c: Context, c': Context)
    requires 0.0 < c.equity <= c'.equity && c'.dailyPnl == c.dailyPnl
    ensures DailyLoss(c') <= DailyLoss(c)
  {
    var loss := Max(-c.dailyPnl, 0.0);
  }

  lemma {:induction false} MoreRoomLegCause(r: Reason, p: RiskPolicy, o: Order, c: Context, o': Order, c': Context,
      leg: Leg)
    requires MoreRoom(o, c, o', c') && LegCause(r, p, c', leg)
    ensures LegCause(r, p, c, leg)
  {
    if leg.id in c.legStates {
      assert MoreLiquid(c.legStates[leg.id], c'.legStates[leg.id]);
    }
  }

  lemma {:induction false} MoreRoomLossCause(r: Reason, p: RiskPolicy, c: Context, c': Context)
    requires 0.0 < c.equity <= c'.equity && c' == c.(equity := c'.equity, legStates := c'.legStates)
    requires LossCause(r, p, c')
    ensures LossCause(r, p, c)
  {
    DailyLossFalls(c, c');
  }

  lemma {:induction false} MoreRoomAccountCause(r: Reason, p: RiskPolicy, o: Order, c: Context, o': Order, c': Context)
    requires MoreRoom(o, c, o', c') && c.equity > 0.0 && AccountCause(r, p, o', c')
    ensures AccountCause(r, p, o, c)
  {
    if LossCause(r, p, c') {
      MoreRoomLossCause(r, p, c, c');
    }
  }

  // More room turns no kill switch on.
  lemma {:induction false} MoreRoomStaysClear(p: RiskPolicy, o: Order, c: Context, o': Order, c': Context)
    requires MoreRoom(o, c, o', c') && Clear(p, o, c)
    ensures Clear(p, o', c')
  {
    ClearIsSizable(p, o, c);
    forall r
      ensures !Cause(r, p, o', c')
    {
      assert !Cause(r, p, o, c);
      if AccountCause(r, p, o', c') {
        MoreRoomAccountCause(r, p, o, c, o', c');
      }
      if SomeLegCause(r, p, c', o.legs) {
        var leg :| leg in o.legs && LegCause(r, p, c', leg);
        MoreRoomLegCause(r, p, o, c, o', c', leg);
      }
    }
  }

  lemma {:induction false} MoreRoomIsRoomier(p: RiskPolicy, o: Order, c: Context, o': Order, c': Context)
    requires p.Valid() && o.Valid() && c.Valid() && o'.Valid() && c'.Valid() && MoreRoom(o, c, o', c')
    requires c.equity > 0.0 && Sizable(o, c) && Sizable(o', c')
    ensures Roomier(SizingOf(p, o, c), SizingOf(p, o', c'))
  {
    PartMonotone(c.equity, c'.equity, p.tradeFraction);
    forall i | 0 <= i < |o.legs|
      ensures MoreLiquid(c.legStates[o.legs[i].id], c'.legStates[o.legs[i].id])
    {
      assert SizableLeg(o.legs[i], c);
    }
  }

  // A larger budget, more equity or more liquidity never turns an outcome towards BLOCK, and shrinks no leg.
  lemma {:induction false} MoreRoomNeverTightens(p: RiskPolicy, o: Order, c: Context, o': Order, c': Context)
    requires p.Valid() && o.Valid() && c.Valid() && o'.Valid() && c'.Valid() && MoreRoom(o, c, o', c')
    ensures Rank(Decide(p, o, c)) <= Rank(Decide(p, o', c'))
    ensures Clear(p, o, c) ==>
              && c.equity > 0.0 && Sizable(o, c) && Sizable(o', c')
              && forall i :: 0 <= i < |o.legs| ==> Approved(SizingOf(p, o, c))[i] <= Approved(SizingOf(p, o', c'))[i]
  {
    if Clear(p, o, c) {
      MoreRoomStaysClear(p, o, c, o', c');
      ClearIsSizable(p, o, c);
      ClearIsSizable(p, o', c');
      MoreRoomIsRoomier(p, o, c, o', c');
      RoomierNeverTightens(SizingOf(p, o, c), SizingOf(p, o', c'));
    }
  }
}

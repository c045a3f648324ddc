/**
  A risk decision stated on the order and its situation: what each blocking code means, and how an order that no switch
  blocks is sized, down to the lots of every leg.
 */
module RiskInFull {
  import opened Numbers
  import opened Wrappers
  import opened RiskEngine

  // ---------- the blocking codes ----------

  lemma {:induction false} QuotientReaches(part: real, whole: real, limit: real)
    requires whole > 0.0 && limit > 0.0
    ensures Max(part, 0.0) / whole >= limit <==> part >= limit * whole
  {
    var q := Max(part, 0.0) / whole;
    assert q * whole == Max(part, 0.0);
    assert limit * whole > 0.0;
    if q >= limit {
      assert (q - limit) * whole >= 0.0;
    } else {
      assert (limit - q) * whole > 0.0;
    }
  }

  // The codes a leg can give.
  predicate AboutLegs(r: Reason) {
    || r == MarketClosed || r == MarketHalted || r == MarketVi || r == MarketPriceLimit || r == MarketStateUnknown
    || r == QuoteMissing || r == QuoteFromFuture || r == StaleQuote || r == StopDistanceMissing
    || r == LiquidityMissing || r == BorrowUnavailable || r == BorrowCostMissing || r == BorrowCostExpired
    || r == LegStateMissing
  }

  lemma {:induction false} NoLegGives(r: Reason, p: RiskPolicy, o: Order, c: Context)
    requires !AboutLegs(r)
    ensures !SomeLegCause(r, p, c, o.legs)
  {
  }

  lemma {:induction false} AccountCode(r: Reason, p: RiskPolicy, o: Order, c: Context)
    requires !AboutLegs(r)
    ensures Cause(r, p, o, c) <==> (r == DuplicateLegId && DuplicateIds(o.legs)) || AccountCause(r, p, o, c)
  {
    hide SomeLegCause, AccountCause, DuplicateIds, AboutLegs;
    NoLegGives(r, p, o, c);
  }

  lemma {:induction false} OperationCode(r: Reason, p: RiskPolicy, o: Order, c: Context)
    requires r == OrderExpired || r == InvalidAccountEquity || r == CriticalProviderDisconnected
        || r == CriticalProviderDelayed || r == ProviderDivergence || r == ClockUnsynchronized
    ensures Cause(r, p, o, c) <==> OperationCause(r, o, c)
  {
    hide Cause, DailyLoss, MddFraction, Age;
    AccountCode(r, p, o, c);
  }

  lemma {:induction false} LossCode(r: Reason, p: RiskPolicy, o: Order, c: Context)
    requires r == DailyLossLimit || r == CumulativeMddLimit || r == ExpectedCostNotBelowGross
    ensures Cause(r, p, o, c) <==> LossCause(r, p, c)
  {
    hide Cause, DailyLoss, MddFraction, Age;
    AccountCode(r, p, o, c);
  }

  lemma {:induction false} ApprovalCode(r: Reason, p: RiskPolicy, o: Order, c: Context)
    requires r == StrategyVersionMismatch || r == ConfigVersionMismatch || r == DataSchemaVersionMismatch
        || r == ConversionUnavailable || r == HedgeFailure || r == UnhedgedLegTimeout
    ensures Cause(r, p, o, c) <==> ApprovalCause(r, p, c)
  {
    hide Cause, DailyLoss, MddFraction, Age;
    AccountCode(r, p, o, c);
  }

  lemma {:induction false} DuplicateCode(r: Reason, p: RiskPolicy, o: Order, c: Context)
    requires r == DuplicateLegId
    ensures Cause(r, p, o, c) <==> DuplicateIds(o.legs)
  {
    hide Cause, DailyLoss, MddFraction, Age;
    AccountCode(r, p, o, c);
  }

  // The codes of the account and of the program's own state.
  lemma {:induction false} OperationCodes(p: RiskPolicy, o: Order, c: Context)
    ensures Cause(OrderExpired, p, o, c) <==> c.now >= o.expiresAt
    ensures Cause(InvalidAccountEquity, p, o, c) <==> c.equity <= 0.0 || c.highWaterMark <= 0.0
    ensures Cause(CriticalProviderDisconnected, p, o, c) <==> !c.connected
    ensures Cause(CriticalProviderDelayed, p, o, c) <==> c.delayed
    ensures Cause(ProviderDivergence, p, o, c) <==> c.divergence
    ensures Cause(ClockUnsynchronized, p, o, c) <==> !c.clockSynchronized
    ensures Cause(ExpectedCostNotBelowGross, p, o, c) <==> c.expectedCost >= c.expectedGross
    ensures Cause(DuplicateLegId, p, o, c) <==> exists i, j :: 0 <= i < j < |o.legs| && o.legs[i].id == o.legs[j].id
  {
    hide Cause, DailyLoss, MddFraction;
    assert Cause(OrderExpired, p, o, c) <==> c.now >= o.expiresAt by {
      OperationCode(OrderExpired, p, o, c);
    }
    assert Cause(InvalidAccountEquity, p, o, c) <==> c.equity <= 0.0 || c.highWaterMark <= 0.0 by {
      OperationCode(InvalidAccountEquity, p, o, c);
    }
    assert Cause(CriticalProviderDisconnected, p, o, c) <==> !c.connected by {
      OperationCode(CriticalProviderDisconnected, p, o, c);
    }
    assert Cause(CriticalProviderDelayed, p, o, c) <==> c.delayed by {
      OperationCode(CriticalProviderDelayed, p, o, c);
    }
    assert Cause(ProviderDivergence, p, o, c) <==> c.divergence by {
      OperationCode(ProviderDivergence, p, o, c);
    }
    assert Cause(ClockUnsynchronized, p, o, c) <==> !c.clockSynchronized by {
      OperationCode(ClockUnsynchronized, p, o, c);
    }
    assert Cause(ExpectedCostNotBelowGross, p, o, c) <==> c.expectedCost >= c.expectedGross by {
      LossCode(ExpectedCostNotBelowGross, p, o, c);
    }
    assert Cause(DuplicateLegId, p, o, c) <==> exists i, j :: 0 <= i < j < |o.legs| && o.legs[i].id == o.legs[j].id by {
      DuplicateCode(DuplicateLegId, p, o, c);
    }
  }

  // The two loss limits: the day's loss against equity, and the drawdown against the high-water mark.
  lemma {:induction false} LossCodes(p: RiskPolicy, o: Order, c: Context)
    requires p.Valid()
    ensures Cause(DailyLossLimit, p, o, c) <==> c.equity > 0.0 && -c.dailyPnl >= p.dailyLossFraction * c.equity
    ensures Cause(CumulativeMddLimit, p, o, c) <==>
              c.highWaterMark > 0.0 && c.highWaterMark - c.currentEquity >= p.mddFraction * c.highWaterMark
  {
    hide Cause, DailyLoss, MddFraction;
    LossCode(DailyLossLimit, p, o, c);
    LossCode(CumulativeMddLimit, p, o, c);
    if c.equity > 0.0 {
      DailyLossReaches(p, c);
    }
    if c.highWaterMark > 0.0 {
      DrawdownReaches(p, c);
    }
  }

  lemma {:induction false} DailyLossReaches(p: RiskPolicy, c: Context)
    requires p.Valid() && c.equity > 0.0
    ensures DailyLoss(c) >= p.dailyLossFraction <==> -c.dailyPnl >= p.dailyLossFraction * c.equity
  {
    QuotientReaches(-c.dailyPnl, c.equity, p.dailyLossFraction);
  }

  lemma {:induction false} DrawdownReaches(p: RiskPolicy, c: Context)
    requires p.Valid() && c.highWaterMark > 0.0
    ensures MddFraction(c) >= p.mddFraction <==>
              c.highWaterMark - c.currentEquity >= p.mddFraction * c.highWaterMark
  {
    QuotientReaches(c.highWaterMark - c.currentEquity, c.highWaterMark, p.mddFraction);
  }

  // The codes of approvals, conversion and hedging. A leg unhedged for the timeout or longer blocks; times are in
  // nanoseconds, the timeout in seconds.
  lemma {:induction false} ApprovalCodes(p: RiskPolicy, o: Order, c: Context)
    ensures Cause(StrategyVersionMismatch, p, o, c) <==> !c.strategyApproved
    ensures Cause(ConfigVersionMismatch, p, o, c) <==> !c.configApproved
    ensures Cause(DataSchemaVersionMismatch, p, o, c) <==> !c.schemaApproved
    ensures Cause(ConversionUnavailable, p, o, c) <==> c.strategy == H2 && c.conversion != Some(Operational)
    ensures Cause(HedgeFailure, p, o, c) <==> c.hedgeFailed
    ensures Cause(UnhedgedLegTimeout, p, o, c) <==>
              c.unhedgedSince.Some? && (c.now - c.unhedgedSince.value) as real >= p.legTimeout * 1000000000.0
  {
    hide Cause;
    assert Cause(StrategyVersionMismatch, p, o, c) <==> !c.strategyApproved by {
      ApprovalCode(StrategyVersionMismatch, p, o, c);
    }
    assert Cause(ConfigVersionMismatch, p, o, c) <==> !c.configApproved by {
      ApprovalCode(ConfigVersionMismatch, p, o, c);
    }
    assert Cause(DataSchemaVersionMismatch, p, o, c) <==> !c.schemaApproved by {
      ApprovalCode(DataSchemaVersionMismatch, p, o, c);
    }
    assert Cause(ConversionUnavailable, p, o, c) <==> c.strategy == H2 && c.conversion != Some(Operational) by {
      ApprovalCode(ConversionUnavailable, p, o, c);
    }
    assert Cause(HedgeFailure, p, o, c) <==> c.hedgeFailed by {
      ApprovalCode(HedgeFailure, p, o, c);
    }
    assert Cause(UnhedgedLegTimeout, p, o, c) <==>
        c.unhedgedSince.Some? && (c.now - c.unhedgedSince.value) as real >= p.legTimeout * 1000000000.0 by {
      ApprovalCode(UnhedgedLegTimeout, p, o, c);
    }
  }

  // The state of leg i is known.
  predicate Known(o: Order, c: Context, i: int) {
    0 <= i < |o.legs| && o.legs[i].id in c.legStates
  }

  lemma {:induction false} LegsGive(r: Reason, p: RiskPolicy, o: Order, c: Context)
    requires AboutLegs(r)
    ensures Cause(r, p, o, c) <==> SomeLegCause(r, p, c, o.legs)
  {
    hide SomeLegCause, DailyLoss, MddFraction, Age, DuplicateIds;
  }

  lemma {:induction false} LegCode(r: Reason, p: RiskPolicy, o: Order, c: Context)
    requires AboutLegs(r) && r != LegStateMissing
    ensures Cause(r, p, o, c) <==>
              exists i :: Known(o, c, i) && StateCause(r, c.now, p.QuoteMaxAge(c.strategy), c.legStates[o.legs[i].id])
  {
    hide StateCause, AccountCause, Cause, AboutLegs;
    LegsGive(r, p, o, c);
    if SomeLegCause(r, p, c, o.legs) {
      var leg :| leg in o.legs && LegCause(r, p, c, leg);
      var i :| 0 <= i < |o.legs| && o.legs[i] == leg;
      assert Known(o, c, i);
    }
    if i :| Known(o, c, i) && StateCause(r, c.now, p.QuoteMaxAge(c.strategy), c.legStates[o.legs[i].id]) {
      assert LegCause(r, p, c, o.legs[i]) && o.legs[i] in o.legs;
    }
  }

  lemma {:induction false} MarketCode(r: Reason, m: MarketState, p: RiskPolicy, o: Order, c: Context)
    requires (r, m) in {(MarketClosed, Closed), (MarketHalted, Halted), (MarketVi, Vi), (MarketPriceLimit, PriceLimit),
      (MarketStateUnknown, Unknown)}
    ensures Cause(r, p, o, c) <==> exists i :: Known(o, c, i) && c.legStates[o.legs[i].id].market == m
  {
    hide Cause;
    LegCode(r, p, o, c);
    forall s: LegState
      ensures StateCause(r, c.now, p.QuoteMaxAge(c.strategy), s) <==> s.market == m
    {
    }
  }

  // Each of the five market states in which trading is blocked gives its own code, and no other state gives that code.
  lemma {:induction false} MarketCodes(p: RiskPolicy, o: Order, c: Context)
    ensures Cause(MarketClosed, p, o, c) <==> exists i :: Known(o, c, i) && c.legStates[o.legs[i].id].market == Closed
    ensures Cause(MarketHalted, p, o, c) <==> exists i :: Known(o, c, i) && c.legStates[o.legs[i].id].market == Halted
    ensures Cause(MarketVi, p, o, c) <==> exists i :: Known(o, c, i) && c.legStates[o.legs[i].id].market == Vi
    ensures Cause(MarketPriceLimit, p, o, c) <==>
              exists i :: Known(o, c, i) && c.legStates[o.legs[i].id].market == PriceLimit
    ensures Cause(MarketStateUnknown, p, o, c) <==>
              exists i :: Known(o, c, i) && c.legStates[o.legs[i].id].market == Unknown
  {
    hide Cause;
    MarketCode(MarketClosed, Closed, p, o, c);
    MarketCode(MarketHalted, Halted, p, o, c);
    MarketCode(MarketVi, Vi, p, o, c);
    MarketCode(MarketPriceLimit, PriceLimit, p, o, c);
    MarketCode(MarketStateUnknown, Unknown, p, o, c);
  }

  // How old a leg's quote may be, in nanoseconds.
  function MaxAgeNanos(p: RiskPolicy, c: Context): real {
    (if c.strategy == H1 then p.h1QuoteMaxAge else p.h2h3QuoteMaxAge) * 1000000000.0
  }

  lemma {:induction false} QuoteStateCodes(now: int, maxAge: real, nanos: real, s: LegState)
    requires nanos == maxAge * 1000000000.0
    ensures StateCause(QuoteMissing, now, maxAge, s) <==> s.quoteAsOf.None?
    ensures StateCause(QuoteFromFuture, now, maxAge, s) <==> s.quoteAsOf.Some? && s.quoteAsOf.value > now
    ensures StateCause(StaleQuote, now, maxAge, s) <==>
              s.quoteAsOf.Some? && s.quoteAsOf.value <= now && (now - s.quoteAsOf.value) as real > nanos
  {
  }

  // The codes of a leg's quote: none, one from the future, or one older than two limits allow, by strategy.
  lemma {:induction false} QuoteCodes(p: RiskPolicy, o: Order, c: Context)
    ensures Cause(QuoteMissing, p, o, c) <==>
              exists i :: Known(o, c, i) && c.legStates[o.legs[i].id].quoteAsOf.None?
    ensures Cause(QuoteFromFuture, p, o, c) <==>
              exists i :: Known(o, c, i) && var asOf := c.legStates[o.legs[i].id].quoteAsOf;
                          asOf.Some? && asOf.value > c.now
    ensures Cause(StaleQuote, p, o, c) <==>
              exists i :: Known(o, c, i) && var asOf := c.legStates[o.legs[i].id].quoteAsOf;
                          asOf.Some? && asOf.value <= c.now && (c.now - asOf.value) as real > MaxAgeNanos(p, c)
  {
    hide Cause, StateCause;
    LegCode(QuoteMissing, p, o, c);
    LegCode(QuoteFromFuture, p, o, c);
    LegCode(StaleQuote, p, o, c);
    forall i | Known(o, c, i)
      ensures var s := c.legStates[o.legs[i].id];
              && (StateCause(QuoteMissing, c.now, p.QuoteMaxAge(c.strategy), s) <==> s.quoteAsOf.None?)
              && (StateCause(QuoteFromFuture, c.now, p.QuoteMaxAge(c.strategy), s) <==>
                  s.quoteAsOf.Some? && s.quoteAsOf.value > c.now)
              && (StateCause(StaleQuote, c.now, p.QuoteMaxAge(c.strategy), s) <==>
                  && s.quoteAsOf.Some? && s.quoteAsOf.value <= c.now
                  && (c.now - s.quoteAsOf.value) as real > MaxAgeNanos(p, c))
    {
      QuoteStateCodes(c.now, p.QuoteMaxAge(c.strategy), MaxAgeNanos(p, c), c.legStates[o.legs[i].id]);
    }
  }

  lemma {:induction false} SizingStateCodes(now: int, maxAge: real, s: LegState)
    ensures StateCause(StopDistanceMissing, now, maxAge, s) <==> s.stopDistance.None? || s.stopDistance.value <= 0.0
    ensures StateCause(LiquidityMissing, now, maxAge, s) <==> s.available.None?
    ensures StateCause(BorrowUnavailable, now, maxAge, s) <==> s.requiresBorrow && !s.borrowAvailable
    ensures StateCause(BorrowCostMissing, now, maxAge, s) <==> s.requiresBorrow && s.borrowCostExpires.None?
    ensures StateCause(BorrowCostExpired, now, maxAge, s) <==>
              s.requiresBorrow && s.borrowCostExpires.Some? && s.borrowCostExpires.value <= now
  {
  }

  // The codes of what sizing and borrowing need, and of a leg whose state is not known.
  lemma {:induction false} StateCodes(p: RiskPolicy, o: Order, c: Context)
    ensures Cause(StopDistanceMissing, p, o, c) <==>
              exists i :: Known(o, c, i) && var stop := c.legStates[o.legs[i].id].stopDistance;
                          stop.None? || stop.value <= 0.0
    ensures Cause(LiquidityMissing, p, o, c) <==>
              exists i :: Known(o, c, i) && c.legStates[o.legs[i].id].available.None?
    ensures Cause(BorrowUnavailable, p, o, c) <==>
              exists i :: Known(o, c, i) && var s := c.legStates[o.legs[i].id]; s.requiresBorrow && !s.borrowAvailable
    ensures Cause(BorrowCostMissing, p, o, c) <==>
              exists i :: Known(o, c, i) && var s := c.legStates[o.legs[i].id];
                          s.requiresBorrow && s.borrowCostExpires.None?
    ensures Cause(BorrowCostExpired, p, o, c) <==>
              exists i :: Known(o, c, i) && var s := c.legStates[o.legs[i].id];
                          s.requiresBorrow && s.borrowCostExpires.Some? && s.borrowCostExpires.value <= c.now
    ensures Cause(LegStateMissing, p, o, c) <==> exists i :: 0 <= i < |o.legs| && !Known(o, c, i)
  {
    UnknownCode(p, o, c);
    hide Cause, StateCause;
    LegCode(StopDistanceMissing, p, o, c);
    LegCode(LiquidityMissing, p, o, c);
    LegCode(BorrowUnavailable, p, o, c);
    LegCode(BorrowCostMissing, p, o, c);
    LegCode(BorrowCostExpired, p, o, c);
    forall s: LegState
      ensures var maxAge := p.QuoteMaxAge(c.strategy);
              && (StateCause(StopDistanceMissing, c.now, maxAge, s) <==>
                  s.stopDistance.None? || s.stopDistance.value <= 0.0)
              && (StateCause(LiquidityMissing, c.now, maxAge, s) <==> s.available.None?)
              && (StateCause(BorrowUnavailable, c.now, maxAge, s) <==> s.requiresBorrow && !s.borrowAvailable)
              && (StateCause(BorrowCostMissing, c.now, maxAge, s) <==> s.requiresBorrow && s.borrowCostExpires.None?)
              && (StateCause(BorrowCostExpired, c.now, maxAge, s) <==>
                  s.requiresBorrow && s.borrowCostExpires.Some? && s.borrowCostExpires.value <= c.now)
    {
      SizingStateCodes(c.now, p.QuoteMaxAge(c.strategy), s);
    }
  }

  lemma {:induction false} UnknownCode(p: RiskPolicy, o: Order, c: Context)
    ensures Cause(LegStateMissing, p, o, c) <==> exists i :: 0 <= i < |o.legs| && !Known(o, c, i)
  {
    if SomeLegCause(LegStateMissing, p, c, o.legs) {
      var leg :| leg in o.legs && LegCause(LegStateMissing, p, c, leg);
      var i :| 0 <= i < |o.legs| && o.legs[i] == leg;
      assert !Known(o, c, i);
    }
    if i :| 0 <= i < |o.legs| && !Known(o, c, i) {
      assert LegCause(LegStateMissing, p, c, o.legs[i]) && o.legs[i] in o.legs;
    }
  }

  // The codes of sizing, and the code of no objection.
  predicate AboutSizing(r: Reason) {
    || r == WithinLimits || r == RiskBudgetExhausted || r == MaxRiskPerTrade || r == OrderRiskBudget
    || r == LiquidityLimit || r == MinimumLotRounding || r == NoExecutableQuantity
  }

  lemma {:induction false} NoOperation(r: Reason, o: Order, c: Context)
    requires AboutSizing(r)
    ensures !OperationCause(r, o, c) && r != DuplicateLegId
  {
  }

  lemma {:induction false} NotAboutLegs(r: Reason)
    requires AboutSizing(r)
    ensures !AboutLegs(r)
  {
  }

  lemma {:induction false} NoLoss(r: Reason, p: RiskPolicy, c: Context)
    requires AboutSizing(r)
    ensures !LossCause(r, p, c)
  {
    hide DailyLoss, MddFraction;
  }

  lemma {:induction false} NoApproval(r: Reason, p: RiskPolicy, c: Context)
    requires AboutSizing(r)
    ensures !ApprovalCause(r, p, c)
  {
    hide Age;
  }

  // They are never among the causes that block at once.
  lemma {:induction false} OtherCodes(r: Reason, p: RiskPolicy, o: Order, c: Context)
    requires AboutSizing(r)
    ensures !Cause(r, p, o, c)
  {
    hide Cause, AboutSizing, AboutLegs, OperationCause, LossCause, ApprovalCause;
    NotAboutLegs(r);
    NoOperation(r, o, c);
    NoLoss(r, p, c);
    NoApproval(r, p, c);
    AccountCode(r, p, o, c);
  }

  // ---------- sizing ----------

  // What the order asks for, leg by leg, and what its legs would risk together.
  ghost predicate Asked(o: Order, c: Context, risks: seq<real>) {
    && |risks| == |o.legs|
    && forall i :: 0 <= i < |o.legs| ==>
         && Known(o, c, i) && c.legStates[o.legs[i].id].stopDistance.Some? && c.legStates[o.legs[i].id].available.Some?
         && risks[i] == o.legs[i].quantity * c.legStates[o.legs[i].id].stopDistance.value
  }

  lemma {:induction false} AskedIs(p: RiskPolicy, o: Order, c: Context, risks: seq<real>, z: Sizing)
    requires p.Valid() && o.Valid() && c.Valid() && c.equity > 0.0 && Sizable(o, c) && Asked(o, c, risks)
    requires z == SizingOf(p, o, c)
    ensures TotalRisk(z.legs) == Total(risks) && z.maxTradeRisk == c.equity * p.tradeFraction
        && z.budget == o.riskBudget
    ensures Total(Requested(z.legs)) == Total(Quantities(o)) && |z.legs| == |o.legs|
    ensures forall i :: 0 <= i < |o.legs| ==>
              && z.legs[i].requested == o.legs[i].quantity && z.legs[i].unit == c.legStates[o.legs[i].id].unit
              && z.legs[i].available == c.legStates[o.legs[i].id].available.value
  {
    hide Total;
    assert Requested(z.legs) == Quantities(o);
    forall i | 0 <= i < |o.legs|
      ensures StopRisk(z.legs, Requested(z.legs))[i] == risks[i]
    {
      assert Known(o, c, i) && SizableLeg(o.legs[i], c) && z.legs[i] == SizedLegOf(o.legs[i], c);
      RiskIs(o.legs[i].quantity, c.legStates[o.legs[i].id].stopDistance.value, z.legs[i].requested, z.legs[i].stop,
          risks[i]);
    }
    assert StopRisk(z.legs, Requested(z.legs)) == risks;
  }

  lemma {:induction false} RiskIs(quantity: real, stop: real, requested: real, distance: real, risk: real)
    requires quantity == requested && stop == distance && risk == quantity * stop
    ensures risk == Risk(requested, distance)
  {
  }

  // The common scale is the largest number between 0 and 1 at which the order's risk fits the trade's limit and the
  // order's budget and every leg fits what is available.
  lemma {:induction false} ScaleInFull(p: RiskPolicy, o: Order, c: Context, risks: seq<real>, s: real)
    requires p.Valid() && o.Valid() && c.Valid() && c.equity > 0.0 && Sizable(o, c) && Asked(o, c, risks)
    requires 0.0 <= s <= 1.0
    ensures 0.0 <= Scale(SizingOf(p, o, c)) <= 1.0
    ensures s <= Scale(SizingOf(p, o, c)) <==>
              && s * Total(risks) <= c.equity * p.tradeFraction && s * Total(risks) <= o.riskBudget
              && forall i :: 0 <= i < |o.legs| ==>
                   s * o.legs[i].quantity <= c.legStates[o.legs[i].id].available.value
  {
    hide Total, Scale, SizingOf, Sizable;
    var z := SizingOf(p, o, c);
    AskedIs(p, o, c, risks, z);
    ScaleIsLargest(z, s);
    forall i | 0 <= i < |o.legs|
      ensures Part(s, z.legs[i].requested) <= z.legs[i].available <==>
                s * o.legs[i].quantity <= c.legStates[o.legs[i].id].available.value
    {
      SamePart(s, z.legs[i].requested, o.legs[i].quantity, s * o.legs[i].quantity);
    }
    SamePart(s, TotalRisk(z.legs), Total(risks), s * Total(risks));
  }

  lemma {:induction false} SamePart(s: real, x: real, y: real, sy: real)
    requires x == y && sy == s * y
    ensures Part(s, x) == sy
  {
  }

  // A leg is approved in whole lots: as many as its scaled quantity holds.
  lemma {:induction false} LotsInFull(p: RiskPolicy, o: Order, c: Context, i: nat, scaled: real) returns (lots: int)
    requires p.Valid() && o.Valid() && c.Valid() && c.equity > 0.0 && Sizable(o, c) && i < |o.legs|
    requires scaled == Scale(SizingOf(p, o, c)) * o.legs[i].quantity
    ensures o.legs[i].id in c.legStates
    ensures var unit, q := c.legStates[o.legs[i].id].unit, Approved(SizingOf(p, o, c))[i];
            && lots >= 0 && q == lots as real * unit && q <= scaled < q + unit
  {
    hide Scale, SizingOf;
    var z := SizingOf(p, o, c);
    assert SizableLeg(o.legs[i], c);
    ApprovedBounds(z, i);
    SamePart(Scale(z), z.legs[i].requested, o.legs[i].quantity, scaled);
    WholeLotsBounds(Part(Scale(z), z.legs[i].requested), z.legs[i].unit);
    lots := Lots(Part(Scale(z), z.legs[i].requested), z.legs[i].unit);
    SameLots(lots as real, z.legs[i].unit, c.legStates[o.legs[i].id].unit, Approved(z)[i]);
  }

  lemma {:induction false} SameLots(lots: real, unit: real, unit': real, q: real)
    requires unit == unit' && q == Part(lots, unit)
    ensures q == lots * unit'
  {
  }

  // The verdict on an order that no switch blocks: blocked if nothing is asked for, there is no budget, or a leg that
  // is asked for gets nothing; allowed if every leg gets all it asked for; and reduced otherwise.
  lemma {:induction false} VerdictInFull(p: RiskPolicy, o: Order, c: Context)
    requires p.Valid() && o.Valid() && c.Valid() && Clear(p, o, c)
    ensures c.equity > 0.0 && Sizable(o, c)
    ensures var approved := Approved(SizingOf(p, o, c));
            && |approved| == |o.legs|
            && (Decide(p, o, c) == Block <==>
                || (forall i :: 0 <= i < |o.legs| ==> o.legs[i].quantity == 0.0) || o.riskBudget == 0.0
                || exists i :: 0 <= i < |o.legs| && o.legs[i].quantity > 0.0 && approved[i] == 0.0)
            && (Decide(p, o, c) == Allow <==>
                && Decide(p, o, c) != Block
                && forall i :: 0 <= i < |o.legs| ==> approved[i] == o.legs[i].quantity)
  {
    ClearIsSizable(p, o, c);
    var z := SizingOf(p, o, c);
    hide Clear, SizingOf, Scale, Verdict, Approved;
    assert Decide(p, o, c) == Verdict(z);
    VerdictOfSizing(z);
  }

  lemma {:induction false} VerdictOfSizing(z: Sizing)
    requires z.Valid()
    ensures Verdict(z) == Block <==>
              || (forall i :: 0 <= i < |z.legs| ==> z.legs[i].requested == 0.0) || z.budget == 0.0
              || exists i :: 0 <= i < |z.legs| && z.legs[i].requested > 0.0 && Approved(z)[i] == 0.0
    ensures Verdict(z) == Allow <==>
              Verdict(z) != Block && forall i :: 0 <= i < |z.legs| ==> Approved(z)[i] == z.legs[i].requested
  {
    hide Scale, WholeLots;
    forall i | 0 <= i < |z.legs|
      ensures 0.0 <= Approved(z)[i] <= z.legs[i].requested
    {
      ApprovedBounds(z, i);
    }
    NothingAsked(Requested(z.legs));
    NothingAsked(Approved(z));
    ApprovedAtMostRequested(z);
    assert (forall i :: 0 <= i < |z.legs| ==> Approved(z)[i] == z.legs[i].requested) <==>
        Approved(z) == Requested(z.legs);
  }

  lemma {:induction false} NothingAsked(xs: seq<real>)
    requires forall i :: 0 <= i < |xs| ==> xs[i] >= 0.0
    ensures Total(xs) >= 0.0 && (Total(xs) == 0.0 <==> forall i :: 0 <= i < |xs| ==> xs[i] == 0.0)
  {
    if xs != [] {
      NothingAsked(xs[..|xs| - 1]);
    }
  }

  // ---------- the reasons and entries of a sized order ----------

  lemma {:induction false} AskedForSomething(xs: seq<real>)
    requires forall i :: 0 <= i < |xs| ==> xs[i] >= 0.0
    ensures Total(xs) >= 0.0 && (Total(xs) > 0.0 <==> exists i :: 0 <= i < |xs| && xs[i] > 0.0)
  {
    NothingAsked(xs);
  }

  // An order that asks for nothing, and one without a budget.
  lemma {:induction false} EarlyCodes(p: RiskPolicy, o: Order, c: Context, d: Decision)
    requires p.Valid() && o.Valid() && c.Valid() && c.equity > 0.0 && Sizable(o, c) && FitsOrder(p, o, c, d)
    ensures (forall i :: 0 <= i < |o.legs| ==> o.legs[i].quantity == 0.0) ==> d.reasons == [NoExecutableQuantity]
    ensures (exists i :: 0 <= i < |o.legs| && o.legs[i].quantity > 0.0) && o.riskBudget == 0.0 ==>
              d.reasons == [RiskBudgetExhausted]
  {
    var z := SizingOf(p, o, c);
    hide SizingOf, Verdict, Approved, Total, SizingReasons, SizingCause, Snapshot;
    assert Requested(z.legs) == Quantities(o);
    AskedForSomething(Quantities(o));
  }

  // An order with something to size.
  ghost predicate ToSize(o: Order) {
    (exists i :: 0 <= i < |o.legs| && o.legs[i].quantity > 0.0) && o.riskBudget > 0.0
  }

  // The reasons of a sized order: allowed whole, or the causes that bit.
  lemma {:induction false} ReasonsOfSized(p: RiskPolicy, o: Order, c: Context, d: Decision, r: Reason)
    requires p.Valid() && o.Valid() && c.Valid() && c.equity > 0.0 && Sizable(o, c) && FitsOrder(p, o, c, d)
    requires ToSize(o)
    ensures if Verdict(SizingOf(p, o, c)) == Allow then d.reasons == [WithinLimits]
            else r in d.reasons <==> SizingCause(r, SizingOf(p, o, c))
  {
    var z := SizingOf(p, o, c);
    hide SizingOf, Verdict, Approved, Total, SizingReasons, SizingCause, Snapshot;
    assert Requested(z.legs) == Quantities(o);
    AskedForSomething(Quantities(o));
  }

  // The two caps on risk.
  lemma {:induction false} CapCodes(p: RiskPolicy, o: Order, c: Context, d: Decision, risks: seq<real>)
    requires p.Valid() && o.Valid() && c.Valid() && c.equity > 0.0 && Sizable(o, c) && Asked(o, c, risks)
    requires FitsOrder(p, o, c, d) && ToSize(o) && Verdict(SizingOf(p, o, c)) != Allow
    ensures MaxRiskPerTrade in d.reasons <==> Total(risks) > c.equity * p.tradeFraction
    ensures OrderRiskBudget in d.reasons <==> Total(risks) > o.riskBudget
  {
    var z := SizingOf(p, o, c);
    hide SizingOf, Verdict, Approved, Total, TotalRisk, FitsOrder, ToSize, SomeShort, SomeRounded, Scale;
    AskedIs(p, o, c, risks, z);
    ReasonsOfSized(p, o, c, d, MaxRiskPerTrade);
    ReasonsOfSized(p, o, c, d, OrderRiskBudget);
  }

  // A leg that asks for more than there is.
  lemma {:induction false} LiquidityCode(p: RiskPolicy, o: Order, c: Context, d: Decision)
    requires p.Valid() && o.Valid() && c.Valid() && c.equity > 0.0 && Sizable(o, c) && FitsOrder(p, o, c, d)
    requires ToSize(o) && Verdict(SizingOf(p, o, c)) != Allow
    ensures forall i :: 0 <= i < |o.legs| ==> SizableLeg(o.legs[i], c)
    ensures LiquidityLimit in d.reasons <==>
              exists i :: 0 <= i < |o.legs| && o.legs[i].quantity > c.legStates[o.legs[i].id].available.value
  {
    var z := SizingOf(p, o, c);
    hide SizingOf, Verdict, Approved, Total, FitsOrder, ToSize, SizingCause;
    ReasonsOfSized(p, o, c, d, LiquidityLimit);
    ShortLegs(z);
    ShortCause(z);
    forall i | 0 <= i < |o.legs|
      ensures z.legs[i].requested > z.legs[i].available <==>
                o.legs[i].quantity > c.legStates[o.legs[i].id].available.value
    {
      assert SizableLeg(o.legs[i], c) && z.legs[i] == SizedLegOf(o.legs[i], c);
    }
  }

  lemma {:induction false} ShortCause(z: Sizing)
    requires z.Valid()
    ensures SizingCause(LiquidityLimit, z) <==> SomeShort(z.legs)
  {
    hide SomeShort, SomeRounded, Scale, Approved, TotalRisk, Total;
  }

  lemma {:induction false} ShortLegs(z: Sizing)
    requires z.Valid()
    ensures SomeShort(z.legs) <==> exists i :: 0 <= i < |z.legs| && z.legs[i].requested > z.legs[i].available
  {
    if SomeShort(z.legs) {
      var leg :| leg in z.legs && Short(leg);
      var i :| 0 <= i < |z.legs| && z.legs[i] == leg;
    }
    if i :| 0 <= i < |z.legs| && z.legs[i].requested > z.legs[i].available {
      assert Short(z.legs[i]) && z.legs[i] in z.legs;
    }
  }

  lemma {:induction false} RoundedLegs(z: Sizing)
    requires z.Valid()
    ensures SomeRounded(z.legs, Scale(z)) <==>
              exists i :: 0 <= i < |z.legs| && Approved(z)[i] < Part(Scale(z), z.legs[i].requested)
  {
    hide Scale, WholeLots;
    forall i | 0 <= i < |z.legs|
      ensures Approved(z)[i] <= Part(Scale(z), z.legs[i].requested)
    {
      ApprovedBounds(z, i);
    }
    if SomeRounded(z.legs, Scale(z)) {
      var leg :| leg in z.legs && Rounded(leg, Scale(z));
      var i :| 0 <= i < |z.legs| && z.legs[i] == leg;
    }
    if i :| 0 <= i < |z.legs| && Approved(z)[i] < Part(Scale(z), z.legs[i].requested) {
      assert Rounded(z.legs[i], Scale(z)) && z.legs[i] in z.legs;
    }
  }

  // A leg whose scaled quantity is no whole number of lots.
  lemma {:induction false} RoundingCode(p: RiskPolicy, o: Order, c: Context, d: Decision)
    requires p.Valid() && o.Valid() && c.Valid() && c.equity > 0.0 && Sizable(o, c) && FitsOrder(p, o, c, d)
    requires ToSize(o) && Verdict(SizingOf(p, o, c)) != Allow
    ensures var z := SizingOf(p, o, c);
            MinimumLotRounding in d.reasons <==>
              exists i :: 0 <= i < |o.legs| && Approved(z)[i] < Part(Scale(z), o.legs[i].quantity)
  {
    var z := SizingOf(p, o, c);
    hide SizingOf, Verdict, Approved, Total, TotalRisk, FitsOrder, ToSize, SomeShort, SomeRounded, Scale;
    ReasonsOfSized(p, o, c, d, MinimumLotRounding);
    RoundedLegs(z);
    assert forall i :: 0 <= i < |o.legs| ==> z.legs[i].requested == o.legs[i].quantity;
  }

  lemma {:induction false} LostLegs(z: Sizing)
    requires z.Valid() && Total(Requested(z.legs)) > 0.0
    ensures SizingCause(NoExecutableQuantity, z) <==>
              exists i :: 0 <= i < |z.legs| && z.legs[i].requested > 0.0 && Approved(z)[i] == 0.0
  {
    hide Scale, WholeLots, TotalRisk, SomeShort, SomeRounded;
    forall i | 0 <= i < |z.legs|
      ensures 0.0 <= Approved(z)[i] <= z.legs[i].requested
    {
      ApprovedBounds(z, i);
    }
    AskedForSomething(Requested(z.legs));
    NothingAsked(Approved(z));
  }

  // A leg that is asked for and gets nothing.
  lemma {:induction false} NothingLeftCode(p: RiskPolicy, o: Order, c: Context, d: Decision)
    requires p.Valid() && o.Valid() && c.Valid() && c.equity > 0.0 && Sizable(o, c) && FitsOrder(p, o, c, d)
    requires ToSize(o) && Verdict(SizingOf(p, o, c)) != Allow
    ensures NoExecutableQuantity in d.reasons <==>
              exists i :: 0 <= i < |o.legs| && o.legs[i].quantity > 0.0 && Approved(SizingOf(p, o, c))[i] == 0.0
  {
    var z := SizingOf(p, o, c);
    AskedForSomething(Quantities(o));
    assert Requested(z.legs) == Quantities(o);
    hide SizingOf, Verdict, Approved, Total, TotalRisk, FitsOrder, SomeShort, SomeRounded, Scale, SizingCause;
    ReasonsOfSized(p, o, c, d, NoExecutableQuantity);
    LostLegs(z);
  }

  // The snapshot of a sized order: both caps and the smaller of them, the stop risk asked for, and of every leg what
  // was asked for, what there is, and what it gets.
  lemma {:induction false} SnapshotInFull(p: RiskPolicy, o: Order, c: Context, d: Decision, risks: seq<real>, i: nat)
    requires p.Valid() && o.Valid() && c.Valid() && c.equity > 0.0 && Sizable(o, c) && Asked(o, c, risks)
    requires FitsOrder(p, o, c, d) && ToSize(o) && i < |o.legs|
    ensures MaxTradeRisk in d.limits && d.limits[MaxTradeRisk] == c.equity * p.tradeFraction
    ensures OrderBudget in d.limits && d.limits[OrderBudget] == o.riskBudget
    ensures EffectiveBudget in d.limits && d.limits[EffectiveBudget] ==
              if o.riskBudget <= c.equity * p.tradeFraction then o.riskBudget else c.equity * p.tradeFraction
    ensures RequestedStopRisk in d.limits && d.limits[RequestedStopRisk] == Total(risks)
    ensures var id := o.legs[i].id;
            && RequestedQuantity(id) in d.limits && d.limits[RequestedQuantity(id)] == o.legs[i].quantity
            && AvailableQuantity(id) in d.limits && SizableLeg(o.legs[i], c)
            && d.limits[AvailableQuantity(id)] == c.legStates[id].available.value
            && ApprovedQuantity(id) in d.limits && d.limits[ApprovedQuantity(id)] == Approved(SizingOf(p, o, c))[i]
  {
    var z := SizingOf(p, o, c);
    hide Verdict, Approved, Total, TotalRisk, SizingReasons, SizingCause, SizingOf;
    assert Requested(z.legs) == Quantities(o);
    AskedForSomething(Quantities(o));
    AskedIs(p, o, c, risks, z);
    assert SizableLeg(o.legs[i], c) && z.legs[i] == SizedLegOf(o.legs[i], c);
  }

  // The risks are those of what is approved, leg by leg.
  ghost predicate Granted(o: Order, c: Context, z: Sizing, risks: seq<real>)
    requires z.Valid() && |z.legs| == |o.legs|
  {
    && |risks| == |o.legs|
    && forall i :: 0 <= i < |o.legs| ==>
         && Known(o, c, i) && c.legStates[o.legs[i].id].stopDistance.Some?
         && risks[i] == Approved(z)[i] * c.legStates[o.legs[i].id].stopDistance.value
  }

  lemma {:induction false} GrantedIs(p: RiskPolicy, o: Order, c: Context, risks: seq<real>, z: Sizing)
    requires p.Valid() && o.Valid() && c.Valid() && c.equity > 0.0 && Sizable(o, c)
    requires z == SizingOf(p, o, c) && Granted(o, c, z, risks)
    ensures Total(StopRisk(z.legs, Approved(z))) == Total(risks)
  {
    hide Total, Approved;
    forall i | 0 <= i < |o.legs|
      ensures StopRisk(z.legs, Approved(z))[i] == risks[i]
    {
      assert Known(o, c, i) && SizableLeg(o.legs[i], c) && z.legs[i] == SizedLegOf(o.legs[i], c);
      RiskIs(Approved(z)[i], c.legStates[o.legs[i].id].stopDistance.value, Approved(z)[i], z.legs[i].stop, risks[i]);
    }
    assert StopRisk(z.legs, Approved(z)) == risks;
  }

  // The snapshot's approved stop risk is their sum, and what the decision approves is the sum of the legs.
  lemma {:induction false} ApprovedRiskInFull(p: RiskPolicy, o: Order, c: Context, d: Decision, risks: seq<real>)
    requires p.Valid() && o.Valid() && c.Valid() && c.equity > 0.0 && Sizable(o, c)
    requires FitsOrder(p, o, c, d) && ToSize(o) && Granted(o, c, SizingOf(p, o, c), risks)
    ensures ApprovedStopRisk in d.limits && d.limits[ApprovedStopRisk] == Total(risks)
    ensures d.approved == if d.kind == Block then 0.0 else Total(Approved(SizingOf(p, o, c)))
  {
    var z := SizingOf(p, o, c);
    hide Verdict, Approved, Total, TotalRisk, SizingReasons, SizingCause, SizingOf, Granted;
    assert Requested(z.legs) == Quantities(o);
    AskedForSomething(Quantities(o));
    GrantedIs(p, o, c, risks, z);
  }

  // A decision names no reason twice.
  lemma {:induction false} ReasonsDiffer(p: RiskPolicy, o: Order, c: Context, d: Decision, i: nat, j: nat)
    requires p.Valid() && o.Valid() && c.Valid() && i < j < |d.reasons|
    requires if Clear(p, o, c) then Sizable(o, c) && c.equity > 0.0 && FitsOrder(p, o, c, d) else Distinct(d.reasons)
    ensures d.reasons[i] != d.reasons[j]
  {
    hide Clear, SizingOf, Verdict, Approved, Total, TotalRisk, SizingReasons, SizingCause, Snapshot;
  }
}

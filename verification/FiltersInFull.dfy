/** The hard filters of the ten-minute feature, code by code: each reason is given exactly when its fault is there. */
module FiltersInFull {
  import opened Numbers
  import opened Wrappers
  import opened OfiFeatures

  // ---------- lists of reasons ----------

  lemma {:induction false} InJoin(a: seq<Reason>, b: seq<Reason>, r: Reason)
    ensures r in a + b <==> r in a || r in b
  {
  }

  lemma {:induction false} InFour(a: seq<Reason>, b: seq<Reason>, c: seq<Reason>, d: seq<Reason>, r: Reason)
    ensures r in a + b + c + d <==> r in a || r in b || r in c || r in d
  {
    InJoin(a + b + c, d, r);
    InJoin(a + b, c, r);
    InJoin(a, b, r);
  }

  lemma {:induction false} InWhen(holds: bool, x: Reason, r: Reason)
    ensures r in When(holds, x) <==> holds && r == x
  {
  }

  // The faults of the settings and of the quality report.
  predicate SettingFault(i: Input, r: Reason) {
    match r
    case WindowNotFullyCovered => i.end - i.start != 600000000000
    case TickSizeInvalid => i.tickSize.None? || i.tickSize.value <= 0.0
    case AdvMissingOrInvalid => i.adv.value.None? || i.adv.value.value <= 0.0
    case PostCutoffAvailable =>
      && i.adv.value.Some? && i.adv.value.value > 0.0
      && (i.adv.availableAt.None? || i.adv.availableAt.value > i.end)
    case StructuralInputMissing => !i.structuralComplete
    case _ => false
  }

  lemma {:induction false} SettingsHave(i: Input, r: Reason)
    ensures r in SettingReasons(i.start, i.end, i.tickSize, i.adv, i.structuralComplete) <==> SettingFault(i, r)
  {
    var window := When(Seconds(i.end - i.start) != 600.0, WindowNotFullyCovered);
    var tick := When(i.tickSize.None? || i.tickSize.value <= 0.0, TickSizeInvalid);
    var adv := AdvReasons(i.adv, i.end);
    InJoin(window + tick + adv, When(!i.structuralComplete, StructuralInputMissing), r);
    InJoin(window + tick, adv, r);
    InJoin(window, tick, r);
  }

  predicate CaptureFault(q: Quality, r: Reason) {
    match r
    case ClockSyncError => q.clockErrorMs.None? || q.clockErrorMs.value > 50.0 || q.clockErrorMs.value < -50.0
    case WebsocketDisconnect => q.disconnects != 0
    case ParseFailure => q.parseFailures != 0
    case OutOfOrder => q.outOfOrder != 0
    case PacketGap =>
      || q.quoteMaxGap.None? || q.quoteMaxGap.value > 2.0 || q.tradeMaxGap.None? || q.tradeMaxGap.value > 2.0
      || q.tradeDuringGap
    case UnitUnconfirmed => !q.unitsConfirmed
    case ProgramSemanticsUnsealed => !q.semanticsSealed
    case _ => false
  }

  lemma {:induction false} CaptureHas(q: Quality, r: Reason)
    ensures r in CaptureReasons(q) <==> CaptureFault(q, r)
  {
    var a := When(q.clockErrorMs.None? || Abs(q.clockErrorMs.value) > 50.0, ClockSyncError);
    var b, c, d := When(q.disconnects != 0, WebsocketDisconnect), When(q.parseFailures != 0, ParseFailure),
      When(q.outOfOrder != 0, OutOfOrder);
    var e, f, g := When(GapReason(q), PacketGap), When(!q.unitsConfirmed, UnitUnconfirmed),
      When(!q.semanticsSealed, ProgramSemanticsUnsealed);
    hide CaptureFault, When, GapReason;
    var first := a + b + c + d;
    assert CaptureReasons(q) == first + e + f + g;
    InFour(first, e, f, g, r);
    InFour(a, b, c, d, r);
    CaptureFaults(q, r);
  }

  lemma {:induction false} CaptureFaults(q: Quality, r: Reason)
    ensures CaptureFault(q, r) <==>
              || r in When(q.clockErrorMs.None? || Abs(q.clockErrorMs.value) > 50.0, ClockSyncError)
              || r in When(q.disconnects != 0, WebsocketDisconnect) || r in When(q.parseFailures != 0, ParseFailure)
              || r in When(q.outOfOrder != 0, OutOfOrder) || r in When(GapReason(q), PacketGap)
              || r in When(!q.unitsConfirmed, UnitUnconfirmed)
              || r in When(!q.semanticsSealed, ProgramSemanticsUnsealed)
  {
  }

  predicate MarketFault(q: Quality, r: Reason) {
    match r
    case ProgramResetUnexplained => q.programReset
    case Vi => q.vi
    case Halted => q.halted
    case PriceLimit => q.priceLimit
    case MarketStateUnknown => !q.stateKnown
    case ApiSchemaDrift => q.schemaDrift
    case PostCutoffAvailable => q.postCutoffLineage
    case ForbiddenLineage => q.forbiddenLineage
    case _ => false
  }

  lemma {:induction false} MarketHas(q: Quality, r: Reason)
    ensures r in MarketReasons(q) <==> MarketFault(q, r)
  {
    var a, b, c, d := When(q.programReset, ProgramResetUnexplained), When(q.vi, Vi), When(q.halted, Halted),
      When(q.priceLimit, PriceLimit);
    var e, f := When(!q.stateKnown, MarketStateUnknown), When(q.schemaDrift, ApiSchemaDrift);
    hide MarketFault, When;
    var g, h := When(q.postCutoffLineage, PostCutoffAvailable), When(q.forbiddenLineage, ForbiddenLineage);
    var first := a + b + c + d;
    assert MarketReasons(q) == first + e + f + g + h;
    InJoin(first + e + f + g, h, r);
    InFour(first, e, f, g, r);
    InFour(a, b, c, d, r);
    MarketFaults(q, r);
  }

  lemma {:induction false} MarketFaults(q: Quality, r: Reason)
    ensures MarketFault(q, r) <==>
              || r in When(q.programReset, ProgramResetUnexplained) || r in When(q.vi, Vi)
              || r in When(q.halted, Halted) || r in When(q.priceLimit, PriceLimit)
              || r in When(!q.stateKnown, MarketStateUnknown) || r in When(q.schemaDrift, ApiSchemaDrift)
              || r in When(q.postCutoffLineage, PostCutoffAvailable) || r in When(q.forbiddenLineage, ForbiddenLineage)
  {
    hide When;
    InWhen(q.programReset, ProgramResetUnexplained, r);
    InWhen(q.vi, Vi, r);
    InWhen(q.halted, Halted, r);
    InWhen(q.priceLimit, PriceLimit, r);
    InWhen(!q.stateKnown, MarketStateUnknown, r);
    InWhen(q.schemaDrift, ApiSchemaDrift, r);
    InWhen(q.postCutoffLineage, PostCutoffAvailable, r);
    InWhen(q.forbiddenLineage, ForbiddenLineage, r);
  }

  // ---------- books ----------

  // Ten levels on both sides, with positive prices and sizes that are not negative.
  predicate FullDepth(q: Quote) {
    && |q.bidPrices| == 10 && |q.askPrices| == 10 && |q.bidQtys| == 10 && |q.askQtys| == 10
    && forall k :: 0 <= k < 10 ==>
         && q.bidPrices[k].Some? && q.bidPrices[k].value > 0.0 && q.askPrices[k].Some? && q.askPrices[k].value > 0.0
         && q.bidQtys[k].Some? && q.bidQtys[k].value >= 0.0 && q.askQtys[k].Some? && q.askQtys[k].value >= 0.0
  }

  // Some level of some side has a size.
  predicate SomeSize(q: Quote)
    requires FullDepth(q)
  {
    exists k :: 0 <= k < 10 && (q.bidQtys[k].value > 0.0 || q.askQtys[k].value > 0.0)
  }

  predicate GoodBook(q: Quote) {
    FullDepth(q) && q.bidPrices[0].value < q.askPrices[0].value && SomeSize(q)
  }

  lemma {:induction false} FullMeansComplete(q: Quote)
    ensures FullDepth(q) <==> Complete(q)
  {
    if Complete(q) {
      forall k | 0 <= k < 10
        ensures q.bidPrices[k].Some? && q.bidPrices[k].value > 0.0 && q.askPrices[k].Some? && q.askPrices[k].value > 0.0
        ensures q.bidQtys[k].Some? && q.bidQtys[k].value >= 0.0 && q.askQtys[k].Some? && q.askQtys[k].value >= 0.0
      {
        assert Present(q.bidQtys[k]) && Present(q.askQtys[k]);
      }
    }
  }

  lemma {:induction false} NothingIffZero(vs: Levels)
    requires forall k :: 0 <= k < |vs| ==> Present(vs[k])
    ensures SumOfLevels(vs) >= 0.0
    ensures SumOfLevels(vs) > 0.0 <==> exists k :: 0 <= k < |vs| && vs[k].Some? && vs[k].value > 0.0
  {
    if vs != [] {
      var n := |vs| - 1;
      NothingIffZero(vs[..n]);
      if k :| 0 <= k < |vs| && vs[k].Some? && vs[k].value > 0.0 {
        assert k < n ==> vs[..n][k] == vs[k];
      }
    }
  }

  lemma {:induction false} FaultIs(q: Quote)
    ensures BookFault(q) == Some(DepthIncomplete) <==> !FullDepth(q)
    ensures BookFault(q) == Some(CrossedOrLockedBook) <==>
              FullDepth(q) && q.bidPrices[0].value >= q.askPrices[0].value
    ensures BookFault(q) == Some(BestDepthZero) <==>
              FullDepth(q) && q.bidPrices[0].value < q.askPrices[0].value && !SomeSize(q)
    ensures BookFault(q) == None <==> GoodBook(q)
  {
    FullMeansComplete(q);
    if Complete(q) {
      NothingIffZero(q.bidQtys);
      NothingIffZero(q.askQtys);
    }
  }

  // ---------- the events, once they all have times ----------

  ghost predicate Timed(i: Input) {
    && (forall k :: 0 <= k < |i.quotes| ==> i.quotes[k].time.Some?)
    && (forall k :: 0 <= k < |i.programs| ==> i.programs[k].time.Some?)
  }

  // Position k holds the last of the quotes up to the window's end, in the order they are listed, and that quote is
  // more than two seconds old when the window ends.
  ghost predicate StaleQuote(i: Input, k: nat) {
    && k < |i.quotes| && i.quotes[k].time.Some? && i.quotes[k].time.value < i.end - 2000000000
    && forall j :: k < j < |i.quotes| ==> i.quotes[j].time.Some? && i.quotes[j].time.value > i.end
  }

  ghost predicate StaleProgram(i: Input, k: nat) {
    && k < |i.programs| && i.programs[k].time.Some? && i.programs[k].time.value < i.end - 2000000000
    && forall j :: k < j < |i.programs| ==> i.programs[j].time.Some? && i.programs[j].time.value > i.end
  }

  // Quote k is the first of those up to the window's end whose book is not good.
  ghost predicate FirstBadBook(i: Input, k: nat) {
    && k < |i.quotes| && QuoteBy(i.quotes[k], i.end) && !GoodBook(i.quotes[k])
    && forall j :: 0 <= j < k && QuoteBy(i.quotes[j], i.end) ==> GoodBook(i.quotes[j])
  }

  // The last one up to the cutoff, at position k, is what the filters call the last eligible quote.
  lemma {:induction false} LastOfQuotes(qs: seq<Quote>, cutoff: int, k: nat)
    requires k < |qs| && QuoteBy(qs[k], cutoff) && forall j :: k < j < |qs| ==> !QuoteBy(qs[j], cutoff)
    ensures QuotesBy(qs, cutoff) != [] && QuotesBy(qs, cutoff)[|QuotesBy(qs, cutoff)| - 1] == qs[k]
  {
    if k < |qs| - 1 {
      LastOfQuotes(qs[..|qs| - 1], cutoff, k);
    }
  }

  lemma {:induction false} SomeLastQuote(qs: seq<Quote>, cutoff: int) returns (k: nat)
    requires QuotesBy(qs, cutoff) != []
    ensures k < |qs| && QuoteBy(qs[k], cutoff) && forall j :: k < j < |qs| ==> !QuoteBy(qs[j], cutoff)
  {
    k := |qs| - 1;
    if !QuoteBy(qs[k], cutoff) {
      k := SomeLastQuote(qs[..k], cutoff);
    }
  }

  lemma {:induction false} LastOfPrograms(ps: seq<Program>, cutoff: int, k: nat)
    requires k < |ps| && ProgramBy(ps[k], cutoff) && forall j :: k < j < |ps| ==> !ProgramBy(ps[j], cutoff)
    ensures ProgramsBy(ps, cutoff) != [] && ProgramsBy(ps, cutoff)[|ProgramsBy(ps, cutoff)| - 1] == ps[k]
  {
    if k < |ps| - 1 {
      LastOfPrograms(ps[..|ps| - 1], cutoff, k);
    }
  }

  lemma {:induction false} SomeLastProgram(ps: seq<Program>, cutoff: int) returns (k: nat)
    requires ProgramsBy(ps, cutoff) != []
    ensures k < |ps| && ProgramBy(ps[k], cutoff) && forall j :: k < j < |ps| ==> !ProgramBy(ps[j], cutoff)
  {
    k := |ps| - 1;
    if !ProgramBy(ps[k], cutoff) {
      k := SomeLastProgram(ps[..k], cutoff);
    }
  }

  // The first bad book up to the cutoff gives the reason; k is its position, or the length if there is none.
  lemma {:induction false} FirstBad(qs: seq<Quote>, cutoff: int) returns (k: nat)
    ensures k <= |qs| && forall j :: 0 <= j < k && QuoteBy(qs[j], cutoff) ==> BookFault(qs[j]).None?
    ensures k == |qs| ==> FirstFault(QuotesBy(qs, cutoff)) == []
    ensures k < |qs| ==>
              && QuoteBy(qs[k], cutoff) && BookFault(qs[k]).Some?
              && FirstFault(QuotesBy(qs, cutoff)) == [BookFault(qs[k]).value]
  {
    k := 0;
    if qs != [] {
      var n := |qs| - 1;
      k := FirstBad(qs[..n], cutoff);
      OneMoreBook(QuotesBy(qs[..n], cutoff), qs[n]);
      assert QuotesBy(qs[..n], cutoff) + [] == QuotesBy(qs[..n], cutoff);
      if k == n && (!QuoteBy(qs[n], cutoff) || BookFault(qs[n]).None?) {
        k := n + 1;
      }
    }
  }

  lemma {:induction false} OneMoreBook(before: seq<Quote>, q: Quote)
    ensures FirstFault(before) != [] ==> FirstFault(before + [q]) == FirstFault(before)
    ensures FirstFault(before) == [] ==>
              FirstFault(before + [q]) == if BookFault(q).Some? then [BookFault(q).value] else []
  {
    assert (before + [q])[..|before|] == before;
  }

  lemma {:induction false} StaleQuotesAre(i: Input)
    requires Timed(i)
    ensures (exists k: nat :: StaleQuote(i, k)) <==>
              var eligible := QuotesBy(i.quotes, i.end);
              eligible != [] && Stale(eligible[|eligible| - 1].time, i.end)
  {
    if k: nat :| StaleQuote(i, k) {
      LastOfQuotes(i.quotes, i.end, k);
    }
    if QuotesBy(i.quotes, i.end) != [] {
      var k := SomeLastQuote(i.quotes, i.end);
      LastOfQuotes(i.quotes, i.end, k);
      if Stale(i.quotes[k].time, i.end) {
        assert StaleQuote(i, k);
      }
    }
  }

  lemma {:induction false} StaleProgramsAre(i: Input)
    requires Timed(i)
    ensures (exists k: nat :: StaleProgram(i, k)) <==>
              var eligible := ProgramsBy(i.programs, i.end);
              eligible != [] && Stale(eligible[|eligible| - 1].time, i.end)
  {
    if k: nat :| StaleProgram(i, k) {
      LastOfPrograms(i.programs, i.end, k);
    }
    if ProgramsBy(i.programs, i.end) != [] {
      var k := SomeLastProgram(i.programs, i.end);
      LastOfPrograms(i.programs, i.end, k);
      if Stale(i.programs[k].time, i.end) {
        assert StaleProgram(i, k);
      }
    }
  }

  lemma {:induction false} BadBooksAre(i: Input, r: Reason)
    ensures r in FirstFault(QuotesBy(i.quotes, i.end)) <==>
              exists k: nat :: FirstBadBook(i, k) && BookFault(i.quotes[k]) == Some(r)
  {
    var k := FirstBad(i.quotes, i.end);
    forall j | 0 <= j < |i.quotes|
      ensures BookFault(i.quotes[j]) == None <==> GoodBook(i.quotes[j])
    {
      FaultIs(i.quotes[j]);
    }
    if k < |i.quotes| {
      assert FirstBadBook(i, k);
    }
  }

  // ---------- the reasons the events give ----------

  ghost predicate Baseline(i: Input) {
    exists k :: 0 <= k < |i.quotes| && QuoteBy(i.quotes[k], i.end) && QuoteBy(i.quotes[k], i.start)
  }

  ghost predicate ProgramBaseline(i: Input) {
    exists k :: 0 <= k < |i.programs| && ProgramBy(i.programs[k], i.end) && ProgramBy(i.programs[k], i.start)
  }

  lemma {:induction false} BaselineIs(i: Input)
    ensures SomeQuoteBy(QuotesBy(i.quotes, i.end), i.start) <==> Baseline(i)
    ensures SomeProgramBy(ProgramsBy(i.programs, i.end), i.start) <==> ProgramBaseline(i)
  {
    QuotesByMembers(i.quotes, i.end);
    ProgramsByMembers(i.programs, i.end);
    if SomeQuoteBy(QuotesBy(i.quotes, i.end), i.start) {
      var q :| q in QuotesBy(i.quotes, i.end) && QuoteBy(q, i.start);
      var k :| 0 <= k < |i.quotes| && i.quotes[k] == q;
    }
    if SomeProgramBy(ProgramsBy(i.programs, i.end), i.start) {
      var p :| p in ProgramsBy(i.programs, i.end) && ProgramBy(p, i.start);
      var k :| 0 <= k < |i.programs| && i.programs[k] == p;
    }
  }

  ghost predicate QuoteFault(i: Input, r: Reason) {
    || (r == SnapshotAfterCutoff && !Baseline(i) && SomeQuoteAfter(i.quotes, i.end))
    || (r == WindowNotFullyCovered && !Baseline(i))
    || (r == SnapshotStale && exists k: nat :: StaleQuote(i, k))
    || exists k: nat :: FirstBadBook(i, k) && BookFault(i.quotes[k]) == Some(r)
  }

  lemma {:induction false} QuotesHave(i: Input, r: Reason)
    requires Timed(i)
    ensures r in QuoteReasons(QuotesBy(i.quotes, i.end), i.start, i.end, SomeQuoteAfter(i.quotes, i.end))
        <==> QuoteFault(i, r)
  {
    hide QuoteReasons, FirstFault, Stale, StaleQuote, FirstBadBook, BookFault, Baseline;
    var eligible, late := QuotesBy(i.quotes, i.end), SomeQuoteAfter(i.quotes, i.end);
    BaselineIs(i);
    StaleQuotesAre(i);
    BadBooksAre(i, r);
    assert eligible == [] ==> !SomeQuoteBy(eligible, i.start);
    QuotePartsHave(eligible, i.start, i.end, late, r);
  }

  lemma {:induction false} QuotePartsHave(eligible: seq<Quote>, start: int, end: int, late: bool, r: Reason)
    requires eligible == [] ==> !SomeQuoteBy(eligible, start)
    ensures r in QuoteReasons(eligible, start, end, late) <==>
              || (r == SnapshotAfterCutoff && !SomeQuoteBy(eligible, start) && late)
              || (r == WindowNotFullyCovered && !SomeQuoteBy(eligible, start))
              || (r == SnapshotStale && eligible != [] && Stale(eligible[|eligible| - 1].time, end))
              || r in FirstFault(eligible)
  {
    hide Stale, FirstFault;
    var cover := if SomeQuoteBy(eligible, start) then []
                 else When(late, SnapshotAfterCutoff) + [WindowNotFullyCovered];
    var last := if eligible == [] then [WindowNotFullyCovered]
                 else When(Stale(eligible[|eligible| - 1].time, end), SnapshotStale);
    assert QuoteReasons(eligible, start, end, late) == cover + last + FirstFault(eligible);
    InJoin(cover + last, FirstFault(eligible), r);
    InJoin(cover, last, r);
    InJoin(When(late, SnapshotAfterCutoff), [WindowNotFullyCovered], r);
  }

  ghost predicate ProgramFault(i: Input, r: Reason) {
    || (r == ProgramSourceNotKrx &&
        exists k :: 0 <= k < |i.programs| && ProgramBy(i.programs[k], i.end) && !FromKrx(i.programs[k]))
    || (r == ProgramMissing && ProgramLacks(i))
    || (r == SnapshotStale && exists k: nat :: StaleProgram(i, k))
    || (r == ProgramSemanticsUnsealed && i.semantics.Unsealed?)
  }

  // No event up to the end, one without an amount, or no cumulative value to start from.
  ghost predicate ProgramLacks(i: Input) {
    || (forall k :: 0 <= k < |i.programs| ==> !ProgramBy(i.programs[k], i.end))
    || (exists k :: 0 <= k < |i.programs| && ProgramBy(i.programs[k], i.end) && i.programs[k].net.None?)
    || (i.semantics.Cumulative? && !ProgramBaseline(i))
  }

  lemma {:induction false} EligibleProgramsAre(i: Input)
    ensures var eligible := ProgramsBy(i.programs, i.end);
            && (eligible == [] <==> forall k :: 0 <= k < |i.programs| ==> !ProgramBy(i.programs[k], i.end))
            && (SomeForeign(eligible) <==>
                exists k :: 0 <= k < |i.programs| && ProgramBy(i.programs[k], i.end) && !FromKrx(i.programs[k]))
            && (SomeNetMissing(eligible) <==>
                exists k :: 0 <= k < |i.programs| && ProgramBy(i.programs[k], i.end) && i.programs[k].net.None?)
  {
    var eligible := ProgramsBy(i.programs, i.end);
    ProgramsByMembers(i.programs, i.end);
    assert eligible != [] ==> eligible[0] in eligible;
    forall k | 0 <= k < |i.programs|
      ensures i.programs[k] in eligible <==> ProgramBy(i.programs[k], i.end)
    {
    }
    if SomeForeign(eligible) {
      var p :| p in eligible && !FromKrx(p);
      var k :| 0 <= k < |i.programs| && i.programs[k] == p;
    }
    if SomeNetMissing(eligible) {
      var p :| p in eligible && p.net.None?;
      var k :| 0 <= k < |i.programs| && i.programs[k] == p;
    }
  }

  lemma {:induction false} ProgramPartsHave(eligible: seq<Program>, start: int, end: int, semantics: Semantics,
      r: Reason)
    ensures r in ProgramReasons(eligible, start, end, semantics) <==>
              || (r == ProgramSourceNotKrx && eligible != [] && SomeForeign(eligible))
              || (r == ProgramMissing &&
                  (eligible == [] || SomeNetMissing(eligible)
                   || (semantics.Cumulative? && !SomeProgramBy(eligible, start))))
              || (r == SnapshotStale && eligible != [] && Stale(eligible[|eligible| - 1].time, end))
              || (r == ProgramSemanticsUnsealed && semantics.Unsealed?)
  {
    hide Stale, SomeForeign, SomeNetMissing, SomeProgramBy;
    var unsealed := When(semantics.Unsealed?, ProgramSemanticsUnsealed);
    if eligible == [] {
      InJoin([ProgramMissing], unsealed, r);
    } else {
      var a, b := When(SomeForeign(eligible), ProgramSourceNotKrx), When(SomeNetMissing(eligible), ProgramMissing);
      var c := When(Stale(eligible[|eligible| - 1].time, end), SnapshotStale);
      var d := When(semantics.Cumulative? && !SomeProgramBy(eligible, start), ProgramMissing);
      assert ProgramReasons(eligible, start, end, semantics) == (a + b + c + d) + unsealed;
      InJoin(a + b + c + d, unsealed, r);
      InFour(a, b, c, d, r);
    }
  }

  lemma {:induction false} ProgramsHave(i: Input, r: Reason)
    requires Timed(i)
    ensures r in ProgramReasons(ProgramsBy(i.programs, i.end), i.start, i.end, i.semantics) <==> ProgramFault(i, r)
  {
    BaselineIs(i);
    StaleProgramsAre(i);
    EligibleProgramsAre(i);
    ProgramPartsHave(ProgramsBy(i.programs, i.end), i.start, i.end, i.semantics, r);
  }

  ghost predicate Increasing(i: Input)
    requires Timed(i)
  {
    && (forall j, k :: 0 <= j < k < |i.quotes| ==> i.quotes[j].time.value < i.quotes[k].time.value)
    && (forall j, k :: 0 <= j < k < |i.programs| ==> i.programs[j].time.value < i.programs[k].time.value)
  }

  lemma {:induction false} IncreasingPrograms(ps: seq<Program>, i: nat, j: nat)
    requires ProgramsTimed(ps) && ProgramsIncrease(ps) && i < j < |ps|
    ensures ps[i].time.value < ps[j].time.value
    decreases j - i
  {
    if i + 1 < j {
      IncreasingPrograms(ps, i + 1, j);
    }
    assert ps[i].time.value < ps[i + 1].time.value;
  }

  lemma {:induction false} OrderIs(i: Input)
    requires Timed(i)
    ensures QuotesIncrease(i.quotes) && ProgramsIncrease(i.programs) <==> Increasing(i)
  {
    if QuotesIncrease(i.quotes) && ProgramsIncrease(i.programs) {
      forall j, k | 0 <= j < k < |i.quotes|
        ensures i.quotes[j].time.value < i.quotes[k].time.value
      {
        IncreasingQuotes(i.quotes, j, k);
      }
      forall j, k | 0 <= j < k < |i.programs|
        ensures i.programs[j].time.value < i.programs[k].time.value
      {
        IncreasingPrograms(i.programs, j, k);
      }
    }
  }

  ghost predicate EventFault(i: Input, r: Reason) {
    if !Timed(i) then r == ProviderEventTimeMissing
    else (r == OutOfOrder && !Increasing(i)) || QuoteFault(i, r) || ProgramFault(i, r)
  }

  lemma {:induction false} EventsHave(i: Input, r: Reason)
    ensures r in EventReasons(i) <==> EventFault(i, r)
  {
    hide QuoteReasons, ProgramReasons, QuoteFault, ProgramFault, Increasing, QuotesIncrease, ProgramsIncrease;
    if Timed(i) {
      QuotesHave(i, r);
      ProgramsHave(i, r);
      OrderIs(i);
      var order := When(!QuotesIncrease(i.quotes) || !ProgramsIncrease(i.programs), OutOfOrder);
      var quotes := QuoteReasons(QuotesBy(i.quotes, i.end), i.start, i.end, SomeQuoteAfter(i.quotes, i.end));
      var programs := ProgramReasons(ProgramsBy(i.programs, i.end), i.start, i.end, i.semantics);
      InJoin(order + quotes, programs, r);
      InJoin(order, quotes, r);
    }
  }

  lemma {:induction false} FiltersHave(i: Input, r: Reason)
    ensures r in HardReasons(i) <==>
              SettingFault(i, r) || CaptureFault(i.quality, r) || MarketFault(i.quality, r) || EventFault(i, r)
  {
    hide SettingFault, CaptureFault, MarketFault, EventFault, EventReasons, SettingReasons, CaptureReasons,
      MarketReasons;
    var settings := SettingReasons(i.start, i.end, i.tickSize, i.adv, i.structuralComplete);
    SettingsHave(i, r);
    CaptureHas(i.quality, r);
    MarketHas(i.quality, r);
    EventsHave(i, r);
    InJoin(settings + (CaptureReasons(i.quality) + MarketReasons(i.quality)), EventReasons(i), r);
    InJoin(settings, CaptureReasons(i.quality) + MarketReasons(i.quality), r);
    InJoin(CaptureReasons(i.quality), MarketReasons(i.quality), r);
  }

  // ---------- each code, on the input itself ----------

  // The codes that events can give.
  predicate AboutEvents(r: Reason) {
    || r == ProviderEventTimeMissing || r == OutOfOrder || r == SnapshotAfterCutoff || r == WindowNotFullyCovered
    || r == SnapshotStale || r == DepthIncomplete || r == CrossedOrLockedBook || r == BestDepthZero
    || r == ProgramSourceNotKrx || r == ProgramMissing || r == ProgramSemanticsUnsealed
  }

  predicate AboutBooks(r: Reason) {
    r == DepthIncomplete || r == CrossedOrLockedBook || r == BestDepthZero
  }

  lemma {:induction false} BookCode(q: Quote, r: Reason)
    requires BookFault(q) == Some(r)
    ensures AboutBooks(r)
  {
    hide Complete;
  }

  lemma {:induction false} NotAboutBooks(i: Input, r: Reason)
    requires !AboutBooks(r)
    ensures !exists k: nat :: FirstBadBook(i, k) && BookFault(i.quotes[k]) == Some(r)
  {
    hide BookFault, GoodBook;
    forall k: nat | FirstBadBook(i, k)
      ensures BookFault(i.quotes[k]) != Some(r)
    {
      if BookFault(i.quotes[k]) == Some(r) {
        BookCode(i.quotes[k], r);
      }
    }
  }

  // Another code is about the settings or the quality report alone.
  lemma {:induction false} OtherCode(i: Input, r: Reason)
    requires !AboutEvents(r)
    ensures r in HardReasons(i) <==> SettingFault(i, r) || CaptureFault(i.quality, r) || MarketFault(i.quality, r)
  {
    hide HardReasons, SettingFault, CaptureFault, MarketFault, FirstBadBook, StaleQuote, StaleProgram, Increasing,
      Baseline, ProgramLacks, BookFault;
    FiltersHave(i, r);
    NotAboutBooks(i, r);
  }

  // A code about events but not about books.
  lemma {:induction false} EventCode(i: Input, r: Reason)
    requires AboutEvents(r) && !AboutBooks(r)
    ensures r in HardReasons(i) <==>
              || SettingFault(i, r) || CaptureFault(i.quality, r)
              || (if !Timed(i) then r == ProviderEventTimeMissing
                  else
                    || (r == OutOfOrder && !Increasing(i))
                    || (r == SnapshotAfterCutoff && !Baseline(i) && SomeQuoteAfter(i.quotes, i.end))
                    || (r == WindowNotFullyCovered && !Baseline(i))
                    || (r == SnapshotStale && exists k: nat :: StaleQuote(i, k))
                    || ProgramFault(i, r))
  {
    hide HardReasons, SettingFault, CaptureFault, FirstBadBook, StaleQuote, ProgramFault, Increasing, Baseline,
      BookFault;
    FiltersHave(i, r);
    NotAboutBooks(i, r);
  }

  // The settings, and the two codes they share with other faults.
  lemma {:induction false} SettingCodes(i: Input)
    ensures TickSizeInvalid in HardReasons(i) <==> i.tickSize.None? || i.tickSize.value <= 0.0
    ensures AdvMissingOrInvalid in HardReasons(i) <==> i.adv.value.None? || i.adv.value.value <= 0.0
    ensures StructuralInputMissing in HardReasons(i) <==> !i.structuralComplete
    ensures PostCutoffAvailable in HardReasons(i) <==>
              || i.quality.postCutoffLineage
              || (&& i.adv.value.Some? && i.adv.value.value > 0.0
                  && (i.adv.availableAt.None? || i.adv.availableAt.value > i.end))
  {
    hide HardReasons;
    OtherCode(i, TickSizeInvalid);
    OtherCode(i, AdvMissingOrInvalid);
    OtherCode(i, StructuralInputMissing);
    OtherCode(i, PostCutoffAvailable);
  }

  // The capture report.
  lemma {:induction false} CaptureCodes(i: Input)
    ensures ClockSyncError in HardReasons(i) <==>
              || i.quality.clockErrorMs.None? || i.quality.clockErrorMs.value > 50.0
              || i.quality.clockErrorMs.value < -50.0
    ensures WebsocketDisconnect in HardReasons(i) <==> i.quality.disconnects != 0
    ensures ParseFailure in HardReasons(i) <==> i.quality.parseFailures != 0
    ensures PacketGap in HardReasons(i) <==>
              || i.quality.quoteMaxGap.None? || i.quality.quoteMaxGap.value > 2.0
              || i.quality.tradeMaxGap.None? || i.quality.tradeMaxGap.value > 2.0 || i.quality.tradeDuringGap
    ensures UnitUnconfirmed in HardReasons(i) <==> !i.quality.unitsConfirmed
  {
    hide HardReasons;
    OtherCode(i, ClockSyncError);
    OtherCode(i, WebsocketDisconnect);
    OtherCode(i, ParseFailure);
    OtherCode(i, PacketGap);
    OtherCode(i, UnitUnconfirmed);
  }

  predicate AboutMarket(r: Reason) {
    || r == ProgramResetUnexplained || r == Vi || r == Halted || r == PriceLimit || r == MarketStateUnknown
    || r == ApiSchemaDrift || r == ForbiddenLineage
  }

  lemma {:induction false} MarketCode(i: Input, r: Reason)
    requires AboutMarket(r)
    ensures r in HardReasons(i) <==> MarketFault(i.quality, r)
  {
    hide HardReasons, MarketFault;
    OtherCode(i, r);
  }

  // The state of the market.
  lemma {:induction false} MarketCodes(i: Input)
    ensures Vi in HardReasons(i) <==> i.quality.vi
    ensures Halted in HardReasons(i) <==> i.quality.halted
    ensures PriceLimit in HardReasons(i) <==> i.quality.priceLimit
    ensures MarketStateUnknown in HardReasons(i) <==> !i.quality.stateKnown
  {
    hide HardReasons;
    MarketCode(i, Vi);
    MarketCode(i, Halted);
    MarketCode(i, PriceLimit);
    MarketCode(i, MarketStateUnknown);
  }

  // The state of the data.
  lemma {:induction false} DataCodes(i: Input)
    ensures ProgramResetUnexplained in HardReasons(i) <==> i.quality.programReset
    ensures ApiSchemaDrift in HardReasons(i) <==> i.quality.schemaDrift
    ensures ForbiddenLineage in HardReasons(i) <==> i.quality.forbiddenLineage
  {
    hide HardReasons;
    MarketCode(i, ProgramResetUnexplained);
    MarketCode(i, ApiSchemaDrift);
    MarketCode(i, ForbiddenLineage);
  }

  // Some event has no time; and otherwise the order of the events, and what the end of the window finds.
  lemma {:induction false} TimeCodes(i: Input)
    ensures ProviderEventTimeMissing in HardReasons(i) <==>
              || (exists k :: 0 <= k < |i.quotes| && i.quotes[k].time.None?)
              || (exists k :: 0 <= k < |i.programs| && i.programs[k].time.None?)
    ensures var timed := ProviderEventTimeMissing !in HardReasons(i);
            && (OutOfOrder in HardReasons(i) <==>
                || i.quality.outOfOrder != 0
                || (timed && exists j, k :: 0 <= j < k < |i.quotes| && !Earlier(i.quotes[j].time, i.quotes[k].time))
                || (timed &&
                    exists j, k :: 0 <= j < k < |i.programs| && !Earlier(i.programs[j].time, i.programs[k].time)))
            && (SnapshotStale in HardReasons(i) <==>
                timed && ((exists k: nat :: StaleQuote(i, k)) || exists k: nat :: StaleProgram(i, k)))
  {
    hide HardReasons;
    EventCode(i, ProviderEventTimeMissing);
    EventCode(i, OutOfOrder);
    EventCode(i, SnapshotStale);
  }

  predicate Earlier(a: Option<int>, b: Option<int>) {
    a.Some? && b.Some? && a.value < b.value
  }

  lemma {:induction false} BadBookCode(i: Input, r: Reason)
    requires AboutBooks(r)
    ensures r in HardReasons(i) <==>
              Timed(i) && exists k: nat :: FirstBadBook(i, k) && BookFault(i.quotes[k]) == Some(r)
    ensures Timed(i) <==> ProviderEventTimeMissing !in HardReasons(i)
  {
    hide HardReasons, FirstBadBook, StaleQuote, StaleProgram, Increasing, Baseline, ProgramLacks, BookFault;
    FiltersHave(i, r);
    EventCode(i, ProviderEventTimeMissing);
  }

  // The books: the first bad one up to the window's end decides which of the three codes is given.
  lemma {:induction false} BookCodes(i: Input)
    ensures var timed := ProviderEventTimeMissing !in HardReasons(i);
            && (DepthIncomplete in HardReasons(i) <==>
                timed && exists k: nat :: FirstBadBook(i, k) && !FullDepth(i.quotes[k]))
            && (CrossedOrLockedBook in HardReasons(i) <==>
                timed && exists k: nat :: FirstBadBook(i, k) && FullDepth(i.quotes[k]) && Crossed(i.quotes[k]))
            && (BestDepthZero in HardReasons(i) <==>
                timed && exists k: nat :: FirstBadBook(i, k) && FullDepth(i.quotes[k]) && !Crossed(i.quotes[k]))
  {
    hide HardReasons, FullDepth, Crossed, BookFault, GoodBook, QuoteBy;
    BadBookCode(i, DepthIncomplete);
    BadBookCode(i, CrossedOrLockedBook);
    BadBookCode(i, BestDepthZero);
    forall k: nat | FirstBadBook(i, k)
      ensures BookFault(i.quotes[k]) == Some(DepthIncomplete) <==> !FullDepth(i.quotes[k])
      ensures BookFault(i.quotes[k]) == Some(CrossedOrLockedBook) <==>
                FullDepth(i.quotes[k]) && Crossed(i.quotes[k])
      ensures BookFault(i.quotes[k]) == Some(BestDepthZero) <==> FullDepth(i.quotes[k]) && !Crossed(i.quotes[k])
    {
      BadBookIs(i, k);
    }
  }

  lemma {:induction false} BadBookIs(i: Input, k: nat)
    requires FirstBadBook(i, k)
    ensures BookFault(i.quotes[k]) == Some(DepthIncomplete) <==> !FullDepth(i.quotes[k])
    ensures BookFault(i.quotes[k]) == Some(CrossedOrLockedBook) <==> FullDepth(i.quotes[k]) && Crossed(i.quotes[k])
    ensures BookFault(i.quotes[k]) == Some(BestDepthZero) <==> FullDepth(i.quotes[k]) && !Crossed(i.quotes[k])
  {
    FaultIs(i.quotes[k]);
  }

  predicate Crossed(q: Quote)
    requires FullDepth(q)
  {
    q.bidPrices[0].value >= q.askPrices[0].value
  }

  // The window: its length, the quote it starts with, and what arrived only after it.
  lemma {:induction false} WindowCodes(i: Input)
    ensures var timed := ProviderEventTimeMissing !in HardReasons(i);
            var started := exists k :: 0 <= k < |i.quotes| && i.quotes[k].time.Some?
                             && i.quotes[k].time.value <= i.end && i.quotes[k].time.value <= i.start;
            && (WindowNotFullyCovered in HardReasons(i) <==>
                i.end - i.start != 600000000000 || (timed && !started))
            && (SnapshotAfterCutoff in HardReasons(i) <==>
                timed && !started
                && exists k :: 0 <= k < |i.quotes| && i.quotes[k].time.Some? && i.quotes[k].time.value > i.end)
  {
    hide HardReasons;
    EventCode(i, ProviderEventTimeMissing);
    EventCode(i, WindowNotFullyCovered);
    EventCode(i, SnapshotAfterCutoff);
    if SomeQuoteAfter(i.quotes, i.end) {
      var q :| q in i.quotes && q.time.Some? && q.time.value > i.end;
      var k :| 0 <= k < |i.quotes| && i.quotes[k] == q;
    }
  }

  // The program events: their source, their amounts, the value to start from, and the seal of their meaning.
  lemma {:induction false} ProgramCodes(i: Input)
    ensures var timed := ProviderEventTimeMissing !in HardReasons(i);
            && (ProgramSourceNotKrx in HardReasons(i) <==>
                timed && exists k :: 0 <= k < |i.programs| && ProgramBy(i.programs[k], i.end)
                                     && (i.programs[k].trId != "H0STPGM0" || i.programs[k].venue != "KRX"))
            && (ProgramMissing in HardReasons(i) <==>
                timed &&
                (|| (forall k :: 0 <= k < |i.programs| ==> !ProgramBy(i.programs[k], i.end))
                 || (exists k :: 0 <= k < |i.programs| && ProgramBy(i.programs[k], i.end) && i.programs[k].net.None?)
                 || (i.semantics.Cumulative? &&
                     forall k :: 0 <= k < |i.programs| && ProgramBy(i.programs[k], i.end) ==>
                       i.programs[k].time.value > i.start)))
            && (ProgramSemanticsUnsealed in HardReasons(i) <==>
                !i.quality.semanticsSealed || (timed && i.semantics.Unsealed?))
  {
    hide HardReasons;
    EventCode(i, ProviderEventTimeMissing);
    EventCode(i, ProgramSourceNotKrx);
    EventCode(i, ProgramMissing);
    EventCode(i, ProgramSemanticsUnsealed);
  }

  // ---------- the order of the reasons ----------

  // Reasons are listed in the order in which they are first found.
  lemma {:induction false} FirstFoundFirst(xs: seq<Reason>, j: nat, k: nat) returns (p: nat)
    requires j < k < |Deduped(xs)|
    ensures p < |xs| && xs[p] == Deduped(xs)[j] && forall q :: 0 <= q <= p ==> xs[q] != Deduped(xs)[k]
  {
    var n := |xs| - 1;
    var before := Deduped(xs[..n]);
    if k < |before| {
      p := FirstFoundFirst(xs[..n], j, k);
      assert forall q :: 0 <= q <= p ==> xs[q] == xs[..n][q];
    } else {
      assert before[j] in xs[..n];
      p :| 0 <= p < n && xs[p] == before[j];
      forall q | 0 <= q <= p
        ensures xs[q] != xs[n]
      {
        assert xs[..n][q] == xs[q] && xs[q] in xs[..n];
      }
    }
  }

  const WORST := Quality(None, None, None, 1, 1, 1, true, false, false, true, true, true, true, false, true, true, true)

  const UNTIMED := Quote(None, [], [], [], [], "")

  const WORST_DAY :=
    Input(0, 1, [UNTIMED], [], Unsealed, Causal(None, None, None), None, WORST, false, false)

  // Everything wrong at once shows the order of the checks.
  lemma {:induction false} WorstDay()
    ensures HardReasons(WORST_DAY) == Deduped(StaticReasons(WORST_DAY) + EventReasons(WORST_DAY))
    ensures StaticReasons(WORST_DAY) ==
              [WindowNotFullyCovered, TickSizeInvalid, AdvMissingOrInvalid, StructuralInputMissing,
               ClockSyncError, WebsocketDisconnect, ParseFailure, OutOfOrder, PacketGap, UnitUnconfirmed,
               ProgramSemanticsUnsealed, ProgramResetUnexplained, Vi, Halted, PriceLimit, MarketStateUnknown,
               ApiSchemaDrift, PostCutoffAvailable, ForbiddenLineage]
    ensures EventReasons(WORST_DAY) == [ProviderEventTimeMissing]
  {
    hide Deduped, SettingReasons, CaptureReasons, MarketReasons;
    WorstSettings();
    WorstCapture();
    WorstMarket();
    assert !QuotesTimed([UNTIMED]) by { assert [UNTIMED][0].time.None?; }
  }

  lemma {:induction false} WorstSettings()
    ensures SettingReasons(0, 1, None, Causal(None, None, None), false) ==
              [WindowNotFullyCovered, TickSizeInvalid, AdvMissingOrInvalid, StructuralInputMissing]
  {
  }

  lemma {:induction false} WorstCapture()
    ensures CaptureReasons(WORST) ==
              [ClockSyncError, WebsocketDisconnect, ParseFailure, OutOfOrder, PacketGap, UnitUnconfirmed,
               ProgramSemanticsUnsealed]
  {
  }

  lemma {:induction false} WorstMarket()
    ensures MarketReasons(WORST) ==
              [ProgramResetUnexplained, Vi, Halted, PriceLimit, MarketStateUnknown, ApiSchemaDrift,
               PostCutoffAvailable, ForbiddenLineage]
  {
  }

  // ---------- the record ids ----------

  // A result names the records of all events up to the window's end, and that of the average turnover if it was known
  // by then; each that has an id.
  lemma {:induction false} LineageMembers(i: Input, id: string)
    ensures id in Lineage(i) <==>
              || (id != "" && exists k :: 0 <= k < |i.quotes| && QuoteBy(i.quotes[k], i.end) && i.quotes[k].id == id)
              || (id != "" &&
                  exists k :: 0 <= k < |i.programs| && ProgramBy(i.programs[k], i.end) && i.programs[k].id == id)
              || (id != "" && i.adv.id == Some(id) && i.adv.availableAt.Some? && i.adv.availableAt.value <= i.end)
  {
    hide QuoteIds, ProgramIds;
    QuoteIdMembers(i.quotes, i.end, id);
    ProgramIdMembers(i.programs, i.end, id);
  }

  lemma {:induction false} QuoteIdMembers(qs: seq<Quote>, end: int, id: string)
    ensures id in QuoteIds(qs, end) <==>
              id != "" && exists k :: 0 <= k < |qs| && QuoteBy(qs[k], end) && qs[k].id == id
  {
    if qs != [] {
      var n := |qs| - 1;
      var before := QuoteIds(qs[..n], end);
      QuoteIdMembers(qs[..n], end, id);
      assert forall k :: 0 <= k < n ==> qs[..n][k] == qs[k];
      assert id in QuoteIds(qs, end) <==> id in before || (QuoteBy(qs[n], end) && qs[n].id != "" && id == qs[n].id);
    }
  }

  lemma {:induction false} ProgramIdMembers(ps: seq<Program>, end: int, id: string)
    ensures id in ProgramIds(ps, end) <==>
              id != "" && exists k :: 0 <= k < |ps| && ProgramBy(ps[k], end) && ps[k].id == id
  {
    if ps != [] {
      var n := |ps| - 1;
      ProgramIdMembers(ps[..n], end, id);
      assert forall k :: 0 <= k < n ==> ps[..n][k] == ps[k];
    }
  }
}

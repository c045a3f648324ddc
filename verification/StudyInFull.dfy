/**
  The regression rows stated on the observations: what every number of a row is, which observation gives a row, and the
  condition of each refusal.
 */
module StudyInFull {
  import opened Wrappers
  import opened Numbers
  import opened StudyRows

  // ---------- the window of turnovers ----------

  // The amounts of a window whose turnovers are all there.
  ghost predicate Amounts(values: seq<Value>, amounts: seq<real>) {
    |amounts| == |values| && forall k :: 0 <= k < |values| ==> values[k].amount == Some(amounts[k])
  }

  lemma {:induction false} TurnoverIsTotal(values: seq<Value>, amounts: seq<real>)
    requires Amounts(values, amounts)
    ensures Turnover(values) == Total(amounts)
  {
    if values != [] {
      TurnoverIsTotal(values[..|values| - 1], amounts[..|values| - 1]);
    }
  }

  // A turnover that counts: positive, in won, and known by the cutoff.
  predicate Counts(v: Value, cutoff: int) {
    v.amount.Some? && v.amount.value > 0.0 && v.unit == "KRW" && v.availableAt.Some? && v.availableAt.value <= cutoff
  }

  // The first turnover that does not count decides the reason.
  ghost predicate FirstUncounted(values: seq<Value>, cutoff: int, k: nat) {
    k < |values| && !Counts(values[k], cutoff) && forall j :: 0 <= j < k ==> Counts(values[j], cutoff)
  }

  lemma {:induction false} WindowInFull(values: seq<Value>, cutoff: int)
    ensures WindowFault(values, cutoff) == None <==> forall j :: 0 <= j < |values| ==> Counts(values[j], cutoff)
    ensures forall k: nat :: FirstUncounted(values, cutoff, k) ==>
              WindowFault(values, cutoff) == TurnoverFault(values[k], cutoff)
  {
    if values != [] {
      var n := |values| - 1;
      WindowInFull(values[..n], cutoff);
      forall k: nat | FirstUncounted(values, cutoff, k) && k < n
        ensures FirstUncounted(values[..n], cutoff, k)
      {
      }
    }
  }

  // A missing or non-positive amount comes first, then the unit, then the time.
  lemma {:induction false} TurnoverCodes(v: Value, cutoff: int)
    ensures v.amount.None? || v.amount.value <= 0.0 ==>
              TurnoverFault(v, cutoff) ==
                Some(if v.missing.Some? && v.missing.value != "" then Given(v.missing.value) else AdvWindowMissing)
    ensures v.amount.Some? && v.amount.value > 0.0 && v.unit != "KRW" ==>
              TurnoverFault(v, cutoff) == Some(AdvUnitInvalid)
    ensures v.amount.Some? && v.amount.value > 0.0 && v.unit == "KRW" && !Counts(v, cutoff) ==>
              TurnoverFault(v, cutoff) == Some(AdvPostCutoff)
    ensures Counts(v, cutoff) ==> TurnoverFault(v, cutoff) == None
  {
  }

  // ---------- controls ----------

  const FACTORS := ["kospi_return", "krx_semiconductor_return", "samsung_005930_return"]

  predicate GoodControl(v: Value, closeAt: int) {
    && v.amount.Some? && v.unit == "RETURN" && v.eventAt == Some(closeAt)
    && v.availableAt.Some? && v.availableAt.value >= closeAt
  }

  lemma {:induction false} FirstFaultAmong(names: seq<string>, returns_: map<string, Value>, closeAt: int)
    requires forall n :: n in names ==> n in returns_
    ensures FirstControlFault(names, returns_, closeAt) == None <==>
              forall n :: n in names ==> GoodControl(returns_[n], closeAt)
  {
    if names != [] {
      var k := |names| - 1;
      FirstFaultAmong(names[..k], returns_, closeAt);
      assert names == names[..k] + [names[k]];
    }
  }

  // A row has controls exactly when the three factors, and no others, have returns settled at the close; and then they
  // are those returns.
  lemma {:induction false} ControlsInFull(returns_: map<string, Value>, closeAt: int)
    ensures Controls(returns_, closeAt).Some? <==>
              && (forall n :: n in returns_ <==> n in FACTORS)
              && forall n :: n in FACTORS ==> n in returns_ && GoodControl(returns_[n], closeAt)
    ensures Controls(returns_, closeAt).Some? ==>
              var controls := Controls(returns_, closeAt).value;
              && (forall n :: n in controls <==> n in FACTORS)
              && forall n :: n in FACTORS ==> n in returns_ && returns_[n].amount == Some(controls[n])
  {
    assert CONTROL_NAMES == FACTORS;
    assert (forall n :: n in returns_ <==> n in FACTORS) <==> returns_.Keys == Names();
    if returns_.Keys == Names() {
      FirstFaultAmong(CONTROL_NAMES, returns_, closeAt);
    }
  }

  // ---------- record ids ----------

  lemma {:induction false} IdsInFull(values: seq<Value>, id: string)
    ensures id in IdsOf(values) <==> id != "" && exists k :: 0 <= k < |values| && values[k].id == Some(id)
    ensures forall i, j :: 0 <= i < j < |IdsOf(values)| ==> IdsOf(values)[i] != IdsOf(values)[j]
  {
    if values != [] {
      var n := |values| - 1;
      IdsInFull(values[..n], id);
      assert forall k :: 0 <= k < n ==> values[..n][k] == values[k];
    }
  }

  // ---------- the close-auction row ----------

  // What a value must be for the row: an amount in won.
  predicate InWon(v: Value) {
    v.amount.Some? && v.unit == "KRW"
  }

  // An observation gives a row exactly when all of this holds.
  lemma {:induction false} StrictAcceptedIff(c: Daily, p: Daily, window: seq<Daily>, log: real -> real)
    requires |window| == 20
    ensures Strict(log)(c, p, window).row.Some? <==>
              && InWon(p.program) && InWon(c.reference) && InWon(c.close) && InWon(c.auctionTurnover)
              && (forall j :: 0 <= j < 20 ==> Counts(window[j].turnover, c.auctionStart))
              && p.program.availableAt.Some? && p.program.availableAt.value <= c.auctionStart
              && c.reference.eventAt.Some? && c.reference.availableAt.Some?
              && c.auctionStart - 60000000000 <= c.reference.eventAt.value <= c.auctionStart
              && c.reference.availableAt.value <= c.auctionStart
              && Settled(c.close, c.auctionStart, c.auctionEnd)
                  && Settled(c.auctionTurnover, c.auctionStart, c.auctionEnd)
              && c.reference.amount.value > 0.0 && c.close.amount.value > 0.0 && c.auctionTurnover.amount.value >= 0.0
  {
    WindowInFull(Turnovers(window), c.auctionStart);
    if WindowFault(Turnovers(window), c.auctionStart) == None {
      AdvNeverZero(Turnovers(window), c.auctionStart);
    }
    hide WindowFault, Adv, IdsOf, Controls, Turnovers;
    assert forall j :: 0 <= j < 20 ==> Turnovers(window)[j] == window[j].turnover;
  }

  // Observed in the auction or after it, and available after its end.
  predicate Settled(v: Value, start: int, end: int) {
    v.eventAt.Some? && v.eventAt.value >= start && v.availableAt.Some? && v.availableAt.value >= end
  }

  lemma {:induction false} Divided(part: real, whole: real, q: real)
    requires whole != 0.0 && q == part / whole
    ensures q * whole == part
  {
  }

  // The numbers of a row: the average turnover of the twenty days before, the last day's program amount per average
  // turnover, and the auction's turnover per average turnover, with the sign of the auction's log return.
  lemma {:induction false} StrictRowInFull(c: Daily, p: Daily, window: seq<Daily>, log: real -> real, row: Row,
      amounts: seq<real>, program: real, auction: real)
    requires |window| == 20 && Strict(log)(c, p, window).row == Some(row)
    requires Amounts(Turnovers(window), amounts)
    requires p.program.amount == Some(program) && c.auctionTurnover.amount == Some(auction)
    ensures row.date == c.date && row.adv > 0.0 && 20.0 * row.adv == Total(amounts) && row.x * row.adv == program
    ensures c.close.amount.Some? && c.reference.amount.Some? && c.reference.amount.value > 0.0
    ensures row.residual == log(c.close.amount.value / c.reference.amount.value)
    ensures row.residual > 0.0 ==> row.y * row.adv == auction
    ensures row.residual < 0.0 ==> row.y * row.adv == -auction
    ensures row.residual == 0.0 ==> row.y == 0.0
    ensures row.controls == Controls(c.controls, c.auctionEnd)
  {
    TurnoverIsTotal(Turnovers(window), amounts);
    AdvNeverZero(Turnovers(window), c.auctionStart);
    hide WindowFault, IdsOf, Controls, Turnover;
    Divided(Turnover(Turnovers(window)), 20.0, Adv(Turnovers(window)));
    Divided(program, row.adv, row.x);
    Divided(Direction(row.residual) * auction, row.adv, row.y);
  }

  // The records behind a row, each once.
  lemma {:induction false} StrictIdsInFull(c: Daily, p: Daily, window: seq<Daily>, log: real -> real, row: Row,
      id: string)
    requires |window| == 20 && Strict(log)(c, p, window).row == Some(row)
    ensures id in row.ids <==>
              && id != ""
              && (|| p.program.id == Some(id) || c.reference.id == Some(id) || c.close.id == Some(id)
                  || c.auctionTurnover.id == Some(id)
                  || (exists j :: 0 <= j < 20 && window[j].turnover.id == Some(id))
                  || exists n :: n in FACTORS && n in c.controls && c.controls[n].id == Some(id))
    ensures forall i, j :: 0 <= i < j < |row.ids| ==> row.ids[i] != row.ids[j]
  {
    var values := [p.program, c.reference, c.close, c.auctionTurnover] + Turnovers(window) + ControlValues(c.controls);
    IdsInFull(values, id);
    hide IdsOf, WindowFault, Controls, Turnover, Adv, LateRefusal;
    assert row.ids == IdsOf(values);
    AmongValues([p.program, c.reference, c.close, c.auctionTurnover], Turnovers(window), ControlValues(c.controls), id);
    PresentIds(c.controls, id);
    TurnoverIds(window, id);
    FourIds(p.program, c.reference, c.close, c.auctionTurnover, id);
  }

  ghost predicate HasId(values: seq<Value>, id: string) {
    exists k :: 0 <= k < |values| && values[k].id == Some(id)
  }

  lemma {:induction false} AmongValues(a: seq<Value>, b: seq<Value>, c: seq<Value>, id: string)
    ensures HasId(a + b + c, id) <==> HasId(a, id) || HasId(b, id) || HasId(c, id)
  {
    var all := a + b + c;
    if k :| 0 <= k < |a| && a[k].id == Some(id) {
      assert all[k].id == Some(id);
    }
    if k :| 0 <= k < |b| && b[k].id == Some(id) {
      assert all[|a| + k].id == Some(id);
    }
    if k :| 0 <= k < |c| && c[k].id == Some(id) {
      assert all[|a| + |b| + k].id == Some(id);
    }
    if k :| 0 <= k < |all| && all[k].id == Some(id) {
      if k < |a| {
        assert a[k].id == Some(id);
      } else if k < |a| + |b| {
        assert b[k - |a|].id == Some(id);
      } else {
        assert c[k - |a| - |b|].id == Some(id);
      }
    }
  }

  lemma {:induction false} FourIds(a: Value, b: Value, c: Value, d: Value, id: string)
    ensures HasId([a, b, c, d], id) <==> a.id == Some(id) || b.id == Some(id) || c.id == Some(id) || d.id == Some(id)
  {
    var all := [a, b, c, d];
    assert all[0] == a && all[1] == b && all[2] == c && all[3] == d;
  }

  lemma {:induction false} TurnoverIds(window: seq<Daily>, id: string)
    ensures HasId(Turnovers(window), id) <==> exists j :: 0 <= j < |window| && window[j].turnover.id == Some(id)
  {
    if j :| 0 <= j < |window| && window[j].turnover.id == Some(id) {
      assert Turnovers(window)[j].id == Some(id);
    }
  }

  lemma {:induction false} PresentIds(returns_: map<string, Value>, id: string)
    ensures HasId(ControlValues(returns_), id) <==>
              exists n :: n in FACTORS && n in returns_ && returns_[n].id == Some(id)
  {
    PresentAmong(CONTROL_NAMES, returns_, id);
    assert CONTROL_NAMES == FACTORS;
  }

  lemma {:induction false} PresentAmong(names: seq<string>, returns_: map<string, Value>, id: string)
    ensures HasId(PresentValues(names, returns_), id) <==>
              exists n :: n in names && n in returns_ && returns_[n].id == Some(id)
  {
    if names != [] {
      PresentAmong(names[1..], returns_, id);
      assert names == [names[0]] + names[1..];
      var head := if names[0] in returns_ then [returns_[names[0]]] else [];
      AmongValues(head, PresentValues(names[1..], returns_), [], id);
      assert head + PresentValues(names[1..], returns_) + [] == PresentValues(names, returns_);
      if names[0] in returns_ {
        assert head[0] == returns_[names[0]];
      }
    }
  }

  // ---------- the refusals of the close-auction row, in their order ----------

  // Why a missing value is missing, in its own words or by this code.
  predicate MissingAs(v: Value, code: Reason, r: Reason) {
    r == if v.missing.Some? && v.missing.value != "" then Given(v.missing.value) else code
  }

  // A missing input is named by the first one missing: program, reference, close, auction turnover.
  lemma {:induction false} StrictMissing(c: Daily, p: Daily, window: seq<Daily>, log: real -> real)
    ensures var b := Strict(log)(c, p, window);
            && (p.program.amount.None? ==> b.reason.Some? && MissingAs(p.program, ProgramLag1Missing, b.reason.value))
            && (p.program.amount.Some? && c.reference.amount.None? ==>
                  b.reason.Some? && MissingAs(c.reference, PreAuctionReferenceMissing, b.reason.value))
            && (p.program.amount.Some? && c.reference.amount.Some? && c.close.amount.None? ==>
                  b.reason.Some? && MissingAs(c.close, OfficialCloseMissing, b.reason.value))
            && (p.program.amount.Some? && c.reference.amount.Some? && c.close.amount.Some?
                && c.auctionTurnover.amount.None? ==>
                  b.reason.Some? && MissingAs(c.auctionTurnover, CloseAuctionTurnoverMissing, b.reason.value))
  {
    hide WindowFault, Adv, Controls, IdsOf;
  }

  predicate StrictPresent(c: Daily, p: Daily) {
    p.program.amount.Some? && c.reference.amount.Some? && c.close.amount.Some? && c.auctionTurnover.amount.Some?
  }

  // With all inputs there, wrong units come next, and then the first turnover of the window that does not count.
  lemma {:induction false} StrictUnits(c: Daily, p: Daily, window: seq<Daily>, log: real -> real)
    requires StrictPresent(c, p)
    ensures var b := Strict(log)(c, p, window);
            && (p.program.unit != "KRW" ==> b == Built(None, Some(ProgramUnitInvalid)))
            && (p.program.unit == "KRW" && !(InWon(c.reference) && InWon(c.close) && InWon(c.auctionTurnover)) ==>
                  b == Built(None, Some(PriceOrAuctionUnitInvalid)))
            && (InWon(p.program) && InWon(c.reference) && InWon(c.close) && InWon(c.auctionTurnover) ==>
                  forall k: nat :: FirstUncounted(Turnovers(window), c.auctionStart, k) ==>
                    b == Built(None, TurnoverFault(window[k].turnover, c.auctionStart)))
  {
    WindowInFull(Turnovers(window), c.auctionStart);
    hide WindowFault, Adv, Controls, IdsOf, LateRefusal;
    forall k: nat | FirstUncounted(Turnovers(window), c.auctionStart, k)
      ensures TurnoverFault(window[k].turnover, c.auctionStart).Some?
    {
      TurnoverCodes(window[k].turnover, c.auctionStart);
    }
  }

  // Everything up to the window is in order.
  ghost predicate StrictRead(c: Daily, p: Daily, window: seq<Daily>) {
    && InWon(p.program) && InWon(c.reference) && InWon(c.close) && InWon(c.auctionTurnover)
    && forall j :: 0 <= j < |window| ==> Counts(window[j].turnover, c.auctionStart)
  }

  predicate ReferenceFresh(v: Value, start: int) {
    && v.eventAt.Some? && v.availableAt.Some? && v.availableAt.value <= start
    && start - 60000000000 <= v.eventAt.value <= start
  }

  // Then the times are checked, first the program's, then those of the reference, the close and the auction turnover;
  // and last the amounts.
  lemma {:induction false} StrictTimes(c: Daily, p: Daily, window: seq<Daily>, log: real -> real)
    requires |window| == 20 && StrictRead(c, p, window)
    ensures var b := Strict(log)(c, p, window);
            var known := p.program.availableAt.Some? && p.program.availableAt.value <= c.auctionStart;
            var timely := known && ReferenceFresh(c.reference, c.auctionStart);
            var closed := timely && Settled(c.close, c.auctionStart, c.auctionEnd);
            var settled := closed && Settled(c.auctionTurnover, c.auctionStart, c.auctionEnd);
            && (!known ==> b == Built(None, Some(ProgramLag1PostCutoff)))
            && (known && !timely ==> b == Built(None, Some(PreAuctionReferenceNotCausalOrStale)))
            && (timely && !closed ==> b == Built(None, Some(OfficialCloseTimingInvalid)))
            && (closed && !settled ==> b == Built(None, Some(CloseAuctionTurnoverTimingInvalid)))
            && (settled && (c.reference.amount.value <= 0.0 || c.close.amount.value <= 0.0
                            || c.auctionTurnover.amount.value < 0.0) ==>
                  b == Built(None, Some(PriceOrAuctionNotionalInvalid)))
  {
    WindowInFull(Turnovers(window), c.auctionStart);
    hide WindowFault, Adv, Controls, IdsOf;
  }

  // ---------- the weak daily row ----------

  lemma {:induction false} WeakAcceptedIff(c: Weak, p: Weak, window: seq<Weak>, log: real -> real)
    requires |window| == 20
    ensures WeakDaily(log)(c, p, window).row.Some? <==>
              && InWon(p.program) && InWon(c.open) && InWon(c.close)
              && (forall j :: 0 <= j < 20 ==> Counts(window[j].turnover, c.marketOpen))
              && p.program.availableAt.Some? && p.program.availableAt.value <= c.marketOpen
              && WeakSettled(c)
              && c.open.amount.value > 0.0 && c.close.amount.value > 0.0
  {
    WindowInFull(WeakTurnovers(window), c.marketOpen);
    hide WindowFault, Adv, IdsOf, Controls, WeakTurnovers;
    assert forall j :: 0 <= j < 20 ==> WeakTurnovers(window)[j] == window[j].turnover;
  }

  // The open is that of the market's opening, the close that of the official close, and both were available after it.
  predicate WeakSettled(c: Weak) {
    && c.open.eventAt == Some(c.marketOpen) && c.close.eventAt == Some(c.officialClose)
    && c.open.availableAt.Some? && c.open.availableAt.value >= c.officialClose
    && c.close.availableAt.Some? && c.close.availableAt.value >= c.officialClose
  }

  // The numbers of a weak row: the return from open to close is both outcome and residual.
  lemma {:induction false} WeakRowInFull(c: Weak, p: Weak, window: seq<Weak>, log: real -> real, row: Row,
      amounts: seq<real>, program: real)
    requires |window| == 20 && WeakDaily(log)(c, p, window).row == Some(row)
    requires Amounts(WeakTurnovers(window), amounts) && p.program.amount == Some(program)
    ensures row.date == c.date && row.adv > 0.0 && 20.0 * row.adv == Total(amounts) && row.x * row.adv == program
    ensures c.close.amount.Some? && c.open.amount.Some? && c.open.amount.value > 0.0
    ensures row.y == row.residual == log(c.close.amount.value / c.open.amount.value)
    ensures row.controls == Controls(c.controls, c.officialClose)
  {
    TurnoverIsTotal(WeakTurnovers(window), amounts);
    AdvNeverZero(WeakTurnovers(window), c.marketOpen);
    hide WindowFault, IdsOf, Controls, Turnover;
    Divided(Turnover(WeakTurnovers(window)), 20.0, Adv(WeakTurnovers(window)));
    Divided(program, row.adv, row.x);
  }

  lemma {:induction false} WeakIdsInFull(c: Weak, p: Weak, window: seq<Weak>, log: real -> real, row: Row, id: string)
    requires |window| == 20 && WeakDaily(log)(c, p, window).row == Some(row)
    ensures id in row.ids <==>
              && id != ""
              && (|| p.program.id == Some(id) || c.open.id == Some(id) || c.close.id == Some(id)
                  || (exists j :: 0 <= j < 20 && window[j].turnover.id == Some(id))
                  || exists n :: n in FACTORS && n in c.controls && c.controls[n].id == Some(id))
    ensures forall i, j :: 0 <= i < j < |row.ids| ==> row.ids[i] != row.ids[j]
  {
    var values := [p.program, c.open, c.close] + WeakTurnovers(window) + ControlValues(c.controls);
    IdsInFull(values, id);
    hide IdsOf, WindowFault, Controls, Turnover, Adv;
    assert row.ids == IdsOf(values);
    AmongValues([p.program, c.open, c.close], WeakTurnovers(window), ControlValues(c.controls), id);
    PresentIds(c.controls, id);
    WeakTurnoverIds(window, id);
    ThreeIds(p.program, c.open, c.close, id);
  }

  lemma {:induction false} ThreeIds(a: Value, b: Value, c: Value, id: string)
    ensures HasId([a, b, c], id) <==> a.id == Some(id) || b.id == Some(id) || c.id == Some(id)
  {
    var all := [a, b, c];
    assert all[0] == a && all[1] == b && all[2] == c;
  }

  lemma {:induction false} WeakTurnoverIds(window: seq<Weak>, id: string)
    ensures HasId(WeakTurnovers(window), id) <==> exists j :: 0 <= j < |window| && window[j].turnover.id == Some(id)
  {
    if j :| 0 <= j < |window| && window[j].turnover.id == Some(id) {
      assert WeakTurnovers(window)[j].id == Some(id);
    }
  }

  // The refusals of a weak row, in their order: missing inputs, the program's unit and time, the window, and the
  // prices' units, times and amounts.
  lemma {:induction false} WeakMissingCodes(c: Weak, p: Weak, window: seq<Weak>, log: real -> real)
    requires window != []
    ensures var b := WeakDaily(log)(c, p, window);
            && (p.program.amount.None? ==> b.reason.Some? && MissingAs(p.program, ProgramLag1Missing, b.reason.value))
            && (p.program.amount.Some? && c.open.amount.None? ==>
                  b.reason.Some? && MissingAs(c.open, WeakOpenPriceMissing, b.reason.value))
            && (p.program.amount.Some? && c.open.amount.Some? && c.close.amount.None? ==>
                  b.reason.Some? && MissingAs(c.close, OfficialCloseMissing, b.reason.value))
  {
    hide WindowFault, Adv, Controls, IdsOf;
  }

  lemma {:induction false} WeakCodes(c: Weak, p: Weak, window: seq<Weak>, log: real -> real)
    requires window != [] && p.program.amount.Some? && c.open.amount.Some? && c.close.amount.Some?
    ensures var b := WeakDaily(log)(c, p, window);
            var known := p.program.availableAt.Some? && p.program.availableAt.value <= c.marketOpen;
            var counted := forall j :: 0 <= j < |window| ==> Counts(window[j].turnover, c.marketOpen);
            var ready := InWon(p.program) && known && counted;
            && (p.program.unit != "KRW" ==> b == Built(None, Some(ProgramUnitInvalid)))
            && (p.program.unit == "KRW" && !known ==> b == Built(None, Some(ProgramLag1PostCutoff)))
            && (p.program.unit == "KRW" && known ==>
                  forall k: nat :: FirstUncounted(WeakTurnovers(window), c.marketOpen, k) ==>
                    b == Built(None, TurnoverFault(window[k].turnover, c.marketOpen)))
            && (ready && (c.open.unit != "KRW" || c.close.unit != "KRW") ==>
                  b == Built(None, Some(WeakPriceUnitInvalid)))
            && (ready && InWon(c.open) && InWon(c.close) && !WeakSettled(c) ==>
                  b == Built(None, Some(WeakPriceTimingInvalid)))
            && (ready && InWon(c.open) && InWon(c.close) && WeakSettled(c)
                && (c.open.amount.value <= 0.0 || c.close.amount.value <= 0.0) ==>
                  b == Built(None, Some(WeakPriceInvalid)))
  {
    WindowInFull(WeakTurnovers(window), c.marketOpen);
    hide WindowFault, Adv, Controls, IdsOf;
    forall k: nat | FirstUncounted(WeakTurnovers(window), c.marketOpen, k)
      ensures TurnoverFault(window[k].turnover, c.marketOpen).Some?
    {
      TurnoverCodes(window[k].turnover, c.marketOpen);
    }
  }

  // ---------- the builders ----------

  // What observation number 20 + i comes to depends on itself, the one before it, and the twenty before it.
  lemma {:induction false} ObservationInFull<O>(one: (O, O, seq<O>) -> Built, days: seq<O>, i: nat)
    requires 20 + i < |days|
    ensures |All(one, days)| == |days| - 20
    ensures All(one, days)[i] == one(days[20 + i], days[19 + i], days[i..20 + i])
  {
  }

  // The rows are those of the observations that gave one, in their order.
  ghost predicate RowsAt(rows: seq<Row>, at: seq<nat>, bs: seq<Built>) {
    && |at| == |rows| && (forall i, j :: 0 <= i < j < |at| ==> at[i] < at[j])
    && (forall i :: 0 <= i < |at| ==> at[i] < |bs| && bs[at[i]].row == Some(rows[i]))
    && forall k: nat :: k < |bs| && k !in at ==> bs[k].row == None
  }

  lemma {:induction false} RowsInFull(bs: seq<Built>) returns (at: seq<nat>)
    ensures RowsAt(Tally(bs).rows, at, bs)
  {
    at := [];
    if bs != [] {
      var n := |bs| - 1;
      at := RowsInFull(bs[..n]);
      if bs[n].row.Some? {
        assert forall k :: k in at + [n] <==> k in at || k == n;
        at := at + [n];
      }
    }
  }

  // How often a reason is counted: once for every observation that has it.
  function Times(bs: seq<Built>, r: Reason): nat {
    |set k | 0 <= k < |bs| && bs[k].reason == Some(r)|
  }

  lemma {:induction false} OneMoreTime(bs: seq<Built>, b: Built, r: Reason)
    ensures Times(bs + [b], r) == Times(bs, r) + if b.reason == Some(r) then 1 else 0
  {
    var all, n := bs + [b], |bs|;
    var before := set k | 0 <= k < n && bs[k].reason == Some(r);
    assert forall k :: 0 <= k < n ==> all[k] == bs[k];
    if b.reason == Some(r) {
      assert (set k | 0 <= k < |all| && all[k].reason == Some(r)) == before + {n};
    } else {
      assert (set k | 0 <= k < |all| && all[k].reason == Some(r)) == before;
    }
  }

  lemma {:induction false} ReasonsInFull(bs: seq<Built>, r: Reason)
    ensures Tally(bs).reasons[r] == Times(bs, r)
  {
    if bs != [] {
      var n := |bs| - 1;
      ReasonsInFull(bs[..n], r);
      OneMoreTime(bs[..n], bs[n], r);
      assert bs == bs[..n] + [bs[n]];
      hide Times;
    }
  }

  // ---------- what is refused as a whole ----------

  // The dates must rise strictly, and all observations must be of one origin.
  lemma {:induction false} DatesInFull(days: seq<Daily>)
    ensures Ascending(DailyDates(days)) <==> forall i, j :: 0 <= i < j < |days| ==> days[i].date < days[j].date
    ensures OneOrigin(DailyOrigins(days)) <==>
              (forall i :: 0 <= i < |days| ==> days[i].actual) || (forall i :: 0 <= i < |days| ==> !days[i].actual)
  {
    var dates, origins := DailyDates(days), DailyOrigins(days);
    SameOrder(dates);
    SameOrigin(origins);
    assert forall i :: 0 <= i < |days| ==> dates[i] == days[i].date && origins[i] == days[i].actual;
  }

  lemma {:induction false} WeakDatesInFull(days: seq<Weak>)
    ensures Ascending(WeakDates(days)) <==> forall i, j :: 0 <= i < j < |days| ==> days[i].date < days[j].date
    ensures OneOrigin(WeakOrigins(days)) <==>
              (forall i :: 0 <= i < |days| ==> days[i].actual) || (forall i :: 0 <= i < |days| ==> !days[i].actual)
  {
    var dates, origins := WeakDates(days), WeakOrigins(days);
    SameOrder(dates);
    SameOrigin(origins);
    assert forall i :: 0 <= i < |days| ==> dates[i] == days[i].date && origins[i] == days[i].actual;
  }

  lemma {:induction false} SameOrder(dates: seq<int>)
    ensures Ascending(dates) <==> forall i, j :: 0 <= i < j < |dates| ==> dates[i] < dates[j]
  {
  }

  lemma {:induction false} SameOrigin(origins: seq<bool>)
    ensures OneOrigin(origins) <==>
              (forall i :: 0 <= i < |origins| ==> origins[i]) || (forall i :: 0 <= i < |origins| ==> !origins[i])
  {
    if OneOrigin(origins) && origins != [] {
      assert forall i :: 0 < i < |origins| ==> origins[i] == origins[0];
    }
  }
}

/**
  Building the regression rows of the pre-falsification study, in both variants: every observation after the
  first twenty gives a row with controls, a row without them, or no row, and each failure is counted once.
  The counter of reasons is a multiset; the natural logarithm is a function the builders are given.
 */
module StudyRows {
  import opened Wrappers

  datatype Value = Value(
    amount: Option<real>, eventAt: Option<int>, availableAt: Option<int>, unit: string, id: Option<string>,
    missing: Option<string>)

  datatype Row = Row(date: int, x: real, y: real, residual: real, adv: real, controls: Option<map<string, real>>,
      ids: seq<string>)

  // A value's own account of why it is missing, or one of the builders' codes.
  datatype Reason =
    | Given(text: string)
    | ControlMissing(name: string) | ControlUnitInvalid(name: string) | ControlTimingInvalid(name: string)
    | Adv20Zero | AdvPostCutoff | AdvUnitInvalid | AdvWindowMissing
    | CloseAuctionTurnoverMissing | CloseAuctionTurnoverTimingInvalid | ControlFactorSchemaIncomplete
    | OfficialCloseMissing
    | OfficialCloseTimingInvalid | PreAuctionReferenceMissing | PreAuctionReferenceNotCausalOrStale
    | PriceOrAuctionNotionalInvalid
    | PriceOrAuctionUnitInvalid | ProgramLag1Missing | ProgramLag1PostCutoff | ProgramUnitInvalid
    | WeakOpenPriceMissing | WeakPriceInvalid | WeakPriceTimingInvalid | WeakPriceUnitInvalid

  // What one observation comes to.
  datatype Built = Built(row: Option<Row>, reason: Option<Reason>)

  const LOOKBACK := 20
  const MAX_AGE_NANOS := 60000000000
  const KRW := "KRW"
  const RETURN := "RETURN"
  const CONTROL_NAMES: seq<string> := ["kospi_return", "krx_semiconductor_return", "samsung_005930_return"]

  // A value's own reason for being missing, or the builder's.
  function Why(v: Value, otherwise: Reason): Reason {
    if v.missing.Some? && v.missing.value != "" then Given(v.missing.value) else otherwise
  }

  predicate KnownBy(v: Value, cutoff: int) {
    v.availableAt.Some? && v.availableAt.value <= cutoff
  }

  predicate HappenedBy(v: Value, cutoff: int) {
    v.eventAt.Some? && v.eventAt.value <= cutoff
  }

  predicate HappenedFrom(v: Value, start: int, settled: int) {
    v.eventAt.Some? && v.availableAt.Some? && v.eventAt.value >= start && v.availableAt.value >= settled
  }

  predicate SettledAt(v: Value, instant: int) {
    v.eventAt == Some(instant) && v.availableAt.Some? && v.availableAt.value >= instant
  }

  // ---------- the twenty-day window ----------

  function TurnoverFault(v: Value, cutoff: int): Option<Reason> {
    if v.amount.None? || v.amount.value <= 0.0 then Some(Why(v, AdvWindowMissing))
    else if v.unit != KRW then Some(AdvUnitInvalid)
    else if !KnownBy(v, cutoff) then Some(AdvPostCutoff)
    else None
  }

  function WindowFault(window: seq<Value>, cutoff: int): Option<Reason> {
    if window == [] then None
    else
      var before := WindowFault(window[..|window| - 1], cutoff);
      if before.Some? then before else TurnoverFault(window[|window| - 1], cutoff)
  }

  function Turnover(window: seq<Value>): real {
    if window == [] then 0.0
    else
      var last := window[|window| - 1];
      Turnover(window[..|window| - 1]) + (if last.amount.Some? then last.amount.value else 0.0)
  }

  function Adv(window: seq<Value>): real {
    Turnover(window) / 20.0
  }

  predicate Usable(v: Value, cutoff: int) {
    v.amount.Some? && v.amount.value > 0.0 && v.unit == KRW && KnownBy(v, cutoff)
  }

  lemma {:induction false} FaultlessIsUsable(v: Value, cutoff: int)
    ensures TurnoverFault(v, cutoff).None? <==> Usable(v, cutoff)
  {
  }

  lemma {:induction false} FaultlessWindow(window: seq<Value>, cutoff: int)
    ensures WindowFault(window, cutoff).None? <==> forall v :: v in window ==> Usable(v, cutoff)
  {
    if window != [] {
      var n := |window| - 1;
      FaultlessWindow(window[..n], cutoff);
      FaultlessIsUsable(window[n], cutoff);
      assert window == window[..n] + [window[n]];
    }
  }

  lemma {:induction false} UsableTurnover(window: seq<Value>, cutoff: int)
    requires forall v :: v in window ==> Usable(v, cutoff)
    ensures Turnover(window) >= 0.0 && (window != [] ==> Turnover(window) > 0.0)
  {
    if window != [] {
      var n := |window| - 1;
      UsableTurnover(window[..n], cutoff);
      assert window[n] in window;
    }
  }

  // Every turnover being positive, the average is: the zero-ADV refusal is never reached.
  lemma {:induction false} AdvNeverZero(window: seq<Value>, cutoff: int)
    requires window != [] && WindowFault(window, cutoff).None?
    ensures Adv(window) > 0.0
  {
    FaultlessWindow(window, cutoff);
    UsableTurnover(window, cutoff);
  }

  // The loop over the window: it stops at the first fault.
  method ReadWindow(window: seq<Value>, cutoff: int) returns (fault: Option<Reason>, total: real)
    ensures fault == WindowFault(window, cutoff)
    ensures fault.None? ==> total == Turnover(window)
  {
    fault, total := None, 0.0;
    var k := 0;
    while k < |window|
      invariant 0 <= k <= |window| && fault.None? && WindowFault(window[..k], cutoff).None?
          && total == Turnover(window[..k])
    {
      assert window[..k + 1][..k] == window[..k];
      fault := TurnoverFault(window[k], cutoff);
      if fault.Some? {
        FaultStays(window, k + 1, cutoff);
        return;
      }
      total := total + window[k].amount.value;
      k := k + 1;
    }
    assert window[..|window|] == window;
  }

  lemma {:induction false} FaultStays(window: seq<Value>, k: nat, cutoff: int)
    requires k <= |window| && WindowFault(window[..k], cutoff).Some?
    ensures WindowFault(window, cutoff) == WindowFault(window[..k], cutoff)
    decreases |window| - k
  {
    if k == |window| {
      assert window[..k] == window;
    } else {
      assert window[..k + 1][..k] == window[..k];
      FaultStays(window, k + 1, cutoff);
    }
  }

  // ---------- the controls ----------

  function ControlFault(name: string, v: Value, closeAt: int): Option<Reason> {
    if v.amount.None? then Some(Why(v, ControlMissing(name)))
    else if v.unit != RETURN then Some(ControlUnitInvalid(name))
    else if !SettledAt(v, closeAt) then Some(ControlTimingInvalid(name))
    else None
  }

  function FirstControlFault(names: seq<string>, returns_: map<string, Value>, closeAt: int): Option<Reason>
    requires forall n :: n in names ==> n in returns_
  {
    if names == [] then None
    else
      var n := |names| - 1;
      var before := FirstControlFault(names[..n], returns_, closeAt);
      if before.Some? then before else ControlFault(names[n], returns_[names[n]], closeAt)
  }

  function Names(): set<string> {
    set n | n in CONTROL_NAMES
  }

  function ControlReason(returns_: map<string, Value>, closeAt: int): Option<Reason> {
    if returns_.Keys != Names() then Some(ControlFactorSchemaIncomplete)
    else FirstControlFault(CONTROL_NAMES, returns_, closeAt)
  }

  function AmountOf(v: Value): real {
    if v.amount.Some? then v.amount.value else 0.0
  }

  // With no fault the controls are the returns' amounts, name by name.
  function Controls(returns_: map<string, Value>, closeAt: int): (controls: Option<map<string, real>>)
    ensures controls.Some? <==> ControlReason(returns_, closeAt).None?
  {
    if ControlReason(returns_, closeAt).Some? then None
    else Some(map n | n in returns_ :: AmountOf(returns_[n]))
  }

  method ReadControls(returns_: map<string, Value>, closeAt: int, reasons: multiset<Reason>)
    returns (controls: Option<map<string, real>>, counted: multiset<Reason>)
    ensures controls == Controls(returns_, closeAt) && counted == Counted(reasons, ControlReason(returns_, closeAt))
  {
    if returns_.Keys != Names() {
      return None, reasons + multiset{ControlFactorSchemaIncomplete};
    }
    var found: map<string, real> := map[];
    var k := 0;
    while k < |CONTROL_NAMES|
      invariant 0 <= k <= |CONTROL_NAMES| && FirstControlFault(CONTROL_NAMES[..k], returns_, closeAt).None?
      invariant found == map n | n in CONTROL_NAMES[..k] :: AmountOf(returns_[n])
    {
      var name := CONTROL_NAMES[k];
      assert CONTROL_NAMES[..k + 1] == CONTROL_NAMES[..k] + [name];
      var fault := ControlFault(name, returns_[name], closeAt);
      if fault.Some? {
        ControlFaultStays(CONTROL_NAMES, returns_, closeAt, k + 1);
        return None, reasons + multiset{fault.value};
      }
      found := found[name := returns_[name].amount.value];
      k := k + 1;
    }
    assert CONTROL_NAMES[..|CONTROL_NAMES|] == CONTROL_NAMES;
    SameControls(returns_);
    controls, counted := Some(found), reasons;
  }

  lemma {:induction false} SameControls(returns_: map<string, Value>)
    requires returns_.Keys == Names()
    ensures (map n | n in CONTROL_NAMES :: AmountOf(returns_[n])) == (map n | n in returns_ :: AmountOf(returns_[n]))
  {
  }

  lemma {:induction false} ControlFaultStays(names: seq<string>, returns_: map<string, Value>, closeAt: int, k: nat)
    requires k <= |names| && (forall n :: n in names ==> n in returns_)
        && FirstControlFault(names[..k], returns_, closeAt).Some?
    ensures FirstControlFault(names, returns_, closeAt) == FirstControlFault(names[..k], returns_, closeAt)
    decreases |names| - k
  {
    if k == |names| {
      assert names[..k] == names;
    } else {
      assert names[..k + 1][..k] == names[..k];
      ControlFaultStays(names, returns_, closeAt, k + 1);
    }
  }

  function Counted(reasons: multiset<Reason>, reason: Option<Reason>): multiset<Reason> {
    if reason.Some? then reasons + multiset{reason.value} else reasons
  }

  // ---------- lineage ----------

  function IdsOf(values: seq<Value>): seq<string> {
    if values == [] then []
    else
      var before := IdsOf(values[..|values| - 1]);
      var id := values[|values| - 1].id;
      if id.Some? && id.value != "" && id.value !in before then before + [id.value] else before
  }

  function ControlValues(returns_: map<string, Value>): seq<Value> {
    PresentValues(CONTROL_NAMES, returns_)
  }

  function PresentValues(names: seq<string>, returns_: map<string, Value>): seq<Value> {
    if names == [] then []
    else (if names[0] in returns_ then [returns_[names[0]]] else []) + PresentValues(names[1..], returns_)
  }

  // ---------- the close-auction variant ----------

  datatype Daily = Daily(
    date: int, auctionStart: int, auctionEnd: int, program: Value, reference: Value, close: Value,
    auctionTurnover: Value, turnover: Value, controls: map<string, Value>, actual: bool)

  function Turnovers(window: seq<Daily>): (vs: seq<Value>)
    ensures |vs| == |window| && forall i :: 0 <= i < |vs| ==> vs[i] == window[i].turnover
  {
    seq(|window|, i requires 0 <= i < |window| => window[i].turnover)
  }

  function MissingInput(c: Daily, p: Daily): Option<Reason> {
    if p.program.amount.None? then Some(Why(p.program, ProgramLag1Missing))
    else if c.reference.amount.None? then Some(Why(c.reference, PreAuctionReferenceMissing))
    else if c.close.amount.None? then Some(Why(c.close, OfficialCloseMissing))
    else if c.auctionTurnover.amount.None? then Some(Why(c.auctionTurnover, CloseAuctionTurnoverMissing))
    else None
  }

  predicate ReferenceCausal(reference: Value, auctionStart: int) {
    && HappenedBy(reference, auctionStart) && KnownBy(reference, auctionStart)
    && auctionStart - reference.eventAt.value <= MAX_AGE_NANOS
  }

  // The refusals after the window has been read.
  function LateRefusal(c: Daily, p: Daily, adv: real): Option<Reason>
    requires MissingInput(c, p).None?
  {
    if !KnownBy(p.program, c.auctionStart) then Some(ProgramLag1PostCutoff)
    else if !ReferenceCausal(c.reference, c.auctionStart) then Some(PreAuctionReferenceNotCausalOrStale)
    else if !HappenedFrom(c.close, c.auctionStart, c.auctionEnd) then Some(OfficialCloseTimingInvalid)
    else if !HappenedFrom(c.auctionTurnover, c.auctionStart, c.auctionEnd) then Some(CloseAuctionTurnoverTimingInvalid)
    else if c.reference.amount.value <= 0.0 || c.close.amount.value <= 0.0 || c.auctionTurnover.amount.value < 0.0 then
      Some(PriceOrAuctionNotionalInvalid)
    else if adv <= 0.0 then Some(Adv20Zero)
    else None
  }

  function Refusal(c: Daily, p: Daily, window: seq<Daily>): Option<Reason> {
    if MissingInput(c, p).Some? then MissingInput(c, p)
    else if p.program.unit != KRW then Some(ProgramUnitInvalid)
    else if c.reference.unit != KRW || c.close.unit != KRW || c.auctionTurnover.unit != KRW then
      Some(PriceOrAuctionUnitInvalid)
    else if WindowFault(Turnovers(window), c.auctionStart).Some? then WindowFault(Turnovers(window), c.auctionStart)
    else LateRefusal(c, p, Adv(Turnovers(window)))
  }

  function Direction(x: real): real {
    if x > 0.0 then 1.0 else if x < 0.0 then -1.0 else 0.0
  }

  function RowOf(c: Daily, p: Daily, window: seq<Daily>, log: real -> real): Row
    requires Refusal(c, p, window).None?
  {
    var adv := Adv(Turnovers(window));
    var residual := log(c.close.amount.value / c.reference.amount.value);
    Row(c.date, p.program.amount.value / adv, Direction(residual) * c.auctionTurnover.amount.value / adv, residual, adv,
        Controls(c.controls, c.auctionEnd),
        IdsOf([p.program, c.reference, c.close, c.auctionTurnover] + Turnovers(window) + ControlValues(c.controls)))
  }

  function Strict(log: real -> real): (Daily, Daily, seq<Daily>) -> Built {
    (c: Daily, p: Daily, window: seq<Daily>) =>
      if Refusal(c, p, window).Some? then Built(None, Refusal(c, p, window))
      else Built(Some(RowOf(c, p, window, log)), ControlReason(c.controls, c.auctionEnd))
  }

  // A row's predictor was known when the auction began: yesterday's program flow, the window's turnovers,
  // and a reference price no older than a minute.
  lemma {:induction false} PredictorsKnownAtAuction(c: Daily, p: Daily, window: seq<Daily>, v: Daily)
    requires Refusal(c, p, window).None? && v in window
    ensures KnownBy(p.program, c.auctionStart) && ReferenceCausal(c.reference, c.auctionStart)
    ensures KnownBy(v.turnover, c.auctionStart) && v.turnover.amount.Some? && v.turnover.amount.value > 0.0
  {
    FaultlessWindow(Turnovers(window), c.auctionStart);
    var i :| 0 <= i < |window| && window[i] == v;
    assert Turnovers(window)[i] in Turnovers(window);
  }

  // The zero-ADV refusal is dead code: an earlier check has refused every such window.
  lemma {:induction false} AdvRefusalUnreachable(c: Daily, p: Daily, window: seq<Daily>)
    requires |window| == LOOKBACK && WindowFault(Turnovers(window), c.auctionStart).None?
    ensures Adv(Turnovers(window)) > 0.0
  {
    AdvNeverZero(Turnovers(window), c.auctionStart);
  }

  method BuildOneRow(c: Daily, p: Daily, window: seq<Daily>, log: real -> real, reasons: multiset<Reason>)
    returns (row: Option<Row>, counted: multiset<Reason>)
    ensures row == Strict(log)(c, p, window).row && counted == Counted(reasons, Strict(log)(c, p, window).reason)
  {
    var missing := MissingInput(c, p);
    if missing.Some? {
      return None, reasons + multiset{missing.value};
    }
    if p.program.unit != KRW {
      return None, reasons + multiset{ProgramUnitInvalid};
    }
    if c.reference.unit != KRW || c.close.unit != KRW || c.auctionTurnover.unit != KRW {
      return None, reasons + multiset{PriceOrAuctionUnitInvalid};
    }
    var fault, total := ReadWindow(Turnovers(window), c.auctionStart);
    if fault.Some? {
      return None, reasons + multiset{fault.value};
    }
    var late := LateRefusal(c, p, total / 20.0);
    if late.Some? {
      return None, reasons + multiset{late.value};
    }
    var r := RowOf(c, p, window, log);
    var controls;
    controls, counted := ReadControls(c.controls, c.auctionEnd, reasons);
    row := Some(r.(controls := controls));
  }

  // ---------- the weak daily variant ----------

  datatype Weak = Weak(
    date: int, marketOpen: int, officialClose: int, program: Value, open: Value, close: Value,
    turnover: Value, controls: map<string, Value>, actual: bool)

  function WeakTurnovers(window: seq<Weak>): (vs: seq<Value>)
    ensures |vs| == |window| && forall i :: 0 <= i < |vs| ==> vs[i] == window[i].turnover
  {
    seq(|window|, i requires 0 <= i < |window| => window[i].turnover)
  }

  function WeakMissing(c: Weak, p: Weak): Option<Reason> {
    if p.program.amount.None? then Some(Why(p.program, ProgramLag1Missing))
    else if c.open.amount.None? then Some(Why(c.open, WeakOpenPriceMissing))
    else if c.close.amount.None? then Some(Why(c.close, OfficialCloseMissing))
    else None
  }

  predicate WeakTimed(c: Weak) {
    && c.open.eventAt == Some(c.marketOpen) && c.close.eventAt == Some(c.officialClose)
    && c.open.availableAt.Some? && c.open.availableAt.value >= c.officialClose
    && c.close.availableAt.Some? && c.close.availableAt.value >= c.officialClose
  }

  function WeakPriceRefusal(c: Weak): Option<Reason>
    requires c.open.amount.Some? && c.close.amount.Some?
  {
    if c.open.unit != KRW || c.close.unit != KRW then Some(WeakPriceUnitInvalid)
    else if !WeakTimed(c) then Some(WeakPriceTimingInvalid)
    else if c.open.amount.value <= 0.0 || c.close.amount.value <= 0.0 then Some(WeakPriceInvalid)
    else None
  }

  function WeakRefusal(c: Weak, p: Weak, window: seq<Weak>): Option<Reason> {
    if WeakMissing(c, p).Some? then WeakMissing(c, p)
    else if p.program.unit != KRW then Some(ProgramUnitInvalid)
    else if !KnownBy(p.program, c.marketOpen) then Some(ProgramLag1PostCutoff)
    else if WindowFault(WeakTurnovers(window), c.marketOpen).Some? then WindowFault(WeakTurnovers(window), c.marketOpen)
    else WeakPriceRefusal(c)
  }

  function WeakRowOf(c: Weak, p: Weak, window: seq<Weak>, log: real -> real): Row
    requires WeakRefusal(c, p, window).None? && window != []
  {
    AdvNeverZero(WeakTurnovers(window), c.marketOpen);
    var adv := Adv(WeakTurnovers(window));
    var weakReturn := log(c.close.amount.value / c.open.amount.value);
    Row(c.date, p.program.amount.value / adv, weakReturn, weakReturn, adv, Controls(c.controls, c.officialClose),
        IdsOf([p.program, c.open, c.close] + WeakTurnovers(window) + ControlValues(c.controls)))
  }

  // The window is twenty long wherever the builder calls this; an empty one has no average to divide by.
  function WeakDaily(log: real -> real): (Weak, Weak, seq<Weak>) -> Built {
    (c: Weak, p: Weak, window: seq<Weak>) =>
      if window == [] then Built(None, Some(AdvWindowMissing))
      else if WeakRefusal(c, p, window).Some? then Built(None, WeakRefusal(c, p, window))
      else Built(Some(WeakRowOf(c, p, window, log)), ControlReason(c.controls, c.officialClose))
  }

  // The weak variant's predictor was known at the market's opening, and its average turnover divides safely.
  lemma {:induction false} WeakPredictorsKnownAtOpen(c: Weak, p: Weak, window: seq<Weak>, v: Weak)
    requires WeakRefusal(c, p, window).None? && v in window
    ensures KnownBy(p.program, c.marketOpen) && KnownBy(v.turnover, c.marketOpen) && Adv(WeakTurnovers(window)) > 0.0
  {
    FaultlessWindow(WeakTurnovers(window), c.marketOpen);
    AdvNeverZero(WeakTurnovers(window), c.marketOpen);
    var i :| 0 <= i < |window| && window[i] == v;
    assert WeakTurnovers(window)[i] in WeakTurnovers(window);
  }

  method BuildOneWeakRow(c: Weak, p: Weak, window: seq<Weak>, log: real -> real, reasons: multiset<Reason>)
    returns (row: Option<Row>, counted: multiset<Reason>)
    requires window != []
    ensures row == WeakDaily(log)(c, p, window).row && counted == Counted(reasons, WeakDaily(log)(c, p, window).reason)
  {
    var missing := WeakMissing(c, p);
    if missing.Some? {
      return None, reasons + multiset{missing.value};
    }
    if p.program.unit != KRW {
      return None, reasons + multiset{ProgramUnitInvalid};
    }
    if !KnownBy(p.program, c.marketOpen) {
      return None, reasons + multiset{ProgramLag1PostCutoff};
    }
    var fault, total := ReadWindow(WeakTurnovers(window), c.marketOpen);
    if fault.Some? {
      return None, reasons + multiset{fault.value};
    }
    var late := WeakPriceRefusal(c);
    if late.Some? {
      return None, reasons + multiset{late.value};
    }
    var r := WeakRowOf(c, p, window, log);
    var controls;
    controls, counted := ReadControls(c.controls, c.officialClose, reasons);
    row := Some(r.(controls := controls));
  }

  // ---------- the builders ----------

  datatype Study = Study(rows: seq<Row>, reasons: multiset<Reason>)

  // One observation, with the day before it and the twenty before it.
  function One<O>(one: (O, O, seq<O>) -> Built, days: seq<O>, index: nat): Built
    requires LOOKBACK <= index < |days|
  {
    one(days[index], days[index - 1], days[index - LOOKBACK..index])
  }

  // What every observation after the first twenty comes to, in order.
  function All<O>(one: (O, O, seq<O>) -> Built, days: seq<O>): (bs: seq<Built>)
    ensures |bs| == if |days| <= LOOKBACK then 0 else |days| - LOOKBACK
    ensures forall i :: 0 <= i < |bs| ==> bs[i] == One(one, days, LOOKBACK + i)
  {
    if |days| <= LOOKBACK then []
    else seq(|days| - LOOKBACK, i requires 0 <= i < |days| - LOOKBACK => One(one, days, LOOKBACK + i))
  }

  function Added(s: Study, b: Built): Study {
    Study(if b.row.Some? then s.rows + [b.row.value] else s.rows, Counted(s.reasons, b.reason))
  }

  function Tally(bs: seq<Built>): Study {
    if bs == [] then Study([], multiset{}) else Added(Tally(bs[..|bs| - 1]), bs[|bs| - 1])
  }

  function Controlled(rows: seq<Row>): nat {
    if rows == [] then 0
    else Controlled(rows[..|rows| - 1]) + (if rows[|rows| - 1].controls.Some? then 1 else 0)
  }

  // A row with its controls and no reason, or a reason and not both a row and its controls.
  predicate Accounted(b: Built) {
    (b.row.Some? && b.row.value.controls.Some?) <==> b.reason.None?
  }

  lemma {:induction false} StrictAccounted(log: real -> real, c: Daily, p: Daily, window: seq<Daily>)
    ensures Accounted(Strict(log)(c, p, window))
  {
  }

  lemma {:induction false} WeakAccounted(log: real -> real, c: Weak, p: Weak, window: seq<Weak>)
    ensures Accounted(WeakDaily(log)(c, p, window))
  {
  }

  lemma {:induction false} AddedCounts(s: Study, b: Built)
    requires Accounted(b)
    ensures |Added(s, b).reasons| + Controlled(Added(s, b).rows) == |s.reasons| + Controlled(s.rows) + 1
  {
    if b.row.Some? {
      assert (s.rows + [b.row.value])[..|s.rows|] == s.rows;
    }
  }

  lemma {:induction false} Conserved(bs: seq<Built>)
    requires forall b :: b in bs ==> Accounted(b)
    ensures |Tally(bs).reasons| + Controlled(Tally(bs).rows) == |bs|
  {
    if bs != [] {
      var n := |bs| - 1;
      Conserved(bs[..n]);
      assert bs[n] in bs;
      AddedCounts(Tally(bs[..n]), bs[n]);
    }
  }

  // Each observation after the first twenty is counted once: as a controlled row or under one reason.
  lemma {:induction false} StrictConserves(log: real -> real, days: seq<Daily>)
    ensures var s := Tally(All(Strict(log), days));
            |s.reasons| + Controlled(s.rows) == if |days| <= LOOKBACK then 0 else |days| - LOOKBACK
  {
    var bs := All(Strict(log), days);
    forall b | b in bs
      ensures Accounted(b)
    {
      var i :| 0 <= i < |bs| && bs[i] == b;
      var index := LOOKBACK + i;
      StrictAccounted(log, days[index], days[index - 1], days[index - LOOKBACK..index]);
    }
    Conserved(bs);
  }

  lemma {:induction false} WeakConserves(log: real -> real, days: seq<Weak>)
    ensures var s := Tally(All(WeakDaily(log), days));
            |s.reasons| + Controlled(s.rows) == if |days| <= LOOKBACK then 0 else |days| - LOOKBACK
  {
    var bs := All(WeakDaily(log), days);
    forall b | b in bs
      ensures Accounted(b)
    {
      var i :| 0 <= i < |bs| && bs[i] == b;
      var index := LOOKBACK + i;
      WeakAccounted(log, days[index], days[index - 1], days[index - LOOKBACK..index]);
    }
    Conserved(bs);
  }

  lemma {:induction false} OneIgnoresLater<O>(one: (O, O, seq<O>) -> Built, days: seq<O>, k: nat, index: nat)
    requires LOOKBACK <= index < k <= |days|
    ensures One(one, days[..k], index) == One(one, days, index)
  {
    assert days[..k][index - LOOKBACK..index] == days[index - LOOKBACK..index];
  }

  lemma {:induction false} AllOfPrefix<O>(one: (O, O, seq<O>) -> Built, days: seq<O>, k: nat)
    requires k <= |days|
    ensures All(one, days[..k]) <= All(one, days)
  {
    var short, long := All(one, days[..k]), All(one, days);
    forall i | 0 <= i < |short|
      ensures short[i] == long[i]
    {
      OneIgnoresLater(one, days, k, LOOKBACK + i);
    }
  }

  lemma {:induction false} TallyGrows(bs: seq<Built>, more: seq<Built>)
    requires bs <= more
    ensures Tally(bs).rows <= Tally(more).rows && Tally(bs).reasons <= Tally(more).reasons
    decreases |more|
  {
    if |bs| < |more| {
      TallyGrows(bs, more[..|more| - 1]);
    } else {
      assert bs == more;
    }
  }

  // Building on a prefix of the observations gives a prefix of the rows, and no reason is taken back.
  lemma {:induction false} PrefixCausal<O>(one: (O, O, seq<O>) -> Built, days: seq<O>, k: nat)
    requires k <= |days|
    ensures Tally(All(one, days[..k])).rows <= Tally(All(one, days)).rows
    ensures Tally(All(one, days[..k])).reasons <= Tally(All(one, days)).reasons
  {
    AllOfPrefix(one, days, k);
    TallyGrows(All(one, days[..k]), All(one, days));
  }

  datatype Error = NotAscending | MixedOrigins

  datatype Build = Build(rows: seq<Row>, scheduled: nat, rawEligible: nat, controlledEligible: nat,
      reasons: multiset<Reason>)

  function BuildOf(s: Study, scheduled: nat): Build {
    Build(s.rows, scheduled, |s.rows|, Controlled(s.rows), s.reasons)
  }

  predicate Ascending(dates: seq<int>) {
    forall i, j :: 0 <= i < j < |dates| ==> dates[i] < dates[j]
  }

  predicate OneOrigin(origins: seq<bool>) {
    forall i, j :: 0 <= i < j < |origins| ==> origins[i] == origins[j]
  }

  function DailyDates(days: seq<Daily>): seq<int> {
    seq(|days|, i requires 0 <= i < |days| => days[i].date)
  }

  function DailyOrigins(days: seq<Daily>): seq<bool> {
    seq(|days|, i requires 0 <= i < |days| => days[i].actual)
  }

  function WeakDates(days: seq<Weak>): seq<int> {
    seq(|days|, i requires 0 <= i < |days| => days[i].date)
  }

  function WeakOrigins(days: seq<Weak>): seq<bool> {
    seq(|days|, i requires 0 <= i < |days| => days[i].actual)
  }

  method CountControlled(rows: seq<Row>) returns (count: nat)
    ensures count == Controlled(rows)
  {
    count := 0;
    for k := 0 to |rows|
      invariant count == Controlled(rows[..k])
    {
      assert rows[..k + 1][..k] == rows[..k];
      if rows[k].controls.Some? {
        count := count + 1;
      }
    }
    assert rows[..|rows|] == rows;
  }

  method StrictStudy(days: seq<Daily>, log: real -> real) returns (rows: seq<Row>, reasons: multiset<Reason>)
    ensures Study(rows, reasons) == Tally(All(Strict(log), days))
  {
    rows, reasons := [], multiset{};
    ghost var bs: seq<Built> := [];
    var index := LOOKBACK;
    while index < |days|
      invariant LOOKBACK <= index && |bs| == index - LOOKBACK && (index <= |days| || index == LOOKBACK)
      invariant Study(rows, reasons) == Tally(bs) && bs <= All(Strict(log), days)
    {
      ghost var b := All(Strict(log), days)[index - LOOKBACK];
      rows, reasons := StrictStudyStep(days, log, index, rows, reasons, b);
      assert (bs + [b])[..|bs|] == bs;
      bs := bs + [b];
      index := index + 1;
    }
    assert bs == All(Strict(log), days);
  }

  method StrictStudyStep(days: seq<Daily>, log: real -> real, index: nat, before: seq<Row>, counted: multiset<Reason>,
      ghost b: Built)
    returns (rows: seq<Row>, reasons: multiset<Reason>)
    requires LOOKBACK <= index < |days| && b == One(Strict(log), days, index)
    ensures Study(rows, reasons) == Added(Study(before, counted), b)
  {
    var row;
    row, reasons := BuildOneRow(days[index], days[index - 1], days[index - LOOKBACK..index], log, counted);
    rows := if row.Some? then before + [row.value] else before;
  }

  method BuildPrefalsificationRows(days: seq<Daily>, log: real -> real) returns (r: Result<Build, Error>)
    ensures !Ascending(DailyDates(days)) ==> r == Err(NotAscending)
    ensures Ascending(DailyDates(days)) && !OneOrigin(DailyOrigins(days)) ==> r == Err(MixedOrigins)
    ensures Ascending(DailyDates(days)) && OneOrigin(DailyOrigins(days)) ==>
              r == Ok(BuildOf(Tally(All(Strict(log), days)), |days|))
  {
    if !Ascending(DailyDates(days)) {
      return Err(NotAscending);
    }
    if !OneOrigin(DailyOrigins(days)) {
      return Err(MixedOrigins);
    }
    var rows, reasons := StrictStudy(days, log);
    var controlled := CountControlled(rows);
    r := Ok(Build(rows, |days|, |rows|, controlled, reasons));
  }

  method WeakStudy(days: seq<Weak>, log: real -> real) returns (rows: seq<Row>, reasons: multiset<Reason>)
    ensures Study(rows, reasons) == Tally(All(WeakDaily(log), days))
  {
    rows, reasons := [], multiset{};
    ghost var bs: seq<Built> := [];
    var index := LOOKBACK;
    while index < |days|
      invariant LOOKBACK <= index && |bs| == index - LOOKBACK && (index <= |days| || index == LOOKBACK)
      invariant Study(rows, reasons) == Tally(bs) && bs <= All(WeakDaily(log), days)
    {
      ghost var b := All(WeakDaily(log), days)[index - LOOKBACK];
      rows, reasons := WeakStudyStep(days, log, index, rows, reasons, b);
      assert (bs + [b])[..|bs|] == bs;
      bs := bs + [b];
      index := index + 1;
    }
    assert bs == All(WeakDaily(log), days);
  }

  method WeakStudyStep(days: seq<Weak>, log: real -> real, index: nat, before: seq<Row>, counted: multiset<Reason>,
      ghost b: Built)
    returns (rows: seq<Row>, reasons: multiset<Reason>)
    requires LOOKBACK <= index < |days| && b == One(WeakDaily(log), days, index)
    ensures Study(rows, reasons) == Added(Study(before, counted), b)
  {
    var row;
    row, reasons := BuildOneWeakRow(days[index], days[index - 1], days[index - LOOKBACK..index], log, counted);
    rows := if row.Some? then before + [row.value] else before;
  }

  method BuildWeakDailyRows(days: seq<Weak>, log: real -> real) returns (r: Result<Build, Error>)
    ensures !Ascending(WeakDates(days)) ==> r == Err(NotAscending)
    ensures Ascending(WeakDates(days)) && !OneOrigin(WeakOrigins(days)) ==> r == Err(MixedOrigins)
    ensures Ascending(WeakDates(days)) && OneOrigin(WeakOrigins(days)) ==>
              r == Ok(BuildOf(Tally(All(WeakDaily(log), days)), |days|))
  {
    if !Ascending(WeakDates(days)) {
      return Err(NotAscending);
    }
    if !OneOrigin(WeakOrigins(days)) {
      return Err(MixedOrigins);
    }
    var rows, reasons := WeakStudy(days, log);
    var controlled := CountControlled(rows);
    r := Ok(Build(rows, |days|, |rows|, controlled, reasons));
  }
}

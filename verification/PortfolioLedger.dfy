/** The deterministic portfolio ledger: signed positions with an average cost, cash, realised profit. */
module Portfolio {
  import opened Numbers

  datatype Side = BUY | SELL

  /** One fill as the ledger receives it. */
  datatype LedgerFill = LedgerFill(instrument: string, side: Side, quantity: real, price: real, currency: string)
  {
    function Signed(): real {
      if side == BUY then quantity else -quantity
    }
  }

  /** The value of a ledger object. A missing key reads as zero, as `dict.get(key, 0)` does. */
  datatype Book = Book(cash: map<string, real>, positions: map<string, real>, avgCost: map<string, real>,
      realized: real)

  const EMPTY := Book(map[], map[], map[], 0.0)

  function At(m: map<string, real>, k: string): real {
    if k in m then m[k] else 0.0
  }

  // ---------- what one fill does to one position ----------

  predicate SameDirection(prior: real, signed: real) {
    prior == 0.0 || (prior > 0.0 <==> signed > 0.0)
  }

  function Blended(prior: real, avg: real, signed: real, price: real): real {
    var after := prior + signed;
    if after != 0.0 then (avg * Abs(prior) + price * Abs(signed)) / Abs(after) else 0.0
  }

  function NewAverage(prior: real, avg: real, signed: real, price: real): real {
    var after := prior + signed;
    if SameDirection(prior, signed) then
      Blended(prior, avg, signed, price)
    else if after != 0.0 && Abs(after) > Abs(prior) then price
    else if after == 0.0 then 0.0
    else avg
  }

  // A partial close leaves the average cost entry as it is.
  predicate WritesAverage(prior: real, signed: real) {
    SameDirection(prior, signed) || prior + signed == 0.0 || Abs(prior + signed) > Abs(prior)
  }

  function Realised(prior: real, avg: real, signed: real, price: real): real {
    if SameDirection(prior, signed) then 0.0
    else ClosingProfit(prior, avg, signed, price)
  }

  function ClosingProfit(prior: real, avg: real, signed: real, price: real): real {
    var direction := if prior > 0.0 then 1.0 else -1.0;
    direction * (price - avg) * Min(Abs(signed), Abs(prior))
  }

  // What the fill takes out of the cash account.
  function Outlay(quantity: real, side: Side, price: real): real {
    var notional := quantity * price;
    if side == BUY then notional else -notional
  }

  function Averages(avgCost: map<string, real>, k: string, prior: real, avg: real, signed: real,
      price: real): map<string, real> {
    if WritesAverage(prior, signed) then avgCost[k := NewAverage(prior, avg, signed, price)] else avgCost
  }

  function Applied(b: Book, f: LedgerFill): Book {
    var prior, avg := At(b.positions, f.instrument), At(b.avgCost, f.instrument);
    Book(b.cash[f.currency := At(b.cash, f.currency) - Outlay(f.quantity, f.side, f.price)],
         b.positions[f.instrument := prior + f.Signed()],
         Averages(b.avgCost, f.instrument, prior, avg, f.Signed(), f.price),
         b.realized + Realised(prior, avg, f.Signed(), f.price))
  }

  function AppliedAll(fills: seq<LedgerFill>): Book {
    if fills == [] then EMPTY else Applied(AppliedAll(fills[..|fills| - 1]), fills[|fills| - 1])
  }

  // ---------- sums over the instruments of a map ----------

  function Cost(quantity: real, price: real): real {
    quantity * price
  }

  function Worth(quantities: map<string, real>, prices: map<string, real>, k: string): real {
    Cost(At(quantities, k), At(prices, k))
  }

  // sum of quantity * price over `keys`
  ghost function Value(keys: set<string>, quantities: map<string, real>, prices: map<string, real>): real {
    if keys == {} then 0.0
    else
      var k :| k in keys;
      Worth(quantities, prices, k) + Value(keys - {k}, quantities, prices)
  }

  lemma {:induction false} ValueTake(keys: set<string>, q: map<string, real>, p: map<string, real>, k: string)
    requires k in keys
    ensures Value(keys, q, p) == Worth(q, p, k) + Value(keys - {k}, q, p)
    decreases |keys|
  {
    var j :| j in keys && Value(keys, q, p) == Worth(q, p, j) + Value(keys - {j}, q, p);
    if j != k {
      ValueTake(keys - {j}, q, p, k);
      ValueTake(keys - {k}, q, p, j);
      assert keys - {j} - {k} == keys - {k} - {j};
    }
  }

  lemma {:induction false} ValueCongruent(keys: set<string>, q: map<string, real>, p: map<string, real>,
                                          q': map<string, real>, p': map<string, real>)
    requires forall k :: k in keys ==> Worth(q, p, k) == Worth(q', p', k)
    ensures Value(keys, q, p) == Value(keys, q', p')
    decreases |keys|
  {
    if keys != {} {
      var k :| k in keys;
      ValueTake(keys, q, p, k);
      ValueTake(keys, q', p', k);
      ValueCongruent(keys - {k}, q, p, q', p');
    }
  }

  // Changing one instrument changes the sum by the change of that instrument's worth.
  lemma {:induction false} ValueUpdate(q: map<string, real>, p: map<string, real>, q': map<string, real>,
      p': map<string, real>, k: string)
    requires k in q' && q'.Keys == q.Keys + {k}
    requires forall j :: j != k ==> At(q', j) == At(q, j) && At(p', j) == At(p, j)
    ensures Value(q'.Keys, q', p') == Value(q.Keys, q, p) - Worth(q, p, k) + Worth(q', p', k)
  {
    var others := q.Keys - {k};
    assert q'.Keys - {k} == others;
    ValueTake(q'.Keys, q', p', k);
    ValueCongruent(others, q, p, q', p');
    if k in q {
      ValueTake(q.Keys, q, p, k);
    } else {
      assert q.Keys == others;
      WorthIs(q, p, k, 0.0, At(p, k), 0.0);
    }
  }

  // ---------- the accounting identity ----------

  ghost function CostBasis(b: Book): real {
    Value(b.positions.Keys, b.positions, b.avgCost)
  }

  // How far the book is from cash + cost of the open positions = realised profit.
  ghost function Defect(b: Book, currency: string): real {
    At(b.cash, currency) + CostBasis(b) - b.realized
  }

  /**
    The reversal that the guard misses: the fill is larger than the position it closes, but what it
    opens on the other side is no larger than what was closed, so the old average cost stays.
   */
  predicate StaleReversal(prior: real, signed: real) {
    !SameDirection(prior, signed) && Abs(signed) > Abs(prior) && Abs(prior + signed) <= Abs(prior)
  }

  // What an old average cost on a new position misstates.
  function Misvalued(avg: real, price: real, quantity: real): real {
    (avg - price) * quantity
  }

  ghost function Error(b: Book, f: LedgerFill): real {
    var prior, avg, signed := At(b.positions, f.instrument), At(b.avgCost, f.instrument), f.Signed();
    if StaleReversal(prior, signed) then Misvalued(avg, f.price, prior + signed) else 0.0
  }

  lemma {:induction false} SameDirectionAverage(prior: real, avg: real, signed: real, price: real, after: real)
    requires SameDirection(prior, signed) && after == prior + signed
    ensures after * NewAverage(prior, avg, signed, price) == prior * avg + signed * price
  {
    if after != 0.0 {
      var total := avg * Abs(prior) + price * Abs(signed);
      if after > 0.0 {
        Quotient(total, after, total / after);
      } else {
        Quotient(total, -after, total / -after);
      }
    }
  }

  lemma {:induction false} Quotient(total: real, d: real, q: real)
    requires d != 0.0 && q == total / d
    ensures d * q == total
  {
  }

  // One position: cash out, cost in, profit booked; `error` is what the guard leaves over.
  lemma {:induction false} PositionBalance(prior: real, avg: real, signed: real, price: real, after: real, avg': real,
      profit: real, costAfter: real, costBefore: real, spent: real, error: real)
    requires after == prior + signed
    requires avg' == NewAverage(prior, avg, signed, price) && profit == Realised(prior, avg, signed, price)
    requires costAfter == Cost(after, avg') && costBefore == Cost(prior, avg) && spent == Cost(signed, price)
    requires error == if StaleReversal(prior, signed) then Misvalued(avg, price, after) else 0.0
    ensures costAfter - costBefore - spent - profit == error
  {
    if SameDirection(prior, signed) {
      SameDirectionAverage(prior, avg, signed, price, after);
    } else {
      var gain := price - avg;
      if Abs(signed) <= Abs(prior) {
        assert profit == -(signed * gain) by {
          if prior > 0.0 { assert Min(Abs(signed), Abs(prior)) == -signed; }
              else { assert Min(Abs(signed), Abs(prior)) == signed; }
          assert gain * -signed == -(signed * gain);
        }
        ClosingBalance(prior, avg, signed, price, after, avg');
      } else {
        assert profit == prior * gain by {
          if prior > 0.0 { assert Min(Abs(signed), Abs(prior)) == prior; }
              else { assert Min(Abs(signed), Abs(prior)) == -prior; }
          assert -1.0 * gain * -prior == prior * gain;
        }
        ReversalBalance(prior, avg, signed, price, after, avg');
      }
    }
  }

  lemma {:induction false} ClosingBalance(prior: real, avg: real, signed: real, price: real, after: real, avg': real)
    requires after == prior + signed && (avg' == avg || (after == 0.0 && avg' == 0.0))
    ensures after * avg' - prior * avg - signed * price + signed * (price - avg) == 0.0
  {
    assert after * avg' == after * avg;
  }

  lemma {:induction false} ReversalBalance(prior: real, avg: real, signed: real, price: real, after: real, avg': real)
    requires after == prior + signed && (avg' == price || avg' == avg)
    ensures after * avg' - prior * avg - signed * price - prior * (price - avg) == (avg' - price) * after
  {
  }

  // Every fill in the book's currency moves the defect by exactly its error term.
  lemma {:induction false} FillDefect(b: Book, f: LedgerFill)
    ensures Defect(Applied(b, f), f.currency) == Defect(b, f.currency) + Error(b, f)
  {
    var prior, avg, signed := At(b.positions, f.instrument), At(b.avgCost, f.instrument), f.Signed();
    var avg' := NewAverage(prior, avg, signed, f.price);
    FillDefectTerms(b, f, prior, avg, signed, prior + signed, avg', Realised(prior, avg, signed, f.price),
      Cost(prior + signed, avg'), Cost(prior, avg), Cost(signed, f.price), Error(b, f));
  }

  lemma {:induction false} FillDefectTerms(b: Book, f: LedgerFill, prior: real, avg: real, signed: real, after: real,
      avg': real, profit: real, costAfter: real, costBefore: real, spent: real, error: real)
    requires prior == At(b.positions, f.instrument) && avg == At(b.avgCost, f.instrument) && signed == f.Signed()
    requires after == prior + signed && avg' == NewAverage(prior, avg, signed, f.price)
    requires profit == Realised(prior, avg, signed, f.price)
    requires costAfter == Cost(after, avg') && costBefore == Cost(prior, avg) && spent == Cost(signed, f.price)
        && error == Error(b, f)
    ensures Defect(Applied(b, f), f.currency) == Defect(b, f.currency) + error
  {
    FillBasis(b, f, prior, avg, after, avg', costAfter, costBefore);
    OutlayIsSigned(f, spent);
    PositionBalance(prior, avg, signed, f.price, after, avg', profit, costAfter, costBefore, spent, error);
  }

  lemma {:induction false} FillBasis(b: Book, f: LedgerFill, prior: real, avg: real, after: real, avg': real,
      costAfter: real, costBefore: real)
    requires prior == At(b.positions, f.instrument) && avg == At(b.avgCost, f.instrument)
    requires after == prior + f.Signed() && avg' == NewAverage(prior, avg, f.Signed(), f.price)
    requires costAfter == Cost(after, avg') && costBefore == Cost(prior, avg)
    ensures CostBasis(Applied(b, f)) == CostBasis(b) - costBefore + costAfter
  {
    var b' := Applied(b, f);
    ValueUpdate(b.positions, b.avgCost, b'.positions, b'.avgCost, f.instrument);
    WorthIs(b.positions, b.avgCost, f.instrument, prior, avg, costBefore);
    WorthIs(b'.positions, b'.avgCost, f.instrument, after, avg', costAfter);
  }

  lemma {:induction false} WorthIs(q: map<string, real>, p: map<string, real>, k: string, quantity: real, price: real,
      worth: real)
    requires At(q, k) == quantity && At(p, k) == price && worth == Cost(quantity, price)
    ensures Worth(q, p, k) == worth
  {
  }

  lemma {:induction false} OutlayIsSigned(f: LedgerFill, spent: real)
    requires spent == Cost(f.Signed(), f.price)
    ensures Outlay(f.quantity, f.side, f.price) == spent
  {
  }

  predicate InCurrency(fills: seq<LedgerFill>, currency: string) {
    forall i :: 0 <= i < |fills| ==> fills[i].currency == currency
  }

  ghost function TotalError(fills: seq<LedgerFill>): real {
    if fills == [] then 0.0
    else
      var n := |fills| - 1;
      TotalError(fills[..n]) + Error(AppliedAll(fills[..n]), fills[n])
  }

  // Over every sequence of fills in one currency: cash + cost basis = realised profit + the summed error terms.
  lemma {:induction false} AccountingIdentity(fills: seq<LedgerFill>, currency: string)
    requires InCurrency(fills, currency)
    ensures Defect(AppliedAll(fills), currency) == TotalError(fills)
  {
    if fills != [] {
      var n := |fills| - 1;
      AccountingIdentity(fills[..n], currency);
      FillDefect(AppliedAll(fills[..n]), fills[n]);
    }
  }

  // The book right before fill k.
  function Before(fills: seq<LedgerFill>, k: nat): Book
    requires k < |fills|
  {
    AppliedAll(fills[..k])
  }

  predicate Harmless(b: Book, f: LedgerFill) {
    StaleReversal(At(b.positions, f.instrument), f.Signed()) ==> f.price == At(b.avgCost, f.instrument)
  }

  lemma {:induction false} ErrorIffHarmful(b: Book, f: LedgerFill)
    ensures Error(b, f) == 0.0 <==> Harmless(b, f)
  {
    var prior, avg, signed := At(b.positions, f.instrument), At(b.avgCost, f.instrument), f.Signed();
    if StaleReversal(prior, signed) && avg != f.price {
      ProductNotZero(avg - f.price, prior + signed, Error(b, f));
    }
  }

  lemma {:induction false} ProductNotZero(x: real, y: real, xy: real)
    requires x != 0.0 && y != 0.0 && xy == x * y
    ensures xy != 0.0
  {
    var a, b := Abs(x), Abs(y);
    assert a * b > 0.0;
    assert a * b == xy || a * b == -xy;
  }

  // The identity holds all along the run exactly when no fill is a stale reversal away from the average cost.
  lemma {:induction false} IdentityIffNoStaleReversal(fills: seq<LedgerFill>, currency: string)
    requires InCurrency(fills, currency)
    ensures (forall k :: 0 <= k <= |fills| ==> Defect(AppliedAll(fills[..k]), currency) == 0.0)
            <==> (forall k :: 0 <= k < |fills| ==> Harmless(Before(fills, k), fills[k]))
  {
    forall k | 0 <= k < |fills|
      ensures Defect(AppliedAll(fills[..k + 1]), currency)
              == Defect(AppliedAll(fills[..k]), currency) + Error(Before(fills, k), fills[k])
      ensures Error(Before(fills, k), fills[k]) == 0.0 <==> Harmless(Before(fills, k), fills[k])
    {
      assert fills[..k + 1][..k] == fills[..k];
      FillDefect(AppliedAll(fills[..k]), fills[k]);
      ErrorIffHarmful(Before(fills, k), fills[k]);
    }
    if forall k :: 0 <= k < |fills| ==> Harmless(Before(fills, k), fills[k]) {
      forall k | 0 <= k <= |fills|
        ensures Defect(AppliedAll(fills[..k]), currency) == 0.0
      {
        HarmlessPrefix(fills, currency, k);
      }
    } else {
      var k :| 0 <= k < |fills| && !Harmless(Before(fills, k), fills[k]);
      assert Defect(AppliedAll(fills[..k]), currency) != 0.0 || Defect(AppliedAll(fills[..k + 1]), currency) != 0.0;
    }
  }

  lemma {:induction false} HarmlessPrefix(fills: seq<LedgerFill>, currency: string, k: nat)
    requires InCurrency(fills, currency) && k <= |fills|
    requires forall j :: 0 <= j < |fills| ==> Harmless(Before(fills, j), fills[j])
    ensures Defect(AppliedAll(fills[..k]), currency) == 0.0
  {
    if k == 0 {
      assert fills[..0] == [];
    } else {
      HarmlessPrefix(fills, currency, k - 1);
      assert fills[..k][..k - 1] == fills[..k - 1];
      FillDefect(AppliedAll(fills[..k - 1]), fills[k - 1]);
      ErrorIffHarmful(Before(fills, k - 1), fills[k - 1]);
    }
  }

  // Ten bought at 100 and fifteen sold at 90: the five left short keep the cost 100, and the books are 50 apart.
  lemma {:induction false} StaleReversalBreaksIdentity()
    ensures var fills := [LedgerFill("A", BUY, 10.0, 100.0, "KRW"), LedgerFill("A", SELL, 15.0, 90.0, "KRW")];
            Defect(AppliedAll(fills), "KRW") == -50.0
  {
    var first, second := LedgerFill("A", BUY, 10.0, 100.0, "KRW"), LedgerFill("A", SELL, 15.0, 90.0, "KRW");
    var fills := [first, second];
    AccountingIdentity(fills, "KRW");
    assert fills[..1] == [first] && fills[..1][..0] == [];
    assert AppliedAll([first]) == Applied(EMPTY, first);
    assert TotalError([first]) == TotalError([]) + Error(EMPTY, first);
  }

  // ---------- marks ----------

  predicate Covers(marks: map<string, real>, b: Book) {
    forall k :: k in b.positions && b.positions[k] != 0.0 ==> k in marks
  }

  function Gain(mark: real, avg: real, quantity: real): real {
    (mark - avg) * quantity
  }

  // (mark - average cost) * quantity for an open, marked position
  function Unrealised(b: Book, marks: map<string, real>, k: string): real {
    if At(b.positions, k) == 0.0 || k !in marks then 0.0
    else Gain(marks[k], At(b.avgCost, k), At(b.positions, k))
  }

  ghost function UnrealisedOver(keys: set<string>, b: Book, marks: map<string, real>): real {
    if keys == {} then 0.0
    else
      var k :| k in keys;
      Unrealised(b, marks, k) + UnrealisedOver(keys - {k}, b, marks)
  }

  lemma {:induction false} UnrealisedTake(keys: set<string>, b: Book, marks: map<string, real>, k: string)
    requires k in keys
    ensures UnrealisedOver(keys, b, marks) == Unrealised(b, marks, k) + UnrealisedOver(keys - {k}, b, marks)
    decreases |keys|
  {
    var j :| j in keys && UnrealisedOver(keys, b, marks) == Unrealised(b, marks, j)
        + UnrealisedOver(keys - {j}, b, marks);
    if j != k {
      UnrealisedTake(keys - {j}, b, marks, k);
      UnrealisedTake(keys - {k}, b, marks, j);
      assert keys - {j} - {k} == keys - {k} - {j};
    }
  }

  lemma {:induction false} UnrealisedIsValueGap(keys: set<string>, b: Book, marks: map<string, real>)
    requires keys <= b.positions.Keys && Covers(marks, b)
    ensures UnrealisedOver(keys, b, marks) == Value(keys, b.positions, marks) - Value(keys, b.positions, b.avgCost)
    decreases |keys|
  {
    if keys != {} {
      var k :| k in keys;
      UnrealisedTake(keys, b, marks, k);
      ValueTake(keys, b.positions, marks, k);
      ValueTake(keys, b.positions, b.avgCost, k);
      UnrealisedIsValueGap(keys - {k}, b, marks);
      UnrealisedTerm(b, marks, k);
    }
  }

  lemma {:induction false} UnrealisedTerm(b: Book, marks: map<string, real>, k: string)
    requires k in b.positions && Covers(marks, b)
    ensures Unrealised(b, marks, k) == Worth(b.positions, marks, k) - Worth(b.positions, b.avgCost, k)
  {
    Spread(At(b.positions, k), At(marks, k), At(b.avgCost, k), (At(marks, k) - At(b.avgCost, k)) * At(b.positions, k));
  }

  lemma {:induction false} Spread(q: real, mark: real, avg: real, gain: real)
    requires gain == (mark - avg) * q
    ensures gain == q * mark - q * avg
  {
  }

  // Equity two ways: cash + market value = realised + unrealised, whenever no stale reversal was charged.
  lemma {:induction false} EquityIdentity(fills: seq<LedgerFill>, currency: string, marks: map<string, real>)
    requires InCurrency(fills, currency) && Covers(marks, AppliedAll(fills))
    ensures var b := AppliedAll(fills);
            At(b.cash, currency) + Value(b.positions.Keys, b.positions, marks)
            == b.realized + UnrealisedOver(b.positions.Keys, b, marks) + TotalError(fills)
  {
    var b := AppliedAll(fills);
    AccountingIdentity(fills, currency);
    UnrealisedIsValueGap(b.positions.Keys, b, marks);
  }

  // ---------- the ledger object ----------

  class PortfolioLedger {
    var cashByCurrency: map<string, real>
    var positions: map<string, real>
    var avgCost: map<string, real>
    var realizedPnl: real

    function View(): Book
      reads this
    {
      Book(cashByCurrency, positions, avgCost, realizedPnl)
    }

    constructor ()
      ensures View() == EMPTY
    {
      cashByCurrency, positions, avgCost, realizedPnl := map[], map[], map[], 0.0;
    }

    method ApplyFill(instrument: string, side: Side, quantity: real, price: real, currency: string)
      modifies this
      ensures View() == Applied(old(View()), LedgerFill(instrument, side, quantity, price, currency))
    {
      var signedQty := if side == BUY then quantity else -quantity;
      var priorQty := At(positions, instrument);
      var priorAvg := At(avgCost, instrument);
      cashByCurrency := cashByCurrency[currency := At(cashByCurrency, currency) - Outlay(quantity, side, price)];
      var newQty := priorQty + signedQty;
      if SameDirection(priorQty, signedQty) {
        avgCost := avgCost[instrument := Blended(priorQty, priorAvg, signedQty, price)];
      } else {
        realizedPnl := realizedPnl + ClosingProfit(priorQty, priorAvg, signedQty, price);
        if newQty != 0.0 && Abs(newQty) > Abs(priorQty) {
          avgCost := avgCost[instrument := price];
        } else if newQty == 0.0 {
          avgCost := avgCost[instrument := 0.0];
        }
      }
      positions := positions[instrument := newQty];
    }

    method UnrealizedPnl(markPrices: map<string, real>) returns (total: real)
      ensures total == UnrealisedOver(positions.Keys, View(), markPrices)
    {
      total := 0.0;
      var rest := positions.Keys;
      while rest != {}
        invariant rest <= positions.Keys
        invariant total + UnrealisedOver(rest, View(), markPrices) == UnrealisedOver(positions.Keys, View(), markPrices)
        decreases |rest|
      {
        var instrument :| instrument in rest;
        UnrealisedTake(rest, View(), markPrices, instrument);
        var qty := positions[instrument];
        rest := rest - {instrument};
        if qty != 0.0 && instrument in markPrices {
          var avg := At(avgCost, instrument);
          total := total + Gain(markPrices[instrument], avg, qty);
        }
      }
    }
  }
}

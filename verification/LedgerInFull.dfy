/** One fill on the ledger, case by case: what it does to the cash, the position, its average cost and the profit. */
module LedgerInFull {
  import opened Numbers
  import opened Portfolio

  // A buy pays for what it adds to the position, a sale is paid for what it takes away; no other cash, position or cost
  // changes.
  lemma {:induction false} FillMoves(b: Book, f: LedgerFill, notional: real)
    requires notional == f.quantity * f.price
    ensures f.side == BUY ==>
              && At(Applied(b, f).cash, f.currency) == At(b.cash, f.currency) - notional
              && At(Applied(b, f).positions, f.instrument) == At(b.positions, f.instrument) + f.quantity
    ensures f.side == SELL ==>
              && At(Applied(b, f).cash, f.currency) == At(b.cash, f.currency) + notional
              && At(Applied(b, f).positions, f.instrument) == At(b.positions, f.instrument) - f.quantity
  {
    hide Averages, Realised;
  }

  lemma {:induction false} OthersStay(b: Book, f: LedgerFill, c: string, k: string)
    requires c != f.currency && k != f.instrument
    ensures At(Applied(b, f).cash, c) == At(b.cash, c) && At(Applied(b, f).positions, k) == At(b.positions, k)
    ensures At(Applied(b, f).avgCost, k) == At(b.avgCost, k)
  {
    hide NewAverage, Realised, Outlay;
  }

  lemma {:induction false} FillChanges(b: Book, f: LedgerFill, prior: real, avg: real, signed: real)
    requires prior == At(b.positions, f.instrument) && avg == At(b.avgCost, f.instrument) && signed == f.Signed()
    ensures Applied(b, f).realized == b.realized + Realised(prior, avg, signed, f.price)
    ensures At(Applied(b, f).avgCost, f.instrument) == NewAverage(prior, avg, signed, f.price)
  {
  }

  lemma {:induction false} TimesItself(total: real, size: real, q: real)
    requires size > 0.0 && q == total / size
    ensures q * size == total
  {
  }

  // A fill that opens a position or adds to one: the new average cost weighs the old and the new part, and no profit is
  // booked.
  lemma {:induction false} Adding(b: Book, f: LedgerFill, prior: real, avg: real, added: real, after: real)
    requires prior == At(b.positions, f.instrument) && avg == At(b.avgCost, f.instrument) && added == f.Signed()
    requires after == prior + added && ((prior >= 0.0 && added > 0.0) || (prior <= 0.0 && added < 0.0))
    ensures Applied(b, f).realized == b.realized
    ensures after != 0.0
    ensures At(Applied(b, f).avgCost, f.instrument) * after == avg * prior + f.price * added
  {
    FillChanges(b, f, prior, avg, added);
    hide Applied;
    SameDirectionAverage(prior, avg, added, f.price, after);
    Commuted(after, NewAverage(prior, avg, added, f.price), prior, avg, added, f.price);
  }

  lemma {:induction false} Commuted(after: real, average: real, prior: real, avg: real, added: real, price: real)
    requires after * average == prior * avg + added * price
    ensures average * after == avg * prior + price * added
  {
  }

  // So it lies between the two.
  lemma {:induction false} AverageBetween(b: Book, f: LedgerFill, prior: real, avg: real, added: real, low: real,
      high: real)
    requires prior == At(b.positions, f.instrument) && avg == At(b.avgCost, f.instrument) && added == f.Signed()
    requires (prior >= 0.0 && added > 0.0) || (prior <= 0.0 && added < 0.0)
    requires low <= f.price <= high && (prior != 0.0 ==> low <= avg <= high)
    ensures low <= At(Applied(b, f).avgCost, f.instrument) <= high
  {
    Adding(b, f, prior, avg, added, prior + added);
    hide Applied;
    var average := At(Applied(b, f).avgCost, f.instrument);
    if prior + added > 0.0 {
      Weighed(average, prior, avg, added, f.price, low, high);
    } else {
      Negated(average, prior, avg, added, f.price);
      Weighed(average, -prior, avg, -added, f.price, low, high);
    }
  }

  lemma {:induction false} Negated(average: real, prior: real, avg: real, added: real, price: real)
    requires average * (prior + added) == avg * prior + price * added
    ensures average * (-prior + -added) == avg * -prior + price * -added
  {
  }

  lemma {:induction false} Weighed(average: real, prior: real, avg: real, added: real, price: real, low: real,
      high: real)
    requires average * (prior + added) == avg * prior + price * added && prior >= 0.0 && added > 0.0
    requires low <= price <= high && (prior != 0.0 ==> low <= avg <= high)
    ensures low <= average <= high
  {
    if prior == 0.0 {
      assert average * added == price * added;
      SameFactor(average, price, added);
    } else {
      var whole := prior + added;
      Between(avg, prior, low, high, avg * prior);
      Between(price, added, low, high, price * added);
      Distributed(average, low, whole);
      Distributed(high, average, whole);
      assert low * whole == low * prior + low * added && high * whole == high * prior + high * added;
      NotNegative(average - low, whole, (average - low) * whole);
      NotNegative(high - average, whole, (high - average) * whole);
    }
  }

  lemma {:induction false} SameFactor(x: real, y: real, whole: real)
    requires whole > 0.0 && x * whole == y * whole
    ensures x == y
  {
    Distributed(x, y, whole);
  }

  lemma {:induction false} Between(x: real, part: real, low: real, high: real, product: real)
    requires low <= x <= high && part > 0.0 && product == x * part
    ensures low * part <= product <= high * part
  {
  }

  lemma {:induction false} Distributed(x: real, y: real, whole: real)
    ensures (x - y) * whole == x * whole - y * whole
  {
  }

  lemma {:induction false} NotNegative(x: real, whole: real, product: real)
    requires whole > 0.0 && product == x * whole && product >= 0.0
    ensures x >= 0.0
  {
  }

  // A partial close leaves the average as it was, and books what the closed part earned: bought at the average and sold
  // at the price, or the other way round.
  lemma {:induction false} PartialClose(b: Book, f: LedgerFill, prior: real, avg: real, closed: real)
    requires prior == At(b.positions, f.instrument) && avg == At(b.avgCost, f.instrument) && closed == f.quantity
    requires closed > 0.0 && ((f.side == SELL && prior > closed) || (f.side == BUY && -prior > closed))
    ensures At(Applied(b, f).avgCost, f.instrument) == avg
    ensures f.side == SELL ==> Applied(b, f).realized == b.realized + (f.price - avg) * closed
    ensures f.side == BUY ==> Applied(b, f).realized == b.realized + (avg - f.price) * closed
  {
    FillChanges(b, f, prior, avg, f.Signed());
    hide Applied;
    ClosedPart(prior, avg, f.Signed(), f.price, closed);
  }

  lemma {:induction false} ClosedPart(prior: real, avg: real, signed: real, price: real, closed: real)
    requires closed > 0.0 && closed == Min(Abs(signed), Abs(prior))
    requires (prior > 0.0 && signed < 0.0) || (prior < 0.0 && signed > 0.0)
    ensures prior > 0.0 ==> Realised(prior, avg, signed, price) == (price - avg) * closed
    ensures prior < 0.0 ==> Realised(prior, avg, signed, price) == (avg - price) * closed
  {
    if prior < 0.0 {
      assert (-1.0 * (price - avg)) * closed == (avg - price) * closed;
    }
  }

  // A full close books what the whole position earned, and forgets its cost.
  lemma {:induction false} FullClose(b: Book, f: LedgerFill, prior: real, avg: real)
    requires prior == At(b.positions, f.instrument) && avg == At(b.avgCost, f.instrument) && prior != 0.0
    requires prior + f.Signed() == 0.0
    ensures At(Applied(b, f).avgCost, f.instrument) == 0.0
    ensures Applied(b, f).realized == b.realized + (f.price - avg) * prior
  {
    FillChanges(b, f, prior, avg, f.Signed());
    hide Applied;
    if prior > 0.0 {
      ClosedPart(prior, avg, f.Signed(), f.price, prior);
    } else {
      ClosedPart(prior, avg, f.Signed(), f.price, -prior);
      assert (avg - f.price) * -prior == (f.price - avg) * prior;
    }
  }

  // A reversal books what the whole old position earned. What it opens on the other side is at the fill's price if it
  // is larger than what was closed; otherwise the old average stays.
  lemma {:induction false} Reversal(b: Book, f: LedgerFill, prior: real, avg: real, signed: real, after: real)
    requires prior == At(b.positions, f.instrument) && avg == At(b.avgCost, f.instrument) && signed == f.Signed()
    requires after == prior + signed && ((prior > 0.0 && after < 0.0) || (prior < 0.0 && after > 0.0))
    ensures Applied(b, f).realized == b.realized + (f.price - avg) * prior
    ensures prior > 0.0 ==> At(Applied(b, f).avgCost, f.instrument) == if -after > prior then f.price else avg
    ensures prior < 0.0 ==> At(Applied(b, f).avgCost, f.instrument) == if after > -prior then f.price else avg
  {
    FillChanges(b, f, prior, avg, signed);
    hide Applied;
    if prior > 0.0 {
      ClosedPart(prior, avg, signed, f.price, prior);
    } else {
      ClosedPart(prior, avg, signed, f.price, -prior);
      assert (avg - f.price) * -prior == (f.price - avg) * prior;
    }
  }
}

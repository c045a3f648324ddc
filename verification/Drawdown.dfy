/**
  Drawdown in one pass, with and without starting capital, and the profit share of the best days.
 */
module Drawdown {
  import opened Numbers
  import opened StableSort

  // Cumulative profit after the first k trades.
  function P(pnls: seq<real>, k: nat): real
    requires k <= |pnls|
  {
    Total(pnls[..k])
  }

  // ---------- the largest fall from a peak ----------

  ghost predicate IsPeak(pnls: seq<real>, k: nat, peak: real)
    requires k <= |pnls|
  {
    && (forall i :: 0 <= i <= k ==> P(pnls, i) <= peak)
    && exists i :: 0 <= i <= k && P(pnls, i) == peak
  }

  // The largest fall P(i) - P(j) with i before j, among the first k trades.
  ghost predicate IsDrawdown(pnls: seq<real>, k: nat, fall: real)
    requires k <= |pnls|
  {
    && (forall i, j :: 0 <= i <= j <= k ==> P(pnls, i) - P(pnls, j) <= fall)
    && exists i, j :: 0 <= i <= j <= k && P(pnls, i) - P(pnls, j) == fall
  }

  lemma {:induction false} DrawdownUnique(pnls: seq<real>, x: real, y: real)
    requires IsDrawdown(pnls, |pnls|, x) && IsDrawdown(pnls, |pnls|, y)
    ensures x == y
  {
  }

  lemma {:induction false} NextProfit(pnls: seq<real>, k: nat)
    requires k < |pnls|
    ensures P(pnls, k + 1) == P(pnls, k) + pnls[k]
  {
    assert pnls[..k + 1][..k] == pnls[..k];
  }

  lemma {:induction false} PeakStep(pnls: seq<real>, k: nat, peak: real)
    requires k < |pnls| && IsPeak(pnls, k, peak)
    ensures IsPeak(pnls, k + 1, Max(peak, P(pnls, k + 1)))
  {
    var i :| 0 <= i <= k && P(pnls, i) == peak;
  }

  lemma {:induction false} FallsBounded(pnls: seq<real>, k: nat, peak: real, fall: real, i: nat, j: nat)
    requires k < |pnls| && IsPeak(pnls, k + 1, peak) && IsDrawdown(pnls, k, fall) && i <= j <= k + 1
    ensures P(pnls, i) - P(pnls, j) <= Max(fall, peak - P(pnls, k + 1))
  {
  }

  lemma {:induction false} FallReached(pnls: seq<real>, k: nat, peak: real, fall: real) returns (i: nat, j: nat)
    requires k < |pnls| && IsPeak(pnls, k + 1, peak) && IsDrawdown(pnls, k, fall)
    ensures i <= j <= k + 1 && P(pnls, i) - P(pnls, j) == Max(fall, peak - P(pnls, k + 1))
  {
    if fall >= peak - P(pnls, k + 1) {
      i, j :| 0 <= i <= j <= k && P(pnls, i) - P(pnls, j) == fall;
    } else {
      i :| 0 <= i <= k + 1 && P(pnls, i) == peak;
      j := k + 1;
    }
  }

  lemma {:induction false} DrawdownStep(pnls: seq<real>, k: nat, peak: real, fall: real)
    requires k < |pnls| && IsPeak(pnls, k + 1, peak) && IsDrawdown(pnls, k, fall)
    ensures IsDrawdown(pnls, k + 1, Max(fall, peak - P(pnls, k + 1)))
  {
    var i, j := FallReached(pnls, k, peak, fall);
    forall a, b | 0 <= a <= b <= k + 1
      ensures P(pnls, a) - P(pnls, b) <= Max(fall, peak - P(pnls, k + 1))
    {
      FallsBounded(pnls, k, peak, fall, a, b);
    }
  }

  // Where the loop stands after k trades.
  ghost predicate Scanned(pnls: seq<real>, k: nat, cumulative: real, peak: real, fall: real)
    requires k <= |pnls|
  {
    cumulative == P(pnls, k) && IsPeak(pnls, k, peak) && IsDrawdown(pnls, k, fall) && fall >= 0.0
  }

  lemma {:induction false} ScanStarts(pnls: seq<real>)
    ensures Scanned(pnls, 0, 0.0, 0.0, 0.0)
  {
    assert P(pnls, 0) == 0.0;
    assert P(pnls, 0) - P(pnls, 0) == 0.0;
  }

  lemma {:induction false} ScanStep(pnls: seq<real>, k: nat, cumulative: real, peak: real, fall: real)
    requires k < |pnls| && Scanned(pnls, k, cumulative, peak, fall)
    ensures var c := cumulative + pnls[k];
            Scanned(pnls, k + 1, c, Max(peak, c), Max(fall, Max(peak, c) - c))
  {
    NextProfit(pnls, k);
    PeakStep(pnls, k, peak);
    DrawdownStep(pnls, k, Max(peak, P(pnls, k + 1)), fall);
  }

  // One pass with a running peak finds the maximum of P(i) - P(j) over all 0 <= i <= j <= n.
  method MaxDrawdown(pnls: seq<real>) returns (fall: real)
    ensures IsDrawdown(pnls, |pnls|, fall) && fall >= 0.0
  {
    var cumulative, peak := 0.0, 0.0;
    fall := 0.0;
    ScanStarts(pnls);
    for k := 0 to |pnls|
      invariant Scanned(pnls, k, cumulative, peak, fall)
    {
      ScanStep(pnls, k, cumulative, peak, fall);
      cumulative := cumulative + pnls[k];
      peak := Max(peak, cumulative);
      fall := Max(fall, peak - cumulative);
    }
  }

  lemma {:induction false} PeakShifts(peak: real, capital: real, c: real)
    ensures Max(peak - capital, c) == Max(peak, capital + c) - capital
  {
  }

  lemma {:induction false} CapitalStep(pnls: seq<real>, k: nat, cumulative: real, capital: real, peak: real, fall: real,
      c: real, peak': real, fall': real)
    requires k < |pnls| && Scanned(pnls, k, cumulative, peak - capital, fall)
    requires c == cumulative + pnls[k] && peak' == Max(peak, capital + c) && fall' == Max(fall, peak' - (capital + c))
    ensures Scanned(pnls, k + 1, c, peak' - capital, fall')
  {
    ScanStep(pnls, k, cumulative, peak - capital, fall);
    PeakShifts(peak, capital, c);
  }

  // Starting from any capital, the loop over equity finds the same number.
  method CapitalDrawdown(pnls: seq<real>, capital: real) returns (fall: real)
    ensures IsDrawdown(pnls, |pnls|, fall) && fall >= 0.0
  {
    var cumulative, peak := 0.0, capital;
    fall := 0.0;
    ScanStarts(pnls);
    for k := 0 to |pnls|
      invariant Scanned(pnls, k, cumulative, peak - capital, fall)
    {
      ghost var before, oldPeak, oldFall := cumulative, peak, fall;
      cumulative := cumulative + pnls[k];
      var equity := capital + cumulative;
      peak := Max(peak, equity);
      fall := Max(fall, peak - equity);
      CapitalStep(pnls, k, before, capital, oldPeak, oldFall, cumulative, peak, fall);
    }
  }

  // The two loops agree, there being only one largest fall.
  method DrawdownsAgree(pnls: seq<real>, capital: real) returns (plain: real, onCapital: real)
    ensures plain == onCapital && IsDrawdown(pnls, |pnls|, plain)
  {
    plain := MaxDrawdown(pnls);
    onCapital := CapitalDrawdown(pnls, capital);
    DrawdownUnique(pnls, plain, onCapital);
  }

  // ---------- the share of the best days ----------

  // Larger first.
  predicate Larger(x: real, y: real) {
    x >= y
  }

  lemma {:induction false} LargerIsOrder()
    ensures TotalPreorder(Larger)
  {
  }

  function Positive(xs: seq<real>): seq<real> {
    if xs == [] then []
    else Positive(xs[..|xs| - 1]) + (if xs[|xs| - 1] > 0.0 then [xs[|xs| - 1]] else [])
  }

  function Top(xs: seq<real>, n: nat): seq<real> {
    var s := Sort(xs, Larger);
    if n <= |s| then s[..n] else s
  }

  function TopShare(daily: seq<real>, n: nat): real {
    var positive := Positive(daily);
    if Total(positive) == 0.0 then 0.0 else Total(Top(positive, n)) / Total(positive)
  }

  predicate AllPositive(xs: seq<real>) {
    forall i :: 0 <= i < |xs| ==> xs[i] > 0.0
  }

  lemma {:induction false} PositiveAre(xs: seq<real>)
    ensures AllPositive(Positive(xs))
  {
    if xs != [] {
      PositiveAre(xs[..|xs| - 1]);
    }
  }

  lemma {:induction false} SumSplit(xs: seq<real>, ys: seq<real>)
    ensures Total(xs + ys) == Total(xs) + Total(ys)
  {
    if ys == [] {
      assert xs + ys == xs;
    } else {
      var n := |ys| - 1;
      SumSplit(xs, ys[..n]);
      assert (xs + ys)[..|xs| + n] == xs + ys[..n];
    }
  }

  lemma {:induction false} SumPositive(xs: seq<real>)
    requires AllPositive(xs)
    ensures Total(xs) >= 0.0
  {
    if xs != [] {
      SumPositive(xs[..|xs| - 1]);
    }
  }

  // Taking out one occurrence takes out its amount.
  lemma {:induction false} SumWithout(xs: seq<real>, k: nat)
    requires k < |xs|
    ensures Total(xs) == Total(xs[..k] + xs[k + 1..]) + xs[k]
  {
    SumSplit(xs[..k], [xs[k]] + xs[k + 1..]);
    SumSplit([xs[k]], xs[k + 1..]);
    SumSplit(xs[..k], xs[k + 1..]);
    assert xs == xs[..k] + ([xs[k]] + xs[k + 1..]);
    assert [xs[k]][..0] == [];
  }

  lemma {:induction false} WithoutContents(xs: seq<real>, k: nat)
    requires k < |xs|
    ensures multiset(xs) == multiset(xs[..k] + xs[k + 1..]) + multiset{xs[k]}
  {
    assert xs == xs[..k] + [xs[k]] + xs[k + 1..];
  }

  lemma {:induction false} FindIn(xs: seq<real>, x: real) returns (k: nat)
    requires x in multiset(xs)
    ensures k < |xs| && xs[k] == x
  {
    assert x in xs;
    k :| 0 <= k < |xs| && xs[k] == x;
  }

  lemma {:induction false} CancelOne(a: multiset<real>, b: multiset<real>, x: real)
    requires a + multiset{x} == b + multiset{x}
    ensures a == b
  {
    assert a == (a + multiset{x}) - multiset{x} && b == (b + multiset{x}) - multiset{x};
  }

  lemma {:induction false} SumIsOfContents(xs: seq<real>, ys: seq<real>)
    requires multiset(xs) == multiset(ys)
    ensures Total(xs) == Total(ys)
  {
    if xs == [] {
      SameLength(xs, ys);
    } else {
      var n := |xs| - 1;
      assert xs == xs[..n] + [xs[n]];
      assert xs[n] in multiset(ys);
      var k := FindIn(ys, xs[n]);
      WithoutContents(ys, k);
      SumWithout(ys, k);
      CancelOne(multiset(xs[..n]), multiset(ys[..k] + ys[k + 1..]), xs[n]);
      SumIsOfContents(xs[..n], ys[..k] + ys[k + 1..]);
    }
  }

  // A choice of days: as many of each amount as there are at most.
  ghost predicate Choice(chosen: seq<real>, xs: seq<real>) {
    multiset(chosen) <= multiset(xs)
  }

  lemma {:induction false} ChoiceFits(chosen: seq<real>, xs: seq<real>)
    requires Choice(chosen, xs)
    ensures |chosen| <= |xs|
  {
    assert multiset(xs) == multiset(chosen) + (multiset(xs) - multiset(chosen));
    assert |multiset(chosen)| == |chosen| && |multiset(xs)| == |xs|;
  }

  lemma {:induction false} HeadAndTake(s: seq<real>, first: real, rest: seq<real>, n: nat)
    requires s == [first] + rest && n <= |rest|
    ensures Total(s[..n + 1]) == first + Total(rest[..n])
  {
    assert s[..n + 1] == [first] + rest[..n];
    SumSplit([first], rest[..n]);
    assert [first][..0] == [];
  }

  // A choice that has the largest amount, with that taken out, is a choice of the rest.
  lemma {:induction false} ChoiceWithFirst(first: real, rest: seq<real>, chosen: seq<real>) returns (others: seq<real>)
    requires Choice(chosen, [first] + rest) && first in multiset(chosen)
    ensures Choice(others, rest) && |others| == |chosen| - 1 && Total(chosen) == Total(others) + first
  {
    var k := FindIn(chosen, first);
    others := chosen[..k] + chosen[k + 1..];
    WithoutContents(chosen, k);
    SumWithout(chosen, k);
    assert multiset([first] + rest) == multiset{first} + multiset(rest);
    assert multiset(others) + multiset{first} <= multiset(rest) + multiset{first};
    DropOne(multiset(others), multiset(rest), first);
  }

  lemma {:induction false} DropOne(a: multiset<real>, b: multiset<real>, x: real)
    requires a + multiset{x} <= b + multiset{x}
    ensures a <= b
  {
    assert forall y :: a[y] == (a + multiset{x})[y] - multiset{x}[y] && b[y] == (b + multiset{x})[y] - multiset{x}[y];
  }

  // A choice without it, less any one of its amounts, is one too.
  lemma {:induction false} ChoiceWithoutFirst(first: real, rest: seq<real>, chosen: seq<real>)
    requires Choice(chosen, [first] + rest) && first !in multiset(chosen) && chosen != []
    ensures Choice(chosen[..|chosen| - 1], rest) && chosen[|chosen| - 1] in multiset(rest)
  {
    var last := chosen[|chosen| - 1];
    var others := chosen[..|chosen| - 1];
    assert chosen == others + [last];
    assert multiset(chosen) == multiset(others) + multiset{last};
    assert multiset([first] + rest) == multiset{first} + multiset(rest);
    assert forall y :: multiset(chosen)[y] <= multiset(rest)[y] + multiset{first}[y];
    assert multiset(chosen)[first] == 0;
    assert forall y :: multiset(others)[y] <= multiset(chosen)[y];
    assert multiset(chosen)[last] > 0 && last != first;
  }

  lemma {:induction false} FirstIsLargest(first: real, rest: seq<real>, x: real)
    requires Sorted([first] + rest, Larger) && x in multiset(rest)
    ensures first >= x
  {
    var k := FindIn(rest, x);
    var s := [first] + rest;
    assert s[0] == first && s[k + 1] == x && Larger(s[0], s[k + 1]);
  }

  lemma {:induction false} SortedTail(s: seq<real>)
    requires s != [] && Sorted(s, Larger)
    ensures Sorted(s[1..], Larger)
  {
  }

  // In a list sorted from the largest, no choice of n adds up to more than the first n.
  lemma {:induction false} FirstAreBest(s: seq<real>, chosen: seq<real>)
    requires Sorted(s, Larger) && Choice(chosen, s)
    ensures |chosen| <= |s| && Total(chosen) <= Total(s[..|chosen|])
    decreases |s|, 1
  {
    ChoiceFits(chosen, s);
    if chosen == [] {
      assert s[..0] == [];
    } else if s[0] in multiset(chosen) {
      BestWithFirst(s, chosen);
    } else {
      BestWithoutFirst(s, chosen);
    }
  }

  lemma {:induction false} BestWithFirst(s: seq<real>, chosen: seq<real>)
    requires Sorted(s, Larger) && Choice(chosen, s) && s != [] && s[0] in multiset(chosen)
    ensures |chosen| <= |s| && Total(chosen) <= Total(s[..|chosen|])
    decreases |s|, 0
  {
    var rest := s[1..];
    assert s == [s[0]] + rest;
    SortedTail(s);
    var others := ChoiceWithFirst(s[0], rest, chosen);
    FirstAreBest(rest, others);
    HeadAndTake(s, s[0], rest, |others|);
  }

  lemma {:induction false} BestWithoutFirst(s: seq<real>, chosen: seq<real>)
    requires Sorted(s, Larger) && Choice(chosen, s) && s != [] && s[0] !in multiset(chosen) && chosen != []
    ensures |chosen| <= |s| && Total(chosen) <= Total(s[..|chosen|])
    decreases |s|, 0
  {
    var rest, n := s[1..], |chosen| - 1;
    assert s == [s[0]] + rest;
    SortedTail(s);
    ChoiceWithoutFirst(s[0], rest, chosen);
    FirstAreBest(rest, chosen[..n]);
    FirstIsLargest(s[0], rest, chosen[n]);
    HeadAndTake(s, s[0], rest, n);
  }

  // ---------- what the share is ----------

  lemma {:induction false} SamePositive(xs: seq<real>, ys: seq<real>)
    requires multiset(xs) == multiset(ys) && AllPositive(ys)
    ensures AllPositive(xs)
  {
    forall i | 0 <= i < |xs|
      ensures xs[i] > 0.0
    {
      assert xs[i] in multiset(xs);
      var k := FindIn(ys, xs[i]);
    }
  }

  lemma {:induction false} TopFacts(daily: seq<real>)
    ensures var positive, s := Positive(daily), Sort(Positive(daily), Larger);
            && Sorted(s, Larger) && |s| == |positive| && Total(s) == Total(positive)
                && multiset(s) == multiset(positive) && AllPositive(s)
  {
    var positive, s := Positive(daily), Sort(Positive(daily), Larger);
    LargerIsOrder();
    SortSorts(positive, Larger);
    SumIsOfContents(s, positive);
    PositiveAre(daily);
    SamePositive(s, positive);
  }

  // The top-n share is the best share any n of the positive days could have.
  lemma {:induction false} TopShareIsBest(daily: seq<real>, n: nat, chosen: seq<real>)
    requires Choice(chosen, Positive(daily)) && |chosen| <= n
    ensures Total(chosen) <= Total(Top(Positive(daily), n))
  {
    TopFacts(daily);
    var s := Sort(Positive(daily), Larger);
    FirstAreBest(s, chosen);
    TakeGrows(s, |chosen|, if n <= |s| then n else |s|);
    assert s[..|s|] == s;
  }

  lemma {:induction false} TakeGrows(s: seq<real>, m: nat, n: nat)
    requires m <= n <= |s| && AllPositive(s)
    ensures Total(s[..m]) <= Total(s[..n])
  {
    assert s[..n] == s[..m] + s[m..n];
    SumSplit(s[..m], s[m..n]);
    SumPositive(s[m..n]);
  }

  // And it is attained: the top n are themselves such a choice.
  lemma {:induction false} TopIsChoice(daily: seq<real>, n: nat)
    ensures Choice(Top(Positive(daily), n), Positive(daily)) && |Top(Positive(daily), n)| <= n
  {
    TopFacts(daily);
    var s := Sort(Positive(daily), Larger);
    if n <= |s| {
      TakeIsChoice(s, n);
    }
  }

  lemma {:induction false} TakeIsChoice(s: seq<real>, n: nat)
    requires n <= |s|
    ensures Choice(s[..n], s)
  {
    assert s == s[..n] + s[n..];
  }

  function Quotient(part: real, whole: real): real
    requires whole > 0.0
  {
    part / whole
  }

  lemma {:induction false} QuotientOrder(a: real, b: real, whole: real, qa: real, qb: real)
    requires whole > 0.0 && 0.0 <= a <= b <= whole && qa == Quotient(a, whole) && qb == Quotient(b, whole)
    ensures 0.0 <= qa <= qb <= 1.0
  {
    QuotientTimes(a, whole, qa);
    QuotientTimes(b, whole, qb);
    if qa < 0.0 {
      ProductOrder(qa, 0.0, whole);
      assert false;
    }
    if qb < qa {
      ProductOrder(qb, qa, whole);
      assert false;
    }
    if 1.0 < qb {
      ProductOrder(1.0, qb, whole);
      assert false;
    }
  }

  lemma {:induction false} QuotientTimes(part: real, whole: real, q: real)
    requires whole > 0.0 && q == part / whole
    ensures q * whole == part
  {
  }

  lemma {:induction false} ProductOrder(x: real, y: real, whole: real)
    requires x < y && whole > 0.0
    ensures x * whole < y * whole
  {
    assert (y - x) * whole > 0.0;
  }

  lemma {:induction false} TopSums(daily: seq<real>, m: nat, n: nat)
    requires m <= n
    ensures 0.0 <= Total(Top(Positive(daily), m)) <= Total(Top(Positive(daily), n)) <= Total(Positive(daily))
    ensures Total(Positive(daily)) >= 0.0
  {
    TopFacts(daily);
    var s := Sort(Positive(daily), Larger);
    var a, b := if m <= |s| then m else |s|, if n <= |s| then n else |s|;
    assert s[..|s|] == s && s[..0] == [];
    TakeGrows(s, 0, a);
    TakeGrows(s, a, b);
    TakeGrows(s, b, |s|);
  }

  // The share lies in [0, 1] and grows with n.
  lemma {:induction false} ShareInRange(daily: seq<real>, m: nat, n: nat)
    requires m <= n
    ensures 0.0 <= TopShare(daily, m) <= TopShare(daily, n) <= 1.0
  {
    TopSums(daily, m, n);
    var total := Total(Positive(daily));
    if total != 0.0 {
      QuotientOrder(Total(Top(Positive(daily), m)), Total(Top(Positive(daily), n)), total, TopShare(daily, m),
          TopShare(daily, n));
    }
  }

  // The positive days are those above zero, and without one the share is zero; otherwise it is the best n of them over
  // all of them.
  lemma {:induction false} PositiveDays(daily: seq<real>, x: real)
    ensures multiset(Positive(daily))[x] == if x > 0.0 then multiset(daily)[x] else 0
  {
    if daily != [] {
      var n := |daily| - 1;
      PositiveDays(daily[..n], x);
      assert daily == daily[..n] + [daily[n]];
    }
  }

  lemma {:induction false} SomePositiveDay(daily: seq<real>)
    ensures Total(Positive(daily)) > 0.0 <==> exists i :: 0 <= i < |daily| && daily[i] > 0.0
  {
    hide Positive, Total;
    var positive := Positive(daily);
    PositiveAre(daily);
    NothingSums();
    if positive != [] {
      SomePositive(positive);
      PositiveDays(daily, positive[0]);
      assert positive[0] in positive && positive[0] in multiset(daily);
      var i :| 0 <= i < |daily| && daily[i] == positive[0];
    } else {
      forall i | 0 <= i < |daily|
        ensures daily[i] <= 0.0
      {
        PositiveDays(daily, daily[i]);
        assert daily[i] in multiset(daily);
      }
    }
  }

  lemma {:induction false} NothingSums()
    ensures Total([]) == 0.0
  {
  }

  // The share times the profit of all positive days is the profit of the best n of them.
  lemma {:induction false} TopShareIs(daily: seq<real>, n: nat, total: real, top: real, share: real)
    requires total == Total(Positive(daily)) && top == Total(Top(Positive(daily), n)) && share == TopShare(daily, n)
    ensures share * total == top
    ensures (forall i :: 0 <= i < |daily| ==> daily[i] <= 0.0) ==> share == 0.0
  {
    TopSums(daily, n, n);
    SomePositiveDay(daily);
    hide Top, Positive, Total;
    if total > 0.0 {
      ShareTimes(top, total, share);
    }
  }

  lemma {:induction false} ShareTimes(top: real, total: real, share: real)
    requires total > 0.0 && share == top / total
    ensures share * total == top
  {
  }

  lemma {:induction false} SomePositive(xs: seq<real>)
    requires AllPositive(xs) && xs != []
    ensures Total(xs) > 0.0
  {
    SumPositive(xs[..|xs| - 1]);
  }
}

/** The instrument master stated on its entries: who resolves, who is refused, and which corporate actions are given. */
module AliasesInFull {
  import opened Wrappers
  import opened StableSort
  import opened AliasMaster

  // Of the symbol, valid from no later than the instant and, if it ends, until after it.
  predicate Names(a: Alias, source: string, venue: string, symbol: string, t: int) {
    && a.key.source == source && a.key.venue == venue && a.key.symbol == symbol
    && a.from <= t && (a.to.Some? ==> t < a.to.value)
  }

  // A symbol resolves to an instrument exactly when an alias names that instrument at the instant.
  lemma {:induction false} ResolvesInFull(aliases: seq<Alias>, source: string, venue: string, symbol: string, t: int,
      id: string)
    requires Disjoint(aliases)
    ensures Resolution(aliases, Key(source, venue, symbol), t) == Ok(id) <==>
              exists a :: a in aliases && Names(a, source, venue, symbol, t) && a.instrumentId == id
  {
    var key := Key(source, venue, symbol);
    ResolvesIffCovered(aliases, key, t, id);
    assert forall a: Alias :: Hits(a, key, t) <==> Names(a, source, venue, symbol, t);
  }

  // Of the same symbol, and neither is over when the other begins; one may begin when the other ends.
  predicate Meets(a: Alias, b: Alias) {
    && a.key.source == b.key.source && a.key.venue == b.key.venue && a.key.symbol == b.key.symbol
    && (a.to.Some? ==> b.from < a.to.value) && (b.to.Some? ==> a.from < b.to.value)
  }

  // An alias is refused exactly when it meets another.
  lemma {:induction false} RefusedInFull(aliases: seq<Alias>, a: Alias)
    ensures Refused(aliases, a) <==> exists b :: b in aliases && Meets(b, a)
  {
    assert forall b: Alias :: Clash(b, a) <==> Meets(b, a);
  }

  lemma {:induction false} ActionsAreOrdered()
    ensures TotalPreorder(ActionLe)
  {
  }

  lemma {:induction false} InForceOnce(actions: seq<Action>, t: int, a: Action)
    ensures multiset(InForce(actions, t))[a] == if a.effectiveAt <= t then multiset(actions)[a] else 0
  {
    if actions != [] {
      InForceOnce(actions[1..], t, a);
      assert actions == [actions[0]] + actions[1..];
    }
  }

  // The actions given are those effective by the instant, as often as they were registered, by effective time and then
  // by version.
  lemma {:induction false} ActionsInFull(actions: seq<Action>, t: int, a: Action)
    ensures var given := ActionsAsOf(actions, t);
            && multiset(given)[a] == (if a.effectiveAt <= t then multiset(actions)[a] else 0)
            && forall j, k :: 0 <= j < k < |given| ==>
                 || given[j].effectiveAt < given[k].effectiveAt
                 || (given[j].effectiveAt == given[k].effectiveAt && given[j].version <= given[k].version)
  {
    ActionsAreOrdered();
    SortSorts(InForce(actions, t), ActionLe);
    InForceOnce(actions, t, a);
    var given := ActionsAsOf(actions, t);
    forall j, k | 0 <= j < k < |given|
      ensures || given[j].effectiveAt < given[k].effectiveAt
              || (given[j].effectiveAt == given[k].effectiveAt && given[j].version <= given[k].version)
    {
      assert ActionLe(given[j], given[k]);
    }
  }

  // Actions of the same effective time and version stay in the order they were registered in.
  lemma {:induction false} ActionTiesStay(actions: seq<Action>, t: int, a: Action)
    ensures TiedWith(a, ActionsAsOf(actions, t), ActionLe) == TiedWith(a, InForce(actions, t), ActionLe)
  {
    ActionsAreOrdered();
    SortStable(a, InForce(actions, t), ActionLe);
  }
}

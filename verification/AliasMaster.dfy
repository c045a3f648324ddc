/**
  The in-memory instrument master: registering instruments, symbol aliases with their intervals of validity,
  and corporate actions; resolving a symbol at an instant; and the corporate actions in force at an instant.
 */
module AliasMaster {
  import opened Wrappers
  import opened StableSort

  datatype Instrument = Instrument(id: string, listedAt: Option<int>, delistedAt: Option<int>)

  datatype Key = Key(source: string, venue: string, symbol: string)

  datatype Alias = Alias(instrumentId: string, key: Key, from: int, to: Option<int>)
  {
    // What the record's own validator guarantees.
    predicate Valid() {
      to.Some? ==> from < to.value
    }

    predicate Covers(t: int) {
      from <= t && (to.None? || t < to.value)
    }
  }

  datatype Action = Action(instrumentId: string, kind: string, effectiveAt: int, factor: real, version: int)

  datatype Error = Unresolved | Ambiguous

  predicate Below(t: int, end: Option<int>) {
    end.None? || t < end.value
  }

  predicate Overlap(a: Alias, b: Alias) {
    Below(a.from, b.to) && Below(b.from, a.to)
  }

  // The overlap test holds exactly when some instant is covered by both.
  lemma {:induction false} OverlapIffShared(a: Alias, b: Alias)
    requires a.Valid() && b.Valid()
    ensures Overlap(a, b) <==> exists t :: a.Covers(t) && b.Covers(t)
  {
    if Overlap(a, b) {
      var t := if a.from <= b.from then b.from else a.from;
      assert a.Covers(t) && b.Covers(t);
    }
  }

  predicate Clash(a: Alias, b: Alias) {
    a.key == b.key && Overlap(a, b)
  }

  ghost predicate Disjoint(aliases: seq<Alias>) {
    && (forall a :: a in aliases ==> a.Valid())
    && forall i, j :: 0 <= i < j < |aliases| ==> !Clash(aliases[i], aliases[j])
  }

  predicate Hits(a: Alias, key: Key, t: int) {
    a.key == key && a.Covers(t)
  }

  function Matches(aliases: seq<Alias>, key: Key, t: int): seq<Alias> {
    if aliases == [] then []
    else
      var n := |aliases| - 1;
      Matches(aliases[..n], key, t) + (if Hits(aliases[n], key, t) then [aliases[n]] else [])
  }

  function Resolution(aliases: seq<Alias>, key: Key, t: int): Result<string, Error> {
    var found := Matches(aliases, key, t);
    if found == [] then Err(Unresolved)
    else if |found| > 1 then Err(Ambiguous)
    else Ok(found[0].instrumentId)
  }

  lemma {:induction false} MatchesMembers(aliases: seq<Alias>, key: Key, t: int)
    ensures forall a :: a in Matches(aliases, key, t) <==> a in aliases && Hits(a, key, t)
  {
    if aliases != [] {
      var n := |aliases| - 1;
      MatchesMembers(aliases[..n], key, t);
      assert aliases == aliases[..n] + [aliases[n]];
    }
  }

  lemma {:induction false} NoHitsNoMatches(aliases: seq<Alias>, key: Key, t: int)
    requires forall a :: a in aliases ==> !Hits(a, key, t)
    ensures Matches(aliases, key, t) == []
  {
    if aliases != [] {
      var n := |aliases| - 1;
      assert aliases[n] in aliases;
      NoHitsNoMatches(aliases[..n], key, t);
    }
  }

  lemma {:induction false} NotBothHit(a: Alias, b: Alias, key: Key, t: int)
    requires a.Valid() && b.Valid() && !Clash(a, b)
    ensures !(Hits(a, key, t) && Hits(b, key, t))
  {
    OverlapIffShared(a, b);
  }

  // Disjoint intervals leave at most one alias to choose from.
  lemma {:induction false} AtMostOneMatch(aliases: seq<Alias>, key: Key, t: int)
    requires Disjoint(aliases)
    ensures |Matches(aliases, key, t)| <= 1
  {
    if aliases != [] {
      var n := |aliases| - 1;
      var earlier := aliases[..n];
      AtMostOneMatch(earlier, key, t);
      if Hits(aliases[n], key, t) {
        forall a | a in earlier
          ensures !Hits(a, key, t)
        {
          var i :| 0 <= i < n && earlier[i] == a;
          assert aliases[i] in aliases && aliases[n] in aliases;
          NotBothHit(aliases[i], aliases[n], key, t);
        }
        NoHitsNoMatches(earlier, key, t);
      }
    }
  }

  // The ambiguity error cannot be reached in a disjoint master.
  lemma {:induction false} NeverAmbiguous(aliases: seq<Alias>, key: Key, t: int)
    requires Disjoint(aliases)
    ensures Resolution(aliases, key, t) != Err(Ambiguous)
    ensures Resolution(aliases, key, t) == Err(Unresolved) <==> forall a :: a in aliases ==> !Hits(a, key, t)
  {
    MatchesMembers(aliases, key, t);
    if Matches(aliases, key, t) != [] {
      assert Matches(aliases, key, t)[0] in Matches(aliases, key, t);
    }
    AtMostOneMatch(aliases, key, t);
  }

  // A master resolves a symbol to an instrument exactly when one of its aliases covers the instant.
  lemma {:induction false} ResolvesIffCovered(aliases: seq<Alias>, key: Key, t: int, id: string)
    requires Disjoint(aliases)
    ensures Resolution(aliases, key, t) == Ok(id) <==>
              exists a :: a in aliases && Hits(a, key, t) && a.instrumentId == id
  {
    var found := Matches(aliases, key, t);
    AtMostOneMatch(aliases, key, t);
    MatchesMembers(aliases, key, t);
    if found != [] {
      assert found[0] in found;
    }
    if a :| a in aliases && Hits(a, key, t) && a.instrumentId == id {
      assert a in found;
      assert found == [a];
    }
  }

  // ---------- the order of registration ----------

  predicate Refused(aliases: seq<Alias>, a: Alias) {
    exists b :: b in aliases && Clash(b, a)
  }

  // The aliases that get in when `xs` is registered one by one, refused ones being skipped.
  function Registered(ids: set<string>, xs: seq<Alias>): seq<Alias> {
    if xs == [] then []
    else
      var n := |xs| - 1;
      var before := Registered(ids, xs[..n]);
      if xs[n].instrumentId !in ids || Refused(before, xs[n]) then before else before + [xs[n]]
  }

  // Whatever is offered, in whatever order, what gets in is disjoint.
  lemma {:induction false} RegisteredIsDisjoint(ids: set<string>, xs: seq<Alias>)
    requires forall a :: a in xs ==> a.Valid()
    ensures Disjoint(Registered(ids, xs))
  {
    if xs != [] {
      var n := |xs| - 1;
      assert xs == xs[..n] + [xs[n]];
      RegisteredIsDisjoint(ids, xs[..n]);
    }
  }

  ghost predicate Registrable(ids: set<string>, xs: seq<Alias>) {
    Disjoint(xs) && forall a :: a in xs ==> a.instrumentId in ids
  }

  // No registration fails exactly when every instrument is known and no two intervals of a symbol meet,
  // which no order can change.
  lemma {:induction false} AllAcceptedIff(ids: set<string>, xs: seq<Alias>)
    requires forall a :: a in xs ==> a.Valid()
    ensures Registered(ids, xs) == xs <==> Registrable(ids, xs)
    ensures |Registered(ids, xs)| <= |xs|
  {
    if xs != [] {
      var n := |xs| - 1;
      var before := Registered(ids, xs[..n]);
      assert xs == xs[..n] + [xs[n]];
      AllAcceptedIff(ids, xs[..n]);
      RegisteredIsDisjoint(ids, xs);
      if Registrable(ids, xs) {
        assert Registrable(ids, xs[..n]);
        assert xs[n] in xs;
      }
      if Registered(ids, xs) == xs {
        assert |before| == n && before == xs[..n];
        assert forall a :: a in xs ==> a in xs[..n] || a == xs[n];
      }
    }
  }

  // Two disjoint masters with the same aliases resolve alike.
  lemma {:induction false} ResolutionIgnoresOrder(xs: seq<Alias>, ys: seq<Alias>, key: Key, t: int)
    requires Disjoint(xs) && Disjoint(ys) && forall a :: a in xs <==> a in ys
    ensures Resolution(xs, key, t) == Resolution(ys, key, t)
  {
    AtMostOneMatch(xs, key, t);
    AtMostOneMatch(ys, key, t);
    MatchesMembers(xs, key, t);
    MatchesMembers(ys, key, t);
    var mx, my := Matches(xs, key, t), Matches(ys, key, t);
    if mx != [] {
      assert mx[0] in mx && mx[0] in my;
    }
    if my != [] {
      assert my[0] in my && my[0] in mx;
    }
  }

  // ---------- corporate actions ----------

  predicate ActionLe(a: Action, b: Action) {
    a.effectiveAt < b.effectiveAt || (a.effectiveAt == b.effectiveAt && a.version <= b.version)
  }

  function InForce(actions: seq<Action>, t: int): seq<Action> {
    if actions == [] then []
    else (if actions[0].effectiveAt <= t then [actions[0]] else []) + InForce(actions[1..], t)
  }

  function ActionsAsOf(actions: seq<Action>, t: int): seq<Action> {
    Sort(InForce(actions, t), ActionLe)
  }

  lemma {:induction false} InForceHeads(ys: seq<Action>, t: int)
    ensures forall a :: a in InForce(ys, t) <==> a in ys && a.effectiveAt <= t
  {
    if ys != [] {
      InForceHeads(ys[1..], t);
      assert ys == [ys[0]] + ys[1..];
    }
  }

  lemma {:induction false} InsertBefore(x: Action, y: Action, rest: seq<Action>, t: int)
    requires Sorted([y] + rest, ActionLe) && ActionLe(x, y)
    ensures InForce([x] + ([y] + rest), t) ==
              if x.effectiveAt <= t then Insert(x, InForce([y] + rest, t), ActionLe) else InForce([y] + rest, t)
  {
    var ys := [y] + rest;
    InForceHeads(ys, t);
    forall z | z in InForce(ys, t)
      ensures ActionLe(x, z)
    {
      var i :| 0 <= i < |ys| && ys[i] == z;
      assert i > 0 ==> ActionLe(ys[0], ys[i]);
    }
  }

  lemma {:induction false} InForceOfInsert(x: Action, ys: seq<Action>, t: int)
    requires Sorted(ys, ActionLe)
    ensures InForce(Insert(x, ys, ActionLe), t) == if x.effectiveAt <= t then Insert(x, InForce(ys, t), ActionLe)
        else InForce(ys, t)
  {
    if ys == [] {
    } else {
      var y, rest := ys[0], ys[1..];
      assert ys == [y] + rest;
      if ActionLe(x, y) {
        InsertBefore(x, y, rest, t);
      } else {
        InForceOfInsert(x, rest, t);
      }
    }
  }

  // Selecting what is in force and sorting it is sorting everything and selecting.
  lemma {:induction false} SelectThenSort(actions: seq<Action>, t: int)
    ensures ActionsAsOf(actions, t) == InForce(Sort(actions, ActionLe), t)
  {
    if actions != [] {
      var first, rest := actions[0], actions[1..];
      assert actions == [first] + rest;
      SelectThenSort(rest, t);
      SortSorts(rest, ActionLe);
      InForceOfInsert(first, Sort(rest, ActionLe), t);
      if first.effectiveAt <= t {
        assert InForce(actions, t) == [first] + InForce(rest, t);
      } else {
        assert InForce(actions, t) == InForce(rest, t);
      }
    }
  }

  lemma {:induction false} SortedPrefix(sorted: seq<Action>, t: int, t': int)
    requires Sorted(sorted, ActionLe) && t <= t'
    ensures InForce(sorted, t) <= InForce(sorted, t')
  {
    if sorted != [] {
      assert Sorted(sorted[1..], ActionLe);
      SortedPrefix(sorted[1..], t, t');
      if sorted[0].effectiveAt > t {
        InForceHeads(sorted, t);
        NothingInForce(sorted, t);
      }
    }
  }

  lemma {:induction false} NothingInForce(sorted: seq<Action>, t: int)
    requires Sorted(sorted, ActionLe) && sorted != [] && sorted[0].effectiveAt > t
    ensures InForce(sorted, t) == []
  {
    if |sorted| > 1 {
      assert ActionLe(sorted[0], sorted[1]);
      NothingInForce(sorted[1..], t);
    } else {
      assert sorted[1..] == [];
    }
  }

  // Time only adds to the list: the actions in force earlier are a prefix of those in force later.
  lemma {:induction false} ActionsOnlyAccrue(actions: seq<Action>, t: int, t': int)
    requires t <= t'
    ensures ActionsAsOf(actions, t) <= ActionsAsOf(actions, t')
  {
    SelectThenSort(actions, t);
    SelectThenSort(actions, t');
    SortSorts(actions, ActionLe);
    SortedPrefix(Sort(actions, ActionLe), t, t');
  }

  // ---------- the master ----------

  class InstrumentMaster {
    var instruments: map<string, Instrument>
    var aliases: seq<Alias>
    var actions: map<string, seq<Action>>

    ghost predicate Valid()
      reads this
    {
      Disjoint(aliases) && forall a :: a in aliases ==> a.instrumentId in instruments
    }

    constructor ()
      ensures Valid() && instruments == map[] && aliases == [] && actions == map[]
    {
      instruments, aliases, actions := map[], [], map[];
    }

    method RegisterInstrument(instrument: Instrument)
      requires Valid()
      modifies `instruments
      ensures Valid() && instruments == old(instruments)[instrument.id := instrument]
    {
      instruments := instruments[instrument.id := instrument];
    }

    // A clash or an unknown instrument changes nothing.
    method RegisterAlias(alias: Alias) returns (r: Result<(), Error>)
      requires Valid() && alias.Valid()
      modifies `aliases
      ensures Valid()
      ensures r == if alias.instrumentId !in instruments then Err(Unresolved) else if Refused(old(aliases), alias)
          then Err(Ambiguous) else Ok(())
      ensures aliases == if r.Ok? then old(aliases) + [alias] else old(aliases)
    {
      if alias.instrumentId !in instruments {
        return Err(Unresolved);
      }
      var overlapping := false;
      for k := 0 to |aliases|
        invariant overlapping <==> Refused(aliases[..k], alias)
      {
        assert aliases[..k + 1] == aliases[..k] + [aliases[k]];
        assert Clash(aliases[k], alias) ==> aliases[k] in aliases[..k + 1];
        if Clash(aliases[k], alias) {
          overlapping := true;
        }
      }
      assert aliases[..|aliases|] == aliases;
      if overlapping {
        return Err(Ambiguous);
      }
      aliases := aliases + [alias];
      r := Ok(());
    }

    method RegisterCorporateAction(action: Action) returns (r: Result<(), Error>)
      requires Valid()
      modifies `actions
      ensures r.Ok? <==> action.instrumentId in instruments
      ensures r.Err? ==> r.error.Unresolved? && actions == old(actions)
      ensures r.Ok? ==> actions == old(actions)[action.instrumentId :=
          (if action.instrumentId in old(actions) then old(actions)[action.instrumentId] else []) + [action]]
    {
      if action.instrumentId !in instruments {
        return Err(Unresolved);
      }
      actions := actions[action.instrumentId := ActionsOf(actions, action.instrumentId) + [action]];
      r := Ok(());
    }

    // In every reachable master the ambiguity error cannot be raised.
    method Resolve(key: Key, t: int) returns (r: Result<string, Error>)
      requires Valid()
      ensures r == Resolution(aliases, key, t) && r != Err(Ambiguous)
      ensures r.Ok? ==> r.value in instruments
    {
      var matches := Matches(aliases, key, t);
      NeverAmbiguous(aliases, key, t);
      MatchesMembers(aliases, key, t);
      if matches == [] {
        return Err(Unresolved);
      }
      assert matches[0] in matches;
      if |matches| > 1 {
        return Err(Ambiguous);
      }
      r := Ok(matches[0].instrumentId);
    }
  }

  function ActionsOf(actions: map<string, seq<Action>>, id: string): seq<Action> {
    if id in actions then actions[id] else []
  }
}

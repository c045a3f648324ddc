/**
  Tracing a record back through its lineage edges: a worklist search over whatever edges the table holds,
  cycles included.
 */
module Lineage {
  type Record = string

  datatype Edge = Edge(id: string, run: string, parent: Record, parentLayer: string, child: Record, childLayer: string,
      createdAt: int)

  predicate Matches(e: Edge, run: string, child: Record) {
    e.run == run && e.child == child
  }

  // The rows of one query, in the table's order.
  function Rows(table: seq<Edge>, run: string, child: Record): seq<Edge> {
    if table == [] then []
    else
      var n := |table| - 1;
      Rows(table[..n], run, child) + (if Matches(table[n], run, child) then [table[n]] else [])
  }

  // ---------- ancestors ----------

  predicate IsParent(table: seq<Edge>, run: string, child: Record, parent: Record) {
    exists e :: e in table && Matches(e, run, child) && e.parent == parent
  }

  // A chain of parents, each an edge of the run away from the one before.
  ghost predicate Chain(table: seq<Edge>, run: string, path: seq<Record>) {
    path != [] && forall k :: 0 <= k < |path| - 1 ==> IsParent(table, run, path[k], path[k + 1])
  }

  ghost predicate ChainTo(table: seq<Edge>, run: string, start: Record, path: seq<Record>, r: Record) {
    Chain(table, run, path) && path[0] == start && path[|path| - 1] == r
  }

  // The start record or one of its ancestors.
  ghost predicate Ancestor(table: seq<Edge>, run: string, start: Record, r: Record) {
    exists path :: ChainTo(table, run, start, path, r)
  }

  lemma {:induction false} StartIsAncestor(table: seq<Edge>, run: string, start: Record)
    ensures Ancestor(table, run, start, start)
  {
    assert ChainTo(table, run, start, [start], start);
  }

  lemma {:induction false} ParentIsAncestor(table: seq<Edge>, run: string, start: Record, r: Record, parent: Record)
    requires Ancestor(table, run, start, r) && IsParent(table, run, r, parent)
    ensures Ancestor(table, run, start, parent)
  {
    var path :| ChainTo(table, run, start, path, r);
    var longer := path + [parent];
    forall k | 0 <= k < |longer| - 1
      ensures IsParent(table, run, longer[k], longer[k + 1])
    {
      if k < |path| - 1 {
        assert IsParent(table, run, path[k], path[k + 1]);
      }
    }
    assert ChainTo(table, run, start, longer, parent);
  }

  ghost predicate Closed(table: seq<Edge>, run: string, visited: set<Record>) {
    forall r, parent :: r in visited && IsParent(table, run, r, parent) ==> parent in visited
  }

  lemma {:induction false} ClosedHoldsChain(table: seq<Edge>, run: string, visited: set<Record>, path: seq<Record>)
    requires Closed(table, run, visited) && Chain(table, run, path) && path[0] in visited
    ensures path[|path| - 1] in visited
  {
    if |path| > 1 {
      var n := |path| - 1;
      var before := path[..n];
      forall k | 0 <= k < |before| - 1
        ensures IsParent(table, run, before[k], before[k + 1])
      {
        assert IsParent(table, run, path[k], path[k + 1]);
      }
      ClosedHoldsChain(table, run, visited, before);
      assert IsParent(table, run, path[n - 1], path[n - 1 + 1]);
    }
  }

  // A closed set with the start in it holds every ancestor.
  lemma {:induction false} ClosedHoldsAncestors(table: seq<Edge>, run: string, start: Record, visited: set<Record>)
    requires Closed(table, run, visited) && start in visited
    ensures forall r :: Ancestor(table, run, start, r) ==> r in visited
  {
    forall r | Ancestor(table, run, start, r)
      ensures r in visited
    {
      var path :| ChainTo(table, run, start, path, r);
      ClosedHoldsChain(table, run, visited, path);
    }
  }

  // ---------- counting rows ----------

  lemma {:induction false} RowsCount(table: seq<Edge>, run: string, child: Record, e: Edge)
    ensures multiset(Rows(table, run, child))[e] == if Matches(e, run, child) then multiset(table)[e] else 0
    ensures e in Rows(table, run, child) <==> e in table && Matches(e, run, child)
  {
    if table != [] {
      var n := |table| - 1;
      RowsCount(table[..n], run, child, e);
      assert table == table[..n] + [table[n]];
    }
  }

  function Sources(table: seq<Edge>): set<Record> {
    set e | e in table :: e.parent
  }

  // ---------- the search ----------

  ghost predicate Collected(table: seq<Edge>, run: string, visited: set<Record>, edges: seq<Edge>) {
    forall e :: multiset(edges)[e] == if e.run == run && e.child in visited then multiset(table)[e] else 0
  }

  ghost predicate Explored(table: seq<Edge>, run: string, visited: set<Record>, frontier: seq<Record>) {
    forall r, parent :: r in visited && IsParent(table, run, r, parent) ==> parent in visited || parent in frontier
  }

  // One record's rows: its edges are kept, its parents are put on the frontier.
  method Expand(rows: seq<Edge>, edges: seq<Edge>, frontier: seq<Record>)
      returns (edges': seq<Edge>, frontier': seq<Record>)
    ensures edges' == edges + rows
    ensures |frontier'| == |frontier| + |rows|
        && frontier' == frontier + seq(|rows|, i requires 0 <= i < |rows| => rows[i].parent)
  {
    edges', frontier' := edges, frontier;
    for k := 0 to |rows|
      invariant edges' == edges + rows[..k]
      invariant frontier' == frontier + seq(k, i requires 0 <= i < k => rows[i].parent)
    {
      edges' := edges' + [rows[k]];
      frontier' := frontier' + [rows[k].parent];
    }
    assert rows[..|rows|] == rows;
  }

  lemma {:induction false} ExpansionMembers(rows: seq<Edge>, frontier: seq<Record>, longer: seq<Record>)
    requires longer == frontier + seq(|rows|, i requires 0 <= i < |rows| => rows[i].parent)
    ensures forall r :: r in longer <==> r in frontier || exists e :: e in rows && e.parent == r
  {
    forall r
      ensures r in longer <==> r in frontier || exists e :: e in rows && e.parent == r
    {
      if e :| e in rows && e.parent == r {
        var k :| 0 <= k < |rows| && rows[k] == e;
        assert longer[|frontier| + k] == r;
      }
      if r in longer && r !in frontier {
        var k :| 0 <= k < |longer| && longer[k] == r;
        assert rows[k - |frontier|] in rows;
      }
    }
  }

  lemma {:induction false} CollectedGrows(table: seq<Edge>, run: string, visited: set<Record>, edges: seq<Edge>,
      current: Record)
    requires Collected(table, run, visited, edges) && current !in visited
    ensures Collected(table, run, visited + {current}, edges + Rows(table, run, current))
  {
    var rows := Rows(table, run, current);
    forall e
      ensures multiset(edges + rows)[e] == if e.run == run
          && e.child in visited + {current} then multiset(table)[e] else 0
    {
      RowsCount(table, run, current, e);
      assert multiset(edges + rows)[e] == multiset(edges)[e] + multiset(rows)[e];
    }
  }

  ghost predicate AllAncestors(table: seq<Edge>, run: string, start: Record, rs: set<Record>, frontier: seq<Record>) {
    forall r :: r in rs || r in frontier ==> Ancestor(table, run, start, r)
  }

  // Taking `current` off the frontier and expanding it keeps everything the search relies on.
  lemma {:induction false} ExpandKeeps(table: seq<Edge>, run: string, start: Record, current: Record,
      visited: set<Record>, rest: seq<Record>, longer: seq<Record>)
    requires AllAncestors(table, run, start, visited, rest + [current])
    requires Explored(table, run, visited, rest + [current])
    requires forall r :: r in longer <==> r in rest || exists e :: e in Rows(table, run, current) && e.parent == r
    ensures AllAncestors(table, run, start, visited + {current}, longer)
    ensures Explored(table, run, visited + {current}, longer)
    ensures forall r :: r in longer ==> r in rest || r in Sources(table)
  {
    assert Ancestor(table, run, start, current);
    forall r | r in longer
      ensures Ancestor(table, run, start, r) && (r in rest || r in Sources(table))
    {
      if r !in rest {
        var e :| e in Rows(table, run, current) && e.parent == r;
        RowsCount(table, run, current, e);
        ParentIsAncestor(table, run, start, current, r);
      }
    }
    forall r, parent | r in visited + {current} && IsParent(table, run, r, parent)
      ensures parent in visited + {current} || parent in longer
    {
      if r == current {
        var e :| e in table && Matches(e, run, current) && e.parent == parent;
        RowsCount(table, run, current, e);
      }
    }
  }

  ghost predicate Searching(table: seq<Edge>, run: string, start: Record, visited: set<Record>, frontier: seq<Record>,
      edges: seq<Edge>) {
    && visited <= Universe(table, start) && (forall r :: r in frontier ==> r in Universe(table, start))
    && AllAncestors(table, run, start, visited, frontier)
    && (start in visited || start in frontier)
    && Explored(table, run, visited, frontier)
    && Collected(table, run, visited, edges)
  }

  function Universe(table: seq<Edge>, start: Record): set<Record> {
    Sources(table) + {start}
  }

  lemma {:induction false} StartsSearching(table: seq<Edge>, run: string, start: Record)
    ensures Searching(table, run, start, {}, [start], [])
  {
    StartIsAncestor(table, run, start);
  }

  lemma {:induction false} ExpandSearching(table: seq<Edge>, run: string, start: Record, visited: set<Record>,
      rest: seq<Record>, edges: seq<Edge>, current: Record, longer: seq<Record>)
    requires Searching(table, run, start, visited, rest + [current], edges) && current !in visited
    requires var rows := Rows(table, run, current);
             longer == rest + seq(|rows|, i requires 0 <= i < |rows| => rows[i].parent)
    ensures Searching(table, run, start, visited + {current}, longer, edges + Rows(table, run, current))
    ensures |Universe(table, start) - (visited + {current})| < |Universe(table, start) - visited|
  {
    assert current in rest + [current];
    ExpansionMembers(Rows(table, run, current), rest, longer);
    ExpandKeeps(table, run, start, current, visited, rest, longer);
    CollectedGrows(table, run, visited, edges, current);
    Shrinks(Universe(table, start), visited, current);
  }

  lemma {:induction false} Shrinks(universe: set<Record>, visited: set<Record>, current: Record)
    requires current in universe && current !in visited
    ensures |universe - (visited + {current})| < |universe - visited|
  {
    assert universe - visited == (universe - (visited + {current})) + {current};
  }

  // The search ends on every table, and returns each of the run's edges into the start record or an ancestor
  // of it as often as the table holds it, and no other edge.
  method TraceLineage(table: seq<Edge>, run: string, start: Record) returns (edges: seq<Edge>)
    ensures forall e :: multiset(edges)[e] == if e.run == run
        && Ancestor(table, run, start, e.child) then multiset(table)[e] else 0
  {
    hide Rows, Universe;
    edges := [];
    var frontier := [start];
    var visited: set<Record> := {};
    StartsSearching(table, run, start);
    while frontier != []
      invariant Searching(table, run, start, visited, frontier, edges)
      decreases |Universe(table, start) - visited|, |frontier|
    {
      var current, rest := frontier[|frontier| - 1], frontier[..|frontier| - 1];
      assert frontier == rest + [current];
      frontier := rest;
      if current in visited {
        continue;
      }
      ghost var before := edges;
      edges, frontier := Expand(Rows(table, run, current), edges, rest);
      ExpandSearching(table, run, start, visited, rest, before, current, frontier);
      visited := visited + {current};
    }
    ClosedHoldsAncestors(table, run, start, visited);
  }

  // Edge ids being the table's key, that is exactly once each.
  lemma {:induction false} OnceEach(table: seq<Edge>, run: string, start: Record, edges: seq<Edge>, e: Edge)
    requires forall i, j :: 0 <= i < j < |table| ==> table[i].id != table[j].id
    requires forall e :: multiset(edges)[e] == if e.run == run
        && Ancestor(table, run, start, e.child) then multiset(table)[e] else 0
    ensures multiset(edges)[e] == if e in table && e.run == run && Ancestor(table, run, start, e.child) then 1 else 0
  {
    CountOnce(table, e);
  }

  lemma {:induction false} CountOnce(table: seq<Edge>, e: Edge)
    requires forall i, j :: 0 <= i < j < |table| ==> table[i].id != table[j].id
    ensures multiset(table)[e] == if e in table then 1 else 0
  {
    if table != [] {
      var n := |table| - 1;
      CountOnce(table[..n], e);
      assert table == table[..n] + [table[n]];
      if e in table[..n] {
        var k :| 0 <= k < n && table[..n][k] == e;
        assert table[k].id != table[n].id;
      }
    }
  }
}

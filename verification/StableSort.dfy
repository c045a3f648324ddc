/** Stable sorting by a total preorder, as Python's `sorted` with a key does it. */
module StableSort {
  ghost predicate TotalPreorder<T(!new)>(le: (T, T) -> bool) {
    && (forall a, b :: le(a, b) || le(b, a))
    && (forall a, b, c :: le(a, b) && le(b, c) ==> le(a, c))
  }

  function Insert<T>(x: T, ys: seq<T>, le: (T, T) -> bool): seq<T> {
    if ys == [] then [x]
    else if le(x, ys[0]) then [x] + ys
    else [ys[0]] + Insert(x, ys[1..], le)
  }

  function Sort<T>(xs: seq<T>, le: (T, T) -> bool): seq<T> {
    if xs == [] then [] else Insert(xs[0], Sort(xs[1..], le), le)
  }

  ghost predicate Sorted<T>(xs: seq<T>, le: (T, T) -> bool) {
    forall i, j :: 0 <= i < j < |xs| ==> le(xs[i], xs[j])
  }

  lemma {:induction false} InsertContents<T>(x: T, ys: seq<T>, le: (T, T) -> bool)
    ensures multiset(Insert(x, ys, le)) == multiset{x} + multiset(ys)
  {
    if ys != [] && !le(x, ys[0]) {
      assert ys == [ys[0]] + ys[1..];
      InsertContents(x, ys[1..], le);
    }
  }

  lemma {:induction false} InsertSorted<T(!new)>(x: T, ys: seq<T>, le: (T, T) -> bool)
    requires TotalPreorder(le) && Sorted(ys, le)
    ensures Sorted(Insert(x, ys, le), le)
  {
    if ys != [] && !le(x, ys[0]) {
      InsertSorted(x, ys[1..], le);
      var rest := Insert(x, ys[1..], le);
      InsertContents(x, ys[1..], le);
      forall j | 0 <= j < |rest|
        ensures le(ys[0], rest[j])
      {
        assert rest[j] in multiset(rest);
        assert rest[j] == x || rest[j] in ys[1..];
      }
    }
  }

  lemma {:induction false} SortSorts<T(!new)>(xs: seq<T>, le: (T, T) -> bool)
    requires TotalPreorder(le)
    ensures multiset(Sort(xs, le)) == multiset(xs)
    ensures Sorted(Sort(xs, le), le)
    ensures |Sort(xs, le)| == |xs|
  {
    if xs != [] {
      assert xs == [xs[0]] + xs[1..];
      SortSorts(xs[1..], le);
      InsertContents(xs[0], Sort(xs[1..], le), le);
      InsertSorted(xs[0], Sort(xs[1..], le), le);
    }
    assert |multiset(Sort(xs, le))| == |multiset(xs)|;
  }

  // ---------- stability ----------

  predicate Tied<T>(a: T, b: T, le: (T, T) -> bool) {
    le(a, b) && le(b, a)
  }

  function TiedWith<T>(a: T, xs: seq<T>, le: (T, T) -> bool): seq<T> {
    if xs == [] then []
    else (if Tied(a, xs[0], le) then [xs[0]] else []) + TiedWith(a, xs[1..], le)
  }

  lemma {:induction false} InsertStable<T(!new)>(a: T, x: T, ys: seq<T>, le: (T, T) -> bool)
    requires TotalPreorder(le)
    ensures TiedWith(a, Insert(x, ys, le), le) == TiedWith(a, [x] + ys, le)
  {
    if ys != [] && !le(x, ys[0]) {
      InsertStable(a, x, ys[1..], le);
      assert Insert(x, ys, le)[1..] == Insert(x, ys[1..], le);
      assert ([x] + ys)[1..] == ys && ([x] + ys[1..])[1..] == ys[1..];
    }
  }

  // Elements with equal keys keep their order.
  lemma {:induction false} SortStable<T(!new)>(a: T, xs: seq<T>, le: (T, T) -> bool)
    requires TotalPreorder(le)
    ensures TiedWith(a, Sort(xs, le), le) == TiedWith(a, xs, le)
  {
    if xs != [] {
      SortStable(a, xs[1..], le);
      InsertStable(a, xs[0], Sort(xs[1..], le), le);
      assert ([xs[0]] + Sort(xs[1..], le))[1..] == Sort(xs[1..], le);
    }
  }

  // ---------- determinism ----------

  ghost predicate KeysIdentify<T>(xs: seq<T>, le: (T, T) -> bool) {
    forall a, b :: a in xs && b in xs && Tied(a, b, le) ==> a == b
  }

  lemma {:induction false} SplitHead<T>(xs: seq<T>)
    requires xs != []
    ensures multiset(xs) == multiset{xs[0]} + multiset(xs[1..])
  {
    assert xs == [xs[0]] + xs[1..];
  }

  lemma {:induction false} HeadsAgree<T(!new)>(xs: seq<T>, ys: seq<T>, le: (T, T) -> bool)
    requires xs != [] && ys != [] && Sorted(xs, le) && Sorted(ys, le) && multiset(xs) == multiset(ys)
    requires TotalPreorder(le) && KeysIdentify(xs, le)
    ensures xs[0] == ys[0]
  {
    assert xs[0] in multiset(ys) && ys[0] in multiset(xs);
    assert le(xs[0], ys[0]) && le(ys[0], xs[0]);
    assert Tied(xs[0], ys[0], le);
  }

  lemma {:induction false} SortedUnique<T(!new)>(xs: seq<T>, ys: seq<T>, le: (T, T) -> bool)
    requires Sorted(xs, le) && Sorted(ys, le) && multiset(xs) == multiset(ys) && |xs| == |ys|
    requires TotalPreorder(le) && KeysIdentify(xs, le)
    ensures xs == ys
  {
    if xs != [] {
      HeadsAgree(xs, ys, le);
      SplitHead(xs);
      SplitHead(ys);
      assert multiset(xs[1..]) == multiset(xs) - multiset{xs[0]} == multiset(ys[1..]);
      SortedUnique(xs[1..], ys[1..], le);
    }
  }

  lemma {:induction false} SameLength<T>(xs: seq<T>, ys: seq<T>)
    requires multiset(xs) == multiset(ys)
    ensures |xs| == |ys|
  {
    assert |multiset(xs)| == |xs| && |multiset(ys)| == |ys|;
  }

  lemma {:induction false} SortUnaffected<T(!new)>(xs: seq<T>, ys: seq<T>, le: (T, T) -> bool)
    requires TotalPreorder(le) && KeysIdentify(xs, le) && multiset(ys) == multiset(xs)
    ensures Sort(ys, le) == Sort(xs, le)
  {
    SortSorts(xs, le);
    SortSorts(ys, le);
    SameLength(xs, ys);
    assert forall a :: a in Sort(xs, le) ==> a in multiset(xs);
    SortedUnique(Sort(xs, le), Sort(ys, le), le);
  }

  lemma {:induction false} SwapShows<T(!new)>(a: T, b: T, rest: seq<T>, le: (T, T) -> bool)
    requires TotalPreorder(le) && Tied(a, b, le) && a != b
    ensures Sort([a, b] + rest, le) != Sort([b, a] + rest, le)
  {
    var ab, ba := [a, b] + rest, [b, a] + rest;
    SortStable(a, ab, le);
    SortStable(a, ba, le);
    assert TiedWith(a, ab, le)[0] == a;
    assert TiedWith(a, ba, le)[0] == b;
  }

  ghost predicate OrderIndependent<T(!new)>(xs: seq<T>, le: (T, T) -> bool) {
    forall ys {:trigger Sort(ys, le)} :: multiset(ys) == multiset(xs) ==> Sort(ys, le) == Sort(xs, le)
  }

  lemma {:induction false} ConfusedKeysShow<T(!new)>(xs: seq<T>, le: (T, T) -> bool, a: T, b: T)
    requires TotalPreorder(le) && a in xs && b in xs && Tied(a, b, le) && a != b
    ensures !OrderIndependent(xs, le)
  {
    var rest := Without(xs, a, b);
    var ab, ba := [a, b] + rest, [b, a] + rest;
    SwapKeeps(a, b, rest);
    SwapShows(a, b, rest, le);
    assert multiset(ab) == multiset(xs) && multiset(ba) == multiset(xs);
    assert Sort(ab, le) != Sort(ba, le);
  }

  lemma {:induction false} SwapKeeps<T>(a: T, b: T, rest: seq<T>)
    ensures multiset([b, a] + rest) == multiset([a, b] + rest)
  {
  }

  // The result does not depend on the order of the input exactly when equal keys mean equal elements.
  lemma {:induction false} OrderIndependentIff<T(!new)>(xs: seq<T>, le: (T, T) -> bool)
    requires TotalPreorder(le)
    ensures OrderIndependent(xs, le) <==> KeysIdentify(xs, le)
  {
    if KeysIdentify(xs, le) {
      forall ys | multiset(ys) == multiset(xs)
        ensures Sort(ys, le) == Sort(xs, le)
      {
        SortUnaffected(xs, ys, le);
      }
    } else {
      var a, b :| a in xs && b in xs && Tied(a, b, le) && a != b;
      ConfusedKeysShow(xs, le, a, b);
    }
  }

  lemma {:induction false} Removed<T>(xs: seq<T>, a: T) returns (rest: seq<T>)
    requires a in xs
    ensures multiset(xs) == multiset{a} + multiset(rest)
  {
    var i :| 0 <= i < |xs| && xs[i] == a;
    rest := xs[..i] + xs[i + 1..];
    assert xs == xs[..i] + ([a] + xs[i + 1..]);
  }

  lemma {:induction false} Without<T>(xs: seq<T>, a: T, b: T) returns (rest: seq<T>)
    requires a in xs && b in xs && a != b
    ensures multiset([a, b] + rest) == multiset(xs)
  {
    var once := Removed(xs, a);
    assert b in multiset(xs);
    rest := Removed(once, b);
  }
}

/** Vectors of exact reals: the few operations the elastic-net solver applies to its columns. */
module RealVectors {
  import opened Numbers

  type Vec = seq<real>

  function Zeros(n: nat): (r: Vec)
    ensures |r| == n
    ensures forall i :: 0 <= i < n ==> r[i] == 0.0
  {
    seq(n, i => 0.0)
  }

  function Sum(a: Vec): real {
    if a == [] then 0.0 else a[0] + Sum(a[1..])
  }

  function Prod(a: Vec, b: Vec): (r: Vec)
    requires |a| == |b|
    ensures |r| == |a|
    ensures forall i :: 0 <= i < |a| ==> r[i] == a[i] * b[i]
  {
    seq(|a|, i requires 0 <= i < |a| => a[i] * b[i])
  }

  function Dot(a: Vec, b: Vec): real
    requires |a| == |b|
  {
    Sum(Prod(a, b))
  }

  function SumSq(a: Vec): real {
    Dot(a, a)
  }

  function AbsAll(a: Vec): (r: Vec)
    ensures |r| == |a|
    ensures forall i :: 0 <= i < |a| ==> r[i] == Abs(a[i])
  {
    seq(|a|, i requires 0 <= i < |a| => Abs(a[i]))
  }

  function Norm1(a: Vec): real {
    Sum(AbsAll(a))
  }

  function NormMax(a: Vec): real {
    if a == [] then 0.0 else Max(Abs(a[0]), NormMax(a[1..]))
  }

  function Add(a: Vec, b: Vec): (r: Vec)
    requires |a| == |b|
    ensures |r| == |a|
    ensures forall i :: 0 <= i < |a| ==> r[i] == a[i] + b[i]
  {
    seq(|a|, i requires 0 <= i < |a| => a[i] + b[i])
  }

  function Sub(a: Vec, b: Vec): (r: Vec)
    requires |a| == |b|
    ensures |r| == |a|
    ensures forall i :: 0 <= i < |a| ==> r[i] == a[i] - b[i]
  {
    seq(|a|, i requires 0 <= i < |a| => a[i] - b[i])
  }

  function Scale(k: real, a: Vec): (r: Vec)
    ensures |r| == |a|
    ensures forall i :: 0 <= i < |a| ==> r[i] == k * a[i]
  {
    seq(|a|, i requires 0 <= i < |a| => k * a[i])
  }

  function DistSq(a: Vec, b: Vec): real
    requires |a| == |b|
  {
    SumSq(Sub(a, b))
  }

  // ---------- sums ----------

  lemma {:induction false} SumMix(p: Vec, k: real, q: Vec, r: Vec, total: real)
    requires |p| == |q| == |r| && total == Sum(q)
    requires forall i :: 0 <= i < |p| ==> p[i] == k * q[i] + r[i]
    ensures Sum(p) == k * total + Sum(r)
  {
    if p != [] {
      SumMix(p[1..], k, q[1..], r[1..], total - q[0]);
      MulSplit(k, total, q[0], total - q[0]);
    }
  }

  lemma {:induction false} MulSplit(k: real, total: real, x: real, y: real)
    requires total == x + y
    ensures k * total == k * x + k * y
  {
  }

  lemma {:induction false} SumNonNegative(p: Vec)
    requires forall i :: 0 <= i < |p| ==> p[i] >= 0.0
    ensures Sum(p) >= 0.0
    ensures forall i :: 0 <= i < |p| ==> p[i] <= Sum(p)
  {
    if p != [] {
      SumNonNegative(p[1..]);
      assert forall i :: 0 < i < |p| ==> p[i] == p[1..][i - 1];
    }
  }

  // Coordinate-wise inequalities between six terms add up.
  lemma {:induction false} SumInequality(a: Vec, b: Vec, c: Vec, d: Vec, e: Vec, f: Vec, g: Vec)
    requires |a| == |b| == |c| == |d| == |e| == |f| == |g|
    requires forall i :: 0 <= i < |a| ==> a[i] + b[i] + 0.5 * c[i] + 0.5 * d[i] <= e[i] + f[i] + 0.5 * g[i]
    ensures Sum(a) + Sum(b) + 0.5 * Sum(c) + 0.5 * Sum(d) <= Sum(e) + Sum(f) + 0.5 * Sum(g)
  {
    if a != [] {
      SumInequality(a[1..], b[1..], c[1..], d[1..], e[1..], f[1..], g[1..]);
    }
  }

  // ---------- products ----------

  lemma {:induction false} SquareSign(x: real, square: real)
    requires square == x * x
    ensures square >= 0.0
    ensures square == 0.0 ==> x == 0.0
  {
    if x > 0.0 {
      MulPositive(x, x, square);
    } else if x < 0.0 {
      MulPositive(-x, -x, square);
    }
  }

  lemma {:induction false} MulPositive(x: real, y: real, z: real)
    requires x > 0.0 && y > 0.0 && z == x * y
    ensures z > 0.0
  {
  }

  lemma {:induction false} DotMix(k: real, a: Vec, b: Vec, x: Vec)
    requires |a| == |b| == |x|
    ensures Dot(Add(Scale(k, a), b), x) == k * Dot(a, x) + Dot(b, x)
  {
    var m := Add(Scale(k, a), b);
    var p, pa, pb := Prod(m, x), Prod(a, x), Prod(b, x);
    forall i | 0 <= i < |x|
      ensures p[i] == k * pa[i] + pb[i]
    {
      MixTerm(k, a[i], b[i], x[i], m[i], p[i], pa[i], pb[i]);
    }
    SumMix(p, k, pa, pb, Dot(a, x));
  }

  lemma {:induction false} MixTerm(k: real, a: real, b: real, x: real, m: real, p: real, pa: real, pb: real)
    requires m == k * a + b && p == m * x && pa == a * x && pb == b * x
    ensures p == k * pa + pb
  {
    assert (k * a) * x == k * (a * x);
  }

  lemma {:induction false} HeadProduct(a: Vec, b: Vec, y: real)
    requires |a| == |b| > 0 && b[0] == y
    ensures Dot(a, b) == a[0] * y + Dot(a[1..], b[1..])
  {
    forall i | 0 <= i < |a| - 1
      ensures Prod(a, b)[1..][i] == Prod(a[1..], b[1..])[i]
    {
      SameProduct(a[i + 1], b[i + 1], a[1..][i], b[1..][i], Prod(a, b)[i + 1], Prod(a[1..], b[1..])[i]);
    }
    assert Prod(a, b)[1..] == Prod(a[1..], b[1..]);
  }

  lemma {:induction false} SameProduct(x: real, y: real, x': real, y': real, p: real, q: real)
    requires x == x' && y == y' && p == x * y && q == x' * y'
    ensures p == q
  {
  }

  lemma {:induction false} DotSub(g: Vec, a: Vec, b: Vec)
    requires |g| == |a| == |b|
    ensures Dot(g, Sub(a, b)) == Dot(g, a) - Dot(g, b)
  {
    hide Sum;
    var p := Prod(g, Sub(a, b));
    forall i | 0 <= i < |g|
      ensures p[i] == -1.0 * Prod(g, b)[i] + Prod(g, a)[i]
    {
    }
    SumMix(p, -1.0, Prod(g, b), Prod(g, a), Dot(g, b));
  }

  lemma {:induction false} DotZeros(x: Vec)
    ensures Dot(Zeros(|x|), x) == 0.0
  {
    SumZero(Prod(Zeros(|x|), x));
  }

  lemma {:induction false} SumZero(p: Vec)
    requires forall i :: 0 <= i < |p| ==> p[i] == 0.0
    ensures Sum(p) == 0.0
  {
    if p != [] {
      SumZero(p[1..]);
    }
  }

  lemma {:induction false} SumSqNonNegative(a: Vec)
    ensures SumSq(a) >= 0.0
    ensures SumSq(a) == 0.0 ==> forall i :: 0 <= i < |a| ==> a[i] == 0.0
  {
    forall i | 0 <= i < |a|
      ensures Prod(a, a)[i] >= 0.0
      ensures Prod(a, a)[i] == 0.0 ==> a[i] == 0.0
    {
      SquareSign(a[i], Prod(a, a)[i]);
    }
    SumNonNegative(Prod(a, a));
  }

  lemma {:induction false} DistSqSelf(a: Vec)
    ensures DistSq(a, a) == 0.0
  {
    SumZero(Prod(Sub(a, a), Sub(a, a)));
  }

  // |a|^2 = |b|^2 + 2 b.(a - b) + |a - b|^2
  lemma {:induction false} SumSqExpand(a: Vec, b: Vec)
    requires |a| == |b|
    ensures SumSq(a) == SumSq(b) + 2.0 * Dot(b, Sub(a, b)) + DistSq(a, b)
  {
    var d := Sub(a, b);
    var rest := Add(Prod(b, b), Prod(d, d));
    forall i | 0 <= i < |a|
      ensures Prod(a, a)[i] == 2.0 * Prod(b, d)[i] + rest[i]
    {
    }
    SumMix(Prod(a, a), 2.0, Prod(b, d), rest, Dot(b, d));
    SumMix(rest, 1.0, Prod(b, b), Prod(d, d), SumSq(b));
  }

}

/**
 * Real-valued point vectors shared by both k-means implementations:
 * the squared Euclidean distance, the first-strict-minimum choice of a
 * nearest centroid, and the facts about square roots that let every
 * comparison of distances be made on squared distances instead.
 */
module Vectors {

  /** A point or centroid: one real number per dimension. */
  type Point = seq<real>

  /** Every vector in `vs` has exactly `d` coordinates. */
  predicate Dims(vs: seq<Point>, d: int)
  {
    forall i :: 0 <= i < |vs| ==> |vs[i]| == d
  }

  /** The sum of `(p[k] - q[k])^2` over the first `n` coordinates, accumulated from index 0 upward. */
  function SqDistUpTo(p: Point, q: Point, n: nat): (r: real)
    requires n <= |p| && n <= |q|
    ensures r >= 0.0
  {
    if n == 0 then 0.0
    else SqDistUpTo(p, q, n - 1) + (p[n - 1] - q[n - 1]) * (p[n - 1] - q[n - 1])
  }

  /** The squared Euclidean distance between two vectors of the same dimension. */
  function SqDist(p: Point, q: Point): real
    requires |p| == |q|
  {
    SqDistUpTo(p, q, |p|)
  }

  /** A squared distance is never negative. */
  lemma SqDistNonNegative(p: Point, q: Point)
    requires |p| == |q|
    ensures SqDist(p, q) >= 0.0
  {
  }

  lemma {:induction false} SqDistUpToSelf(p: Point, n: nat)
    requires n <= |p|
    ensures SqDistUpTo(p, p, n) == 0.0
  {
    if n > 0 {
      SqDistUpToSelf(p, n - 1);
      assert (p[n - 1] - p[n - 1]) * (p[n - 1] - p[n - 1]) == 0.0;
    }
  }

  /** A vector is at distance zero from itself. */
  lemma SqDistOfEqual(p: Point, q: Point)
    requires p == q
    ensures SqDist(p, q) == 0.0
  {
    SqDistUpToSelf(p, |p|);
  }

  lemma {:induction false} SqDistUpToZero(p: Point, q: Point, n: nat)
    requires n <= |p| && n <= |q| && SqDistUpTo(p, q, n) == 0.0
    ensures forall i :: 0 <= i < n ==> p[i] == q[i]
  {
    if n > 0 {
      var x := p[n - 1] - q[n - 1];
      SquareNonNegative(x);
      assert SqDistUpTo(p, q, n - 1) == 0.0 && x * x == 0.0;
      ZeroSquare(x);
      SqDistUpToZero(p, q, n - 1);
    }
  }

  lemma SquareNonNegative(x: real)
    ensures x * x >= 0.0
  {
    if x < 0.0 {
      ProductPositive(-x, -x);
    }
  }

  lemma ZeroSquare(x: real)
    requires x * x == 0.0
    ensures x == 0.0
  {
    if x != 0.0 {
      ProductDividedBack(x * x, x, x);
    }
  }

  /** Two vectors of equal dimension are at distance zero exactly when they are equal. */
  lemma SqDistZeroIffEqual(p: Point, q: Point)
    requires |p| == |q|
    ensures SqDist(p, q) == 0.0 <==> p == q
  {
    if SqDist(p, q) == 0.0 {
      SqDistUpToZero(p, q, |p|);
      assert p == q;
    }
    if p == q {
      SqDistOfEqual(p, q);
    }
  }

  lemma {:induction false} SqDistUpToSymmetric(p: Point, q: Point, n: nat)
    requires n <= |p| && n <= |q|
    ensures SqDistUpTo(p, q, n) == SqDistUpTo(q, p, n)
  {
    if n > 0 {
      SqDistUpToSymmetric(p, q, n - 1);
      assert (p[n - 1] - q[n - 1]) * (p[n - 1] - q[n - 1]) == (q[n - 1] - p[n - 1]) * (q[n - 1] - p[n - 1]);
    }
  }

  /** The distance from `p` to `q` is the distance from `q` to `p`. */
  lemma SqDistSymmetric(p: Point, q: Point)
    requires |p| == |q|
    ensures SqDist(p, q) == SqDist(q, p)
  {
    SqDistUpToSymmetric(p, q, |p|);
  }

  /**
   * `r` is the index a scan over `cs` returns when it keeps the best index so
   * far and replaces it only on a strictly smaller distance: no centroid is
   * closer than `cs[r]`, and every centroid before `r` is strictly farther.
   */
  predicate IsFirstNearest(p: Point, cs: seq<Point>, r: int)
    requires Dims(cs, |p|)
  {
    && 0 <= r < |cs|
    && (forall i :: 0 <= i < |cs| ==> SqDist(p, cs[r]) <= SqDist(p, cs[i]))
    && (forall i :: 0 <= i < r ==> SqDist(p, cs[r]) < SqDist(p, cs[i]))
  }

  /** The first strict minimum among `cs[..n]`. */
  function NearestAmong(p: Point, cs: seq<Point>, n: nat): (r: nat)
    requires Dims(cs, |p|) && 1 <= n <= |cs|
    ensures r < n
    ensures forall i :: 0 <= i < n ==> SqDist(p, cs[r]) <= SqDist(p, cs[i])
    ensures forall i :: 0 <= i < r ==> SqDist(p, cs[r]) < SqDist(p, cs[i])
  {
    if n == 1 then 0
    else
      var best := NearestAmong(p, cs, n - 1);
      if SqDist(p, cs[n - 1]) < SqDist(p, cs[best]) then n - 1 else best
  }

  /** The index of the centroid nearest to `p`, ties going to the lowest index; it is the only index with that property. */
  function Nearest(p: Point, cs: seq<Point>): (r: nat)
    requires Dims(cs, |p|) && |cs| > 0
    ensures IsFirstNearest(p, cs, r)
    ensures forall k :: IsFirstNearest(p, cs, k) ==> k == r
  {
    NearestAmong(p, cs, |cs|)
  }

  /** `r` is the non-negative square root of `s`. */
  ghost predicate IsSqrt(r: real, s: real)
  {
    r >= 0.0 && r * r == s
  }

  /** Square roots are ordered as their squares are, so a strict comparison of distances may be made on squared distances. */
  lemma SqrtOrder(r1: real, s1: real, r2: real, s2: real)
    requires IsSqrt(r1, s1) && IsSqrt(r2, s2)
    ensures r1 < r2 <==> s1 < s2
  {
    if r1 < r2 {
      SquareMono(r1, r2);
    } else if r2 < r1 {
      SquareMono(r2, r1);
    }
  }

  lemma ProductPositive(a: real, b: real)
    requires a > 0.0 && b > 0.0
    ensures a * b > 0.0
  {
  }

  lemma ProductDividedBack(t: real, a: real, c: real)
    requires c != 0.0 && t == c * a
    ensures t / c == a
  {
  }

  lemma SquareMono(x: real, y: real)
    requires 0.0 <= x < y
    ensures x * x < y * y
  {
    ProductPositive(y - x, y + x);
    assert (y - x) * (y + x) == y * y - x * x;
  }

  /** A squared shift `sq` stands for a shift `sqrt(sq)` that is below `eps`. */
  predicate ShiftBelow(sq: real, eps: real)
  {
    eps > 0.0 && sq < eps * eps
  }

  /** `sqrt(s) < eps` holds exactly when `ShiftBelow(s, eps)` does, for every real `eps`. */
  lemma SqrtBelow(r: real, s: real, eps: real)
    requires IsSqrt(r, s)
    ensures r < eps <==> ShiftBelow(s, eps)
  {
    if eps > 0.0 {
      SqrtOrder(r, s, eps, eps * eps);
    }
  }

  /** The sum of coordinate `j` over a list of points, taken from the first. */
  function ColumnSum(ps: seq<Point>, j: nat): real
    requires forall m :: 0 <= m < |ps| ==> j < |ps[m]|
  {
    if |ps| == 0 then 0.0 else ps[0][j] + ColumnSum(ps[1..], j)
  }

  /** Appending a point adds its coordinate to the sum. */
  lemma {:induction false} ColumnSumAppend(ps: seq<Point>, x: Point, j: nat)
    requires forall m :: 0 <= m < |ps| ==> j < |ps[m]|
    requires j < |x|
    ensures ColumnSum(ps + [x], j) == ColumnSum(ps, j) + x[j]
  {
    if |ps| > 0 {
      assert (ps + [x])[1..] == ps[1..] + [x];
      ColumnSumAppend(ps[1..], x, j);
    }
  }

  /** The coordinate-wise mean of a non-empty list of `d`-dimensional points. */
  function ListMean(ps: seq<Point>, d: nat): (m: Point)
    requires |ps| > 0 && Dims(ps, d)
    ensures |m| == d
  {
    seq(d, j requires 0 <= j < d => ColumnSum(ps, j) / |ps| as real)
  }
}

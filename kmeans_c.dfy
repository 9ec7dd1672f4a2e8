/**
 * Lloyd's k-means as kmeans.c runs it: seeding from the first K list nodes,
 * first-strict-minimum assignment, an update that zeroes every centroid before
 * accumulating (so a centroid without points becomes the zero vector), the
 * largest centroid shift, and a loop of at most `max_iterations` passes that
 * stops early after a pass whose shift is below epsilon.
 *
 * Distances are squared distances: `sqrt` is monotone, so every comparison in
 * the source is decided the same way (`Vectors.SqrtOrder`, `Vectors.SqrtBelow`).
 * The centroid structs are a K x dims matrix and the flat `old_centroids`
 * buffer is a second K x dims matrix.
 */
module KMeansC {
  import opened Vectors
  import opened KMeansList
  import opened Wrappers

  const INT_MAX: int := 2147483647

  function Min(a: int, b: int): int
  {
    if a <= b then a else b
  }

  // ---------------------------------------------------------------------------
  // Specification of one run, on values
  // ---------------------------------------------------------------------------

  /** Centroid `i` starts as a copy of point `min(i, N - 1)`: the first K points, the last one reused if the list runs out. */
  function Seed(points: seq<Point>, k: nat): (cs: seq<Point>)
    requires |points| >= 1
    ensures |cs| == k
    ensures forall i :: 0 <= i < k ==> cs[i] == points[Min(i, |points| - 1)]
  {
    seq(k, i requires 0 <= i < k => points[Min(i, |points| - 1)])
  }

  /** The index of the nearest centroid for every point, in point order. */
  function AssignAll(points: seq<Point>, cs: seq<Point>, d: nat): (asg: seq<int>)
    requires Dims(points, d) && Dims(cs, d) && |cs| > 0
    ensures |asg| == |points|
  {
    seq(|points|, j requires 0 <= j < |points| => Nearest(points[j], cs))
  }

  /** Every assignment names one of `k` centroids. */
  predicate InRange(asg: seq<int>, k: int)
  {
    forall j :: 0 <= j < |asg| ==> 0 <= asg[j] < k
  }

  /** Every point is assigned to one of the centroids. */
  lemma AssignAllInRange(points: seq<Point>, cs: seq<Point>, d: nat)
    requires Dims(points, d) && Dims(cs, d) && |cs| > 0
    ensures InRange(AssignAll(points, cs, d), |cs|)
  {
    var asg := AssignAll(points, cs, d);
    forall j | 0 <= j < |points|
      ensures 0 <= asg[j] < |cs|
    {
      assert asg[j] == Nearest(points[j], cs);
    }
  }

  /** The number of the first `n` points assigned to centroid `r`. */
  function Count(asg: seq<int>, r: int, n: nat): nat
    requires n <= |asg|
  {
    if n == 0 then 0 else Count(asg, r, n - 1) + (if asg[n - 1] == r then 1 else 0)
  }

  /** The sum of coordinate `j` over the first `n` points assigned to centroid `r`. */
  function CoordSum(points: seq<Point>, asg: seq<int>, r: int, j: nat, n: nat): real
    requires n <= |points| && n <= |asg|
    requires forall m :: 0 <= m < n ==> j < |points[m]|
  {
    if n == 0 then 0.0
    else CoordSum(points, asg, r, j, n - 1) + (if asg[n - 1] == r then points[n - 1][j] else 0.0)
  }

  /** Centroid `r` recomputed from an assignment: the coordinate-wise mean of its points, or all zeros when it has none. */
  function Centroid(points: seq<Point>, asg: seq<int>, r: int, d: nat): (c: Point)
    requires |asg| == |points| && Dims(points, d)
    ensures |c| == d
  {
    var c := Count(asg, r, |asg|);
    if c > 0 then seq(d, j requires 0 <= j < d => CoordSum(points, asg, r, j, |points|) / c as real)
    else seq(d, j => 0.0)
  }

  /** Centroids `0..k-1` recomputed from an assignment. */
  function Update(points: seq<Point>, asg: seq<int>, k: nat, d: nat): (cs: seq<Point>)
    requires |asg| == |points| && Dims(points, d)
    ensures |cs| == k && Dims(cs, d)
  {
    if k == 0 then [] else Update(points, asg, k - 1, d) + [Centroid(points, asg, k - 1, d)]
  }

  /** Entry `r` of the recomputed centroids is centroid `r` recomputed. */
  lemma {:induction false} UpdateAt(points: seq<Point>, asg: seq<int>, k: nat, d: nat, r: nat)
    requires |asg| == |points| && Dims(points, d) && r < k
    ensures Update(points, asg, k, d)[r] == Centroid(points, asg, r, d)
  {
    if r < k - 1 {
      UpdateAt(points, asg, k - 1, d, r);
    }
  }

  /** One pass: assign every point under the current centroids, then recompute all centroids. */
  function Step(points: seq<Point>, cs: seq<Point>, d: nat): (next: seq<Point>)
    requires Dims(points, d) && Dims(cs, d) && |cs| > 0
    ensures |next| == |cs| && Dims(next, d)
  {
    Update(points, AssignAll(points, cs, d), |cs|, d)
  }

  /** The largest squared shift between `olds[i]` and `news[i]` over `i < n`, starting from 0. */
  function MaxSqShift(olds: seq<Point>, news: seq<Point>, n: nat): (m: real)
    requires n <= |olds| && n <= |news|
    requires forall i :: 0 <= i < n ==> |olds[i]| == |news[i]|
    ensures m >= 0.0
  {
    if n == 0 then 0.0
    else
      var m := MaxSqShift(olds, news, n - 1);
      var s := SqDist(olds[n - 1], news[n - 1]);
      if s > m then s else m
  }

  /** The largest shift bounds every centroid's shift and, when there is a centroid, is attained by one of them. */
  lemma {:induction false} MaxSqShiftIsMaximum(olds: seq<Point>, news: seq<Point>, n: nat)
    requires n <= |olds| && n <= |news|
    requires forall i :: 0 <= i < n ==> |olds[i]| == |news[i]|
    ensures forall i :: 0 <= i < n ==> SqDist(olds[i], news[i]) <= MaxSqShift(olds, news, n)
    ensures n > 0 ==> exists i :: 0 <= i < n && MaxSqShift(olds, news, n) == SqDist(olds[i], news[i])
  {
    if n > 0 {
      MaxSqShiftIsMaximum(olds, news, n - 1);
      if n == 1 {
        assert MaxSqShift(olds, news, 1) == SqDist(olds[0], news[0]) by {
          SqDistNonNegative(olds[0], news[0]);
        }
      }
    }
  }

  /** The passes performed and the centroids left when the loop exits. */
  datatype RunResult = RunResult(centroids: seq<Point>, passes: nat)

  /** The iteration loop from centroids `cs` with `budget` passes left. */
  function Run(points: seq<Point>, cs: seq<Point>, d: nat, budget: int, eps: real): (r: RunResult)
    requires Dims(points, d) && Dims(cs, d) && |cs| > 0
    ensures |r.centroids| == |cs| && Dims(r.centroids, d)
    ensures r.passes <= (if budget <= 0 then 0 else budget)
    ensures budget > 0 ==> r.passes >= 1
    decreases budget
  {
    if budget <= 0 then RunResult(cs, 0)
    else
      var next := Step(points, cs, d);
      if ShiftBelow(MaxSqShift(cs, next, |cs|), eps) then RunResult(next, 1)
      else
        var rest := Run(points, next, d, budget - 1, eps);
        RunResult(rest.centroids, rest.passes + 1)
  }

  /** One turn of the loop with budget left: it stops after a small shift, and otherwise adds one pass to the run from the new centroids. */
  lemma RunUnfolds(points: seq<Point>, cs: seq<Point>, d: nat, budget: int, eps: real)
    requires Dims(points, d) && Dims(cs, d) && |cs| > 0 && budget > 0
    ensures var next := Step(points, cs, d);
      ShiftBelow(MaxSqShift(cs, next, |cs|), eps) ==> Run(points, cs, d, budget, eps) == RunResult(next, 1)
    ensures var next := Step(points, cs, d);
      !ShiftBelow(MaxSqShift(cs, next, |cs|), eps) ==>
        Run(points, cs, d, budget, eps).centroids == Run(points, next, d, budget - 1, eps).centroids &&
        Run(points, cs, d, budget, eps).passes == Run(points, next, d, budget - 1, eps).passes + 1
  {
  }

  /** The centroids after `n` passes from `cs`, without any stopping test. */
  function Iterate(points: seq<Point>, cs: seq<Point>, d: nat, n: nat): (r: seq<Point>)
    requires Dims(points, d) && Dims(cs, d) && |cs| > 0
    ensures |r| == |cs| && Dims(r, d)
    decreases n
  {
    if n == 0 then cs else Iterate(points, Step(points, cs, d), d, n - 1)
  }

  /** The largest squared centroid shift of pass `p + 1` from `cs`, that is, from `Iterate(p)` to `Iterate(p + 1)`. */
  function ShiftAt(points: seq<Point>, cs: seq<Point>, d: nat, p: nat): real
    requires Dims(points, d) && Dims(cs, d) && |cs| > 0
    decreases p
  {
    var next := Step(points, cs, d);
    if p == 0 then MaxSqShift(cs, next, |cs|) else ShiftAt(points, next, d, p - 1)
  }

  /** The whole clustering: seed from the point list, then run the loop. */
  function Cluster(points: seq<Point>, k: nat, d: nat, maxIterations: int, eps: real): RunResult
    requires |points| >= 1 && Dims(points, d) && k >= 1
  {
    Run(points, Seed(points, k), d, maxIterations, eps)
  }

  // ---------------------------------------------------------------------------
  // Properties of the specification
  // ---------------------------------------------------------------------------

  /** The counts of centroids `0..m-1` over the first `n` points, added up. */
  function TotalCount(asg: seq<int>, m: nat, n: nat): nat
    requires n <= |asg|
  {
    if m == 0 then 0 else TotalCount(asg, m - 1, n) + Count(asg, m - 1, n)
  }

  lemma {:induction false} TotalCountOfNone(asg: seq<int>, m: nat)
    ensures TotalCount(asg, m, 0) == 0
  {
    if m > 0 {
      TotalCountOfNone(asg, m - 1);
    }
  }

  lemma {:induction false} TotalCountStep(asg: seq<int>, m: nat, n: nat)
    requires 0 < n <= |asg|
    ensures TotalCount(asg, m, n) == TotalCount(asg, m, n - 1) + (if 0 <= asg[n - 1] < m then 1 else 0)
  {
    if m > 0 {
      TotalCountStep(asg, m - 1, n);
    }
  }

  /** When every point is assigned to one of `k` centroids, the `k` counts add up to the number of points. */
  lemma {:induction false} CountsSumToPoints(asg: seq<int>, k: nat, n: nat)
    requires n <= |asg| && InRange(asg, k)
    ensures TotalCount(asg, k, n) == n
  {
    if n == 0 {
      TotalCountOfNone(asg, k);
    } else {
      CountsSumToPoints(asg, k, n - 1);
      TotalCountStep(asg, k, n);
    }
  }

  lemma {:induction false} CoordSumOfEmpty(points: seq<Point>, asg: seq<int>, r: int, j: nat, n: nat)
    requires n <= |points| && n <= |asg|
    requires forall m :: 0 <= m < n ==> j < |points[m]|
    requires Count(asg, r, n) == 0
    ensures CoordSum(points, asg, r, j, n) == 0.0
  {
    if n > 0 {
      CoordSumOfEmpty(points, asg, r, j, n - 1);
    }
  }

  lemma {:induction false} CoordSumOfIdentical(points: seq<Point>, asg: seq<int>, r: int, j: nat, n: nat, v: Point)
    requires n <= |points| && n <= |asg| && j < |v|
    requires forall m :: 0 <= m < n ==> j < |points[m]|
    requires forall m :: 0 <= m < n && asg[m] == r ==> points[m] == v
    ensures CoordSum(points, asg, r, j, n) == Count(asg, r, n) as real * v[j]
  {
    if n > 0 {
      CoordSumOfIdentical(points, asg, r, j, n - 1, v);
      var c := Count(asg, r, n - 1) as real;
      if asg[n - 1] == r {
        assert c * v[j] + v[j] == (c + 1.0) * v[j];
      }
    }
  }

  /** A centroid whose assigned points all equal `v` is recomputed as `v` itself. */
  lemma MeanOfIdentical(points: seq<Point>, asg: seq<int>, d: nat, r: nat, v: Point)
    requires |asg| == |points| && Dims(points, d) && |v| == d
    requires Count(asg, r, |asg|) > 0
    requires forall m :: 0 <= m < |points| && asg[m] == r ==> points[m] == v
    ensures Centroid(points, asg, r, d) == v
  {
    var c := Count(asg, r, |asg|) as real;
    forall j | 0 <= j < d
      ensures Centroid(points, asg, r, d)[j] == v[j]
    {
      CoordSumOfIdentical(points, asg, r, j, |points|, v);
      var total := CoordSum(points, asg, r, j, |points|);
      assert Centroid(points, asg, r, d)[j] == total / c;
      ProductDividedBack(total, v[j], c);
    }
  }

  /** A centroid with no assigned points is recomputed as the zero vector, whatever it was before. */
  lemma EmptyCentroidIsZero(points: seq<Point>, asg: seq<int>, d: nat, r: nat)
    requires |asg| == |points| && Dims(points, d)
    requires forall m :: 0 <= m < |asg| ==> asg[m] != r
    ensures Centroid(points, asg, r, d) == seq(d, j => 0.0)
  {
    CountOfAbsent(asg, r, |asg|);
  }

  lemma {:induction false} CountOfAbsent(asg: seq<int>, r: int, n: nat)
    requires n <= |asg|
    requires forall m :: 0 <= m < n ==> asg[m] != r
    ensures Count(asg, r, n) == 0
  {
    if n > 0 {
      CountOfAbsent(asg, r, n - 1);
    }
  }

  /** `Count` is the number of indices below `n` whose assignment is `r`. */
  lemma {:induction false} CountIsSize(asg: seq<int>, r: int, n: nat)
    requires n <= |asg|
    ensures Count(asg, r, n) == |set j | 0 <= j < n && asg[j] == r|
  {
    if n > 0 {
      CountIsSize(asg, r, n - 1);
      var before := set j | 0 <= j < n - 1 && asg[j] == r;
      var after := set j | 0 <= j < n && asg[j] == r;
      if asg[n - 1] == r {
        assert after == before + {n - 1};
      } else {
        assert after == before;
      }
    }
  }

  /** The first `n` points assigned to centroid `r`, in order. */
  function Members(points: seq<Point>, asg: seq<int>, r: int, n: nat): (ms: seq<Point>)
    requires n <= |points| && n <= |asg|
    ensures |ms| <= n
  {
    if n == 0 then []
    else Members(points, asg, r, n - 1) + (if asg[n - 1] == r then [points[n - 1]] else [])
  }

  /** A point is among the members exactly when some point assigned to `r` equals it. */
  lemma {:induction false} MembersAreAssigned(points: seq<Point>, asg: seq<int>, r: int, n: nat, x: Point)
    requires n <= |points| && n <= |asg|
    ensures x in Members(points, asg, r, n) <==> exists m :: 0 <= m < n && asg[m] == r && points[m] == x
  {
    if n > 0 {
      MembersAreAssigned(points, asg, r, n - 1, x);
      if asg[n - 1] == r && points[n - 1] == x {
        assert x in Members(points, asg, r, n);
      }
    }
  }

  /** The count of centroid `r` is the number of its members, each of which has dimension `d`. */
  lemma {:induction false} MembersCount(points: seq<Point>, asg: seq<int>, r: int, d: nat, n: nat)
    requires n <= |points| && n <= |asg| && Dims(points, d)
    ensures Dims(Members(points, asg, r, n), d)
    ensures |Members(points, asg, r, n)| == Count(asg, r, n)
  {
    if n > 0 {
      MembersCount(points, asg, r, d, n - 1);
    }
  }

  /** The coordinate sum of centroid `r` is the column sum of its members. */
  lemma {:induction false} MembersSum(points: seq<Point>, asg: seq<int>, r: int, d: nat, j: nat, n: nat)
    requires n <= |points| && n <= |asg| && Dims(points, d) && j < d
    ensures Dims(Members(points, asg, r, n), d)
    ensures CoordSum(points, asg, r, j, n) == ColumnSum(Members(points, asg, r, n), j)
  {
    MembersCount(points, asg, r, d, n);
    if n > 0 {
      MembersSum(points, asg, r, d, j, n - 1);
      if asg[n - 1] == r {
        ColumnSumAppend(Members(points, asg, r, n - 1), points[n - 1], j);
      } else {
        assert Members(points, asg, r, n) == Members(points, asg, r, n - 1);
      }
    }
  }

  /**
   * A recomputed centroid is the coordinate-wise mean of the list of points
   * assigned to it when it has any, and the zero vector when that list is empty.
   */
  lemma CentroidIsMean(points: seq<Point>, asg: seq<int>, r: int, d: nat)
    requires |asg| == |points| && Dims(points, d)
    ensures Dims(Members(points, asg, r, |points|), d)
    ensures Members(points, asg, r, |points|) == [] <==> Count(asg, r, |asg|) == 0
    ensures Members(points, asg, r, |points|) != [] ==> Centroid(points, asg, r, d) == ListMean(Members(points, asg, r, |points|), d)
    ensures Members(points, asg, r, |points|) == [] ==> Centroid(points, asg, r, d) == seq(d, _ => 0.0)
  {
    var ms := Members(points, asg, r, |points|);
    MembersCount(points, asg, r, d, |points|);
    forall j | 0 <= j < d
      ensures CoordSum(points, asg, r, j, |points|) == ColumnSum(ms, j)
    {
      MembersSum(points, asg, r, d, j, |points|);
    }
  }

  /** With a positive epsilon, a pass that leaves the centroids where they were ends the loop. */
  lemma FixedPointStopsLoop(points: seq<Point>, cs: seq<Point>, d: nat, budget: int, eps: real)
    requires Dims(points, d) && Dims(cs, d) && |cs| > 0
    requires Step(points, cs, d) == cs && budget > 0 && eps > 0.0
    ensures Run(points, cs, d, budget, eps) == RunResult(cs, 1)
  {
    ZeroShiftOfSame(cs, |cs|);
    ProductPositive(eps, eps);
  }

  lemma {:induction false} ZeroShiftOfSame(cs: seq<Point>, n: nat)
    requires n <= |cs|
    ensures MaxSqShift(cs, cs, n) == 0.0
  {
    if n > 0 {
      ZeroShiftOfSame(cs, n - 1);
      SqDistOfEqual(cs[n - 1], cs[n - 1]);
    }
  }

  /** The centroids the loop leaves are those after exactly as many passes as it performed. */
  lemma {:induction false} RunEndsAfterItsPasses(points: seq<Point>, cs: seq<Point>, d: nat, budget: int, eps: real)
    requires Dims(points, d) && Dims(cs, d) && |cs| > 0
    ensures var r := Run(points, cs, d, budget, eps); r.centroids == Iterate(points, cs, d, r.passes)
    decreases budget
  {
    if budget > 0 {
      var next := Step(points, cs, d);
      if !ShiftBelow(MaxSqShift(cs, next, |cs|), eps) {
        RunEndsAfterItsPasses(points, next, d, budget - 1, eps);
        var rest := Run(points, next, d, budget - 1, eps);
        assert Run(points, cs, d, budget, eps) == RunResult(rest.centroids, rest.passes + 1);
        assert Iterate(points, cs, d, rest.passes + 1) == Iterate(points, next, d, rest.passes);
      } else {
        assert Run(points, cs, d, budget, eps) == RunResult(next, 1);
        assert Iterate(points, next, d, 0) == next;
      }
    }
  }

  /** Pass `p + 1` moved the centroids by a largest shift not below `eps`. */
  ghost predicate LargeShiftAt(points: seq<Point>, cs: seq<Point>, d: nat, p: nat, eps: real)
    requires Dims(points, d) && Dims(cs, d) && |cs| > 0
  {
    !ShiftBelow(ShiftAt(points, cs, d, p), eps)
  }

  /** Every pass but the last one moved some centroid by at least `eps`: the loop never goes on after a small shift. */
  lemma {:induction false} RunContinuesOnlyOnLargeShift(points: seq<Point>, cs: seq<Point>, d: nat, budget: int, eps: real)
    requires Dims(points, d) && Dims(cs, d) && |cs| > 0
    ensures var r := Run(points, cs, d, budget, eps);
      forall p :: 0 <= p < r.passes - 1 ==> LargeShiftAt(points, cs, d, p, eps)
    decreases budget
  {
    if budget > 0 {
      var next := Step(points, cs, d);
      if !ShiftBelow(MaxSqShift(cs, next, |cs|), eps) {
        RunContinuesOnlyOnLargeShift(points, next, d, budget - 1, eps);
        var rest := Run(points, next, d, budget - 1, eps);
        forall p | 0 < p < rest.passes
          ensures LargeShiftAt(points, cs, d, p, eps)
        {
          assert LargeShiftAt(points, next, d, p - 1, eps);
        }
      }
    }
  }

  /** A loop that performs fewer passes than its budget stopped because its last pass had a shift below `eps`. */
  lemma {:induction false} RunStopsEarlyOnlyOnSmallShift(points: seq<Point>, cs: seq<Point>, d: nat, budget: int, eps: real)
    requires Dims(points, d) && Dims(cs, d) && |cs| > 0
    ensures var r := Run(points, cs, d, budget, eps);
      r.passes < budget ==> r.passes > 0 && !LargeShiftAt(points, cs, d, r.passes - 1, eps)
    decreases budget
  {
    if budget > 0 {
      var next := Step(points, cs, d);
      RunUnfolds(points, cs, d, budget, eps);
      if !ShiftBelow(MaxSqShift(cs, next, |cs|), eps) {
        RunStopsEarlyOnlyOnSmallShift(points, next, d, budget - 1, eps);
        var rest := Run(points, next, d, budget - 1, eps);
        if rest.passes < budget - 1 {
          assert ShiftAt(points, cs, d, rest.passes) == ShiftAt(points, next, d, rest.passes - 1);
          assert !LargeShiftAt(points, cs, d, rest.passes, eps);
        }
        assert Run(points, cs, d, budget, eps).passes == rest.passes + 1;
      } else {
        assert ShiftAt(points, cs, d, 0) == MaxSqShift(cs, next, |cs|);
        assert !LargeShiftAt(points, cs, d, 0, eps);
        assert Run(points, cs, d, budget, eps).passes == 1;
      }
    }
  }

  // ---------------------------------------------------------------------------
  // The imperative code, proved against the specification
  // ---------------------------------------------------------------------------

  /** Row `i` of a centroid matrix, as a point. */
  function Row(m: array2<real>, i: int): (p: Point)
    reads m
    requires 0 <= i < m.Length0
    ensures |p| == m.Length1 && forall j :: 0 <= j < m.Length1 ==> p[j] == m[i, j]
  {
    seq(m.Length1, j requires 0 <= j < m.Length1 reads m => m[i, j])
  }

  /** All rows of a centroid matrix, in order. */
  function Matrix(m: array2<real>): (cs: seq<Point>)
    reads m
    ensures |cs| == m.Length0 && Dims(cs, m.Length1)
    ensures forall i :: 0 <= i < m.Length0 ==> cs[i] == Row(m, i)
  {
    seq(m.Length0, i requires 0 <= i < m.Length0 reads m => Row(m, i))
  }

  /** A list visiting exactly `nodes`, each node holding `d` coordinates. */
  ghost predicate PointList(data: Node?, nodes: seq<Node>, d: int)
    reads nodes
  {
    IsList(data, nodes) && Shaped(nodes, d)
  }

  /** `distance`: the squared distance between a point and centroid `i`, summed over the point's dimensions. */
  method Distance(point: Node, centroids: array2<real>, i: int) returns (sum: real)
    requires |point.coordinates| == point.dimensions == centroids.Length1
    requires 0 <= i < centroids.Length0
    ensures sum == SqDist(point.coordinates, Row(centroids, i))
  {
    ghost var p := point.coordinates;
    ghost var q := Row(centroids, i);
    sum := 0.0;
    for j := 0 to point.dimensions
      invariant sum == SqDistUpTo(p, q, j)
    {
      var diff := point.coordinates[j] - centroids[i, j];
      sum := sum + diff * diff;
    }
  }

  /** `nearest_centroid`: the first centroid at the smallest distance from the point. */
  method NearestCentroid(point: Node, centroids: array2<real>) returns (nearest: int)
    requires |point.coordinates| == point.dimensions == centroids.Length1
    requires centroids.Length0 >= 1
    ensures IsFirstNearest(point.coordinates, Matrix(centroids), nearest)
    ensures nearest == Nearest(point.coordinates, Matrix(centroids))
  {
    ghost var p := point.coordinates;
    ghost var cs := Matrix(centroids);
    nearest := 0;
    var minDistance := Distance(point, centroids, 0);
    for i := 1 to centroids.Length0
      invariant nearest == NearestAmong(p, cs, i)
      invariant minDistance == SqDist(p, cs[nearest])
    {
      var dist := Distance(point, centroids, i);
      if dist < minDistance {
        minDistance := dist;
        nearest := i;
      }
    }
  }

  /** The seeding loop of `k_means`: centroid `i` copies node `min(i, N - 1)`, the walk staying on the last node once it is reached. */
  method SeedCentroids(data: Node, k: int, dims: int, ghost nodes: seq<Node>) returns (centroids: array2<real>)
    requires PointList(data, nodes, dims) && k >= 0
    ensures fresh(centroids) && centroids.Length0 == k && centroids.Length1 == dims
    ensures Matrix(centroids) == Seed(Points(nodes), k)
  {
    ghost var pts := Points(nodes);
    centroids := new real[k, dims];
    var point := data;
    ghost var at := 0;
    for i := 0 to k
      invariant 0 <= at < |nodes| && point == nodes[at] && at == Min(i, |nodes| - 1)
      invariant forall r, j :: 0 <= r < i && 0 <= j < dims ==> centroids[r, j] == pts[Min(r, |nodes| - 1)][j]
    {
      for j := 0 to dims
        invariant forall r, c :: 0 <= r < i && 0 <= c < dims ==> centroids[r, c] == pts[Min(r, |nodes| - 1)][c]
        invariant forall c :: 0 <= c < j ==> centroids[i, c] == pts[at][c]
      {
        centroids[i, j] := point.coordinates[j];
      }
      assert at < |nodes| - 1 ==> point.next == nodes[at + 1];
      if point.next != null {
        at := at + 1;
        point := point.next;
      }
    }
    forall r | 0 <= r < k
      ensures Matrix(centroids)[r] == Seed(pts, k)[r]
    {
    }
  }

  /** The loop that keeps `old_centroids`: a copy of every centroid. */
  method SnapshotCentroids(centroids: array2<real>, oldCentroids: array2<real>)
    requires oldCentroids != centroids
    requires oldCentroids.Length0 == centroids.Length0 && oldCentroids.Length1 == centroids.Length1
    modifies oldCentroids
    ensures Matrix(oldCentroids) == Matrix(centroids)
    ensures Matrix(centroids) == old(Matrix(centroids))
  {
    for i := 0 to centroids.Length0
      invariant forall r, j :: 0 <= r < i && 0 <= j < centroids.Length1 ==> oldCentroids[r, j] == centroids[r, j]
    {
      for j := 0 to centroids.Length1
        invariant forall r, c :: 0 <= r < i && 0 <= c < centroids.Length1 ==> oldCentroids[r, c] == centroids[r, c]
        invariant forall c :: 0 <= c < j ==> oldCentroids[i, c] == centroids[i, c]
      {
        oldCentroids[i, j] := centroids[i, j];
      }
    }
    forall r | 0 <= r < centroids.Length0
      ensures Matrix(oldCentroids)[r] == Matrix(centroids)[r]
    {
    }
  }

  /** The assignment loop of `k_means`: every point, walked in list order, gets the index of its nearest centroid. */
  method AssignPoints(data: Node, centroids: array2<real>, assignments: array<int>, numPoints: int, ghost nodes: seq<Node>)
    requires PointList(data, nodes, centroids.Length1) && centroids.Length0 >= 1
    requires numPoints == |nodes| == assignments.Length
    modifies assignments
    ensures assignments[..] == AssignAll(Points(nodes), Matrix(centroids), centroids.Length1)
  {
    ghost var pts := Points(nodes);
    ghost var cs := Matrix(centroids);
    var point: Node? := data;
    for i := 0 to numPoints
      invariant i < |nodes| ==> point == nodes[i]
      invariant forall m :: 0 <= m < i ==> assignments[m] == Nearest(pts[m], cs)
    {
      assignments[i] := NearestCentroid(point, centroids);
      point := point.next;
    }
  }

  /** The reset loop of `calculate_centroids`: every centroid coordinate becomes 0. */
  method ResetCentroids(centroids: array2<real>)
    modifies centroids
    ensures forall r, j :: 0 <= r < centroids.Length0 && 0 <= j < centroids.Length1 ==> centroids[r, j] == 0.0
  {
    for i := 0 to centroids.Length0
      invariant forall r, j :: 0 <= r < i && 0 <= j < centroids.Length1 ==> centroids[r, j] == 0.0
    {
      for j := 0 to centroids.Length1
        invariant forall r, c :: 0 <= r < i && 0 <= c < centroids.Length1 ==> centroids[r, c] == 0.0
        invariant forall c :: 0 <= c < j ==> centroids[i, c] == 0.0
      {
        centroids[i, j] := 0.0;
      }
    }
  }

  /** The inner loop of the accumulation in `calculate_centroids`: the point's coordinates are added to centroid `index`. */
  method AddToCentroid(point: Node, centroids: array2<real>, index: int)
    requires |point.coordinates| == point.dimensions == centroids.Length1
    requires 0 <= index < centroids.Length0
    modifies centroids
    ensures forall r, c :: 0 <= r < centroids.Length0 && 0 <= c < centroids.Length1 ==>
      centroids[r, c] == old(centroids[r, c]) + (if r == index then point.coordinates[c] else 0.0)
  {
    for j := 0 to point.dimensions
      invariant forall r, c :: 0 <= r < centroids.Length0 && 0 <= c < centroids.Length1 ==>
        centroids[r, c] == old(centroids[r, c]) + (if r == index && c < j then point.coordinates[c] else 0.0)
    {
      centroids[index, j] := centroids[index, j] + point.coordinates[j];
    }
  }

  /** The accumulation loop of `calculate_centroids`: per centroid, the count of its points and the sums of their coordinates. */
  method AccumulatePoints(data: Node?, centroids: array2<real>, assignments: array<int>, counts: array<int>, numPoints: int, ghost nodes: seq<Node>)
    requires PointList(data, nodes, centroids.Length1)
    requires numPoints == |nodes| == assignments.Length && counts.Length == centroids.Length0 && counts != assignments
    requires InRange(assignments[..], centroids.Length0)
    requires forall r :: 0 <= r < counts.Length ==> counts[r] == 0
    requires forall r, j :: 0 <= r < centroids.Length0 && 0 <= j < centroids.Length1 ==> centroids[r, j] == 0.0
    modifies centroids, counts
    ensures forall r :: 0 <= r < counts.Length ==> counts[r] == Count(assignments[..], r, numPoints)
    ensures forall r, j :: 0 <= r < centroids.Length0 && 0 <= j < centroids.Length1 ==>
      centroids[r, j] == CoordSum(Points(nodes), assignments[..], r, j, numPoints)
  {
    ghost var pts := Points(nodes);
    ghost var asg := assignments[..];
    var point := data;
    for i := 0 to numPoints
      invariant i < |nodes| ==> point == nodes[i]
      invariant forall r :: 0 <= r < counts.Length ==> counts[r] == Count(asg, r, i)
      invariant forall r, j :: 0 <= r < centroids.Length0 && 0 <= j < centroids.Length1 ==> centroids[r, j] == CoordSum(pts, asg, r, j, i)
    {
      var index := assignments[i];
      counts[index] := counts[index] + 1;
      AddToCentroid(point, centroids, index);
      point := point.next;
    }
  }

  /** The mean loop of `calculate_centroids`: a centroid that received points is divided by their count; the others stay as they are. */
  method DivideByCounts(centroids: array2<real>, counts: array<int>)
    requires counts.Length == centroids.Length0
    modifies centroids
    ensures forall r, j :: 0 <= r < centroids.Length0 && 0 <= j < centroids.Length1 ==>
      centroids[r, j] == if counts[r] > 0 then old(centroids[r, j]) / counts[r] as real else old(centroids[r, j])
  {
    for i := 0 to centroids.Length0
      invariant forall r, j :: 0 <= r < centroids.Length0 && 0 <= j < centroids.Length1 ==>
        centroids[r, j] == if r < i && counts[r] > 0 then old(centroids[r, j]) / counts[r] as real else old(centroids[r, j])
    {
      if counts[i] > 0 {
        for j := 0 to centroids.Length1
          invariant forall r, c :: 0 <= r < centroids.Length0 && 0 <= c < centroids.Length1 ==>
            centroids[r, c] == if (r < i || (r == i && c < j)) && counts[r] > 0 then old(centroids[r, c]) / counts[r] as real else old(centroids[r, c])
        {
          centroids[i, j] := centroids[i, j] / counts[i] as real;
        }
      }
    }
  }

  /**
   * `calculate_centroids`: zero every centroid, add each point to the centroid
   * it is assigned to while counting, then divide the centroids that received
   * points by their counts. A centroid without points is left at zero.
   */
  method CalculateCentroids(data: Node?, centroids: array2<real>, assignments: array<int>, numPoints: int, ghost nodes: seq<Node>)
    requires PointList(data, nodes, centroids.Length1)
    requires numPoints == |nodes| == assignments.Length
    requires InRange(assignments[..], centroids.Length0)
    modifies centroids
    ensures Matrix(centroids) == Update(Points(nodes), assignments[..], centroids.Length0, centroids.Length1)
  {
    ghost var pts := Points(nodes);
    ghost var asg := assignments[..];
    var k := centroids.Length0;
    var dims := centroids.Length1;
    var counts := new int[k](_ => 0);
    ResetCentroids(centroids);
    AccumulatePoints(data, centroids, assignments, counts, numPoints, nodes);
    DivideByCounts(centroids, counts);
    forall r | 0 <= r < k
      ensures Matrix(centroids)[r] == Update(pts, asg, k, dims)[r]
    {
      UpdateAt(pts, asg, k, dims, r);
      if counts[r] == 0 {
        forall c | 0 <= c < dims
          ensures CoordSum(pts, asg, r, c, numPoints) == 0.0
        {
          CoordSumOfEmpty(pts, asg, r, c, numPoints);
        }
      }
    }
  }

  /** The inner loop of the shift computation in `k_means`: the squared distance centroid `i` moved. */
  method CentroidShift(oldCentroids: array2<real>, centroids: array2<real>, i: int) returns (shift: real)
    requires oldCentroids.Length0 == centroids.Length0 && oldCentroids.Length1 == centroids.Length1
    requires 0 <= i < centroids.Length0
    ensures shift == SqDist(Row(oldCentroids, i), Row(centroids, i))
  {
    ghost var p := Row(oldCentroids, i);
    ghost var q := Row(centroids, i);
    shift := 0.0;
    for j := 0 to centroids.Length1
      invariant shift == SqDistUpTo(p, q, j)
    {
      var diff := oldCentroids[i, j] - centroids[i, j];
      shift := shift + diff * diff;
    }
  }

  /** The shift loop of `k_means`: the largest squared distance any centroid moved from its snapshot. */
  method MaxShift(oldCentroids: array2<real>, centroids: array2<real>) returns (maxShift: real)
    requires oldCentroids.Length0 == centroids.Length0 && oldCentroids.Length1 == centroids.Length1
    ensures maxShift == MaxSqShift(Matrix(oldCentroids), Matrix(centroids), centroids.Length0)
  {
    ghost var olds := Matrix(oldCentroids);
    ghost var news := Matrix(centroids);
    maxShift := 0.0;
    for i := 0 to centroids.Length0
      invariant maxShift == MaxSqShift(olds, news, i)
    {
      var shift := CentroidShift(oldCentroids, centroids, i);
      if shift > maxShift {
        maxShift := shift;
      }
    }
  }

  /** One pass of the `k_means` loop: keep the old centroids, assign every point, recompute the centroids, and measure the largest shift. */
  method Pass(data: Node, centroids: array2<real>, oldCentroids: array2<real>, assignments: array<int>, numPoints: int, ghost nodes: seq<Node>)
    returns (maxShift: real)
    requires PointList(data, nodes, centroids.Length1) && centroids.Length0 >= 1
    requires numPoints == |nodes| == assignments.Length
    requires oldCentroids.Length0 == centroids.Length0 && oldCentroids.Length1 == centroids.Length1
    requires oldCentroids != centroids
    modifies centroids, oldCentroids, assignments
    ensures Matrix(centroids) == Step(Points(nodes), old(Matrix(centroids)), centroids.Length1)
    ensures maxShift == MaxSqShift(old(Matrix(centroids)), Matrix(centroids), centroids.Length0)
  {
    ghost var pts := Points(nodes);
    ghost var current := Matrix(centroids);
    SnapshotCentroids(centroids, oldCentroids);
    AssignPoints(data, centroids, assignments, numPoints, nodes);
    AssignAllInRange(pts, current, centroids.Length1);
    CalculateCentroids(data, centroids, assignments, numPoints, nodes);
    maxShift := MaxShift(oldCentroids, centroids);
  }

  /**
   * The iteration loop of `k_means`: at most `maxIterations` passes, leaving
   * after the first pass whose largest shift is below `epsilon`. Returns the
   * number of passes performed.
   */
  method Iterations(data: Node, centroids: array2<real>, oldCentroids: array2<real>, assignments: array<int>,
                    numPoints: int, maxIterations: int, epsilon: real, ghost nodes: seq<Node>)
    returns (passes: nat)
    requires PointList(data, nodes, centroids.Length1) && centroids.Length0 >= 1
    requires numPoints == |nodes| == assignments.Length
    requires oldCentroids.Length0 == centroids.Length0 && oldCentroids.Length1 == centroids.Length1
    requires oldCentroids != centroids
    modifies centroids, oldCentroids, assignments
    ensures RunResult(Matrix(centroids), passes) == Run(Points(nodes), old(Matrix(centroids)), centroids.Length1, maxIterations, epsilon)
  {
    ghost var pts := Points(nodes);
    ghost var dims := centroids.Length1;
    ghost var whole := Run(pts, Matrix(centroids), dims, maxIterations, epsilon);
    var iteration := 0;
    passes := 0;
    while iteration < maxIterations
      invariant 0 <= iteration && (maxIterations > 0 ==> iteration <= maxIterations)
      invariant passes == iteration
      invariant var rest := Run(pts, Matrix(centroids), dims, maxIterations - iteration, epsilon);
        whole == RunResult(rest.centroids, rest.passes + iteration)
    {
      ghost var current := Matrix(centroids);
      ghost var next := Step(pts, current, dims);
      ghost var budget := maxIterations - iteration;
      var maxShift := Pass(data, centroids, oldCentroids, assignments, numPoints, nodes);
      RunUnfolds(pts, current, dims, budget, epsilon);
      passes := iteration + 1;
      if ShiftBelow(maxShift, epsilon) {
        break;
      }
      iteration := iteration + 1;
    }
  }

  /**
   * `k_means`: seed the centroids from the list, then run the iteration loop.
   * Returns the centroids it prints and the number of passes it performed.
   */
  method KMeans(data: Node, maxIterations: int, numPoints: int, epsilon: real, k: int, ghost nodes: seq<Node>)
    returns (result: seq<Point>, passes: nat)
    requires PointList(data, nodes, data.dimensions) && numPoints == |nodes| && k >= 1
    ensures data.dimensions >= 0
    ensures RunResult(result, passes) == Cluster(Points(nodes), k, data.dimensions, maxIterations, epsilon)
  {
    var dims := data.dimensions;
    var centroids := SeedCentroids(data, k, dims, nodes);
    var oldCentroids := new real[k, dims];
    var assignments := new int[numPoints];
    passes := Iterations(data, centroids, oldCentroids, assignments, numPoints, maxIterations, epsilon, nodes);
    result := Matrix(centroids);
  }

  // ---------------------------------------------------------------------------
  // Argument validation of main
  // ---------------------------------------------------------------------------

  /** A command-line number as `strtol` reads it: the value of its leading digits and whether nothing else follows them. */
  datatype Argument = Argument(value: int, complete: bool)

  /** The messages main prints before refusing to cluster. */
  datatype Diagnostic = InvalidMaximumIteration | ErrorOccurred | InvalidNumberOfClusters

  /** What main decides: the messages it prints, in order, and the iteration budget it would use. */
  datatype Validation = Validation(diagnostics: seq<Diagnostic>, maxIterations: int)

  /** The accepted ranges of the parameters: `1 < K < N` and `1 < max_iterations < 1000`. */
  predicate ValidParameters(k: int, maxIterations: int, numPoints: int)
  {
    1 < k < numPoints && 1 < maxIterations < 1000
  }

  /**
   * main's checks of `argv[1..]` (K, then an optional iteration budget that
   * defaults to 200) against the number of points read.
   */
  function ValidateArguments(args: seq<Argument>, numPoints: int): (v: Validation)
    ensures !(1 <= |args| <= 2) ==> v.diagnostics == [ErrorOccurred]
    ensures v.maxIterations == (if |args| == 2 then args[1].value else 200)
    ensures (InvalidMaximumIteration in v.diagnostics) <==>
      |args| == 2 && !(args[1].complete && 1 < args[1].value < 1000)
    ensures (InvalidNumberOfClusters in v.diagnostics) <==>
      1 <= |args| <= 2 && !(args[0].complete && 1 < args[0].value < numPoints)
  {
    if |args| < 1 || |args| > 2 then Validation([ErrorOccurred], 200)
    else
      var maxIterations := if |args| == 2 then args[1].value else 200;
      var iterationCheck :=
        if |args| == 2 && (!args[1].complete || maxIterations <= 1 || maxIterations >= 1000)
        then [InvalidMaximumIteration] else [];
      var k := args[0].value;
      var widthCheck := if k > INT_MAX || maxIterations > INT_MAX then [ErrorOccurred] else [];
      var clusterCheck := if !args[0].complete || k <= 1 || k >= numPoints then [InvalidNumberOfClusters] else [];
      Validation(iterationCheck + widthCheck + clusterCheck, maxIterations)
  }

  /**
   * With a point count that fits in a C `int`, main goes on to cluster exactly
   * when it got one or two complete numbers whose values lie in the accepted
   * ranges: the `INT_MAX` check never rejects anything the range checks accept.
   */
  lemma ValidationAcceptsExactlyValidParameters(args: seq<Argument>, numPoints: int)
    requires 0 <= numPoints <= INT_MAX
    ensures var v := ValidateArguments(args, numPoints);
      v.diagnostics == [] <==>
        && 1 <= |args| <= 2
        && (forall i :: 0 <= i < |args| ==> args[i].complete)
        && ValidParameters(args[0].value, v.maxIterations, numPoints)
  {
    var v := ValidateArguments(args, numPoints);
    if !(1 <= |args| <= 2) {
      assert ErrorOccurred in v.diagnostics;
    } else if !args[0].complete || !(1 < args[0].value < numPoints) {
      assert InvalidNumberOfClusters in v.diagnostics;
    } else if |args| == 2 && !(args[1].complete && 1 < args[1].value < 1000) {
      assert InvalidMaximumIteration in v.diagnostics;
    } else {
      assert v.diagnostics == [];
    }
  }
}

/**
 * Lloyd's k-means as kmeans.py runs it. The centroids are the keys of a
 * dictionary whose values are sets of points, so equal keys and equal points
 * collapse; an empty cluster has no mean and ends the run in the error path;
 * and the loop may make `max_iterations + 1` passes.
 *
 * Distances are squared distances, as in the C model: `sqrt` is monotone, so
 * a comparison of two distances, or of a distance with epsilon, is decided
 * the same way on their squares (`Vectors.SqrtOrder`, `Vectors.SqrtBelow`).
 * A dictionary is its key order (a sequence of distinct keys) together with a
 * map from keys to values.
 */
module KMeansPy {
  import opened Vectors
  import opened Wrappers

  /** The convergence threshold the script fixes. */
  const EPSILON: real := 0.001

  // ---------------------------------------------------------------------------
  // euclidean_distance
  // ---------------------------------------------------------------------------

  /** Python's `sum` of a list of numbers, added from the left. */
  function Sum(xs: seq<real>): real
  {
    if |xs| == 0 then 0.0 else Sum(xs[..|xs| - 1]) + xs[|xs| - 1]
  }

  /** The list `[(p[i] - q[i]) ** 2 for i in range(n)]`. */
  function SquaredDifferences(p: Point, q: Point, n: nat): (r: seq<real>)
    requires n <= |p| && n <= |q|
    ensures |r| == n
  {
    seq(n, i requires 0 <= i < n => (p[i] - q[i]) * (p[i] - q[i]))
  }

  lemma {:induction false} SumOfSquaredDifferences(p: Point, q: Point, n: nat)
    requires n <= |p| && n <= |q|
    ensures Sum(SquaredDifferences(p, q, n)) == SqDistUpTo(p, q, n)
  {
    if n > 0 {
      assert SquaredDifferences(p, q, n)[..n - 1] == SquaredDifferences(p, q, n - 1);
      SumOfSquaredDifferences(p, q, n - 1);
    }
  }

  /**
   * `euclidean_distance` before its square root. The assertion in the source
   * demands equal lengths. The sum of the comprehension is the squared
   * distance of the shared model, hence never negative.
   */
  function EuclideanDistanceSq(point1: Point, point2: Point): (r: real)
    requires |point1| == |point2|
    ensures r == SqDist(point1, point2)
    ensures r >= 0.0
  {
    SumOfSquaredDifferences(point1, point2, |point1|);
    Sum(SquaredDifferences(point1, point2, |point1|))
  }

  // ---------------------------------------------------------------------------
  // all_less_than_epsilon
  // ---------------------------------------------------------------------------

  /** `all(num < epsilon for num in lst)`, evaluated from the front: true exactly when every element is below epsilon (so true for `[]`). */
  function AllLessThanEpsilon(lst: seq<real>, epsilon: real): (b: bool)
    ensures b <==> forall i :: 0 <= i < |lst| ==> lst[i] < epsilon
  {
    |lst| == 0 || (lst[0] < epsilon && AllLessThanEpsilon(lst[1..], epsilon))
  }

  /** Every squared delta stands for a delta below epsilon. */
  predicate AllShiftsBelow(sqDeltas: seq<real>, epsilon: real)
  {
    forall i :: 0 <= i < |sqDeltas| ==> ShiftBelow(sqDeltas[i], epsilon)
  }

  /** When each delta is the square root of its squared delta, the stopping test may be made on the squares. */
  lemma AllLessThanEpsilonOnSquares(deltas: seq<real>, sqDeltas: seq<real>, epsilon: real)
    requires |deltas| == |sqDeltas|
    requires forall i :: 0 <= i < |deltas| ==> IsSqrt(deltas[i], sqDeltas[i])
    ensures AllLessThanEpsilon(deltas, epsilon) <==> AllShiftsBelow(sqDeltas, epsilon)
  {
    forall i | 0 <= i < |deltas|
      ensures deltas[i] < epsilon <==> ShiftBelow(sqDeltas[i], epsilon)
    {
      SqrtBelow(deltas[i], sqDeltas[i], epsilon);
    }
  }

  // ---------------------------------------------------------------------------
  // mean_point
  // ---------------------------------------------------------------------------

  /** All points of a set have the same number of coordinates. */
  predicate SameLength(points: set<Point>)
  {
    forall p, q :: p in points && q in points ==> |p| == |q|
  }

  /** Some element of a non-empty set. */
  ghost function Pick(s: set<Point>): Point
    requires s != {}
  {
    var x :| x in s; x
  }

  /** The sum of coordinate `i` over a set of points; the order the points are taken in does not matter (`ColumnTotalRemove`). */
  ghost function ColumnTotal(s: set<Point>, i: nat): real
    requires forall p :: p in s ==> i < |p|
    decreases |s|
  {
    if s == {} then 0.0
    else
      var x := Pick(s);
      x[i] + ColumnTotal(s - {x}, i)
  }

  /** Any point of the set may be taken out of the total first. */
  lemma ColumnTotalRemove(s: set<Point>, x: Point, i: nat)
    requires x in s && forall p :: p in s ==> i < |p|
    ensures ColumnTotal(s, i) == x[i] + ColumnTotal(s - {x}, i)
    decreases |s|
  {
    var y := Pick(s);
    if y != x {
      calc {
        ColumnTotal(s, i);
        y[i] + ColumnTotal(s - {y}, i);
        { ColumnTotalRemove(s - {y}, x, i); assert s - {y} - {x} == s - {x} - {y}; }
        y[i] + x[i] + ColumnTotal(s - {x} - {y}, i);
        { ColumnTotalRemove(s - {x}, y, i); }
        x[i] + ColumnTotal(s - {x}, i);
      }
    }
  }

  /** The coordinate-wise mean of a non-empty set of points of equal length. */
  ghost function Mean(points: set<Point>): (m: Point)
    requires points != {} && SameLength(points)
    ensures forall p :: p in points ==> |m| == |p|
  {
    var d := |Pick(points)|;
    seq(d, i requires 0 <= i < d => ColumnTotal(points, i) / |points| as real)
  }

  /**
   * `mean_point`: `None` for an empty set; otherwise the coordinate sums,
   * accumulated over the points in whatever order the set yields them, each
   * divided by the number of points.
   */
  method MeanPoint(points: set<Point>) returns (r: Option<Point>)
    requires SameLength(points)
    ensures r.None? <==> points == {}
    ensures r.Some? ==> r.value == Mean(points)
  {
    var numPoints := |points|;
    if numPoints == 0 {
      return None;
    }
    var first :| first in points;
    var numDimensions := |first|;
    var sumComponents := seq(numDimensions, _ => 0.0);
    var remaining := points;
    while remaining != {}
      invariant remaining <= points && |sumComponents| == numDimensions
      invariant forall i :: 0 <= i < numDimensions ==>
        sumComponents[i] + ColumnTotal(remaining, i) == ColumnTotal(points, i)
      decreases |remaining|
    {
      var point :| point in remaining;
      ghost var before := sumComponents;
      for i := 0 to numDimensions
        invariant |sumComponents| == numDimensions
        invariant forall c :: 0 <= c < numDimensions ==>
          sumComponents[c] == before[c] + (if c < i then point[c] else 0.0)
      {
        sumComponents := sumComponents[i := sumComponents[i] + point[i]];
      }
      forall i | 0 <= i < numDimensions
        ensures ColumnTotal(remaining, i) == point[i] + ColumnTotal(remaining - {point}, i)
      {
        ColumnTotalRemove(remaining, point, i);
      }
      remaining := remaining - {point};
    }
    r := Some(seq(numDimensions, i requires 0 <= i < numDimensions => sumComponents[i] / numPoints as real));
  }

  /** The mean of a single point is that point. */
  lemma MeanOfSingleton(x: Point)
    ensures Mean({x}) == x
  {
    var m := Mean({x});
    forall i | 0 <= i < |x|
      ensures m[i] == x[i]
    {
      ColumnTotalRemove({x}, x, i);
      assert {x} - {x} == {};
    }
  }

  /** Summing a coordinate over a set is summing it over any list of its points without repetitions. */
  lemma {:induction false} ColumnTotalOfList(points: set<Point>, ps: seq<Point>, i: nat)
    requires Distinct(ps) && forall x :: x in points <==> x in ps
    requires forall m :: 0 <= m < |ps| ==> i < |ps[m]|
    ensures forall p :: p in points ==> i < |p|
    ensures ColumnTotal(points, i) == ColumnSum(ps, i)
  {
    if |ps| > 0 {
      var rest := ps[1..];
      assert forall x :: x in points - {ps[0]} <==> x in rest;
      ColumnTotalOfList(points - {ps[0]}, rest, i);
      ColumnTotalRemove(points, ps[0], i);
    }
  }

  /**
   * The mean of a set of points is the coordinate-wise mean of any list that
   * holds each of its points once, so `mean_point` agrees with the mean of a
   * list of distinct points.
   */
  lemma MeanOfList(points: set<Point>, ps: seq<Point>, d: nat)
    requires Distinct(ps) && forall x :: x in points <==> x in ps
    requires |ps| > 0 && Dims(ps, d)
    ensures points != {} && SameLength(points)
    ensures Mean(points) == ListMean(ps, d)
  {
    assert ps[0] in points;
    assert (set x | x in ps) == points;
    DistinctSize(ps);
    forall i | 0 <= i < d
      ensures ColumnTotal(points, i) == ColumnSum(ps, i)
    {
      ColumnTotalOfList(points, ps, i);
    }
  }

  // ---------------------------------------------------------------------------
  // Dictionary keys
  // ---------------------------------------------------------------------------

  /** No value occurs twice. */
  predicate Distinct(s: seq<Point>)
  {
    forall i, j :: 0 <= i < j < |s| ==> s[i] != s[j]
  }

  /** The keys of a dict filled from `xs` in order: the distinct elements of `xs`, in order of first occurrence. */
  function Dedup(xs: seq<Point>): (r: seq<Point>)
    ensures Distinct(r) && |r| <= |xs|
    ensures forall x :: x in r <==> x in xs
  {
    if |xs| == 0 then []
    else
      var r := Dedup(xs[..|xs| - 1]);
      assert forall x :: x in xs <==> x in xs[..|xs| - 1] || x == xs[|xs| - 1];
      if xs[|xs| - 1] in r then r else r + [xs[|xs| - 1]]
  }

  /** Keys taken from vectors of dimension `d` have dimension `d`. */
  lemma DedupDims(xs: seq<Point>, d: nat)
    requires Dims(xs, d)
    ensures Dims(Dedup(xs), d)
  {
    var r := Dedup(xs);
    forall i | 0 <= i < |r|
      ensures |r[i]| == d
    {
      assert r[i] in xs;
    }
  }

  /** A sequence without repetitions has as many elements as its set. */
  lemma {:induction false} DistinctSize(s: seq<Point>)
    requires Distinct(s)
    ensures |set x | x in s| == |s|
  {
    if |s| > 0 {
      var init := s[..|s| - 1];
      DistinctSize(init);
      assert (set x | x in s) == (set x | x in init) + {s[|s| - 1]};
    }
  }

  /** There are as many keys as distinct values among `xs`. */
  lemma DedupSize(xs: seq<Point>)
    ensures |Dedup(xs)| == |set x | x in xs|
  {
    DistinctSize(Dedup(xs));
    assert (set x | x in Dedup(xs)) == (set x | x in xs);
  }

  /** The centroid dict of line 72: the first `k` points as keys, each with an empty set. */
  function InitialKeys(points: seq<Point>, k: nat): (keys: seq<Point>)
    requires k <= |points|
    ensures 0 < k ==> 0 < |keys|
    ensures forall x :: x in keys <==> x in points[..k]
    ensures |keys| == |set x | x in points[..k]|
  {
    DedupSize(points[..k]);
    assert 0 < k ==> points[0] in points[..k];
    Dedup(points[..k])
  }

  /** Equal seed points give one centroid: two clusters are asked for and one is made. */
  lemma DuplicateSeedsCollapse()
    ensures InitialKeys([[1.0], [1.0], [2.0]], 2) == [[1.0]]
  {
    var points: seq<Point> := [[1.0], [1.0], [2.0]];
    assert points[..2] == [[1.0], [1.0]];
    assert [[1.0], [1.0]][..1] == [[1.0]];
    assert [[1.0]][..0] == [];
  }

  /** The map a dict holds after `d[ks[i]] = vs[i]` for every `i` in order: a later value replaces an earlier one under an equal key. */
  ghost function Inserted(ks: seq<Point>, vs: seq<set<Point>>): (m: map<Point, set<Point>>)
    requires |ks| == |vs|
    ensures forall x :: x in m <==> x in ks
  {
    if |ks| == 0 then map[]
    else
      assert forall x :: x in ks <==> x in ks[..|ks| - 1] || x == ks[|ks| - 1];
      Inserted(ks[..|ks| - 1], vs[..|vs| - 1])[ks[|ks| - 1] := vs[|vs| - 1]]
  }

  /**
   * The copy into `new_dict`: the cluster of the `i`-th old key is stored
   * under the `i`-th new center. Equal new centers share one key, which keeps
   * the position of its first occurrence and the value of its last.
   */
  method RebuildDict(keys: seq<Point>, clusters: map<Point, set<Point>>, tempNewCenters: seq<Point>)
    returns (newKeys: seq<Point>, newDict: map<Point, set<Point>>)
    requires |tempNewCenters| == |keys| && forall c :: 0 <= c < |keys| ==> keys[c] in clusters
    ensures newKeys == Dedup(tempNewCenters)
    ensures newDict == Inserted(tempNewCenters, seq(|keys|, c requires 0 <= c < |keys| => clusters[keys[c]]))
  {
    ghost var values := seq(|keys|, c requires 0 <= c < |keys| => clusters[keys[c]]);
    newKeys := [];
    newDict := map[];
    var i := 0;
    for idx := 0 to |keys|
      invariant i == idx
      invariant newKeys == Dedup(tempNewCenters[..i])
      invariant newDict == Inserted(tempNewCenters[..i], values[..i])
    {
      var key := keys[idx];
      assert tempNewCenters[..i + 1][..i] == tempNewCenters[..i];
      assert values[..i + 1][..i] == values[..i];
      if tempNewCenters[i] !in newDict {
        newKeys := newKeys + [tempNewCenters[i]];
      }
      newDict := newDict[tempNewCenters[i] := clusters[key]];
      i := i + 1;
    }
    assert tempNewCenters[..i] == tempNewCenters;
    assert values[..i] == values;
  }

  // ---------------------------------------------------------------------------
  // Specification of one run, on values
  // ---------------------------------------------------------------------------

  /** The points among the first `n` whose first nearest key is key `c`, each distinct point once. */
  ghost function ClusterUpTo(points: seq<Point>, keys: seq<Point>, d: nat, c: int, n: nat): (s: set<Point>)
    requires Dims(points, d) && Dims(keys, d) && |keys| > 0 && n <= |points|
    ensures forall p :: p in s ==> |p| == d
  {
    if n == 0 then {}
    else if Nearest(points[n - 1], keys) == c then ClusterUpTo(points, keys, d, c, n - 1) + {points[n - 1]}
    else ClusterUpTo(points, keys, d, c, n - 1)
  }

  /** The cluster key `c` receives in a pass. */
  ghost function ClusterOf(points: seq<Point>, keys: seq<Point>, d: nat, c: int): (s: set<Point>)
    requires Dims(points, d) && Dims(keys, d) && |keys| > 0
    ensures forall p :: p in s ==> |p| == d
  {
    ClusterUpTo(points, keys, d, c, |points|)
  }

  /** A prefix's cluster holds exactly the points of the prefix whose first nearest key is `c`. */
  lemma {:induction false} ClusterUpToMembers(points: seq<Point>, keys: seq<Point>, d: nat, c: int, n: nat, p: Point)
    requires Dims(points, d) && Dims(keys, d) && |keys| > 0 && n <= |points|
    ensures p in ClusterUpTo(points, keys, d, c, n) <==> exists j :: 0 <= j < n && points[j] == p && Nearest(points[j], keys) == c
  {
    if n > 0 {
      ClusterUpToMembers(points, keys, d, c, n - 1, p);
      if points[n - 1] == p && Nearest(points[n - 1], keys) == c {
        assert p in ClusterUpTo(points, keys, d, c, n);
      }
    }
  }

  /** Every point lies in exactly one cluster: that of its first nearest key. */
  lemma PointInItsCluster(points: seq<Point>, keys: seq<Point>, d: nat, j: nat)
    requires Dims(points, d) && Dims(keys, d) && |keys| > 0 && j < |points|
    ensures forall c :: points[j] in ClusterOf(points, keys, d, c) <==> c == Nearest(points[j], keys)
  {
    forall c
      ensures points[j] in ClusterOf(points, keys, d, c) <==> c == Nearest(points[j], keys)
    {
      ClusterUpToMembers(points, keys, d, c, |points|, points[j]);
    }
  }

  /** What a pass yields: an empty cluster, which has no mean, or the new centers with their squared moves, in old key order. */
  datatype PassResult = EmptyCluster | Moved(newCenters: seq<Point>, sqDeltas: seq<real>)

  /** Some key receives no point in this pass. */
  ghost predicate HasEmptyCluster(points: seq<Point>, keys: seq<Point>, d: nat)
    requires Dims(points, d) && Dims(keys, d) && |keys| > 0
  {
    exists c :: 0 <= c < |keys| && ClusterOf(points, keys, d, c) == {}
  }

  /** The mean of each key's cluster, in key order. */
  ghost function Centers(points: seq<Point>, keys: seq<Point>, d: nat): (cs: seq<Point>)
    requires Dims(points, d) && Dims(keys, d) && |keys| > 0 && !HasEmptyCluster(points, keys, d)
    ensures |cs| == |keys| && Dims(cs, d)
  {
    seq(|keys|, c requires 0 <= c < |keys| => Mean(ClusterOf(points, keys, d, c)))
  }

  /** The squared move of each key to its new center. */
  function SqDeltas(keys: seq<Point>, centers: seq<Point>): (ds: seq<real>)
    requires |centers| == |keys| && forall c :: 0 <= c < |keys| ==> |keys[c]| == |centers[c]|
    ensures |ds| == |keys|
  {
    seq(|keys|, c requires 0 <= c < |keys| => SqDist(keys[c], centers[c]))
  }

  /** One pass over the keys: the mean of each cluster in key order, and the squared distance from each old key to its mean. */
  ghost function Pass(points: seq<Point>, keys: seq<Point>, d: nat): (r: PassResult)
    requires Dims(points, d) && Dims(keys, d) && |keys| > 0
    ensures r.Moved? ==> |r.newCenters| == |keys| && |r.sqDeltas| == |keys| && Dims(r.newCenters, d)
  {
    if HasEmptyCluster(points, keys, d) then EmptyCluster
    else
      var centers := Centers(points, keys, d);
      Moved(centers, SqDeltas(keys, centers))
  }

  /**
   * Clusters are sets of tuples, so a point that occurs twice in the input
   * counts once in its cluster's mean: one key over the points 0, 0 and 3
   * moves to 1.5, not to 1.
   */
  lemma DuplicatePointsCountOnce()
    ensures Pass([[0.0], [0.0], [3.0]], [[0.0]], 1) == Moved([[1.5]], [2.25])
  {
    var points: seq<Point> := [[0.0], [0.0], [3.0]];
    var keys: seq<Point> := [[0.0]];
    assert ClusterUpTo(points, keys, 1, 0, 1) == {[0.0]};
    assert ClusterUpTo(points, keys, 1, 0, 2) == {[0.0]};
    assert ClusterOf(points, keys, 1, 0) == {[0.0], [3.0]};
    MeanOfZeroAndThree();
    assert Centers(points, keys, 1) == [[1.5]];
  }

  /** The mean of the set holding 0 and 3. */
  lemma MeanOfZeroAndThree()
    ensures Mean({[0.0], [3.0]}) == [1.5]
  {
    var cluster: set<Point> := {[0.0], [3.0]};
    ColumnTotalRemove(cluster, [0.0], 0);
    assert cluster - {[0.0]} == {[3.0]};
    ColumnTotalRemove({[3.0]}, [3.0], 0);
    assert {[3.0]} - {[3.0]} == {};
  }

  /** How a run ends: the printed centroids and the number of passes made, or the error path. */
  datatype Outcome = Clustered(centroids: seq<Point>, passes: nat) | Failed

  /** An outcome after `n` further passes made before it. */
  function AddPasses(o: Outcome, n: nat): Outcome
  {
    match o
    case Clustered(cs, p) => Clustered(cs, p + n)
    case Failed => Failed
  }

  /**
   * The `while True` loop from keys `keys` with `iteration_count` equal to
   * `iterationCount`: it stops after a pass whose deltas are all below
   * epsilon or whose count equals `max_iterations`, and fails on an empty cluster.
   */
  ghost function PyRun(points: seq<Point>, keys: seq<Point>, d: nat, iterationCount: int, maxIterations: int): (o: Outcome)
    requires Dims(points, d) && Dims(keys, d) && |keys| > 0
    requires 0 <= iterationCount <= maxIterations
    ensures o.Clustered? ==> 1 <= o.passes <= maxIterations - iterationCount + 1
    ensures o.Clustered? ==> 0 < |o.centroids| <= |keys| && Distinct(o.centroids) && Dims(o.centroids, d)
    decreases maxIterations - iterationCount
  {
    match Pass(points, keys, d)
    case EmptyCluster => Failed
    case Moved(centers, sqDeltas) =>
      var newKeys := Dedup(centers);
      assert centers[0] in newKeys;
      DedupDims(centers, d);
      if AllShiftsBelow(sqDeltas, EPSILON) || iterationCount == maxIterations then Clustered(newKeys, 1)
      else AddPasses(PyRun(points, newKeys, d, iterationCount + 1, maxIterations), 1)
  }

  /** The whole clustering: keys from the first `k` points, then the loop from an iteration count of 0. */
  ghost function PyCluster(points: seq<Point>, k: nat, d: nat, maxIterations: int): Outcome
    requires Dims(points, d) && 1 <= k <= |points| && maxIterations >= 0
  {
    var keys := InitialKeys(points, k);
    assert Dims(keys, d) by {
      forall i | 0 <= i < |keys|
        ensures |keys[i]| == d
      {
        assert keys[i] in points[..k];
      }
    }
    PyRun(points, keys, d, 0, maxIterations)
  }

  // ---------------------------------------------------------------------------
  // The loop of main, proved against the specification
  // ---------------------------------------------------------------------------

  /**
   * The search for a point's closest key: `min_d` starts at infinity (`None`
   * here) and a key replaces the best so far only when strictly closer, so
   * the first key at the smallest distance wins.
   */
  method ClosestCenter(point: Point, keys: seq<Point>) returns (closestCenter: Point)
    requires Dims(keys, |point|) && |keys| > 0
    ensures closestCenter == keys[Nearest(point, keys)]
  {
    var minD: Option<real> := None;
    closestCenter := [];
    for idx := 0 to |keys|
      invariant idx == 0 ==> minD.None?
      invariant idx > 0 ==> closestCenter == keys[NearestAmong(point, keys, idx)]
      invariant idx > 0 ==> minD == Some(SqDist(point, keys[NearestAmong(point, keys, idx)]))
    {
      var d := EuclideanDistanceSq(point, keys[idx]);
      if minD.None? || d < minD.value {
        minD := Some(d);
        closestCenter := keys[idx];
      }
    }
  }

  /** The clearing loop: every key's cluster becomes the empty set. */
  method ClearClusters(keys: seq<Point>, clusters: map<Point, set<Point>>) returns (cleared: map<Point, set<Point>>)
    requires forall x :: x in clusters <==> x in keys
    ensures forall x :: x in cleared <==> x in keys
    ensures forall c :: 0 <= c < |keys| ==> cleared[keys[c]] == {}
  {
    cleared := clusters;
    for idx := 0 to |keys|
      invariant forall x :: x in cleared <==> x in keys
      invariant forall c :: 0 <= c < idx ==> cleared[keys[c]] == {}
    {
      cleared := cleared[keys[idx] := {}];
    }
  }

  /** One turn of the assignment loop: point `j` joins the cluster of its closest key. */
  method AddToClosest(points: seq<Point>, keys: seq<Point>, clusters: map<Point, set<Point>>, ghost d: nat, j: nat)
    returns (next: map<Point, set<Point>>)
    requires Dims(points, d) && Dims(keys, d) && |keys| > 0 && Distinct(keys) && j < |points|
    requires forall x :: x in clusters <==> x in keys
    requires forall c :: 0 <= c < |keys| ==> clusters[keys[c]] == ClusterUpTo(points, keys, d, c, j)
    ensures forall x :: x in next <==> x in keys
    ensures forall c :: 0 <= c < |keys| ==> next[keys[c]] == ClusterUpTo(points, keys, d, c, j + 1)
  {
    var closestCenter := ClosestCenter(points[j], keys);
    ghost var n := Nearest(points[j], keys);
    next := clusters[closestCenter := clusters[closestCenter] + {points[j]}];
    forall c | 0 <= c < |keys|
      ensures next[keys[c]] == ClusterUpTo(points, keys, d, c, j + 1)
    {
      if c != n {
        assert keys[c] != keys[n];
      }
    }
  }

  /** The clearing and assignment loops: afterwards each key maps to its cluster in this pass. */
  method AssignClusters(points: seq<Point>, keys: seq<Point>, clusters: map<Point, set<Point>>, ghost d: nat)
    returns (newClusters: map<Point, set<Point>>)
    requires Dims(points, d) && Dims(keys, d) && |keys| > 0 && Distinct(keys)
    requires forall x :: x in clusters <==> x in keys
    ensures forall x :: x in newClusters <==> x in keys
    ensures forall c :: 0 <= c < |keys| ==> newClusters[keys[c]] == ClusterOf(points, keys, d, c)
  {
    newClusters := ClearClusters(keys, clusters);
    for j := 0 to |points|
      invariant forall x :: x in newClusters <==> x in keys
      invariant forall c :: 0 <= c < |keys| ==> newClusters[keys[c]] == ClusterUpTo(points, keys, d, c, j)
    {
      newClusters := AddToClosest(points, keys, newClusters, d, j);
    }
  }

  /** The first `n` entries of a pass: their clusters are non-empty, with these means and these squared moves. */
  ghost predicate PassPrefix(points: seq<Point>, keys: seq<Point>, d: nat, n: nat, centers: seq<Point>, sqDeltas: seq<real>)
    requires Dims(points, d) && Dims(keys, d) && |keys| > 0 && n <= |keys|
  {
    && |centers| == n && |sqDeltas| == n
    && (forall c :: 0 <= c < n ==> ClusterOf(points, keys, d, c) != {})
    && (forall c :: 0 <= c < n ==> centers[c] == Mean(ClusterOf(points, keys, d, c)))
    && (forall c :: 0 <= c < n ==> sqDeltas[c] == SqDist(keys[c], centers[c]))
  }

  /**
   * One turn of the delta loop: the mean of key `idx`'s cluster and the squared
   * distance it moved, or `false` when the cluster is empty and has no mean.
   */
  method AppendCenter(keys: seq<Point>, clusters: map<Point, set<Point>>, ghost points: seq<Point>, ghost d: nat,
                      idx: nat, delta: seq<real>, tempNewCenters: seq<Point>)
    returns (found: bool, newDelta: seq<real>, newCenters: seq<Point>)
    requires Dims(points, d) && Dims(keys, d) && idx < |keys|
    requires forall c :: 0 <= c < |keys| ==> keys[c] in clusters && clusters[keys[c]] == ClusterOf(points, keys, d, c)
    requires PassPrefix(points, keys, d, idx, tempNewCenters, delta)
    ensures !found ==> ClusterOf(points, keys, d, idx) == {}
    ensures found ==> PassPrefix(points, keys, d, idx + 1, newCenters, newDelta)
  {
    var newCenter := MeanPoint(clusters[keys[idx]]);
    if newCenter.None? {
      return false, delta, tempNewCenters;
    }
    var sqDelta := EuclideanDistanceSq(keys[idx], newCenter.value);
    found, newDelta, newCenters := true, delta + [sqDelta], tempNewCenters + [newCenter.value];
    forall c | 0 <= c <= idx
      ensures newCenters[c] == Mean(ClusterOf(points, keys, d, c))
      ensures newDelta[c] == SqDist(keys[c], newCenters[c])
    {
      if c < idx {
        assert newCenters[c] == tempNewCenters[c] && newDelta[c] == delta[c];
      }
    }
  }

  /**
   * The delta loop: the mean of each cluster in key order and its squared
   * distance from the old key. An empty cluster's mean is `None`, and taking
   * the distance to it raises, which is the error path.
   */
  method CentersAndDeltas(keys: seq<Point>, clusters: map<Point, set<Point>>, ghost points: seq<Point>, ghost d: nat)
    returns (result: PassResult)
    requires Dims(points, d) && Dims(keys, d) && |keys| > 0
    requires forall c :: 0 <= c < |keys| ==> keys[c] in clusters && clusters[keys[c]] == ClusterOf(points, keys, d, c)
    ensures result == Pass(points, keys, d)
  {
    var delta: seq<real> := [];
    var tempNewCenters: seq<Point> := [];
    for idx := 0 to |keys|
      invariant PassPrefix(points, keys, d, idx, tempNewCenters, delta)
    {
      var found;
      found, delta, tempNewCenters := AppendCenter(keys, clusters, points, d, idx, delta, tempNewCenters);
      if !found {
        assert HasEmptyCluster(points, keys, d);
        return EmptyCluster;
      }
    }
    assert !HasEmptyCluster(points, keys, d);
    assert tempNewCenters == Centers(points, keys, d);
    assert delta == SqDeltas(keys, tempNewCenters);
    return Moved(tempNewCenters, delta);
  }

  /** The body of the `while True` loop up to the stop test: the pass, and the dict rebuilt from its new centers. */
  method OnePass(points: seq<Point>, keys: seq<Point>, clusters: map<Point, set<Point>>, ghost d: nat)
    returns (pass: PassResult, newKeys: seq<Point>, newDict: map<Point, set<Point>>)
    requires Dims(points, d) && Dims(keys, d) && |keys| > 0 && Distinct(keys)
    requires forall x :: x in clusters <==> x in keys
    ensures pass == Pass(points, keys, d)
    ensures pass.Moved? ==> newKeys == Dedup(pass.newCenters) && forall x :: x in newDict <==> x in newKeys
  {
    var regrouped := AssignClusters(points, keys, clusters, d);
    pass := CentersAndDeltas(keys, regrouped, points, d);
    if pass.EmptyCluster? {
      return pass, [], map[];
    }
    newKeys, newDict := RebuildDict(keys, regrouped, pass.newCenters);
  }

  /** The dict comprehension that starts main's algorithm: the first `k` points as keys, each with an empty cluster. */
  method InitialDict(points: seq<Point>, k: int, ghost d: nat) returns (keys: seq<Point>, clusters: map<Point, set<Point>>)
    requires Dims(points, d) && 1 <= k <= |points|
    ensures keys == InitialKeys(points, k) && Dims(keys, d) && |keys| > 0 && Distinct(keys)
    ensures forall x :: x in clusters <==> x in keys
    ensures forall x :: x in clusters ==> clusters[x] == {}
  {
    keys := InitialKeys(points, k);
    clusters := map x | x in keys :: {};
    forall i | 0 <= i < |keys|
      ensures |keys[i]| == d
    {
      assert keys[i] in points[..k];
    }
  }

  /** The three ways one turn of the run goes: it fails on an empty cluster, stops, or continues from the deduplicated centers. */
  lemma PyRunUnfolds(points: seq<Point>, keys: seq<Point>, d: nat, iterationCount: int, maxIterations: int)
    requires Dims(points, d) && Dims(keys, d) && |keys| > 0
    requires 0 <= iterationCount <= maxIterations
    ensures Pass(points, keys, d).EmptyCluster? ==> PyRun(points, keys, d, iterationCount, maxIterations) == Failed
    ensures Pass(points, keys, d).Moved? && (AllShiftsBelow(Pass(points, keys, d).sqDeltas, EPSILON) || iterationCount == maxIterations)
        ==> PyRun(points, keys, d, iterationCount, maxIterations) == Clustered(Dedup(Pass(points, keys, d).newCenters), 1)
    ensures Pass(points, keys, d).Moved? ==> Dims(Dedup(Pass(points, keys, d).newCenters), d) && |Dedup(Pass(points, keys, d).newCenters)| > 0
    ensures Pass(points, keys, d).Moved? && !AllShiftsBelow(Pass(points, keys, d).sqDeltas, EPSILON) && iterationCount < maxIterations
        ==> PyRun(points, keys, d, iterationCount, maxIterations) == AddPasses(PyRun(points, Dedup(Pass(points, keys, d).newCenters), d, iterationCount + 1, maxIterations), 1)
  {
    if Pass(points, keys, d).Moved? {
      var centers := Pass(points, keys, d).newCenters;
      assert centers[0] in Dedup(centers);
      DedupDims(centers, d);
    }
  }

  /**
   * One turn of the `while True` loop with the iteration count at
   * `iterationCount`: either the loop ends with `outcome`, or it goes on
   * from the rebuilt dict with the same overall result.
   */
  method Turn(points: seq<Point>, keys: seq<Point>, clusters: map<Point, set<Point>>, ghost d: nat, iterationCount: int, maxIterations: int)
    returns (done: bool, outcome: Outcome, newKeys: seq<Point>, newDict: map<Point, set<Point>>)
    requires Dims(points, d) && Dims(keys, d) && |keys| > 0 && Distinct(keys)
    requires forall x :: x in clusters <==> x in keys
    requires 0 <= iterationCount <= maxIterations
    ensures done ==> outcome == AddPasses(PyRun(points, keys, d, iterationCount, maxIterations), iterationCount)
    ensures !done ==> iterationCount < maxIterations && Dims(newKeys, d) && |newKeys| > 0 && Distinct(newKeys)
    ensures !done ==> forall x :: x in newDict <==> x in newKeys
    ensures !done ==> AddPasses(PyRun(points, keys, d, iterationCount, maxIterations), iterationCount) == AddPasses(PyRun(points, newKeys, d, iterationCount + 1, maxIterations), iterationCount + 1)
  {
    var pass;
    pass, newKeys, newDict := OnePass(points, keys, clusters, d);
    PyRunUnfolds(points, keys, d, iterationCount, maxIterations);
    if pass.EmptyCluster? {
      return true, Failed, newKeys, newDict;
    }
    if AllShiftsBelow(pass.sqDeltas, EPSILON) || iterationCount == maxIterations {
      return true, Clustered(newKeys, iterationCount + 1), newKeys, newDict;
    }
    done, outcome := false, Failed;
  }

  /**
   * The algorithm of main: the centroid dict from the first `k` points, then
   * passes of assignment, means and the rebuilt dict, leaving the loop when
   * every delta is below `EPSILON` or the iteration count has reached
   * `maxIterations`. The argument checks of main guarantee `1 < k < N` and a
   * non-negative budget.
   */
  method KMeans(points: seq<Point>, k: int, maxIterations: int, ghost d: nat) returns (outcome: Outcome)
    requires Dims(points, d) && 1 <= k <= |points| && maxIterations >= 0
    ensures outcome == PyCluster(points, k, d, maxIterations)
  {
    var keys, clusters := InitialDict(points, k, d);
    var iterationCount := 0;
    while true
      invariant 0 <= iterationCount <= maxIterations
      invariant Dims(keys, d) && |keys| > 0 && Distinct(keys)
      invariant forall x :: x in clusters <==> x in keys
      invariant PyCluster(points, k, d, maxIterations) == AddPasses(PyRun(points, keys, d, iterationCount, maxIterations), iterationCount)
      decreases maxIterations - iterationCount
    {
      var done;
      done, outcome, keys, clusters := Turn(points, keys, clusters, d, iterationCount, maxIterations);
      if done {
        return;
      }
      iterationCount := iterationCount + 1;
    }
  }
}

/**
 * Where the two implementations meet: under the same centroids, a C
 * centroid's assigned points, collected into a set, are the Python cluster of
 * the same key, and when no point of that cluster repeats, the two programs
 * recompute the same centroid.
 */
module Agreement {
  import opened Vectors
  import C = KMeansC
  import Py = KMeansPy

  /** The points C assigns to centroid `r`, as a set, are the points Python puts in the cluster of key `r`. */
  lemma MembersAreCluster(points: seq<Point>, cs: seq<Point>, d: nat, r: int)
    requires Dims(points, d) && Dims(cs, d) && |cs| > 0
    ensures (set x | x in C.Members(points, C.AssignAll(points, cs, d), r, |points|)) == Py.ClusterOf(points, cs, d, r)
  {
    var asg := C.AssignAll(points, cs, d);
    var ms := C.Members(points, asg, r, |points|);
    forall x
      ensures x in ms <==> x in Py.ClusterOf(points, cs, d, r)
    {
      C.MembersAreAssigned(points, asg, r, |points|, x);
      Py.ClusterUpToMembers(points, cs, d, r, |points|, x);
    }
  }

  /** A non-empty cluster without repeated points is recomputed by C as the mean Python's `mean_point` gives its set. */
  lemma SameCentroid(points: seq<Point>, cs: seq<Point>, d: nat, r: int)
    requires Dims(points, d) && Dims(cs, d) && |cs| > 0
    requires Py.ClusterOf(points, cs, d, r) != {}
    requires Py.Distinct(C.Members(points, C.AssignAll(points, cs, d), r, |points|))
    ensures Py.SameLength(Py.ClusterOf(points, cs, d, r))
    ensures C.Centroid(points, C.AssignAll(points, cs, d), r, d) == Py.Mean(Py.ClusterOf(points, cs, d, r))
  {
    var asg := C.AssignAll(points, cs, d);
    var ms := C.Members(points, asg, r, |points|);
    MembersAreCluster(points, cs, d, r);
    C.CentroidIsMean(points, asg, r, d);
    assert ms != [] by {
      var x :| x in Py.ClusterOf(points, cs, d, r);
      assert x in (set y | y in ms);
    }
    Py.MeanOfList(Py.ClusterOf(points, cs, d, r), ms, d);
  }
}

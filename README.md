# k-means clustering, modelled in Dafny

The repository contains two implementations of Lloyd's k-means algorithm: a C
program (`kmeans.c`) and a Python script (`kmeans.py`). Both read points,
seed K centroids from the first K points, and then repeat the same pass:
assign every point to its nearest centroid, recompute each centroid as the
mean of its points, and measure how far the centroids moved. The loop stops
when the movement is below epsilon (0.001) or the iteration budget runs out.

The two programs differ where the model shows it:

- In C, a centroid with no points becomes the zero vector.
- In Python, centroids are dictionary keys and clusters are sets. Equal seeds
  and equal points therefore collapse, an empty cluster ends the run in the
  error path, and the loop may make `max_iterations + 1` passes.

The project has six modules:

- `Wrappers` (`wrappers.dfy`): an `Option` type.
- `Vectors` (`vectors.dfy`): real-valued points, the squared Euclidean
  distance, and the first-strict-minimum choice of a nearest centroid. It also
  holds the facts about square roots that let every distance comparison be
  made on squared distances.
- `KMeansList` (`kmeans_list.dfy`): the C linked list of points and its
  `add_node` append, as a `Node` class with a ghost sequence of its nodes.
- `KMeansC` (`kmeans_c.dfy`):
  - a specification of one C run on values (`Seed`, `AssignAll`, `Update`,
    `Step`, `MaxSqShift`, `Run`), with lemmas about it;
  - the imperative C code proved against that specification. Centroids are a
    K x dims `array2<real>`, `old_centroids` is a second one, and
    `assignments` and the counts are arrays;
  - the argument checks of `main`.
- `KMeansPy` (`kmeans_py.dfy`):
  - the helpers `euclidean_distance`, `mean_point` and
    `all_less_than_epsilon`;
  - a specification of the script's loop on values (`Pass`, `PyRun`,
    `PyCluster`);
  - the loop itself as methods over a dictionary. A dictionary is a key-order
    sequence plus a map; clusters are sets.
- `Agreement` (`agreement.dfy`): the two recomputations compared. Under the
  same centroids, C's recomputed centroid and Python's `mean_point` agree on
  a cluster with no repeated point.

Coordinates are Dafny `real`s, and every distance is the sum of squared
coordinate differences. `sqrt` is monotone, so `d1 < d2` holds exactly when
`d1^2 < d2^2` (`Vectors.SqrtOrder`). For the same reason, `shift < epsilon`
holds exactly when `epsilon > 0 && shift^2 < epsilon^2`, which is
`Vectors.ShiftBelow` (`Vectors.SqrtBelow`).

A C centroid that receives no points does not keep its previous
coordinates. `kmeans.c` zeroes every centroid at lines 146-150 and never
divides one whose count is 0 at lines 163-169, so it ends as the zero vector.

## Model

| member | source | states |
|---|---|---|
| Vectors.SqDistUpTo | kmeans.c:113-116 | the sum of squared coordinate differences over the first `n` coordinates is never negative |
| Vectors.SqDistNonNegative | kmeans.c:110-118 | the squared distance between two points is never negative |
| Vectors.SqDistOfEqual | kmeans.c:110-118 | a point is at distance zero from itself |
| Vectors.SqDistZeroIffEqual | kmeans.c:110-118 | two points of equal dimension are at distance zero exactly when they are equal |
| Vectors.SqDistSymmetric | kmeans.c:113-116 | the distance from p to q equals the distance from q to p |
| Vectors.NearestAmong | kmeans.c:121-130 | after scanning the first n centroids, the kept index is below n, no scanned centroid is closer, and every earlier one is strictly farther |
| Vectors.Nearest | kmeans.c:120-132 | the chosen index is the first strict minimum over all centroids (in range, no centroid closer, every earlier one strictly farther), and it is the only index with that property |
| Vectors.SqrtOrder | kmeans.c:126 | comparing two square roots gives the same answer as comparing their squares, so `dist < min_distance` is decided on squared distances |
| Vectors.SqrtBelow | kmeans.c:246 | `sqrt(s) < eps` holds exactly when `ShiftBelow(s, eps)` does, for every real eps |
| KMeansList.Node.constructor | kmeans.c:67-71 | a new node holds the given coordinates and dimension count, and its `next` is null |
| KMeansList.AddNode | kmeans.c:50-84 | the list becomes the old list followed by one fresh node that holds a copy of `coordinates[0..dimensions)`; the head is unchanged when the list was non-empty; the new tail is the new node; the points the list holds gain exactly that point at the end |
| KMeansC.AssignAllInRange | kmeans.c:223-227 | every point's assignment is a centroid index in `[0, K)` |
| KMeansC.Update | kmeans.c:134-172 | recomputing yields exactly K centroids, each with `dims` coordinates |
| KMeansC.UpdateAt | kmeans.c:163-169 | entry r of the recomputed centroids is centroid r recomputed on its own |
| KMeansC.Step | kmeans.c:223-229 | a pass keeps the number of centroids and their dimension |
| KMeansC.MaxSqShift | kmeans.c:232-243 | the largest shift computed from 0 upward is never negative |
| KMeansC.MaxSqShiftIsMaximum | kmeans.c:232-243 | the largest shift bounds every centroid's shift, and with at least one centroid it equals one of them |
| KMeansC.Run | kmeans.c:215-249 | the loop leaves K centroids of dimension dims, performs at most `max(max_iterations, 0)` passes, and at least one when the budget is positive |
| KMeansC.CountsSumToPoints | kmeans.c:153-160 | when every assignment is in `[0, K)`, the K counts add up to the number of points |
| KMeansC.CountIsSize | kmeans.c:153-155 | the count of centroid r is the number of points j with `assignments[j] == r` |
| KMeansC.MembersAreAssigned | kmeans.c:153-158 | a point is among the points of centroid r exactly when some point whose assignment is r equals it |
| KMeansC.MembersCount | kmeans.c:153-155 | the count of centroid r is the length of the list of points assigned to it |
| KMeansC.MembersSum | kmeans.c:156-158 | each coordinate sum of centroid r is that coordinate summed over the list of points assigned to it |
| KMeansC.CentroidIsMean | kmeans.c:146-169 | a recomputed centroid is the coordinate-wise mean (`ListMean`) of the list of points assigned to it when that list is non-empty, and the zero vector when it is empty; the list is empty exactly when the count is 0 |
| KMeansC.MeanOfIdentical | kmeans.c:153-169 | a centroid all of whose points equal v is recomputed as v |
| KMeansC.EmptyCentroidIsZero | kmeans.c:146-169 | a centroid that no point is assigned to is recomputed as the zero vector, whatever it was before |
| KMeansC.FixedPointStopsLoop | kmeans.c:232-248 | with a positive epsilon, if a pass leaves the centroids where they were, the loop ends after that one pass with those centroids |
| KMeansC.RunEndsAfterItsPasses | kmeans.c:215-249 | the centroids the loop leaves are exactly those after as many full passes as it reports |
| KMeansC.RunContinuesOnlyOnLargeShift | kmeans.c:245-248 | every pass before the last one had a largest shift not below epsilon |
| KMeansC.RunStopsEarlyOnlyOnSmallShift | kmeans.c:215-248 | a loop that performs fewer passes than its budget stopped after a pass whose largest shift was below epsilon |
| KMeansC.Distance | kmeans.c:110-118 | the loop's sum equals the squared distance between the point and centroid i |
| KMeansC.NearestCentroid | kmeans.c:120-132 | the result is the first strict minimum of the distances to the K centroids (`IsFirstNearest`), which is `Nearest` |
| KMeansC.SeedCentroids | kmeans.c:189-204 | a fresh K x dims matrix whose row i is the coordinates of point `min(i, N-1)`: once the list is exhausted, the scan stays on its last node |
| KMeansC.SnapshotCentroids | kmeans.c:217-221 | `old_centroids` becomes a copy of the centroids, and the centroids are unchanged |
| KMeansC.AssignPoints | kmeans.c:223-227 | every slot of `assignments` holds the nearest centroid of the corresponding list point, with the centroids unchanged |
| KMeansC.ResetCentroids | kmeans.c:145-150 | every centroid coordinate becomes 0.0 |
| KMeansC.AddToCentroid | kmeans.c:156-158 | the point's coordinates are added to row `index`, and no other row changes |
| KMeansC.AccumulatePoints | kmeans.c:152-160 | from zeroed centroids and counts: each count is the number of points assigned to it, and each coordinate is the sum of that coordinate over its points |
| KMeansC.DivideByCounts | kmeans.c:162-169 | a row with a positive count is divided by it; a row with count 0 is left as it was |
| KMeansC.CalculateCentroids | kmeans.c:134-172 | the new centroid matrix is `Update` of the points and the assignments: each centroid is the mean of its points, or zero when it has none. `dimensions` and K are unchanged, and `old_centroids` is not read |
| KMeansC.CentroidShift | kmeans.c:234-239 | the inner loop yields the squared distance between old and new centroid i |
| KMeansC.MaxShift | kmeans.c:232-243 | the computed maximum is `MaxSqShift` of the old and the new centroids |
| KMeansC.Pass | kmeans.c:216-243 | the centroids become `Step` of the old centroids (snapshot, assign every point, recompute), and the returned shift is the largest squared shift between snapshot and result |
| KMeansC.Iterations | kmeans.c:215-249 | the final centroids and the number of passes are exactly `Run` from the entry centroids with budget `max_iterations` and the given epsilon, `break` included |
| KMeansC.KMeans | kmeans.c:174-249 | the printed centroids and the passes performed are `Cluster`: seeding from the list followed by `Run` |
| KMeansC.ValidateArguments | kmeans.c:279-317 | outside one or two arguments the only message is the error message; the iteration budget is `argv[2]` or 200; "Invalid maximum iteration!" appears exactly when a given budget is incomplete or outside `(1, 1000)`; "Invalid number of clusters!" appears exactly when K is incomplete or outside `(1, N)` |
| KMeansC.ValidationAcceptsExactlyValidParameters | kmeans.c:289-317 | with N within `int`, main prints nothing and goes on to cluster exactly when there are one or two complete arguments with `1 < K < N` and `1 < max_iterations < 1000` |
| KMeansPy.SumOfSquaredDifferences | kmeans.py:10 | `sum` of the list of squared differences equals the squared distance |
| KMeansPy.EuclideanDistanceSq | kmeans.py:5-11 | for points of equal length (the assertion), the value before `sqrt` is the squared distance and is never negative |
| KMeansPy.AllLessThanEpsilon | kmeans.py:31-32 | true exactly when every element is below epsilon, so true for an empty list |
| KMeansPy.AllLessThanEpsilonOnSquares | kmeans.py:106 | when each delta is the square root of its squared delta, the stop test has the same answer on the squares |
| KMeansPy.ColumnTotalRemove | kmeans.py:24-26 | any point of a set may be added into a coordinate total first, so the set's iteration order does not matter |
| KMeansPy.Mean | kmeans.py:22-28 | the mean of a non-empty set has the dimension of each of its points |
| KMeansPy.MeanPoint | kmeans.py:14-28 | `None` exactly for an empty set; otherwise the coordinate-wise totals over the set divided by its size, whatever order the set yields its points in |
| KMeansPy.MeanOfSingleton | kmeans.py:14-28 | the mean of one point is that point |
| KMeansPy.ColumnTotalOfList | kmeans.py:24-26 | summing a coordinate over a set gives the same total as summing it over any list that holds each of the set's points once |
| KMeansPy.MeanOfList | kmeans.py:14-28 | the mean of a set is the coordinate-wise mean (`ListMean`) of any list that holds each of its points once |
| KMeansPy.Dedup | kmeans.py:72 | dictionary keys filled from a sequence have no repetitions, are no more numerous than the sequence, and hold exactly its values |
| KMeansPy.DedupSize | kmeans.py:72 | there are as many keys as distinct values |
| KMeansPy.InitialKeys | kmeans.py:72 | the initial keys are non-empty, are exactly the values among the first K points, and number as many as the distinct ones among them |
| KMeansPy.DuplicateSeedsCollapse | kmeans.py:72 | seeding K = 2 from the points 1, 1, 2 yields a single centroid |
| KMeansPy.Inserted | kmeans.py:99-103 | after inserting every new center, the dict's keys are exactly the new centers |
| KMeansPy.RebuildDict | kmeans.py:99-104 | the new dict's key order is the distinct new centers in order of first occurrence, and its map is the insertion of each old cluster under its new center, a later one replacing an earlier one under an equal key |
| KMeansPy.ClusterUpToMembers | kmeans.py:83-91 | after the first n points, a cluster holds exactly the points among them whose first nearest key is that cluster's key |
| KMeansPy.PointInItsCluster | kmeans.py:83-91 | a point lies in a key's cluster exactly when that key is its first nearest key |
| KMeansPy.Pass | kmeans.py:93-97 | a pass that moves the keys gives one new center and one squared delta per old key, in old key order, each of dimension d |
| KMeansPy.DuplicatePointsCountOnce | kmeans.py:91 | one key over the points 0, 0, 3 moves to 1.5, not 1: a repeated point counts once in its cluster's mean |
| KMeansPy.PyRun | kmeans.py:77-109 | a run that completes makes between 1 and `max_iterations - iteration_count + 1` passes, and leaves a non-empty list of distinct centroids, no more than the keys it started from, each of dimension d |
| KMeansPy.ClosestCenter | kmeans.py:84-90 | the strict-`<` scan from infinity returns the first key at the smallest distance, `keys[Nearest]` |
| KMeansPy.ClearClusters | kmeans.py:79-80 | every key's cluster becomes empty, and the keys stay the same |
| KMeansPy.AddToClosest | kmeans.py:84-91 | adding point j to its closest key turns every cluster over the first j points into the cluster over the first j + 1 points |
| KMeansPy.AssignClusters | kmeans.py:79-91 | the keys stay the same, and each key maps to its cluster: the points whose first nearest key it is |
| KMeansPy.AppendCenter | kmeans.py:95-97 | one turn of the delta loop either finds the key's cluster empty or extends the centers and deltas by that cluster's mean and its squared move |
| KMeansPy.CentersAndDeltas | kmeans.py:93-97 | the delta loop's outcome is `Pass`: the error path exactly when some cluster is empty, otherwise every mean and squared delta in key order |
| KMeansPy.OnePass | kmeans.py:79-104 | a loop body's pass is `Pass` of the current keys, and the rebuilt dict's keys are the distinct new centers |
| KMeansPy.InitialDict | kmeans.py:72 | the dict comprehension yields `InitialKeys` as its keys, distinct and of dimension d, each with an empty cluster |
| KMeansPy.Turn | kmeans.py:79-109 | one turn either ends the loop with the outcome `PyRun` gives from this iteration count, or continues with one more iteration and the same overall outcome |
| KMeansPy.KMeans | kmeans.py:72-109 | the outcome of the algorithm in main is `PyCluster`: the keys it seeds and then `PyRun` from iteration count 0 |
| Agreement.MembersAreCluster | kmeans.py:84-91 | under the same centroids, the points C assigns to centroid r, collected into a set, are the Python cluster of key r |
| Agreement.SameCentroid | kmeans.py:14-28 | under the same centroids, a non-empty cluster with no repeated point gets the same new centroid from C's `calculate_centroids` and Python's `mean_point` |

## Left out

- Input and output are not modelled: `read_data` with `scanf`, Python's `open`/`readlines`/`split`, and all printing with its `%.4f` / `{:.4f}` formatting. The C `KMeans` returns the centroid matrix it would print, and the Python `KMeans` returns an `Outcome` whose `Failed` case stands for the error path: no centroids are printed, one error line is, and the exit status is 1.
- Floating point is not modelled. Coordinates are exact reals, `sqrt` is replaced by squared distances, and accumulation order affects no result. `Vectors.SqrtOrder` and `Vectors.SqrtBelow` justify the comparisons.
- Memory management is not modelled: `malloc`, `calloc`, `free`, `free_all_memory` and the `exit(1)` paths on allocation failure. Allocation always succeeds in the model.
- Argument tokenizing is reduced to its result. `strtol` with its `end` check becomes an `Argument` holding a value and whether the whole text was consumed, and the arguments are the list `argv[1..]`, so `argc` is one more than its length. Python's `isdigit` and range checks (kmeans.py:38-68) are not modelled, because they only guard the loop; Python `KMeans` assumes `1 <= K <= N` and `max_iterations >= 0`, which those checks guarantee.
- Python input whose points differ in length is not modelled. `KMeansPy.KMeans` requires every point to have dimension `d`, and `EuclideanDistanceSq` requires equal lengths. In the script such input fails the assertion at kmeans.py:9. The `AssertionError` reaches `except Exception` (kmeans.py:126-129), which prints "An Error Has Occurred" with the message and exits with status 1.
- The 100-slot `coordinates` buffer of `read_data` and its overrun on longer records are not modelled. The list is required to hold points of one dimension, and `AddNode` copies from an array of any sufficient length.
- In the model, a node's coordinates are an immutable sequence fixed when the node is made. The C code writes them once, in `add_node`, and never again, so aliasing between a node's buffer and the centroids is not modelled.
- `old_centroids` is a K x dims matrix, not the flat `K*dims` buffer with index `i * dims + j`. `CalculateCentroids` does not take it, because `calculate_centroids` reads it only to free it on the failure path.
- C `int` overflow of `counts[i]`, `num_points` and `iteration` is not modelled. These values never exceed the number of points or `max_iterations`, and both are below `INT_MAX` once `main` has accepted its arguments.
- The global `K` is an explicit parameter or the matrix's first dimension.
- Python's set and dict iteration order: `MeanPoint` takes the points of a set in an arbitrary order, which the result does not depend on (`ColumnTotalRemove`). Dictionary order is the insertion order of its keys.
- The Python `try`/`except` plumbing is not modelled. An empty cluster makes `mean_point` return `None`, and `euclidean_distance` then raises a `TypeError` at `len(point2)`. `except Exception` catches it, prints "An Error Has Occurred" with the exception text, and exits with status 1. No centroid is printed on that path, and the model records it as `Failed`.
- KMeansC.MaxSqShift: its own contract states only non-negativity; that it is the maximum is the separate lemma `MaxSqShiftIsMaximum`.

/**
 The per-step spatial index over boid positions. The tree library itself is
 not part of this model: only its radius-query contract is, realised as a
 linear scan over the snapshot the index was built from. Index `i` of a query
 result always denotes `points[i]`.
 */
module SpatialIndex {
  import opened Vectors

  /** An index over a fixed snapshot of points; it never changes after it is built. */
  datatype KdIndex = KdIndex(points: seq<Vec>)

  function Build(points: seq<Vec>): KdIndex
  {
    KdIndex(points)
  }

  /** The query's distance predicate: inclusive of the boundary, compared on squares. */
  predicate InRadius(p: Vec, center: Vec, r: real)
  {
    DistSquared(p, center) <= Square(r)
  }

  predicate StrictlyIncreasing(s: seq<nat>)
  {
    forall i, j :: 0 <= i < j < |s| ==> s[i] < s[j]
  }

  /** The indices below `n` whose point lies within `r` of `center`, in increasing order. */
  function ScanPrefix(points: seq<Vec>, center: Vec, r: real, n: nat): (found: seq<nat>)
    requires n <= |points|
    ensures forall k :: 0 <= k < |found| ==> found[k] < n && InRadius(points[found[k]], center, r)
    ensures forall i :: 0 <= i < n && InRadius(points[i], center, r) ==> i in found
    ensures StrictlyIncreasing(found)
    decreases n
  {
    if n == 0 then
      []
    else
      var prefix := ScanPrefix(points, center, r, n - 1);
      if InRadius(points[n - 1], center, r) then prefix + [n - 1] else prefix
  }

  /**
   The radius query: every index it returns is a point within `r` of
   `center`, every such point is returned, and no index is returned twice.
   */
  function Within(index: KdIndex, center: Vec, r: real): (found: seq<nat>)
    ensures forall k :: 0 <= k < |found| ==> found[k] < |index.points| && InRadius(index.points[found[k]], center, r)
    ensures forall i :: 0 <= i < |index.points| && InRadius(index.points[i], center, r) ==> i in found
    ensures StrictlyIncreasing(found)
    ensures |found| <= |index.points|
  {
    var found := ScanPrefix(index.points, center, r, |index.points|);
    StrictlyIncreasingBounded(found, |index.points|);
    found
  }

  /** A point queried at its own location is among its own results, whatever the radius. */
  lemma WithinFindsSelf(points: seq<Vec>, i: nat, r: real)
    requires i < |points|
    ensures i in Within(Build(points), points[i], r)
  {
    DistSquaredSymmetric(points[i], points[i]);
    SquareFacts(r);
  }

  /** A strictly increasing sequence is no longer than its bound and holds each value once. */
  lemma {:induction false} StrictlyIncreasingBounded(s: seq<nat>, n: nat)
    requires StrictlyIncreasing(s)
    requires forall k :: 0 <= k < |s| ==> s[k] < n
    ensures |s| <= n
    decreases n
  {
    if |s| > 0 {
      var init := s[..|s| - 1];
      assert forall k :: 0 <= k < |init| ==> init[k] < s[|s| - 1] <= n - 1;
      StrictlyIncreasingBounded(init, s[|s| - 1]);
    }
  }
}

/**
 One step of the flocking simulation: for every boid, the neighbors found by a
 radius query against a spatial index built from the same boid sequence are
 folded into a cohesion vector (their centroid), a separation vector (the sum
 of their offsets from the boid) and an alignment vector (their mean speed).

 A boid's identity is its position in the boid sequence, so the evaluated boid
 is excluded by index and a distinct boid at the same coordinates is kept.
 */
module Boids {
  import opened Vectors
  import opened SpatialIndex

  datatype Boid = Boid(position: Vec, speed: Vec)

  /** A neighbor together with the weight of its contribution. */
  datatype Pair = Pair(b: Boid, w: real)

  datatype NeighborWeightMap = NeighborWeightMap(weightSum: real, pairs: seq<Pair>)

  /**
   The steering influence on one boid. A boid without neighbors has no
   centroid and no mean speed, so it gets `NoNeighbors` rather than vectors
   obtained by dividing by a zero weight.
   */
  datatype Delta =
    | NoNeighbors
    | Steering(cohesion: Vec, separation: Vec, alignment: Vec, neighborCount: nat)

  function Positions(boids: seq<Boid>): seq<Vec>
  {
    seq(|boids|, i requires 0 <= i < |boids| => boids[i].position)
  }

  /** The index of one step, built from the positions of exactly the boids the step reads. */
  function GenKDTree(boids: seq<Boid>): KdIndex
  {
    Build(Positions(boids))
  }

  /** Every index in `ids` denotes one of `n` boids. */
  predicate ValidIds(ids: seq<nat>, n: nat)
  {
    forall k :: 0 <= k < |ids| ==> ids[k] < n
  }

  /** The neighbors of boid `self`: every other boid within `r` of it. */
  function NeighborSet(boids: seq<Boid>, self: nat, r: real): set<nat>
    requires self < |boids|
  {
    set j: nat | j < |boids| && j != self && InRadius(boids[j].position, boids[self].position, r)
  }

  /** The query results with the evaluated boid's own index dropped, order kept. */
  function Without(found: seq<nat>, self: nat): (ids: seq<nat>)
    ensures forall j :: j in ids <==> j in found && j != self
    ensures |ids| <= |found|
    ensures StrictlyIncreasing(found) ==> StrictlyIncreasing(ids)
    ensures StrictlyIncreasing(found) && self in found ==> |ids| == |found| - 1
    ensures self !in found ==> ids == found
    decreases |found|
  {
    if |found| == 0 then
      []
    else
      var init := found[..|found| - 1];
      var idx := found[|found| - 1];
      assert found == init + [idx];
      var rest := Without(init, self);
      assert StrictlyIncreasing(found) ==> forall k :: 0 <= k < |rest| ==> rest[k] < idx by {
        if StrictlyIncreasing(found) {
          forall k | 0 <= k < |rest|
            ensures rest[k] < idx
          {
            assert rest[k] in rest;
            var i :| 0 <= i < |init| && init[i] == rest[k];
          }
        }
      }
      if idx != self then rest + [idx] else rest
  }

  /**
   The neighbor loop over the query results: each result other than the
   evaluated boid becomes a pair of weight 1 and adds 1 to the weight sum.
   The neighbor is looked up by the index the query returned; boids.js:107
   looks it up by the loop counter instead (see LookupFinding).
   */
  function Accumulate(boids: seq<Boid>, found: seq<nat>, self: nat): (m: NeighborWeightMap)
    requires ValidIds(found, |boids|)
    ensures ValidIds(Without(found, self), |boids|)
    ensures m.weightSum == |m.pairs| as real
    ensures |m.pairs| == |Without(found, self)|
    ensures forall k :: 0 <= k < |m.pairs| ==> m.pairs[k] == Pair(boids[Without(found, self)[k]], 1.0)
    decreases |found|
  {
    WithoutValid(found, self, |boids|);
    if |found| == 0 then
      NeighborWeightMap(0.0, [])
    else
      var m := Accumulate(boids, found[..|found| - 1], self);
      var idx := found[|found| - 1];
      if idx != self then
        NeighborWeightMap(m.weightSum + 1.0, m.pairs + [Pair(boids[idx], 1.0)])
      else
        m
  }

  /** The neighbors of boid `self` in the order the step visits them. */
  function Neighbors(boids: seq<Boid>, self: nat, r: real): (ids: seq<nat>)
    requires self < |boids|
    ensures self !in ids
    ensures forall j :: j in ids <==> j in NeighborSet(boids, self, r)
    ensures ValidIds(ids, |boids|)
    ensures StrictlyIncreasing(ids)
    ensures |ids| == |NeighborSet(boids, self, r)|
    ensures |ids| + 1 == |Within(GenKDTree(boids), boids[self].position, r)|
  {
    var found := Within(GenKDTree(boids), boids[self].position, r);
    WithinFindsSelf(Positions(boids), self, r);
    KeptAreNeighbors(boids, self, r);
    DistinctCard(Without(found, self), NeighborSet(boids, self, r));
    Without(found, self)
  }

  /**
   The neighbor weight map of boid `self`: one pair of weight 1 per
   neighbor, each neighbor within `maxRadius` and none of them the boid
   itself, and a weight sum equal to the number of pairs. The query result
   holds exactly one more index than there are pairs: the boid's own.
   */
  function CalcNeighborWeightMap(maxRadius: real, boids: seq<Boid>, index: KdIndex, self: nat): (m: NeighborWeightMap)
    requires index == GenKDTree(boids)
    requires self < |boids|
    ensures m.weightSum == |m.pairs| as real
    ensures forall k :: 0 <= k < |m.pairs| ==> m.pairs[k].w == 1.0
    ensures |m.pairs| + 1 == |Within(index, boids[self].position, maxRadius)|
    ensures |m.pairs| == |NeighborSet(boids, self, maxRadius)|
    ensures forall k :: 0 <= k < |m.pairs| ==> m.pairs[k].b == boids[Neighbors(boids, self, maxRadius)[k]]
  {
    var found := Within(index, boids[self].position, maxRadius);
    assert Neighbors(boids, self, maxRadius) == Without(found, self);
    Accumulate(boids, found, self)
  }

  /** Sum of a sequence of vectors, accumulated left to right. */
  function VecSum(vs: seq<Vec>): Vec
    decreases |vs|
  {
    if |vs| == 0 then Zero else Add(VecSum(vs[..|vs| - 1]), vs[|vs| - 1])
  }

  /** The centroid of a non-empty sequence of vectors. */
  function Mean(vs: seq<Vec>): Vec
    requires |vs| > 0
  {
    DivScalar(VecSum(vs), |vs| as real)
  }

  function PositionsAt(boids: seq<Boid>, ids: seq<nat>): seq<Vec>
    requires ValidIds(ids, |boids|)
  {
    seq(|ids|, k requires 0 <= k < |ids| => boids[ids[k]].position)
  }

  function SpeedsAt(boids: seq<Boid>, ids: seq<nat>): seq<Vec>
    requires ValidIds(ids, |boids|)
  {
    seq(|ids|, k requires 0 <= k < |ids| => boids[ids[k]].speed)
  }

  /** The weighted position sum of the cohesion loop. */
  function PositionSum(pairs: seq<Pair>): Vec
    decreases |pairs|
  {
    if |pairs| == 0 then Zero
    else
      var last := pairs[|pairs| - 1];
      Add(PositionSum(pairs[..|pairs| - 1]), MulScalar(last.b.position, last.w))
  }

  /** The separation loop: offsets from `boid` to each neighbor, deliberately not weighted. */
  function SeparationSum(pairs: seq<Pair>, boid: Boid): Vec
    decreases |pairs|
  {
    if |pairs| == 0 then Zero
    else Add(SeparationSum(pairs[..|pairs| - 1], boid), Sub(pairs[|pairs| - 1].b.position, boid.position))
  }

  /** The weighted speed sum of the alignment loop. */
  function SpeedSum(pairs: seq<Pair>): Vec
    decreases |pairs|
  {
    if |pairs| == 0 then Zero
    else
      var last := pairs[|pairs| - 1];
      Add(SpeedSum(pairs[..|pairs| - 1]), MulScalar(last.b.speed, last.w))
  }

  /**
   The steering influence on boid `self`. Without neighbors it is
   `NoNeighbors`. Otherwise the cohesion vector is the centroid of the
   neighbors' positions, the alignment vector the mean of their speeds, and
   the separation vector the sum of their offsets from the boid, which is the
   offset of the centroid scaled by the neighbor count.
   */
  function CalcBoidDelta(maxRadius: real, boids: seq<Boid>, index: KdIndex, self: nat): (d: Delta)
    requires index == GenKDTree(boids)
    requires self < |boids|
    ensures d.NoNeighbors? <==> NeighborSet(boids, self, maxRadius) == {}
    ensures d.Steering? ==> d.neighborCount == |NeighborSet(boids, self, maxRadius)|
    ensures d.Steering? ==> d.cohesion == Mean(PositionsAt(boids, Neighbors(boids, self, maxRadius)))
    ensures d.Steering? ==> d.alignment == Mean(SpeedsAt(boids, Neighbors(boids, self, maxRadius)))
    ensures d.Steering? ==>
              d.separation == MulScalar(Sub(d.cohesion, boids[self].position), d.neighborCount as real)
  {
    var m := CalcNeighborWeightMap(maxRadius, boids, index, self);
    DeltaFacts(maxRadius, boids, self, m);
    DeltaOf(m, boids[self])
  }

  /**
   The three loops of the delta computation over a weight map, followed by
   the divisions by the weight sum, which are skipped when it is zero.
   */
  function DeltaOf(m: NeighborWeightMap, boid: Boid): Delta
  {
    var positionSum := PositionSum(m.pairs);
    var separationSum := SeparationSum(m.pairs, boid);
    var speedSum := SpeedSum(m.pairs);
    if m.weightSum == 0.0 then
      NoNeighbors
    else
      Steering(DivScalar(positionSum, m.weightSum), separationSum, DivScalar(speedSum, m.weightSum), |m.pairs|)
  }

  /**
   One simulation step: a single index is built from the boid sequence and
   every boid is evaluated against it, giving one result per boid in order.
   The boid sequence itself is not changed.
   */
  method Tick(maxRadius: real, boids: seq<Boid>) returns (deltas: seq<Delta>)
    ensures |deltas| == |boids|
    ensures forall i :: 0 <= i < |boids| ==> deltas[i] == CalcBoidDelta(maxRadius, boids, GenKDTree(boids), i)
    ensures forall i :: 0 <= i < |boids| ==> (deltas[i].NoNeighbors? <==> NeighborSet(boids, i, maxRadius) == {})
  {
    var index := GenKDTree(boids);
    deltas := [];
    var i := 0;
    while i < |boids|
      invariant 0 <= i <= |boids|
      invariant |deltas| == i
      invariant forall k :: 0 <= k < i ==> deltas[k] == CalcBoidDelta(maxRadius, boids, index, k)
    {
      deltas := deltas + [CalcBoidDelta(maxRadius, boids, index, i)];
      i := i + 1;
    }
  }

  // Proof helpers.

  /** The query results other than `self` are exactly the neighbor set, and all index the boids. */
  lemma KeptAreNeighbors(boids: seq<Boid>, self: nat, r: real)
    requires self < |boids|
    ensures var ids := Without(Within(GenKDTree(boids), boids[self].position, r), self);
            (forall j :: j in ids <==> j in NeighborSet(boids, self, r)) && ValidIds(ids, |boids|)
  {
    var points := Positions(boids);
    var found := Within(GenKDTree(boids), boids[self].position, r);
    var ids := Without(found, self);
    forall j
      ensures j in ids <==> j in NeighborSet(boids, self, r)
    {
      if j in found {
        var k :| 0 <= k < |found| && found[k] == j;
        assert j < |boids| && points[j] == boids[j].position;
      }
      if j in NeighborSet(boids, self, r) {
        assert points[j] == boids[j].position;
      }
    }
    forall k | 0 <= k < |ids|
      ensures ids[k] < |boids|
    {
      assert ids[k] in ids;
    }
  }

  lemma WithoutValid(found: seq<nat>, self: nat, n: nat)
    requires ValidIds(found, n)
    ensures ValidIds(Without(found, self), n)
  {
    var ids := Without(found, self);
    forall k | 0 <= k < |ids|
      ensures ids[k] < n
    {
      assert ids[k] in ids;
      var i :| 0 <= i < |found| && found[i] == ids[k];
    }
  }

  /** The positions of the neighbors held by `pairs`, in order. */
  function PairPositions(pairs: seq<Pair>): seq<Vec>
  {
    seq(|pairs|, k requires 0 <= k < |pairs| => pairs[k].b.position)
  }

  function PairSpeeds(pairs: seq<Pair>): seq<Vec>
  {
    seq(|pairs|, k requires 0 <= k < |pairs| => pairs[k].b.speed)
  }

  /** A duplicate-free sequence whose elements are exactly `s` has `|s|` elements. */
  lemma {:induction false} DistinctCard(ids: seq<nat>, s: set<nat>)
    requires StrictlyIncreasing(ids)
    requires forall j :: j in ids <==> j in s
    ensures |ids| == |s|
    decreases |ids|
  {
    if |ids| > 0 {
      var last := ids[|ids| - 1];
      var init := ids[..|ids| - 1];
      assert ids == init + [last];
      assert last !in init;
      DistinctCard(init, s - {last});
    } else {
      assert s == {};
    }
  }

  /** With every weight 1, the weighted sums are the plain sums of the neighbors' fields. */
  lemma {:induction false} UnitWeightSums(pairs: seq<Pair>)
    requires forall k :: 0 <= k < |pairs| ==> pairs[k].w == 1.0
    ensures PositionSum(pairs) == VecSum(PairPositions(pairs))
    ensures SpeedSum(pairs) == VecSum(PairSpeeds(pairs))
    decreases |pairs|
  {
    if |pairs| > 0 {
      var init := pairs[..|pairs| - 1];
      UnitWeightSums(init);
      assert PairPositions(pairs)[..|pairs| - 1] == PairPositions(init);
      assert PairSpeeds(pairs)[..|pairs| - 1] == PairSpeeds(init);
    }
  }

  /** The separation sum is the position sum minus `n` copies of the boid's own position. */
  lemma {:induction false} SeparationLinear(pairs: seq<Pair>, boid: Boid)
    ensures SeparationSum(pairs, boid) == Sub(VecSum(PairPositions(pairs)), MulScalar(boid.position, |pairs| as real))
    decreases |pairs|
  {
    if |pairs| > 0 {
      var init := pairs[..|pairs| - 1];
      var q := pairs[|pairs| - 1].b.position;
      var p := boid.position;
      var n := |init| as real;
      assert PairPositions(pairs)[..|pairs| - 1] == PairPositions(init);
      var tail := VecSum(PairPositions(init));
      calc {
        SeparationSum(pairs, boid);
      == Add(SeparationSum(init, boid), Sub(q, p));
      == { SeparationLinear(init, boid); }
        Add(Sub(tail, MulScalar(p, n)), Sub(q, p));
      == { OffsetStep(tail, q, p, n); }
        Sub(Add(tail, q), MulScalar(p, n + 1.0));
      == Sub(VecSum(PairPositions(pairs)), MulScalar(p, |pairs| as real));
      }
    }
  }

  lemma OffsetStep(tail: Vec, q: Vec, p: Vec, n: real)
    ensures Add(Sub(tail, MulScalar(p, n)), Sub(q, p)) == Sub(Add(tail, q), MulScalar(p, n + 1.0))
  {
    calc {
      p.x * (n + 1.0);
    == p.x * n + p.x;
    }
    calc {
      p.y * (n + 1.0);
    == p.y * n + p.y;
    }
  }

  /** Scaling the centroid's offset by the count gives the summed offsets. */
  lemma CentroidOffset(sum: Vec, p: Vec, n: real)
    requires n != 0.0
    ensures MulScalar(Sub(DivScalar(sum, n), p), n) == Sub(sum, MulScalar(p, n))
  {
    DivScalarRoundTrip(sum, n);
    var c := DivScalar(sum, n);
    calc {
      (c.x + -p.x) * n;
    == c.x * n + -(p.x * n);
    == sum.x + -(p.x * n);
    }
    calc {
      (c.y + -p.y) * n;
    == c.y * n + -(p.y * n);
    == sum.y + -(p.y * n);
    }
  }

  /** The pairs' positions and speeds are those of the neighbors, in order. */
  lemma PairFields(maxRadius: real, boids: seq<Boid>, self: nat, m: NeighborWeightMap)
    requires self < |boids|
    requires m == CalcNeighborWeightMap(maxRadius, boids, GenKDTree(boids), self)
    ensures PairPositions(m.pairs) == PositionsAt(boids, Neighbors(boids, self, maxRadius))
    ensures PairSpeeds(m.pairs) == SpeedsAt(boids, Neighbors(boids, self, maxRadius))
  {
  }

  lemma DeltaFacts(maxRadius: real, boids: seq<Boid>, self: nat, m: NeighborWeightMap)
    requires self < |boids|
    requires m == CalcNeighborWeightMap(maxRadius, boids, GenKDTree(boids), self)
    ensures m.weightSum == 0.0 <==> NeighborSet(boids, self, maxRadius) == {}
    ensures m.weightSum != 0.0 ==>
              DivScalar(PositionSum(m.pairs), m.weightSum) == Mean(PositionsAt(boids, Neighbors(boids, self, maxRadius)))
    ensures m.weightSum != 0.0 ==>
              DivScalar(SpeedSum(m.pairs), m.weightSum) == Mean(SpeedsAt(boids, Neighbors(boids, self, maxRadius)))
    ensures m.weightSum != 0.0 ==>
              SeparationSum(m.pairs, boids[self]) ==
              MulScalar(Sub(DivScalar(PositionSum(m.pairs), m.weightSum), boids[self].position), |m.pairs| as real)
  {
    var ps := PairPositions(m.pairs);
    PairFields(maxRadius, boids, self, m);
    UnitWeightSums(m.pairs);
    SeparationLinear(m.pairs, boids[self]);
    if m.weightSum != 0.0 {
      CentroidOffset(VecSum(ps), boids[self].position, m.weightSum);
    } else {
      assert |NeighborSet(boids, self, maxRadius)| == 0;
    }
  }
}

/**
 Properties of one step that relate several calls or follow from the
 neighbor definition: pairs stay within the radius, identity rather than
 coordinates decides self-exclusion, and the neighbor relation is symmetric.
 */
module BoidLemmas {
  import opened Vectors
  import opened SpatialIndex
  import opened Boids

  /** Every paired neighbor is another boid within `maxRadius` of the evaluated one. */
  lemma PairsWithinRadius(maxRadius: real, boids: seq<Boid>, self: nat)
    requires self < |boids|
    ensures var m := CalcNeighborWeightMap(maxRadius, boids, GenKDTree(boids), self);
            forall k :: 0 <= k < |m.pairs| ==> InRadius(m.pairs[k].b.position, boids[self].position, maxRadius)
  {
    var m := CalcNeighborWeightMap(maxRadius, boids, GenKDTree(boids), self);
    var ids := Neighbors(boids, self, maxRadius);
    forall k | 0 <= k < |m.pairs|
      ensures InRadius(m.pairs[k].b.position, boids[self].position, maxRadius)
    {
      assert ids[k] in ids;
      assert ids[k] in NeighborSet(boids, self, maxRadius);
    }
  }

  /**
   Exclusion is by identity: a different boid at exactly the evaluated
   boid's coordinates is still a neighbor, and it is paired.
   */
  lemma CoincidentBoidIsNeighbor(maxRadius: real, boids: seq<Boid>, self: nat, j: nat)
    requires self < |boids| && j < |boids| && j != self
    requires boids[j].position == boids[self].position
    ensures j in Neighbors(boids, self, maxRadius)
    ensures var m := CalcNeighborWeightMap(maxRadius, boids, GenKDTree(boids), self);
            exists k :: 0 <= k < |m.pairs| && m.pairs[k].b == boids[j]
  {
    DistSquaredSymmetric(boids[j].position, boids[j].position);
    SquareFacts(maxRadius);
    assert j in NeighborSet(boids, self, maxRadius);
    var ids := Neighbors(boids, self, maxRadius);
    var k :| 0 <= k < |ids| && ids[k] == j;
    var m := CalcNeighborWeightMap(maxRadius, boids, GenKDTree(boids), self);
    assert m.pairs[k].b == boids[j];
  }

  /** The neighbor relation is symmetric: `j` neighbors `i` exactly when `i` neighbors `j`. */
  lemma NeighborSymmetric(boids: seq<Boid>, i: nat, j: nat, r: real)
    requires i < |boids| && j < |boids|
    ensures j in NeighborSet(boids, i, r) <==> i in NeighborSet(boids, j, r)
  {
    DistSquaredSymmetric(boids[i].position, boids[j].position);
  }

  /** A boid alone in the population has no neighbors, whatever the radius. */
  lemma LoneBoidHasNoNeighbors(b: Boid, maxRadius: real)
    ensures CalcBoidDelta(maxRadius, [b], GenKDTree([b]), 0) == NoNeighbors
  {
    assert NeighborSet([b], 0, maxRadius) == {};
  }

  /** Two boids 10 apart; with radius 5 neither is a neighbor of the other. */
  const FarApart: seq<Boid> := [Boid(Vec(0.0, 0.0), Zero), Boid(Vec(10.0, 0.0), Zero)]

  lemma FarApartOutOfRange()
    ensures !InRadius(FarApart[0].position, FarApart[1].position, 5.0)
    ensures !InRadius(FarApart[1].position, FarApart[0].position, 5.0)
  {
    assert Square(0.0 - 10.0) == 100.0;
    assert Square(10.0 - 0.0) == 100.0;
    assert Square(0.0 - 0.0) == 0.0;
    assert Square(5.0) == 25.0;
  }

  /** Both boids of `FarApart` get the no-neighbor result. */
  lemma FarApartHaveNoNeighbors()
    ensures CalcBoidDelta(5.0, FarApart, GenKDTree(FarApart), 0) == NoNeighbors
    ensures CalcBoidDelta(5.0, FarApart, GenKDTree(FarApart), 1) == NoNeighbors
  {
    FarApartOutOfRange();
    assert NeighborSet(FarApart, 0, 5.0) == {} by {
      assert 1 !in NeighborSet(FarApart, 0, 5.0);
    }
    assert NeighborSet(FarApart, 1, 5.0) == {} by {
      assert 0 !in NeighborSet(FarApart, 1, 5.0);
    }
  }

  /** Two boids 1 apart, moving in different directions. */
  const Close: seq<Boid> := [Boid(Vec(0.0, 0.0), Vec(1.0, 0.0)), Boid(Vec(1.0, 0.0), Vec(0.0, 1.0))]

  /** Any radius of at least 1 covers the distance between the two boids of `Close`. */
  lemma CloseInRange(r: real)
    requires r >= 1.0
    ensures InRadius(Close[0].position, Close[1].position, r)
    ensures InRadius(Close[1].position, Close[0].position, r)
  {
    assert Square(0.0 - 1.0) == 1.0;
    assert Square(1.0 - 0.0) == 1.0;
    assert Square(0.0 - 0.0) == 0.0;
    assert Square(1.0) == 1.0;
    SquareMonotone(1.0, r);
  }

  /** Of two boids within range of each other, each has the other as its only neighbor. */
  lemma PairNeighbors(boids: seq<Boid>, r: real, self: nat)
    requires |boids| == 2 && self < 2
    requires InRadius(boids[1 - self].position, boids[self].position, r)
    ensures Neighbors(boids, self, r) == [1 - self]
  {
    var ns := NeighborSet(boids, self, r);
    assert ns == {1 - self} by {
      assert 1 - self in ns;
      forall j | j in ns
        ensures j == 1 - self
      {
      }
    }
    var ids := Neighbors(boids, self, r);
    assert |ids| == 1;
    assert ids[0] in ids;
  }

  lemma FieldsAtOne(boids: seq<Boid>, j: nat)
    requires j < |boids|
    ensures PositionsAt(boids, [j]) == [boids[j].position]
    ensures SpeedsAt(boids, [j]) == [boids[j].speed]
  {
  }

  lemma MeanOfOne(v: Vec)
    ensures Mean([v]) == v
  {
    assert VecSum([v]) == Add(VecSum([]), v);
  }

  /** A boid with exactly one neighbor steers toward that neighbor's position and speed. */
  lemma SingleNeighborDelta(maxRadius: real, boids: seq<Boid>, self: nat, j: nat)
    requires self < |boids| && j < |boids|
    requires Neighbors(boids, self, maxRadius) == [j]
    ensures CalcBoidDelta(maxRadius, boids, GenKDTree(boids), self)
            == Steering(boids[j].position, Sub(boids[j].position, boids[self].position), boids[j].speed, 1)
  {
    var d := CalcBoidDelta(maxRadius, boids, GenKDTree(boids), self);
    assert d.Steering? && d.neighborCount == 1 by {
      assert j in Neighbors(boids, self, maxRadius);
      assert j in NeighborSet(boids, self, maxRadius);
    }
    FieldsAtOne(boids, j);
    assert d.cohesion == boids[j].position by {
      MeanOfOne(boids[j].position);
    }
    assert d.alignment == boids[j].speed by {
      MeanOfOne(boids[j].speed);
    }
  }

  /**
   Of two boids within range of each other, each steers toward the other's
   position and speed, and its separation is the offset to the other.
   */
  lemma PairSteering(boids: seq<Boid>, r: real, self: nat)
    requires |boids| == 2 && self < 2
    requires InRadius(boids[1 - self].position, boids[self].position, r)
    ensures CalcBoidDelta(r, boids, GenKDTree(boids), self)
            == Steering(boids[1 - self].position, Sub(boids[1 - self].position, boids[self].position), boids[1 - self].speed, 1)
  {
    PairNeighbors(boids, r, self);
    SingleNeighborDelta(r, boids, self, 1 - self);
  }

  /** With any radius of at least 1, each boid of `Close` steers toward the other. */
  lemma CloseDeltas(r: real)
    requires r >= 1.0
    ensures CalcBoidDelta(r, Close, GenKDTree(Close), 0) == Steering(Close[1].position, Sub(Close[1].position, Close[0].position), Close[1].speed, 1)
    ensures CalcBoidDelta(r, Close, GenKDTree(Close), 1) == Steering(Close[0].position, Sub(Close[0].position, Close[1].position), Close[0].speed, 1)
  {
    CloseInRange(r);
    PairSteering(Close, r, 0);
    PairSteering(Close, r, 1);
  }

  /** The same results as concrete vectors. */
  lemma CloseSteering(r: real)
    requires r >= 1.0
    ensures CalcBoidDelta(r, Close, GenKDTree(Close), 0) == Steering(Vec(1.0, 0.0), Vec(1.0, 0.0), Vec(0.0, 1.0), 1)
    ensures CalcBoidDelta(r, Close, GenKDTree(Close), 1) == Steering(Vec(0.0, 0.0), Vec(-1.0, 0.0), Vec(1.0, 0.0), 1)
  {
    CloseDeltas(r);
    CloseFirst();
    CloseSecond();
  }

  lemma CloseFirst()
    ensures Steering(Close[1].position, Sub(Close[1].position, Close[0].position), Close[1].speed, 1)
            == Steering(Vec(1.0, 0.0), Vec(1.0, 0.0), Vec(0.0, 1.0), 1)
  {
    var a, b := Close[1], Close[0];
    assert a.position == Vec(1.0, 0.0) && a.speed == Vec(0.0, 1.0);
    assert b.position == Vec(0.0, 0.0);
    SubComponentwise(a.position, b.position);
  }

  lemma CloseSecond()
    ensures Steering(Close[0].position, Sub(Close[0].position, Close[1].position), Close[0].speed, 1)
            == Steering(Vec(0.0, 0.0), Vec(-1.0, 0.0), Vec(1.0, 0.0), 1)
  {
    var a, b := Close[0], Close[1];
    assert a.position == Vec(0.0, 0.0) && a.speed == Vec(1.0, 0.0);
    assert b.position == Vec(1.0, 0.0);
    SubComponentwise(a.position, b.position);
  }
}

/**
 The neighbor loop of boids.js:106-112 exactly as written. It runs over as
 many iterations as the query returned results, but reads `boids[i]` with the
 loop counter `i` instead of `boids[found[i]]`. The pairs it builds are
 therefore the first boids of the sequence, whatever the query found. The
 intended loop, which reads the query-returned index, is `Boids.Accumulate`.
 */
module LookupFinding {
  import opened Vectors
  import opened SpatialIndex
  import opened Boids
  import opened BoidLemmas

  /**
   The loop as written over `count` iterations: iteration `i` pairs `boids[i]`
   unless it is the evaluated boid itself. The pairs are boids `0 .. count-1`
   with `self` skipped.
   */
  function AccumulateAsWritten(boids: seq<Boid>, count: nat, self: nat): (m: NeighborWeightMap)
    requires count <= |boids|
    ensures m.weightSum == |m.pairs| as real
    ensures |m.pairs| == if self < count then count - 1 else count
    ensures forall k :: 0 <= k < |m.pairs| ==> m.pairs[k] == Pair(boids[if k < self then k else k + 1], 1.0)
    decreases count
  {
    if count == 0 then
      NeighborWeightMap(0.0, [])
    else
      var m := AccumulateAsWritten(boids, count - 1, self);
      var i := count - 1;
      if i != self then
        NeighborWeightMap(m.weightSum + 1.0, m.pairs + [Pair(boids[i], 1.0)])
      else
        m
  }

  /**
   The neighbor weight map as written: it depends on the query only through
   the number of results, and its pairs are leading boids of the sequence.
   */
  function CalcNeighborWeightMapAsWritten(maxRadius: real, boids: seq<Boid>, index: KdIndex, self: nat): (m: NeighborWeightMap)
    requires index == GenKDTree(boids)
    requires self < |boids|
    ensures m.weightSum == |m.pairs| as real
    ensures var count := |Within(index, boids[self].position, maxRadius)|;
            |m.pairs| == if self < count then count - 1 else count
    ensures forall k :: 0 <= k < |m.pairs| ==> m.pairs[k].b == boids[if k < self then k else k + 1]
  {
    var found := Within(index, boids[self].position, maxRadius);
    AccumulateAsWritten(boids, |found|, self)
  }

  /** A scan over two points of which only the second is in range finds only the second. */
  lemma ScanSecondOnly(pts: seq<Vec>, c: Vec, r: real)
    requires |pts| == 2
    requires !InRadius(pts[0], c, r) && InRadius(pts[1], c, r)
    ensures Within(Build(pts), c, r) == [1]
  {
    assert ScanPrefix(pts, c, r, 1) == [];
  }

  /** The second boid's own query finds only itself. */
  lemma FarApartQuery()
    ensures Within(GenKDTree(FarApart), FarApart[1].position, 5.0) == [1]
  {
    var pts := Positions(FarApart);
    var c := FarApart[1].position;
    assert |pts| == 2 && pts[0] == FarApart[0].position && pts[1] == c;
    assert !InRadius(pts[0], c, 5.0) by {
      FarApartOutOfRange();
    }
    assert InRadius(pts[1], c, 5.0) by {
      DistSquaredSymmetric(c, c);
      SquareFacts(5.0);
    }
    ScanSecondOnly(pts, c, 5.0);
  }

  /**
   As written, the second boid of `FarApart` is paired with the first, which
   lies outside the radius; the intended map for it is empty.
   */
  lemma AsWrittenPairsBoidOutsideRadius()
    ensures |CalcNeighborWeightMapAsWritten(5.0, FarApart, GenKDTree(FarApart), 1).pairs| == 1
    ensures CalcNeighborWeightMapAsWritten(5.0, FarApart, GenKDTree(FarApart), 1).pairs[0].b == FarApart[0]
    ensures !InRadius(FarApart[0].position, FarApart[1].position, 5.0)
    ensures CalcNeighborWeightMap(5.0, FarApart, GenKDTree(FarApart), 1).pairs == []
  {
    FarApartQuery();
    FarApartOutOfRange();
  }
}

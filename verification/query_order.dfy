/**
 The order in which the spatial index returns its results. The tree library
 does not promise increasing order, while `Within` returns indices in
 increasing order. Over the reals the order does not matter: any
 rearrangement of the query results yields the same steering result, since
 every sum of the delta computation is a sum of the same vectors.
 */
module QueryOrder {
  import opened Vectors
  import opened SpatialIndex
  import opened Boids

  /** One occurrence of the same element can be cancelled from both sides. */
  lemma MultisetCancel<T>(a: multiset<T>, b: multiset<T>, x: T)
    requires a + multiset{x} == b + multiset{x}
    ensures a == b
  {
    forall y
      ensures a[y] == b[y]
    {
      assert (a + multiset{x})[y] == (b + multiset{x})[y];
    }
  }

  /** The left-to-right sum of a concatenation is the sum of the two sums. */
  lemma {:induction false} VecSumAppend(a: seq<Vec>, b: seq<Vec>)
    ensures VecSum(a + b) == Add(VecSum(a), VecSum(b))
    decreases |b|
  {
    if |b| == 0 {
      assert a + b == a;
    } else {
      var init := b[..|b| - 1];
      assert (a + b)[..|a + b| - 1] == a + init;
      VecSumAppend(a, init);
    }
  }

  /** A term taken out of the middle of a sum can be added last instead. */
  lemma VecSumExtract(left: seq<Vec>, x: Vec, right: seq<Vec>)
    ensures VecSum(left + [x] + right) == Add(VecSum(left + right), x)
  {
    VecSumAppend(left + [x], right);
    VecSumAppend(left, right);
    assert (left + [x])[..|left|] == left;
  }

  /** Vectors that are a rearrangement of each other have the same sum. */
  lemma {:induction false} VecSumPermutation(s: seq<Vec>, t: seq<Vec>)
    requires multiset(s) == multiset(t)
    ensures VecSum(s) == VecSum(t)
    decreases |s|
  {
    if |s| == 0 {
      assert |t| == |multiset(t)|;
    } else {
      var x := s[|s| - 1];
      var init := s[..|s| - 1];
      assert s == init + [x];
      assert x in multiset(t);
      var i :| 0 <= i < |t| && t[i] == x;
      var left, right := t[..i], t[i + 1..];
      var rest := left + right;
      assert t == left + [x] + right;
      assert multiset(rest) == multiset(init) by {
        assert multiset(t) == multiset(left) + multiset{x} + multiset(right);
        assert multiset(s) == multiset(init) + multiset{x};
        MultisetCancel(multiset(rest), multiset(init), x);
      }
      VecSumPermutation(init, rest);
      VecSumExtract(left, x, right);
    }
  }

  /** The values `f` gives to each index of `ids`, in order. */
  function MapIds(f: nat -> Vec, ids: seq<nat>): seq<Vec>
  {
    seq(|ids|, k requires 0 <= k < |ids| => f(ids[k]))
  }

  lemma MapAppend(f: nat -> Vec, u: seq<nat>, v: seq<nat>)
    ensures MapIds(f, u + v) == MapIds(f, u) + MapIds(f, v)
  {
    var l, r := MapIds(f, u + v), MapIds(f, u) + MapIds(f, v);
    forall k | 0 <= k < |l|
      ensures l[k] == r[k]
    {
      if k < |u| {
        assert (u + v)[k] == u[k];
      } else {
        assert (u + v)[k] == v[k - |u|];
      }
    }
  }

  /** Rearranging the indices rearranges the values read through them. */
  lemma {:induction false} MapPermutation(f: nat -> Vec, a: seq<nat>, b: seq<nat>)
    requires multiset(a) == multiset(b)
    ensures multiset(MapIds(f, a)) == multiset(MapIds(f, b))
    decreases |a|
  {
    if |a| == 0 {
      assert |b| == |multiset(b)|;
    } else {
      var x := a[|a| - 1];
      var init := a[..|a| - 1];
      assert a == init + [x];
      assert x in multiset(b);
      var i :| 0 <= i < |b| && b[i] == x;
      var left, right := b[..i], b[i + 1..];
      var rest := left + right;
      assert b == left + [x] + right;
      assert multiset(rest) == multiset(init) by {
        assert multiset(b) == multiset(left) + multiset{x} + multiset(right);
        assert multiset(a) == multiset(init) + multiset{x};
        MultisetCancel(multiset(rest), multiset(init), x);
      }
      MapPermutation(f, init, rest);
      MapAppend(f, init, [x]);
      MapAppend(f, left, [x]);
      MapAppend(f, left + [x], right);
      MapAppend(f, left, right);
    }
  }

  /**
   `s` is obtained from `t` by deleting some entries and keeping the rest in
   order. Matching from the end is greedy, which decides the question.
   */
  predicate Subsequence(s: seq<nat>, t: seq<nat>)
    decreases |t|
  {
    if |s| == 0 then true
    else if |t| == 0 then false
    else if s[|s| - 1] == t[|t| - 1] then Subsequence(s[..|s| - 1], t[..|t| - 1])
    else Subsequence(s, t[..|t| - 1])
  }

  /**
   Dropping the evaluated boid, for query results in any order: every
   occurrence of its index is removed and every other index is kept as often
   as it occurs.
   */
  lemma {:induction false} WithoutMultiset(found: seq<nat>, self: nat)
    ensures multiset(Without(found, self)) == multiset(found)[self := 0]
    decreases |found|
  {
    if |found| > 0 {
      var init := found[..|found| - 1];
      assert found == init + [found[|found| - 1]];
      WithoutMultiset(init, self);
    }
  }

  /**
   The indices kept by `Without` stay in their original order. With
   `WithoutMultiset` this determines the result for any query order.
   */
  lemma {:induction false} WithoutKeepsOrder(found: seq<nat>, self: nat)
    ensures Subsequence(Without(found, self), found)
    decreases |found|
  {
    if |found| > 0 {
      var init := found[..|found| - 1];
      var idx := found[|found| - 1];
      WithoutKeepsOrder(init, self);
      var rest := Without(init, self);
      if idx != self {
        assert (rest + [idx])[..|rest|] == rest;
      } else if |rest| > 0 {
        assert rest[|rest| - 1] in rest;
      }
    }
  }

  /**
   The sums of a neighbor map built from indices `found` are the plain sums of
   the positions and speeds of the kept indices.
   */
  lemma MapSums(boids: seq<Boid>, found: seq<nat>, self: nat)
    requires self < |boids| && ValidIds(found, |boids|)
    ensures var m := Accumulate(boids, found, self);
            var ids := Without(found, self);
            PositionSum(m.pairs) == VecSum(PositionsAt(boids, ids))
            && SpeedSum(m.pairs) == VecSum(SpeedsAt(boids, ids))
            && SeparationSum(m.pairs, boids[self])
               == Sub(VecSum(PositionsAt(boids, ids)), MulScalar(boids[self].position, |ids| as real))
  {
    var m := Accumulate(boids, found, self);
    var ids := Without(found, self);
    assert PairPositions(m.pairs) == PositionsAt(boids, ids);
    assert PairSpeeds(m.pairs) == SpeedsAt(boids, ids);
    UnitWeightSums(m.pairs);
    SeparationLinear(m.pairs, boids[self]);
  }

  /** Rearranged kept indices give the same count and the same position and speed sums. */
  lemma SameSums(boids: seq<Boid>, ids: seq<nat>, ids0: seq<nat>)
    requires ValidIds(ids, |boids|) && ValidIds(ids0, |boids|)
    requires multiset(ids) == multiset(ids0)
    ensures |ids| == |ids0|
    ensures VecSum(PositionsAt(boids, ids)) == VecSum(PositionsAt(boids, ids0))
    ensures VecSum(SpeedsAt(boids, ids)) == VecSum(SpeedsAt(boids, ids0))
  {
    assert |multiset(ids)| == |multiset(ids0)|;
    var position := (j: nat) => if j < |boids| then boids[j].position else Zero;
    var speed := (j: nat) => if j < |boids| then boids[j].speed else Zero;
    assert PositionsAt(boids, ids) == MapIds(position, ids) && PositionsAt(boids, ids0) == MapIds(position, ids0);
    assert SpeedsAt(boids, ids) == MapIds(speed, ids) && SpeedsAt(boids, ids0) == MapIds(speed, ids0);
    MapPermutation(position, ids, ids0);
    MapPermutation(speed, ids, ids0);
    VecSumPermutation(PositionsAt(boids, ids), PositionsAt(boids, ids0));
    VecSumPermutation(SpeedsAt(boids, ids), SpeedsAt(boids, ids0));
  }

  /** A rearranged query result indexes the boids, and so do the indices it keeps, which are a rearrangement of those kept from the sorted result. */
  lemma KeptRearranged(maxRadius: real, boids: seq<Boid>, self: nat, found: seq<nat>)
    requires self < |boids|
    requires multiset(found) == multiset(Within(GenKDTree(boids), boids[self].position, maxRadius))
    ensures ValidIds(found, |boids|)
    ensures var sorted := Within(GenKDTree(boids), boids[self].position, maxRadius);
            ValidIds(Without(found, self), |boids|) && ValidIds(Without(sorted, self), |boids|)
            && multiset(Without(found, self)) == multiset(Without(sorted, self))
  {
    var sorted := Within(GenKDTree(boids), boids[self].position, maxRadius);
    forall k | 0 <= k < |found|
      ensures found[k] < |boids|
    {
      assert found[k] in multiset(sorted);
    }
    WithoutMultiset(found, self);
    WithoutMultiset(sorted, self);
    WithoutValid(found, self, |boids|);
    WithoutValid(sorted, self, |boids|);
  }

  /**
   Whatever order the index returns the query results in, the neighbor loop
   builds a map with the same weight sum, and the delta computed from it is
   the one computed from the results in increasing order.
   */
  lemma QueryOrderIrrelevant(maxRadius: real, boids: seq<Boid>, self: nat, found: seq<nat>)
    requires self < |boids|
    requires multiset(found) == multiset(Within(GenKDTree(boids), boids[self].position, maxRadius))
    ensures ValidIds(found, |boids|)
    ensures Accumulate(boids, found, self).weightSum
            == CalcNeighborWeightMap(maxRadius, boids, GenKDTree(boids), self).weightSum
    ensures DeltaOf(Accumulate(boids, found, self), boids[self])
            == CalcBoidDelta(maxRadius, boids, GenKDTree(boids), self)
  {
    var sorted := Within(GenKDTree(boids), boids[self].position, maxRadius);
    KeptRearranged(maxRadius, boids, self, found);
    assert CalcNeighborWeightMap(maxRadius, boids, GenKDTree(boids), self) == Accumulate(boids, sorted, self);
    SameSums(boids, Without(found, self), Without(sorted, self));
    MapSums(boids, found, self);
    MapSums(boids, sorted, self);
  }
}

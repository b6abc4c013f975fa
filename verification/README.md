# Boids neighbor aggregation in Dafny

This project models one step of the artboids flocking simulation and the 2D
vector type it is built on.

In a step, a spatial index (a k-d tree) is built from the positions of all
boids. Then every boid is evaluated against that index:

- a radius query returns the indices of the boids within `maxRadius` of it;
- the boid itself is dropped by identity, and every other result becomes a
  neighbor of weight 1;
- the neighbors are folded into a position sum, a separation sum (offsets
  from the boid to each neighbor) and a speed sum;
- the cohesion vector is the position sum divided by the weight sum, and the
  alignment vector is the speed sum divided by the weight sum.

Modules, one per component:

- `Vectors` (`vectors.dfy`): the immutable vector of `vector.js` over `real`
  coordinates: `Add`, `Neg`, `Sub`, `MulScalar`, `DivScalar`, `DistSquared`,
  `Norm`, `Limit` and `Compare`, with their algebraic laws.
- `SpatialIndex` (`spatial_index.dfy`): the radius-query contract of the index
  (`Within`), realised as a linear scan over the snapshot the index was built
  from. The comparison is inclusive: squared distance at most `r*r`.
- `Boids` (`boids.dfy`): `CalcNeighborWeightMap`, `CalcBoidDelta` and `Tick`
  from `boids.js`, the loop folds they use, and the reference neighbor set
  `NeighborSet` the results are stated against.
- `BoidLemmas` (`boid_lemmas.dfy`): properties relating several calls, and
  worked two-boid scenarios.
- `QueryOrder` (`query_order.dfy`): the result of a step does not depend on
  the order in which the index returns the query results.
- `LookupFinding` (`lookup_finding.dfy`): the neighbor loop exactly as written
  at `boids.js:107`, with a counterexample (see Findings).

Modelling decisions:

- A boid's identity is its index in the boid sequence. The source compares
  objects with `!==`, and each boid is a distinct object, so this is the same
  test. Two boids at the same coordinates stay distinct.
- The source's `calcBoidDelta` and `tick` compute their vectors and discard
  them. Here `CalcBoidDelta` returns a `Delta` and `Tick` returns one `Delta`
  per boid, in boid order.
- With no neighbors the weight sum is 0. The source then divides by zero,
  which in JavaScript yields `NaN` vectors. The model returns `NoNeighbors`
  instead of dividing.
- The square root behind `mag()` cannot be computed over the reals. `Norm` and
  `Limit` therefore take the magnitude as an argument `m`, constrained by
  `IsMagnitude`: `m >= 0` and `m*m` equals the squared distance to the origin.
  With that, both branches of `norm` and `limit` are modelled.
- `Compare`'s second argument is used by the source only for its truthiness.
  It is modelled as the boolean `yFirst`.
- The index and the boid sequence must match. Every operation requires
  `index == GenKDTree(boids)`, which is what `tick` guarantees by building the
  index from the same sequence it evaluates.

## Model

| member | source | states |
|---|---|---|
| `Vectors.Add` | vector.js:6-8 | Componentwise sum. Its laws are `AddCommutative`, `AddAssociative` and `AddZeroIdentity`. |
| `Vectors.Neg` | vector.js:22-24 | Negates both components. `NegInvolutive` shows it is its own inverse and cancels under `Add`. |
| `Vectors.Sub` | vector.js:40-42 | Defined as in the source, as `Add` of the negation. `SubComponentwise` shows it is the componentwise difference and that `Add` undoes it. |
| `Vectors.MulScalar` | vector.js:18-20 | Scales both components. `DivScalarRoundTrip` shows that `DivScalar` by the same non-zero factor undoes it. |
| `Vectors.DivScalar` | vector.js:44-46 | Defined as in the source, as `MulScalar` by the reciprocal; division by zero is excluded by its requires. `DivScalarRoundTrip` shows that `MulScalar` by the same factor undoes it, in both orders. |
| `Vectors.DistSquared` | vector.js:10-12 | The squared distance is never negative and is zero exactly when the two vectors are equal. |
| `Vectors.DistSquaredSymmetric` | vector.js:10-12 | The squared distance is symmetric, and a vector is at distance zero from itself. |
| `Vectors.AddCommutative` | vector.js:6-8 | Componentwise addition is commutative. |
| `Vectors.AddAssociative` | vector.js:6-8 | Componentwise addition is associative. |
| `Vectors.AddZeroIdentity` | vector.js:6-8 | The zero vector is a two-sided identity for addition. |
| `Vectors.NegInvolutive` | vector.js:22-24 | Negating twice gives the vector back, and a vector plus its negation is zero. |
| `Vectors.SubComponentwise` | vector.js:40-42 | Subtraction through `add(neg)` is the componentwise difference, and adding the subtrahend back restores the minuend. |
| `Vectors.DivScalarRoundTrip` | vector.js:44-46 | For a non-zero divisor, division by `s` and multiplication by `s` undo each other. |
| `Vectors.Norm` | vector.js:30-38 | The zero vector normalises to the zero vector; any other vector normalises to unit length, and scaling the result by the magnitude restores the vector. |
| `Vectors.Limit` | vector.js:48-53 | For `s >= 0`, a vector no longer than `s` is returned unchanged, the result is never longer than `s`, and a longer vector is rescaled to length exactly `s` in the same direction. |
| `Vectors.Compare` | vector.js:65-67 | The result is zero exactly for equal vectors, negative exactly when the first precedes the second lexicographically (x then y, or y then x), and positive exactly when it follows. |
| `Vectors.CompareAntisymmetric` | vector.js:65-67 | Swapping the arguments negates the result, in both the x-first and the y-first mode. |
| `Vectors.CompareTransitive` | vector.js:65-67 | The strict order given by a negative result is transitive. |
| `SpatialIndex.Within` | boids.js:103 | The radius query is sound (every index is in range and its point within the radius), complete (every point within the radius is returned) and duplicate-free, so it returns at most as many indices as there are points. |
| `SpatialIndex.WithinFindsSelf` | boids.js:103 | A point queried at its own location is among its own results for every radius, so the caller must exclude it. |
| `Boids.Without` | boids.js:108 | For any query result, an index is kept exactly when it is a result other than the evaluated boid, and at most as many entries remain. For a strictly increasing result the kept indices are strictly increasing, exactly one entry is removed when the boid is among the results, and nothing changes when it is not. Multiplicities and order for any result: `QueryOrder.WithoutMultiset`, `QueryOrder.WithoutKeepsOrder`. |
| `Boids.Accumulate` | boids.js:104-112 | The weight sum equals the number of pairs, and pair `k` is the boid at the `k`-th kept query index with weight 1. |
| `Boids.Neighbors` | boids.js:103-108 | The kept indices enumerate exactly the neighbor set (other boids within the radius), without duplicates and without the boid itself, and number one fewer than the query results. |
| `Boids.CalcNeighborWeightMap` | boids.js:102-114 | The weight sum equals the number of pairs, every weight is 1, the pairs are one fewer than the query results and as many as the neighbors, and pair `k` holds the `k`-th neighbor. |
| `Boids.GenKDTree` | boids.js:46-48 | The index is built from the positions of exactly the boids of the step. `SpatialIndex.Within` states what a query against it returns, and `Boids.Tick` builds it once per step. |
| `Boids.PositionSum` | boids.js:84-88 | The cohesion loop: the sum of the pairs' positions, each scaled by its weight. `UnitWeightSums` reduces it to the plain sum of the neighbors' positions. |
| `Boids.SeparationSum` | boids.js:84-92 | The separation loop: the sum of the offsets from the boid to each neighbor, not weighted. `SeparationLinear` relates it to the position sum. |
| `Boids.SpeedSum` | boids.js:84-96 | The alignment loop: the sum of the pairs' speeds, each scaled by its weight. `UnitWeightSums` reduces it to the plain sum of the neighbors' speeds. |
| `Boids.DeltaOf` | boids.js:80-99 | The three loops over a weight map followed by the divisions by the weight sum, skipped when it is zero. `CalcBoidDelta` states the result for the step's own map, and `QueryOrder.QueryOrderIrrelevant` for a map built from the query results in any order. |
| `Boids.UnitWeightSums` | boids.js:84-96 | With every weight equal to 1, the weighted position and speed sums are the plain sums of the neighbors' positions and speeds. |
| `Boids.SeparationLinear` | boids.js:90-92 | The unweighted separation sum equals the neighbors' position sum minus the boid's own position times the number of pairs. |
| `Boids.CalcBoidDelta` | boids.js:77-100 | The result is `NoNeighbors` exactly when no other boid is within the radius. Otherwise the count is the number of neighbors, cohesion is their centroid, alignment is their mean speed, and separation is the centroid's offset from the boid times the count. |
| `Boids.Tick` | boids.js:69-75 | One result per boid, in order, each evaluated against the single index built from the same boid sequence; a result is `NoNeighbors` exactly when that boid has no neighbor. |
| `BoidLemmas.PairsWithinRadius` | boids.js:103-110 | With the lookup through the query-returned index, every paired neighbor lies within `maxRadius` of the evaluated boid. |
| `BoidLemmas.CoincidentBoidIsNeighbor` | boids.js:108 | Exclusion is by identity: a different boid at the evaluated boid's exact coordinates is a neighbor and is paired. |
| `BoidLemmas.NeighborSymmetric` | boids.js:103 | Boid `j` is a neighbor of boid `i` exactly when `i` is a neighbor of `j`. |
| `BoidLemmas.LoneBoidHasNoNeighbors` | boids.js:98-99 | A population of one boid gives the no-neighbor result for every radius, where the source would divide by a zero weight sum. |
| `BoidLemmas.FarApartHaveNoNeighbors` | boids.js:98-99 | Boids at (0,0) and (10,0) with radius 5 both get the no-neighbor result. |
| `BoidLemmas.SingleNeighborDelta` | boids.js:77-99 | A boid whose only neighbor is boid `j` gets cohesion equal to `j`'s position, alignment equal to `j`'s speed, separation equal to the offset from the boid to `j`, and a count of 1. |
| `BoidLemmas.PairNeighbors` | boids.js:103-108 | In a population of two boids within range of each other, each boid's neighbors are exactly the other boid. |
| `BoidLemmas.PairSteering` | boids.js:77-99 | In a population of two boids within range of each other, each steers toward the other's position and speed, with the offset to the other as separation. |
| `BoidLemmas.CloseSteering` | boids.js:77-99 | Boids at (0,0) with speed (1,0) and at (1,0) with speed (0,1), any radius of at least 1: the first gets cohesion (1,0), separation (1,0), alignment (0,1); the second gets cohesion (0,0), separation (-1,0), alignment (1,0); each has one neighbor. |
| `QueryOrder.VecSumPermutation` | boids.js:84-96 | The left-to-right vector sum of the neighbor loop gives the same result for any rearrangement of its terms. |
| `QueryOrder.MapPermutation` | boids.js:84-96 | Reading positions or speeds through a rearranged index sequence yields a rearrangement of the same values. |
| `QueryOrder.WithoutMultiset` | boids.js:106-112 | For query results in any order, dropping the evaluated boid removes every occurrence of its index and keeps every other index as often as it occurs. |
| `QueryOrder.WithoutKeepsOrder` | boids.js:106-112 | For query results in any order, the kept indices are a subsequence of the results: they appear in the order the query returned them. With `WithoutMultiset` this determines the kept sequence. |
| `QueryOrder.QueryOrderIrrelevant` | boids.js:77-112 | For any order in which the index returns the query results, the neighbor loop builds a map with the same weight sum, and the resulting delta equals the one computed from the results in increasing order. |
| `LookupFinding.AccumulateAsWritten` | boids.js:106-112 | The loop as written pairs the boids at positions `0 .. count-1` of the sequence, skipping the evaluated boid, whatever indices the query returned. |
| `LookupFinding.CalcNeighborWeightMapAsWritten` | boids.js:102-114 | As written, the weight map depends on the query only through the number of results. |
| `LookupFinding.AsWrittenPairsBoidOutsideRadius` | boids.js:107 | For boids at (0,0) and (10,0) with radius 5, the code as written pairs the second boid with the first, which is outside the radius; the intended map is empty. |

## Findings

| source | as written | input that shows it | evidently intended | confidence | as-written member | corrected member |
|---|---|---|---|---|---|---|
| boids.js:107 | `const b = boids[i]` reads the boid at the loop counter, so the pairs are the first boids of the sequence | boids at (0,0) and (10,0), radius 5, evaluating the second boid: the query returns only its own index, yet the loop pairs it with the boid at (0,0), 10 away | `const b = boids[found[i]]`, the boid at the query-returned index | high; not executed | `LookupFinding.AsWrittenPairsBoidOutsideRadius` | `BoidLemmas.PairsWithinRadius` |

The rest of the model (`Boids.Accumulate` and everything built on it) uses the
corrected lookup.

## Left out

- `dist`, `mag` and `angle` (vector.js:14-16, 26-28, 55-63): they need `Math.sqrt` and `Math.acos`. Magnitudes enter `Norm` and `Limit` as a constrained argument instead.
- `toString` (vector.js:69-71): presentation only.
- IEEE floating point: coordinates are `real`, so rounding, `NaN`, infinities and `-0` are not modelled. This includes the `NaN` vectors the source produces when it divides by a zero weight sum.
- `genRandomNumber`, `populateBoids` and `genBoidObject` (boids.js:7-9, 50-67): random population set-up.
- The configuration and state records and their constructors (boids.js:11-38): `maxRadius` is passed as a parameter. The three blend factors are never read by the step. Of `genTickState` (boids.js:40-44) only the `TickState` record wrapper is dropped; the index it builds is `GenKDTree`, built once per step in `Tick`.
- The benchmark suite and `run` (boids.js:116-128): timing and console output.
- The k-d tree library behind `genKDTree` and `within` (boids.js:46-48, 103) is not part of this model. Only its radius-query contract is modelled, as a scan that returns indices in increasing order. The library may return them in another order; `QueryOrder.QueryOrderIrrelevant` shows that any order gives the same result over the reals.
- `Vectors.DivScalar`: division by zero, which gives infinities or `NaN` in the source, is excluded by its requires. The step only divides by a non-zero weight sum.
- `SpatialIndex.Within`: a negative radius behaves like its absolute value here, because the comparison is on `r*r`. The library's behaviour for a negative radius is not modelled.
- Applying the computed vectors to positions and speeds: the source never does this.
- `Tick` leaves the boid sequence unchanged. In the model this holds because sequences are values, so there is no separate statement of it.

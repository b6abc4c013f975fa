/**
 The immutable 2D vector of the flocking simulation. Every operation returns a
 new value; coordinates are reals, so floating-point rounding and NaN are not
 part of the model.

 The source computes magnitudes with a square root. Here the square root is a
 caller-supplied value `magnitude` constrained by `IsMagnitude`, so `Norm` and
 `Limit` are modelled in full without an irrational function.
 */
module Vectors {

  datatype Vec = Vec(x: real, y: real)

  const Zero: Vec := Vec(0.0, 0.0)

  function Add(a: Vec, b: Vec): Vec
  {
    Vec(a.x + b.x, a.y + b.y)
  }

  function Neg(v: Vec): Vec
  {
    Vec(-v.x, -v.y)
  }

  /** Subtraction is defined, as in the source, through `Add` and `Neg`. */
  function Sub(a: Vec, b: Vec): Vec
  {
    Add(a, Neg(b))
  }

  function MulScalar(v: Vec, s: real): Vec
  {
    Vec(v.x * s, v.y * s)
  }

  /** Division is multiplication by the reciprocal; a zero divisor is excluded. */
  function DivScalar(v: Vec, s: real): Vec
    requires s != 0.0
  {
    MulScalar(v, 1.0 / s)
  }

  /** The square `Math.pow(d, 2)`. */
  function Square(d: real): real
  {
    d * d
  }

  /** Squared Euclidean distance: non-negative, and zero exactly for equal vectors. */
  function DistSquared(a: Vec, b: Vec): (r: real)
    ensures r >= 0.0
    ensures r == 0.0 <==> a == b
  {
    SquareFacts(a.x - b.x);
    SquareFacts(a.y - b.y);
    Square(a.x - b.x) + Square(a.y - b.y)
  }

  /** `m` is the magnitude of `v`: the non-negative square root of its squared distance to the origin. */
  predicate IsMagnitude(v: Vec, m: real)
  {
    m >= 0.0 && Square(m) == DistSquared(v, Zero)
  }

  /**
   The unit vector in the direction of `v`, given its magnitude. The zero
   vector maps to the zero vector instead of dividing by zero.
   */
  function Norm(v: Vec, magnitude: real): (r: Vec)
    requires IsMagnitude(v, magnitude)
    ensures v == Zero ==> r == Zero
    ensures v != Zero ==> DistSquared(r, Zero) == 1.0
    ensures MulScalar(r, magnitude) == v
  {
    SquareFacts(magnitude);
    if magnitude == 0.0 then
      Zero
    else
      UnitLength(v, magnitude);
      Vec(v.x / magnitude, v.y / magnitude)
  }

  /**
   Caps the magnitude of `v` at `s`: a vector whose magnitude is at most `s`
   is returned unchanged, a longer one is rescaled to magnitude `s` in the same
   direction.
   */
  function Limit(v: Vec, s: real, magnitude: real): (r: Vec)
    requires IsMagnitude(v, magnitude)
    ensures s >= 0.0 && DistSquared(v, Zero) <= Square(s) ==> r == v
    ensures s >= 0.0 ==> DistSquared(r, Zero) <= Square(s)
    ensures s >= 0.0 && DistSquared(v, Zero) > Square(s) ==>
              DistSquared(r, Zero) == Square(s) && MulScalar(r, magnitude) == MulScalar(v, s)
  {
    if magnitude > s then
      if s >= 0.0 then LimitLong(v, s, magnitude); MulScalar(Norm(v, magnitude), s)
      else MulScalar(Norm(v, magnitude), s)
    else
      if s >= 0.0 then SquareMonotone(magnitude, s); v else v
  }

  /** Lexicographic strict order, on x then y, or on y then x when `yFirst`. */
  predicate LexLess(a: Vec, b: Vec, yFirst: bool)
  {
    if yFirst then a.y < b.y || (a.y == b.y && a.x < b.x)
    else a.x < b.x || (a.x == b.x && a.y < b.y)
  }

  /**
   Three-way comparison returning the first non-zero coordinate difference.
   `yFirst` stands for the truthiness of the source's second argument. The
   result is zero exactly for equal vectors and negative exactly when `a`
   precedes `b` lexicographically.
   */
  function Compare(a: Vec, b: Vec, yFirst: bool): (r: real)
    ensures r == 0.0 <==> a == b
    ensures r < 0.0 <==> LexLess(a, b, yFirst)
    ensures r > 0.0 <==> LexLess(b, a, yFirst)
  {
    var dx := a.x - b.x;
    var dy := a.y - b.y;
    if yFirst then (if dy != 0.0 then dy else dx)
    else (if dx != 0.0 then dx else dy)
  }

  // Arithmetic helpers for the contracts above. Products are stated through
  // `Square` and reasoned about one step at a time.

  lemma ProductPositive(a: real, b: real)
    requires a > 0.0 && b > 0.0
    ensures a * b > 0.0
  {
  }

  lemma SquareFacts(d: real)
    ensures Square(d) >= 0.0
    ensures Square(d) == 0.0 <==> d == 0.0
  {
    if d > 0.0 {
      ProductPositive(d, d);
      calc { Square(d); == d * d; > 0.0; }
    } else if d < 0.0 {
      var e := -d;
      ProductPositive(e, e);
      calc { Square(d); == d * d; == e * e; > 0.0; }
    }
  }

  lemma SquareMonotone(a: real, b: real)
    requires 0.0 <= a <= b
    ensures Square(a) <= Square(b)
    ensures a < b ==> Square(a) < Square(b)
  {
    calc {
      Square(a);
    == a * a;
    <= a * b;
    <= b * b;
    == Square(b);
    }
    if a < b {
      var e := b - a;
      ProductPositive(e, b);
      calc {
        Square(a);
      == a * a;
      <= a * b;
      == b * b - e * b;
      <  b * b;
      == Square(b);
      }
    }
  }

  lemma SquareProduct(a: real, b: real)
    ensures Square(a * b) == Square(a) * Square(b)
  {
    calc {
      Square(a * b);
    == (a * b) * (a * b);
    == (a * a) * (b * b);
    == Square(a) * Square(b);
    }
  }

  lemma DivMulCancel(a: real, m: real)
    requires m != 0.0
    ensures (a / m) * m == a
  {
  }

  lemma ScaledLength(u: Vec, s: real)
    ensures DistSquared(MulScalar(u, s), Zero) == DistSquared(u, Zero) * Square(s)
  {
    SquareProduct(u.x, s);
    SquareProduct(u.y, s);
    calc {
      DistSquared(MulScalar(u, s), Zero);
    == Square(u.x * s) + Square(u.y * s);
    == Square(u.x) * Square(s) + Square(u.y) * Square(s);
    == (Square(u.x) + Square(u.y)) * Square(s);
    == DistSquared(u, Zero) * Square(s);
    }
  }

  lemma UnitLength(v: Vec, m: real)
    requires IsMagnitude(v, m) && m != 0.0
    ensures DistSquared(Vec(v.x / m, v.y / m), Zero) == 1.0
  {
    var u := Vec(v.x / m, v.y / m);
    DivMulCancel(v.x, m);
    DivMulCancel(v.y, m);
    assert MulScalar(u, m) == v;
    ScaledLength(u, m);
    SquareFacts(m);
    var k := DistSquared(u, Zero);
    var q := Square(m);
    calc {
      k * q;
    == DistSquared(u, Zero) * Square(m);
    == DistSquared(MulScalar(u, m), Zero);
    == DistSquared(v, Zero);
    == q;
    }
    calc {
      k;
    == (k * q) / q;
    == q / q;
    == 1.0;
    }
  }

  lemma LimitLong(v: Vec, s: real, m: real)
    requires IsMagnitude(v, m) && m > s >= 0.0
    ensures DistSquared(v, Zero) > Square(s)
    ensures DistSquared(MulScalar(Norm(v, m), s), Zero) == Square(s)
    ensures MulScalar(MulScalar(Norm(v, m), s), m) == MulScalar(v, s)
  {
    SquareMonotone(s, m);
    var u := Norm(v, m);
    SquareFacts(m);
    assert v != Zero;
    ScaledLength(u, s);
    calc {
      DistSquared(MulScalar(u, s), Zero);
    == DistSquared(u, Zero) * Square(s);
    == 1.0 * Square(s);
    }
    assert MulScalar(MulScalar(u, s), m) == MulScalar(MulScalar(u, m), s);
  }

  // Algebraic laws of the vector operations.

  lemma AddCommutative(a: Vec, b: Vec)
    ensures Add(a, b) == Add(b, a)
  {
  }

  lemma AddAssociative(a: Vec, b: Vec, c: Vec)
    ensures Add(Add(a, b), c) == Add(a, Add(b, c))
  {
  }

  lemma AddZeroIdentity(a: Vec)
    ensures Add(a, Zero) == a && Add(Zero, a) == a
  {
  }

  lemma NegInvolutive(v: Vec)
    ensures Neg(Neg(v)) == v
    ensures Add(v, Neg(v)) == Zero
  {
  }

  lemma SubComponentwise(a: Vec, b: Vec)
    ensures Sub(a, b) == Vec(a.x - b.x, a.y - b.y)
    ensures Add(Sub(a, b), b) == a
  {
  }

  lemma DivScalarRoundTrip(v: Vec, s: real)
    requires s != 0.0
    ensures MulScalar(DivScalar(v, s), s) == v
    ensures DivScalar(MulScalar(v, s), s) == v
  {
    assert (1.0 / s) * s == 1.0;
    assert v.x * (1.0 / s) * s == v.x;
    assert v.y * (1.0 / s) * s == v.y;
  }

  lemma DistSquaredSymmetric(a: Vec, b: Vec)
    ensures DistSquared(a, b) == DistSquared(b, a)
    ensures DistSquared(a, a) == 0.0
  {
    calc { Square(a.x - b.x); == (a.x - b.x) * (a.x - b.x); == (b.x - a.x) * (b.x - a.x); == Square(b.x - a.x); }
    calc { Square(a.y - b.y); == (a.y - b.y) * (a.y - b.y); == (b.y - a.y) * (b.y - a.y); == Square(b.y - a.y); }
  }

  lemma CompareAntisymmetric(a: Vec, b: Vec, yFirst: bool)
    ensures Compare(a, b, yFirst) == -Compare(b, a, yFirst)
  {
  }

  lemma CompareTransitive(a: Vec, b: Vec, c: Vec, yFirst: bool)
    ensures Compare(a, b, yFirst) < 0.0 && Compare(b, c, yFirst) < 0.0 ==> Compare(a, c, yFirst) < 0.0
  {
  }
}

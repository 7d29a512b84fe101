/** Immutable two-dimensional vectors: turtle positions and the displacement of a move.
    Components are `real`; the source's IEEE `Double` rounding is not modelled. */
module Vectors {

  /** `kotlin.math.sqrt` is a foreign call. Every function that needs a length takes the
      square root as a parameter, and the facts about lengths are proved for any `sqrt`
      that is a true square root on the non-negative reals. */
  ghost predicate IsSqrt(sqrt: real -> real) {
    forall a :: 0.0 <= a ==> 0.0 <= sqrt(a) && sqrt(a) * sqrt(a) == a
  }

  datatype Vec2 = Vec2(x: real, y: real) {

    function Plus(other: Vec2): Vec2 {
      Vec2(x + other.x, y + other.y)
    }

    function Minus(other: Vec2): Vec2 {
      Vec2(x - other.x, y - other.y)
    }

    function Times(scalar: real): Vec2 {
      Vec2(x * scalar, y * scalar)
    }

    /** Euclidean length, `sqrt(x*x + y*y)`. */
    function Length(sqrt: real -> real): real {
      sqrt(x * x + y * y)
    }
  }

  /** `Vec2()`: both components default to zero. */
  const Zero := Vec2(0.0, 0.0)

  /** The scalar-on-the-left operator `Double.times(Vec2)`. */
  function ScaleLeft(scalar: real, v: Vec2): Vec2 {
    v.Times(scalar)
  }

  lemma PlusMinusCancel(a: Vec2, b: Vec2)
    ensures a.Plus(b).Minus(b) == a
  {
  }

  lemma MinusSelf(a: Vec2)
    ensures a.Minus(a) == Zero
  {
  }

  lemma TimesIdentityAndZero(v: Vec2)
    ensures v.Times(1.0) == v
    ensures v.Times(0.0) == Zero
  {
  }

  lemma ScaleCommutes(s: real, v: Vec2)
    ensures ScaleLeft(s, v) == v.Times(s)
    ensures ScaleLeft(s, v).x == s * v.x && ScaleLeft(s, v).y == s * v.y
  {
  }

  /** Two non-negative reals with the same square are equal. */
  lemma SquareRootUnique(r: real, s: real)
    requires 0.0 <= r && 0.0 <= s
    requires r * r == s * s
    ensures r == s
  {
    if r < s {
      SquareGrows(r, s);
    } else if s < r {
      SquareGrows(s, r);
    }
  }

  lemma SquareGrows(a: real, b: real)
    requires 0.0 <= a < b
    ensures a * a < b * b
  {
    calc {
      a * a;
    <=
      a * b;
    <
      b * b;
    }
  }

  lemma SquarePositive(a: real)
    requires a != 0.0
    ensures 0.0 < a * a
  {
    if a < 0.0 {
      assert a * a == (-a) * (-a);
      SquareGrows(0.0, -a);
    } else {
      SquareGrows(0.0, a);
    }
  }

  lemma LengthIsNorm(v: Vec2, sqrt: real -> real)
    requires IsSqrt(sqrt)
    ensures 0.0 <= v.Length(sqrt)
    ensures v.Length(sqrt) * v.Length(sqrt) == v.x * v.x + v.y * v.y
    ensures v.Length(sqrt) == 0.0 <==> v == Zero
  {
    var px, py := v.x * v.x, v.y * v.y;
    SquareNonNegative(v.x);
    SquareNonNegative(v.y);
    var r := sqrt(px + py);
    if r == 0.0 {
      assert px == 0.0 && py == 0.0;
      SquareZero(v.x);
      SquareZero(v.y);
    }
    if v == Zero {
      assert px + py == 0.0;
      SquareZero(r);
    }
  }

  lemma SquareNonNegative(a: real)
    ensures 0.0 <= a * a
  {
    if a != 0.0 {
      SquarePositive(a);
    }
  }

  lemma SquareZero(a: real)
    requires a * a == 0.0
    ensures a == 0.0
  {
    if a != 0.0 {
      calc {
        0.0;
      <  { SquarePositive(a); }
        a * a;
      ==
        0.0;
      }
    }
  }

  /** Scaling by a non-negative factor scales the length by that factor: this is why
      a partial move travels exactly the reachable distance. */
  lemma LengthScaled(v: Vec2, k: real, sqrt: real -> real)
    requires IsSqrt(sqrt)
    requires 0.0 <= k
    ensures v.Times(k).Length(sqrt) == k * v.Length(sqrt)
  {
    var w := v.Times(k);
    ScaledSquare(v.x, k);
    ScaledSquare(v.y, k);
    LengthIsNorm(v, sqrt);
    LengthIsNorm(w, sqrt);
    var r, s := w.Length(sqrt), v.Length(sqrt);
    ScaledSquare(s, k);
    assert r * r == (s * k) * (s * k);
    assert 0.0 <= s * k;
    SquareRootUnique(r, s * k);
  }

  lemma ScaledSquare(a: real, k: real)
    ensures (a * k) * (a * k) == (k * k) * (a * a)
  {
  }
}

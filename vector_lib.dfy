/**
 * public/VectorLib.js: the VectorMath bag of static helpers and the mutable Vector2.
 *
 * JavaScript numbers are modelled as `real` (no rounding, no NaN). A square root is
 * never computed: where the source calls GetMagnitude, the caller supplies the
 * magnitude `m` together with the fact IsMagnitude(v, m).
 */
module VectorLib {

  /** The coordinates a Vector2 holds at one moment. */
  datatype Vec = Vec(x: real, y: real)

  /** `m` is sqrt(x*x + y*y), the value VectorMath.GetMagnitude(v) returns. */
  predicate IsMagnitude(v: Vec, m: real)
  {
    m >= 0.0 && m * m == v.x * v.x + v.y * v.y
  }

  /**
   * The source's class of static helpers. The statics that only read their arguments
   * take and return coordinate values: a value cannot alias anything, which is what the
   * source's `return new Vector2(...)` guarantees. The two statics that also overwrite
   * their argument (Scale, GetNormalized) take the Vector2 object itself.
   */
  class VectorMath {

    /** The sum: the point that Subtract takes back to either summand. */
    static function Add(a: Vec, b: Vec): (r: Vec)
      ensures Subtract(r, b) == a && Subtract(r, a) == b
    {
      Vec(a.x + b.x, a.y + b.y)
    }

    /** Adds the same amount on both axes. */
    static function AddScalar(v: Vec, s: real): (r: Vec)
      ensures r == Add(v, Vec(s, s))
    {
      Vec(v.x + s, v.y + s)
    }

    /** The difference, zero exactly for equal points. */
    static function Subtract(a: Vec, b: Vec): (r: Vec)
      ensures r == Vec(0.0, 0.0) <==> a == b
    {
      Vec(a.x - b.x, a.y - b.y)
    }

    /** Subtracts the same amount on both axes, which AddScalar undoes. */
    static function SubtractScalar(v: Vec, s: real): (r: Vec)
      ensures r == Subtract(v, Vec(s, s)) && AddScalar(r, s) == v
    {
      Vec(v.x - s, v.y - s)
    }

    /** The coordinates VectorMath.Scale leaves behind. */
    static function Scaled(v: Vec, s: real): Vec
    {
      Vec(v.x * s, v.y * s)
    }

    /** The coordinates VectorMath.GetNormalized leaves behind. */
    static function Divided(v: Vec, m: real): Vec
      requires m != 0.0
    {
      Vec(v.x / m, v.y / m)
    }

    /**
     * The squared distance between two points (no square root is taken): the squared
     * length of their difference, never negative.
     */
    static function GetDistanceNoSqrt(a: Vec, b: Vec): (r: real)
      ensures r == GetDotProduct(Subtract(a, b), Subtract(a, b))
      ensures r >= 0.0
    {
      var xDiff := a.x - b.x;
      var yDiff := a.y - b.y;
      xDiff * xDiff + yDiff * yDiff
    }

    /** The point whose double is the sum of the two ends. */
    static function GetMidpoint(a: Vec, b: Vec): (r: Vec)
      ensures Add(r, r) == Add(a, b)
    {
      Vec((a.x + b.x) / 2.0, (a.y + b.y) / 2.0)
    }

    /** The dot product; a vector's product with itself is never negative. */
    static function GetDotProduct(a: Vec, b: Vec): (r: real)
      ensures a == b ==> r >= 0.0
    {
      SquareNonNegative(a.x);
      SquareNonNegative(a.y);
      a.x * b.x + a.y * b.y
    }

    /** Exact component equality, no tolerance: the same as equality of the coordinates. */
    static function EqualTo(a: Vec, b: Vec): (r: bool)
      ensures r <==> a == b
    {
      a.x == b.x && a.y == b.y
    }

    /**
     * Returns a fresh vector holding v scaled by s, and, because the source scales with
     * `*=`, overwrites v with the same values.
     */
    static method Scale(v: Vector2, s: real) returns (r: Vector2)
      modifies v
      ensures v.Value() == Scaled(old(v.Value()), s)
      ensures fresh(r) && r.Value() == v.Value()
    {
      v.x := v.x * s;
      v.y := v.y * s;
      r := new Vector2(v.x, v.y);
    }

    /**
     * Returns a fresh unit vector in v's direction and, because the source divides
     * with `/=`, overwrites v with the same values. `magnitude` is GetMagnitude(v),
     * which must not be zero.
     */
    static method GetNormalized(v: Vector2, magnitude: real) returns (r: Vector2)
      requires IsMagnitude(v.Value(), magnitude) && magnitude != 0.0
      modifies v
      ensures v.Value() == Divided(old(v.Value()), magnitude)
      ensures fresh(r) && r.Value() == v.Value()
      ensures GetDotProduct(r.Value(), r.Value()) == 1.0
    {
      NormalizedIsUnit(v.Value(), magnitude);
      v.x := v.x / magnitude;
      v.y := v.y / magnitude;
      r := new Vector2(v.x, v.y);
    }
  }

  /** A mutable 2D vector whose setters overwrite x and y in place. */
  class Vector2 {
    var x: real
    var y: real

    function Value(): Vec
      reads this
    {
      Vec(x, y)
    }

    /** `new Vector2()`: the origin. */
    constructor Zero()
      ensures Value() == Vec(0.0, 0.0)
    {
      x, y := 0.0, 0.0;
    }

    /** `new Vector2(v)`: a new object with v's coordinates, not an alias of v. */
    constructor Copy(v: Vector2)
      ensures Value() == v.Value()
      ensures this != v
    {
      x, y := v.x, v.y;
    }

    /** `new Vector2(x, y)`. */
    constructor (x: real, y: real)
      ensures Value() == Vec(x, y)
    {
      this.x, this.y := x, y;
    }

    method SetVector(w: Vector2)
      modifies this
      ensures Value() == old(w.Value())
    {
      x := w.x;
      y := w.y;
    }

    /** Only this changes; w too exactly when w is this, which doubles it. */
    method Add(w: Vector2)
      modifies this
      ensures Value() == VectorMath.Add(old(Value()), old(w.Value()))
      ensures w != this ==> w.Value() == old(w.Value())
      ensures w == this ==> Value() == VectorMath.Scaled(old(Value()), 2.0)
    {
      var sum := new Vector2(x + w.x, y + w.y);
      SetVector(sum);
    }

    /** Only this changes; subtracting this from itself gives the origin. */
    method Subtract(w: Vector2)
      modifies this
      ensures Value() == VectorMath.Subtract(old(Value()), old(w.Value()))
      ensures w != this ==> w.Value() == old(w.Value())
      ensures w == this ==> Value() == Vec(0.0, 0.0)
    {
      var diff := new Vector2(x - w.x, y - w.y);
      SetVector(diff);
    }

    /** VectorMath.Scale writes this, then SetVector writes the same values again: scaled once. */
    method Scale(s: real)
      modifies this
      ensures Value() == VectorMath.Scaled(old(Value()), s)
    {
      var scaled := VectorMath.Scale(this, s);
      SetVector(scaled);
    }

    /** Also overwrites this, through VectorMath.GetNormalized. */
    method GetNormalized(magnitude: real) returns (r: Vector2)
      requires IsMagnitude(Value(), magnitude) && magnitude != 0.0
      modifies this
      ensures Value() == VectorMath.Divided(old(Value()), magnitude)
      ensures fresh(r) && r.Value() == Value()
      ensures VectorMath.GetDotProduct(r.Value(), r.Value()) == 1.0
    {
      r := VectorMath.GetNormalized(this, magnitude);
    }

    method SetNormalized(magnitude: real)
      requires IsMagnitude(Value(), magnitude) && magnitude != 0.0
      modifies this
      ensures Value() == VectorMath.Divided(old(Value()), magnitude)
      ensures VectorMath.GetDotProduct(Value(), Value()) == 1.0
    {
      var unit := VectorMath.GetNormalized(this, magnitude);
      SetVector(unit);
    }

    /** The instance copy of the squared distance agrees with the static one. */
    function GetDistanceNoSqrt(w: Vector2): (r: real)
      reads this, w
      ensures r == VectorMath.GetDistanceNoSqrt(Value(), w.Value())
    {
      var xDiff := x - w.x;
      var yDiff := y - w.y;
      xDiff * xDiff + yDiff * yDiff
    }

    function EqualTo(w: Vector2): (r: bool)
      reads this, w
      ensures r <==> Value() == w.Value()
    {
      VectorMath.EqualTo(Value(), w.Value())
    }
  }

  lemma SquareNonNegative(d: real)
    ensures d * d >= 0.0
  {
  }

  /** Dividing by the magnitude gives a vector of length 1. */
  lemma NormalizedIsUnit(v: Vec, m: real)
    requires IsMagnitude(v, m) && m != 0.0
    ensures VectorMath.GetDotProduct(VectorMath.Divided(v, m), VectorMath.Divided(v, m)) == 1.0
  {
    var u := VectorMath.Divided(v, m);
    var k := 1.0 / m;
    assert u.x == v.x * k && u.y == v.y * k;
    calc {
      u.x * u.x + u.y * u.y;
      (v.x * k) * (v.x * k) + (v.y * k) * (v.y * k);
      (v.x * v.x + v.y * v.y) * (k * k);
      (m * m) * (k * k);
      (m * k) * (m * k);
      1.0;
    }
  }

  /** The dot product of two unit vectors lies in [-1, 1] (Cauchy-Schwarz). */
  lemma UnitDotBounds(a: Vec, b: Vec)
    requires VectorMath.GetDotProduct(a, a) == 1.0 && VectorMath.GetDotProduct(b, b) == 1.0
    ensures -1.0 <= VectorMath.GetDotProduct(a, b) <= 1.0
  {
    var d := VectorMath.Subtract(a, b);
    var s := VectorMath.Add(a, b);
    SquareNonNegative(d.x);
    SquareNonNegative(d.y);
    SquareNonNegative(s.x);
    SquareNonNegative(s.y);
    assert d.x * d.x + d.y * d.y == 2.0 - 2.0 * VectorMath.GetDotProduct(a, b);
    assert s.x * s.x + s.y * s.y == 2.0 + 2.0 * VectorMath.GetDotProduct(a, b);
  }

  /** The midpoint is half the sum of the two points. */
  lemma MidpointIsHalfSum(a: Vec, b: Vec)
    ensures VectorMath.GetMidpoint(a, b) == VectorMath.Scaled(VectorMath.Add(a, b), 0.5)
  {
  }

  lemma AddCommutes(a: Vec, b: Vec)
    ensures VectorMath.Add(a, b) == VectorMath.Add(b, a)
  {
  }

  /** A point is at distance zero from itself. */
  lemma DistanceOfSelf(a: Vec)
    ensures VectorMath.GetDistanceNoSqrt(a, a) == 0.0
  {
  }

  lemma DistanceSymmetric(a: Vec, b: Vec)
    ensures VectorMath.GetDistanceNoSqrt(a, b) == VectorMath.GetDistanceNoSqrt(b, a)
  {
  }

  lemma DotProductSymmetric(a: Vec, b: Vec)
    ensures VectorMath.GetDotProduct(a, b) == VectorMath.GetDotProduct(b, a)
  {
  }

  lemma MidpointOfSelf(a: Vec)
    ensures VectorMath.GetMidpoint(a, a) == a
  {
  }

  /** The midpoint is equally far (squared) from both ends. */
  lemma MidpointEquidistant(a: Vec, b: Vec)
    ensures VectorMath.GetDistanceNoSqrt(VectorMath.GetMidpoint(a, b), a)
         == VectorMath.GetDistanceNoSqrt(VectorMath.GetMidpoint(a, b), b)
  {
  }

  lemma EqualToIsEquivalence(a: Vec, b: Vec, c: Vec)
    ensures VectorMath.EqualTo(a, a)
    ensures VectorMath.EqualTo(a, b) == VectorMath.EqualTo(b, a)
    ensures VectorMath.EqualTo(a, b) && VectorMath.EqualTo(b, c) ==> VectorMath.EqualTo(a, c)
  {
  }
}

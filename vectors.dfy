/**
 * The vector part of r2_maths.h.
 *
 * `vec2` is a record of two floats. `vec3`, `vec4`, `quat` and `color` are
 * one union of four floats, so the `vec3_*` writers leave `w` as it was.
 * Every writer takes an `out` pointer that may be one of its inputs; the
 * classes below carry the fields those writers assign one at a time, and the
 * datatypes are the values the contracts talk about. Floats are modelled as
 * `real`, so rounding is not part of this model.
 */
module Vectors {

  datatype V2 = V2(x: real, y: real)
  datatype V3 = V3(x: real, y: real, z: real)
  datatype V4 = V4(x: real, y: real, z: real, w: real)

  /** `vec2`: two floats. */
  class Vec2 {
    var x: real
    var y: real

    constructor (x0: real, y0: real)
      ensures x == x0 && y == y0
    {
      x := x0;
      y := y0;
    }

    function Value(): V2
      reads this
    {
      V2(x, y)
    }
  }

  /** The union behind `vec3`, `vec4`, `quat` and `color`. */
  class Vec4 {
    var x: real
    var y: real
    var z: real
    var w: real

    constructor (x0: real, y0: real, z0: real, w0: real)
      ensures x == x0 && y == y0 && z == z0 && w == w0
    {
      x := x0;
      y := y0;
      z := z0;
      w := w0;
    }

    /** The whole union read as a `vec4` (or a `quat`). */
    function Value(): V4
      reads this
    {
      V4(x, y, z, w)
    }

    /** The union read as a `vec3`: `w` is ignored. */
    function Xyz(): V3
      reads this
    {
      V3(x, y, z)
    }
  }

  // ---------------------------------------------------------------------
  // Value-level operations

  /** The divisor the `*_div` writers actually use: a zero factor becomes 1. */
  function Divisor(fac: real): real
  {
    if fac == 0.0 then 1.0 else fac
  }

  function Add2(a: V2, b: V2): V2 { V2(a.x + b.x, a.y + b.y) }
  function Sub2(a: V2, b: V2): V2 { V2(a.x - b.x, a.y - b.y) }
  function Mul2(v: V2, fac: real): V2 { V2(v.x * fac, v.y * fac) }
  function Div2(v: V2, fac: real): V2 { Mul2(v, 1.0 / Divisor(fac)) }
  function MulVec2(a: V2, b: V2): V2 { V2(a.x * b.x, a.y * b.y) }
  function DivVec2(a: V2, b: V2): V2 { V2(a.x / Divisor(b.x), a.y / Divisor(b.y)) }
  function Dot2(a: V2, b: V2): real { a.x * b.x + a.y * b.y }
  function LengthSqrd2(v: V2): real { v.x * v.x + v.y * v.y }
  function DistSqrd2(a: V2, b: V2): real { (a.x - b.x) * (a.x - b.x) + (a.y - b.y) * (a.y - b.y) }

  function Add3(a: V3, b: V3): V3 { V3(a.x + b.x, a.y + b.y, a.z + b.z) }
  function Sub3(a: V3, b: V3): V3 { V3(a.x - b.x, a.y - b.y, a.z - b.z) }
  function Mul3(v: V3, fac: real): V3 { V3(v.x * fac, v.y * fac, v.z * fac) }
  function Div3(v: V3, fac: real): V3 { Mul3(v, 1.0 / Divisor(fac)) }
  function MulVec3(a: V3, b: V3): V3 { V3(a.x * b.x, a.y * b.y, a.z * b.z) }
  function DivVec3(a: V3, b: V3): V3
  {
    V3(a.x / Divisor(b.x), a.y / Divisor(b.y), a.z / Divisor(b.z))
  }
  function Dot3(a: V3, b: V3): real { a.x * b.x + a.y * b.y + a.z * b.z }
  function LengthSqrd3(v: V3): real { v.x * v.x + v.y * v.y + v.z * v.z }
  function DistSqrd3(a: V3, b: V3): real
  {
    (a.x - b.x) * (a.x - b.x) + (a.y - b.y) * (a.y - b.y) + (a.z - b.z) * (a.z - b.z)
  }
  function Cross(a: V3, b: V3): V3
  {
    V3(a.y * b.z - a.z * b.y, a.z * b.x - a.x * b.z, a.x * b.y - a.y * b.x)
  }

  function Add4(a: V4, b: V4): V4 { V4(a.x + b.x, a.y + b.y, a.z + b.z, a.w + b.w) }
  function Sub4(a: V4, b: V4): V4 { V4(a.x - b.x, a.y - b.y, a.z - b.z, a.w - b.w) }
  function Mul4(v: V4, fac: real): V4 { V4(v.x * fac, v.y * fac, v.z * fac, v.w * fac) }
  function Div4(v: V4, fac: real): V4 { Mul4(v, 1.0 / Divisor(fac)) }
  function MulVec4(a: V4, b: V4): V4 { V4(a.x * b.x, a.y * b.y, a.z * b.z, a.w * b.w) }
  function Dot4(a: V4, b: V4): real { a.x * b.x + a.y * b.y + a.z * b.z + a.w * b.w }

  /** `vec4_dist_sqrd` as written: the z and w terms use `v1->y`. */
  function DistSqrd4AsWritten(a: V4, b: V4): real
  {
    (a.x - b.x) * (a.x - b.x) + (a.y - b.y) * (a.y - b.y) +
    (a.y - b.z) * (a.y - b.z) + (a.y - b.w) * (a.y - b.w)
  }

  /** The squared distance `vec4_dist_sqrd` evidently means. */
  function DistSqrd4(a: V4, b: V4): real
  {
    (a.x - b.x) * (a.x - b.x) + (a.y - b.y) * (a.y - b.y) +
    (a.z - b.z) * (a.z - b.z) + (a.w - b.w) * (a.w - b.w)
  }

  // ---------------------------------------------------------------------
  // vec2 writers

  method Vec2Zero(out: Vec2)
    modifies out
    ensures out.Value() == V2(0.0, 0.0)
  {
    out.x := 0.0;
    out.y := 0.0;
  }

  /** `vec2_set` takes a `vec3` pointer: it sets `x` and `y` of the union and leaves `z`, `w`. */
  method Vec2Set(v: Vec4, x: real, y: real)
    modifies v
    ensures v.Value() == V4(x, y, old(v.z), old(v.w))
  {
    v.x := x;
    v.y := y;
  }

  method Vec2Add(v1: Vec2, v2: Vec2, out: Vec2)
    modifies out
    ensures out.Value() == Add2(old(v1.Value()), old(v2.Value()))
  {
    out.x := v1.x + v2.x;
    out.y := v1.y + v2.y;
  }

  method Vec2Sub(v1: Vec2, v2: Vec2, out: Vec2)
    modifies out
    ensures out.Value() == Sub2(old(v1.Value()), old(v2.Value()))
  {
    out.x := v1.x - v2.x;
    out.y := v1.y - v2.y;
  }

  method Vec2Div(v: Vec2, fac: real, out: Vec2)
    modifies out
    ensures out.Value() == Div2(old(v.Value()), fac)
  {
    var d := 1.0 / (if fac == 0.0 then 1.0 else fac);
    out.x := v.x * d;
    out.y := v.y * d;
  }

  method Vec2DivVec2(v1: Vec2, v2: Vec2, out: Vec2)
    modifies out
    ensures out.Value() == DivVec2(old(v1.Value()), old(v2.Value()))
  {
    out.x := v1.x / (if v2.x == 0.0 then 1.0 else v2.x);
    out.y := v1.y / (if v2.y == 0.0 then 1.0 else v2.y);
  }

  method Vec2Mul(v: Vec2, fac: real, out: Vec2)
    modifies out
    ensures out.Value() == Mul2(old(v.Value()), fac)
  {
    out.x := v.x * fac;
    out.y := v.y * fac;
  }

  method Vec2MulVec2(v1: Vec2, v2: Vec2, out: Vec2)
    modifies out
    ensures out.Value() == MulVec2(old(v1.Value()), old(v2.Value()))
  {
    out.x := v1.x * v2.x;
    out.y := v1.y * v2.y;
  }

  // ---------------------------------------------------------------------
  // vec3 writers: `w` of `out` is never touched

  method Vec3Zero(out: Vec4)
    modifies out
    ensures out.Xyz() == V3(0.0, 0.0, 0.0) && out.w == old(out.w)
  {
    out.x := 0.0;
    out.y := 0.0;
    out.z := 0.0;
  }

  method Vec3Set(v: Vec4, x: real, y: real, z: real)
    modifies v
    ensures v.Value() == V4(x, y, z, old(v.w))
  {
    v.x := x;
    v.y := y;
    v.z := z;
  }

  method Vec3Add(v1: Vec4, v2: Vec4, out: Vec4)
    modifies out
    ensures out.Xyz() == Add3(old(v1.Xyz()), old(v2.Xyz())) && out.w == old(out.w)
  {
    out.x := v1.x + v2.x;
    out.y := v1.y + v2.y;
    out.z := v1.z + v2.z;
  }

  method Vec3Sub(v1: Vec4, v2: Vec4, out: Vec4)
    modifies out
    ensures out.Xyz() == Sub3(old(v1.Xyz()), old(v2.Xyz())) && out.w == old(out.w)
  {
    out.x := v1.x - v2.x;
    out.y := v1.y - v2.y;
    out.z := v1.z - v2.z;
  }

  method Vec3Div(v: Vec4, fac: real, out: Vec4)
    modifies out
    ensures out.Xyz() == Div3(old(v.Xyz()), fac) && out.w == old(out.w)
  {
    var d := 1.0 / (if fac == 0.0 then 1.0 else fac);
    out.x := v.x * d;
    out.y := v.y * d;
    out.z := v.z * d;
  }

  method Vec3DivVec3(v1: Vec4, v2: Vec4, out: Vec4)
    modifies out
    ensures out.Xyz() == DivVec3(old(v1.Xyz()), old(v2.Xyz())) && out.w == old(out.w)
  {
    out.x := v1.x / (if v2.x == 0.0 then 1.0 else v2.x);
    out.y := v1.y / (if v2.y == 0.0 then 1.0 else v2.y);
    out.z := v1.z / (if v2.z == 0.0 then 1.0 else v2.z);
  }

  method Vec3Mul(v: Vec4, fac: real, out: Vec4)
    modifies out
    ensures out.Xyz() == Mul3(old(v.Xyz()), fac) && out.w == old(out.w)
  {
    out.x := v.x * fac;
    out.y := v.y * fac;
    out.z := v.z * fac;
  }

  method Vec3MulVec3(v1: Vec4, v2: Vec4, out: Vec4)
    modifies out
    ensures out.Xyz() == MulVec3(old(v1.Xyz()), old(v2.Xyz())) && out.w == old(out.w)
  {
    out.x := v1.x * v2.x;
    out.y := v1.y * v2.y;
    out.z := v1.z * v2.z;
  }

  /**
   * `vec3_cross` reads both inputs again after it has written `out->x`, so
   * the cross product comes out only when `out` is neither input.
   */
  method Vec3Cross(v1: Vec4, v2: Vec4, out: Vec4)
    requires out != v1 && out != v2
    modifies out
    ensures out.Xyz() == Cross(v1.Xyz(), v2.Xyz()) && out.w == old(out.w)
  {
    out.x := v1.y * v2.z - v1.z * v2.y;
    out.y := v1.z * v2.x - v1.x * v2.z;
    out.z := v1.x * v2.y - v1.y * v2.x;
  }

  /**
   * `vec3_normalize`. The length is `sqrt` of the squared length; the square
   * root is not modelled, so the caller supplies it as `len`. A zero length
   * zeroes `out`; otherwise `out` is `v` divided by its length.
   */
  method Vec3Normalize(v: Vec4, len: real, out: Vec4)
    requires 0.0 <= len && len * len == LengthSqrd3(v.Xyz())
    modifies out
    ensures out.w == old(out.w)
    ensures LengthSqrd3(old(v.Xyz())) == 0.0 ==> out.Xyz() == V3(0.0, 0.0, 0.0)
    ensures LengthSqrd3(old(v.Xyz())) != 0.0 ==>
              out.Xyz() == Div3(old(v.Xyz()), len) && LengthSqrd3(out.Xyz()) == 1.0
  {
    ghost var v0 := v.Xyz();
    if len == 0.0 {
      Vec3Zero(out);
    } else {
      Vec3Div(v, len, out);
      NormalizedHasUnitLength(v0, len);
    }
  }

  // ---------------------------------------------------------------------
  // vec4 writers

  method Vec4Zero(out: Vec4)
    modifies out
    ensures out.Value() == V4(0.0, 0.0, 0.0, 0.0)
  {
    out.x := 0.0;
    out.y := 0.0;
    out.z := 0.0;
    out.w := 0.0;
  }

  /** `vec4_set` copies the first four floats of `ary`. */
  method Vec4Set(v: Vec4, ary: array<real>)
    requires ary.Length >= 4
    modifies v
    ensures v.Value() == V4(ary[0], ary[1], ary[2], ary[3])
  {
    v.x := ary[0];
    v.y := ary[1];
    v.z := ary[2];
    v.w := ary[3];
  }

  method Vec4Add(v1: Vec4, v2: Vec4, out: Vec4)
    modifies out
    ensures out.Value() == Add4(old(v1.Value()), old(v2.Value()))
  {
    out.x := v1.x + v2.x;
    out.y := v1.y + v2.y;
    out.z := v1.z + v2.z;
    out.w := v1.w + v2.w;
  }

  method Vec4Sub(v1: Vec4, v2: Vec4, out: Vec4)
    modifies out
    ensures out.Value() == Sub4(old(v1.Value()), old(v2.Value()))
  {
    out.x := v1.x - v2.x;
    out.y := v1.y - v2.y;
    out.z := v1.z - v2.z;
    out.w := v1.w - v2.w;
  }

  method Vec4Div(v: Vec4, fac: real, out: Vec4)
    modifies out
    ensures out.Value() == Div4(old(v.Value()), fac)
  {
    var d := 1.0 / (if fac == 0.0 then 1.0 else fac);
    out.x := v.x * d;
    out.y := v.y * d;
    out.z := v.z * d;
    out.w := v.w * d;
  }

  method Vec4Mul(v: Vec4, fac: real, out: Vec4)
    modifies out
    ensures out.Value() == Mul4(old(v.Value()), fac)
  {
    out.x := v.x * fac;
    out.y := v.y * fac;
    out.z := v.z * fac;
    out.w := v.w * fac;
  }

  method Vec4MulVec4(v1: Vec4, v2: Vec4, out: Vec4)
    modifies out
    ensures out.Value() == MulVec4(old(v1.Value()), old(v2.Value()))
  {
    out.x := v1.x * v2.x;
    out.y := v1.y * v2.y;
    out.z := v1.z * v2.z;
    out.w := v1.w * v2.w;
  }

  // ---------------------------------------------------------------------
  // Properties

  /** Subtraction undoes addition, in every dimension. */
  lemma SubUndoesAdd(a2: V2, b2: V2, a3: V3, b3: V3, a4: V4, b4: V4)
    ensures Sub2(Add2(a2, b2), b2) == a2
    ensures Sub3(Add3(a3, b3), b3) == a3
    ensures Sub4(Add4(a4, b4), b4) == a4
  {
  }

  /** Dividing by a non-zero factor undoes multiplying by it. */
  lemma DivUndoesMul(a2: V2, a3: V3, a4: V4, fac: real)
    requires fac != 0.0
    ensures Div2(Mul2(a2, fac), fac) == a2
    ensures Div3(Mul3(a3, fac), fac) == a3
    ensures Div4(Mul4(a4, fac), fac) == a4
  {
    ScaleBack(a2.x, fac);
    ScaleBack(a2.y, fac);
    ScaleBack(a3.x, fac);
    ScaleBack(a3.y, fac);
    ScaleBack(a3.z, fac);
    ScaleBack(a4.x, fac);
    ScaleBack(a4.y, fac);
    ScaleBack(a4.z, fac);
    ScaleBack(a4.w, fac);
  }

  lemma ScaleBack(r: real, fac: real)
    requires fac != 0.0
    ensures (r * fac) * (1.0 / Divisor(fac)) == r
  {
    calc {
      (r * fac) * (1.0 / Divisor(fac));
      { assert Divisor(fac) == fac; }
      (r * fac) * (1.0 / fac);
      r;
    }
  }

  /** A zero divisor leaves the vector as it was (the divisor becomes 1). */
  lemma DivByZeroIsIdentity(a2: V2, a3: V3, a4: V4)
    ensures Div2(a2, 0.0) == a2 && Div3(a3, 0.0) == a3 && Div4(a4, 0.0) == a4
  {
  }

  /**
   * Component-wise division undoes component-wise multiplication where the
   * divisor is non-zero, and each zero component of the divisor leaves its
   * component of the dividend as it was.
   */
  lemma DivVecUndoesMulVec(a: V3, b: V3)
    requires b.x != 0.0 && b.y != 0.0 && b.z != 0.0
    ensures DivVec3(MulVec3(a, b), b) == a
  {
  }

  lemma DivVecByZeroComponents(a: V3, b: V3)
    ensures b.x == 0.0 ==> DivVec3(a, b).x == a.x
    ensures b.y == 0.0 ==> DivVec3(a, b).y == a.y
    ensures b.z == 0.0 ==> DivVec3(a, b).z == a.z
    ensures DivVec2(V2(a.x, a.y), V2(0.0, 0.0)) == V2(a.x, a.y)
  {
  }

  /** The dot product is symmetric, and a vector's dot with itself is its squared length. */
  lemma DotSymmetric(a: V3, b: V3, p: V4, q: V4)
    ensures Dot3(a, b) == Dot3(b, a) && Dot4(p, q) == Dot4(q, p)
    ensures Dot3(a, a) == LengthSqrd3(a)
  {
  }

  /** `vec2_dot` is symmetric, and `vec2_length_sqrd` is the dot of a vector with itself. */
  lemma Dot2Symmetric(a: V2, b: V2)
    ensures Dot2(a, b) == Dot2(b, a)
    ensures Dot2(a, a) == LengthSqrd2(a)
  {
  }

  /** The squared distance is the squared length of the difference, in either order. */
  lemma DistSqrdIsLengthOfDifference(a2: V2, b2: V2, a3: V3, b3: V3)
    ensures DistSqrd2(a2, b2) == LengthSqrd2(Sub2(a2, b2)) == DistSqrd2(b2, a2)
    ensures DistSqrd3(a3, b3) == LengthSqrd3(Sub3(a3, b3)) == DistSqrd3(b3, a3)
  {
  }

  /** The cross product is perpendicular to both factors and changes sign when they swap. */
  lemma CrossIsPerpendicular(a: V3, b: V3)
    ensures Dot3(Cross(a, b), a) == 0.0 && Dot3(Cross(a, b), b) == 0.0
    ensures Cross(b, a) == Mul3(Cross(a, b), -1.0)
    ensures Cross(a, a) == V3(0.0, 0.0, 0.0)
  {
  }

  /** Dividing a non-zero vector by its length gives a vector of length 1. */
  lemma NormalizedHasUnitLength(v: V3, len: real)
    requires 0.0 < len && len * len == LengthSqrd3(v)
    ensures LengthSqrd3(Div3(v, len)) == 1.0
  {
    var d := 1.0 / len;
    assert d * len == 1.0;
    calc {
      LengthSqrd3(Div3(v, len));
      (v.x * d) * (v.x * d) + (v.y * d) * (v.y * d) + (v.z * d) * (v.z * d);
      (d * d) * LengthSqrd3(v);
      (d * len) * (d * len);
    }
  }

  /**
   * The corrected squared distance is the dot product of the difference with
   * itself: symmetric, and zero from a vector to itself.
   */
  lemma DistSqrd4IsDotOfDifference(a: V4, b: V4)
    ensures DistSqrd4(a, b) == Dot4(Sub4(a, b), Sub4(a, b)) == DistSqrd4(b, a)
    ensures DistSqrd4(a, a) == 0.0
  {
  }

  /**
   * `vec4_dist_sqrd` as written reports a non-zero distance between a
   * vector and itself.
   */
  lemma DistSqrd4Counterexample(v: V4)
    requires v == V4(0.0, 0.0, 1.0, 0.0)
    ensures DistSqrd4AsWritten(v, v) == 1.0 && DistSqrd4(v, v) == 0.0
  {
  }

  // ---------------------------------------------------------------------
  // Expectations of the vector tests, over exact reals

  lemma VectorExamples()
    ensures Div2(V2(10.0, 10.0), 2.0) == V2(5.0, 5.0)
    ensures Div2(V2(10.0, 10.0), 0.0) == V2(10.0, 10.0)
    ensures DivVec2(V2(10.0, 10.0), V2(5.0, 2.0)) == V2(2.0, 5.0)
    ensures DivVec2(V2(10.0, 10.0), V2(0.0, 0.0)) == V2(10.0, 10.0)
    ensures Dot2(V2(3.0, 3.0), V2(-3.0, -3.0)) == -18.0
    ensures Add3(V3(3.0, 3.0, 3.0), V3(-3.0, -3.0, -3.0)) == V3(0.0, 0.0, 0.0)
    ensures Mul3(V3(3.0, 3.0, 3.0), 3.0) == V3(9.0, 9.0, 9.0)
    ensures Cross(V3(3.0, 3.0, 3.0), V3(-30.0, 30.0, -30.0)) == V3(-180.0, 0.0, 180.0)
    ensures Cross(V3(1.0, 1.0, 0.0), V3(0.0, 1.0, 1.0)) == V3(1.0, -1.0, 1.0)
    ensures Div4(V4(10.0, 10.0, 12.0, 12.0), 2.0) == V4(5.0, 5.0, 6.0, 6.0)
  {
  }
}

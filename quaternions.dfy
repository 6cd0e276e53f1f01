/**
 * The quaternion part of r2_maths.h.
 *
 * A `quat` is the same four-float union as `vec4`, with `w` the real part
 * and `x`, `y`, `z` the `i`, `j`, `k` parts. `quat_add`, `quat_sub` and
 * `quat_dot` are the `vec4` ones; `quat_mul_quat` is the Hamilton product,
 * and `quat_mul_vec3` rotates by conjugation, `q·v·conj(q)`.
 */
module Quaternions {
  import opened Vectors
  import opened Matrices

  // ---------------------------------------------------------------------
  // Values

  /** The product `p·q` as `quat_mul_quat` spells it out, component by component. */
  function Hamilton(p: V4, q: V4): V4
  {
    V4(p.w * q.x + p.x * q.w + p.y * q.z - p.z * q.y,
       p.w * q.y - p.x * q.z + p.y * q.w + p.z * q.x,
       p.w * q.z + p.x * q.y - p.y * q.x + p.z * q.w,
       p.w * q.w - p.x * q.x - p.y * q.y - p.z * q.z)
  }

  function Conj(q: V4): V4
  {
    V4(-q.x, -q.y, -q.z, q.w)
  }

  function IdentityQ(): V4
  {
    V4(0.0, 0.0, 0.0, 1.0)
  }

  /** What `quat_mul_vec3` computes: `q·v·conj(q)`, with `v` read as a whole quaternion. */
  function Rotate(q: V4, v: V4): V4
  {
    Hamilton(Hamilton(q, v), Conj(q))
  }

  /** The vector (imaginary) part. */
  function Im(q: V4): V3
  {
    V3(q.x, q.y, q.z)
  }

  /** The quaternion with real part `s` and vector part `v`. */
  function Join(s: real, v: V3): V4
  {
    V4(v.x, v.y, v.z, s)
  }

  /**
   * The 16 floats `quat_mat4` writes, in memory order (`m<r><c>` at
   * `r + 4*c`): row 0 is `w, x, y, z`, and every other row a signed
   * permutation of it.
   */
  function QuatMatrix(q: V4): (m: seq<real>)
    ensures |m| == 16
  {
    [ q.w, -q.x, -q.y, -q.z,
      q.x,  q.w, -q.z,  q.y,
      q.y,  q.z,  q.w, -q.x,
      q.z, -q.y,  q.x,  q.w]
  }

  /** A `vec4` read as a quaternion whose real part is its first float. */
  function RealFirst(p: V4): V4
  {
    V4(p.y, p.z, p.w, p.x)
  }

  /** A quaternion written as a `vec4` with the real part first. */
  function AsRealFirst(q: V4): V4
  {
    V4(q.w, q.x, q.y, q.z)
  }

  // ---------------------------------------------------------------------
  // The writers

  method QuatZero(q: Vec4)
    modifies q
    ensures q.Value() == V4(0.0, 0.0, 0.0, 0.0)
  {
    q.x := 0.0;
    q.y := 0.0;
    q.z := 0.0;
    q.w := 0.0;
  }

  method QuatIdentity(q: Vec4)
    modifies q
    ensures q.Value() == IdentityQ()
  {
    q.x := 0.0;
    q.y := 0.0;
    q.z := 0.0;
    q.w := 1.0;
  }

  method QuatAdd(q1: Vec4, q2: Vec4, out: Vec4)
    modifies out
    ensures out.Value() == Add4(old(q1.Value()), old(q2.Value()))
  {
    Vec4Add(q1, q2, out);
  }

  method QuatSub(q1: Vec4, q2: Vec4, out: Vec4)
    modifies out
    ensures out.Value() == Sub4(old(q1.Value()), old(q2.Value()))
  {
    Vec4Sub(q1, q2, out);
  }

  /** Both operands are read into locals first, so `out` may be either of them. */
  method QuatMulQuat(q1: Vec4, q2: Vec4, out: Vec4)
    modifies out
    ensures out.Value() == Hamilton(old(q1.Value()), old(q2.Value()))
  {
    var a, b, c, d := q1.w, q1.x, q1.y, q1.z;
    var e, f, g, h := q2.w, q2.x, q2.y, q2.z;
    ghost var p := V4(b, c, d, a);
    ghost var q := V4(f, g, h, e);
    assert p == old(q1.Value()) && q == old(q2.Value());
    var w := a * e - b * f - c * g - d * h;
    var x := a * f + b * e + c * h - d * g;
    var y := a * g - b * h + c * e + d * f;
    var z := a * h + b * g - c * f + d * e;
    assert V4(x, y, z, w) == Hamilton(p, q);
    out.w := w;
    out.x := x;
    out.y := y;
    out.z := z;
  }

  method QuatConj(q: Vec4, out: Vec4)
    modifies out
    ensures out.Value() == Conj(old(q.Value()))
  {
    out.w := q.w;
    out.x := -q.x;
    out.y := -q.y;
    out.z := -q.z;
  }

  /**
   * `quat_mul_vec3`: conjugate `q` into a local, multiply `q·v` into
   * another, and multiply that by the conjugate into `out`. The `w` of `v`
   * takes part; `out` may be `q` or `v`.
   */
  method QuatMulVec3(q: Vec4, v: Vec4, out: Vec4)
    modifies out
    ensures out.Value() == Rotate(old(q.Value()), old(v.Value()))
  {
    ghost var q0, v0 := q.Value(), v.Value();
    var work := new Vec4(0.0, 0.0, 0.0, 0.0);
    var inv := new Vec4(0.0, 0.0, 0.0, 0.0);
    QuatConj(q, inv);
    assert inv.Value() == Conj(q0);
    QuatMulQuat(q, v, work);
    assert work.Value() == Hamilton(q0, v0);
    QuatMulQuat(work, inv, out);
    assert out.Value() == Hamilton(Hamilton(q0, v0), Conj(q0));
  }

  /**
   * The sixteen stores of `quat_mat4`, applied in turn to any sixteen
   * floats, leave `QuatMatrix`: nothing of the old contents survives.
   */
  lemma QuatMat4Stores(s: seq<real>, a: real, b: real, c: real, d: real)
    requires |s| == 16
    ensures s
             [Idx4(0, 0) := a][Idx4(0, 1) := b][Idx4(0, 2) := c][Idx4(0, 3) := d]
             [Idx4(1, 0) := -b][Idx4(1, 1) := a][Idx4(1, 2) := d][Idx4(1, 3) := -c]
             [Idx4(2, 0) := -c][Idx4(2, 1) := -d][Idx4(2, 2) := a][Idx4(2, 3) := b]
             [Idx4(3, 0) := -d][Idx4(3, 1) := c][Idx4(3, 2) := -b][Idx4(3, 3) := a]
            == QuatMatrix(V4(b, c, d, a))
  {
  }

  /** `quat_mat4` writes all sixteen entries of `out`, one row of the matrix at a time. */
  method QuatMat4(q: Vec4, out: array<real>)
    requires out.Length == 16
    modifies out
    ensures out[..] == QuatMatrix(old(q.Value()))
  {
    var a, b, c, d := q.w, q.x, q.y, q.z;
    ghost var s0 := out[..];
    out[Idx4(0, 0)] := a;
    out[Idx4(0, 1)] := b;
    out[Idx4(0, 2)] := c;
    out[Idx4(0, 3)] := d;
    ghost var s1 := out[..];
    assert s1 == s0[Idx4(0, 0) := a][Idx4(0, 1) := b][Idx4(0, 2) := c][Idx4(0, 3) := d];
    out[Idx4(1, 0)] := -b;
    out[Idx4(1, 1)] := a;
    out[Idx4(1, 2)] := d;
    out[Idx4(1, 3)] := -c;
    ghost var s2 := out[..];
    assert s2 == s1[Idx4(1, 0) := -b][Idx4(1, 1) := a][Idx4(1, 2) := d][Idx4(1, 3) := -c];
    out[Idx4(2, 0)] := -c;
    out[Idx4(2, 1)] := -d;
    out[Idx4(2, 2)] := a;
    out[Idx4(2, 3)] := b;
    ghost var s3 := out[..];
    assert s3 == s2[Idx4(2, 0) := -c][Idx4(2, 1) := -d][Idx4(2, 2) := a][Idx4(2, 3) := b];
    out[Idx4(3, 0)] := -d;
    out[Idx4(3, 1)] := c;
    out[Idx4(3, 2)] := -b;
    out[Idx4(3, 3)] := a;
    ghost var s4 := out[..];
    assert s4 == s3[Idx4(3, 0) := -d][Idx4(3, 1) := c][Idx4(3, 2) := -b][Idx4(3, 3) := a];
    QuatMat4Stores(s0, a, b, c, d);
  }

  // ---------------------------------------------------------------------
  // Algebra of the product

  /** The product in scalar-and-vector form: `(s, u)(t, v) = (st - u·v, sv + tu + u×v)`. */
  lemma HamiltonIsScalarVector(p: V4, q: V4)
    ensures Hamilton(p, q) ==
              Join(p.w * q.w - Dot3(Im(p), Im(q)), Add3(Add3(Mul3(Im(q), p.w), Mul3(Im(p), q.w)), Cross(Im(p), Im(q))))
  {
  }

  /** The identity quaternion is a two-sided unit. */
  lemma HamiltonIdentity(q: V4)
    ensures Hamilton(IdentityQ(), q) == q
    ensures Hamilton(q, IdentityQ()) == q
  {
  }

  /** Component `x` of `p·(q·r)`, multiplied out. */
  lemma ProductOfProductX(p: V4, q: V4, r: V4)
    ensures Hamilton(p, Hamilton(q, r)).x ==
                p.w * (q.w * r.x + q.x * r.w + q.y * r.z - q.z * r.y)
              + p.x * (q.w * r.w - q.x * r.x - q.y * r.y - q.z * r.z)
              + p.y * (q.w * r.z + q.x * r.y - q.y * r.x + q.z * r.w)
              - p.z * (q.w * r.y - q.x * r.z + q.y * r.w + q.z * r.x)
  {
  }

  lemma AssociativeX(p: V4, q: V4, r: V4)
    ensures Hamilton(Hamilton(p, q), r).x == Hamilton(p, Hamilton(q, r)).x
  {
    ProductOfProductX(p, q, r);
  }

  /** Component `y` of `p·(q·r)`, multiplied out. */
  lemma ProductOfProductY(p: V4, q: V4, r: V4)
    ensures Hamilton(p, Hamilton(q, r)).y ==
                p.w * (q.w * r.y - q.x * r.z + q.y * r.w + q.z * r.x)
              - p.x * (q.w * r.z + q.x * r.y - q.y * r.x + q.z * r.w)
              + p.y * (q.w * r.w - q.x * r.x - q.y * r.y - q.z * r.z)
              + p.z * (q.w * r.x + q.x * r.w + q.y * r.z - q.z * r.y)
  {
  }

  lemma AssociativeY(p: V4, q: V4, r: V4)
    ensures Hamilton(Hamilton(p, q), r).y == Hamilton(p, Hamilton(q, r)).y
  {
    ProductOfProductY(p, q, r);
  }

  /** Component `z` of `p·(q·r)`, multiplied out. */
  lemma ProductOfProductZ(p: V4, q: V4, r: V4)
    ensures Hamilton(p, Hamilton(q, r)).z ==
                p.w * (q.w * r.z + q.x * r.y - q.y * r.x + q.z * r.w)
              + p.x * (q.w * r.y - q.x * r.z + q.y * r.w + q.z * r.x)
              - p.y * (q.w * r.x + q.x * r.w + q.y * r.z - q.z * r.y)
              + p.z * (q.w * r.w - q.x * r.x - q.y * r.y - q.z * r.z)
  {
  }

  lemma AssociativeZ(p: V4, q: V4, r: V4)
    ensures Hamilton(Hamilton(p, q), r).z == Hamilton(p, Hamilton(q, r)).z
  {
    ProductOfProductZ(p, q, r);
  }

  /** Component `w` of `p·(q·r)`, multiplied out. */
  lemma ProductOfProductW(p: V4, q: V4, r: V4)
    ensures Hamilton(p, Hamilton(q, r)).w ==
                p.w * (q.w * r.w - q.x * r.x - q.y * r.y - q.z * r.z)
              - p.x * (q.w * r.x + q.x * r.w + q.y * r.z - q.z * r.y)
              - p.y * (q.w * r.y - q.x * r.z + q.y * r.w + q.z * r.x)
              - p.z * (q.w * r.z + q.x * r.y - q.y * r.x + q.z * r.w)
  {
  }

  lemma AssociativeW(p: V4, q: V4, r: V4)
    ensures Hamilton(Hamilton(p, q), r).w == Hamilton(p, Hamilton(q, r)).w
  {
    ProductOfProductW(p, q, r);
  }

  lemma HamiltonAssociative(p: V4, q: V4, r: V4)
    ensures Hamilton(Hamilton(p, q), r) == Hamilton(p, Hamilton(q, r))
  {
    AssociativeX(p, q, r);
    AssociativeY(p, q, r);
    AssociativeZ(p, q, r);
    AssociativeW(p, q, r);
  }

  lemma ConjInvolution(q: V4)
    ensures Conj(Conj(q)) == q
  {
  }

  /** Conjugation reverses products. */
  lemma ConjOfProduct(p: V4, q: V4)
    ensures Conj(Hamilton(p, q)) == Hamilton(Conj(q), Conj(p))
  {
    ConjOfProductX(p, q);
    ConjOfProductY(p, q);
    ConjOfProductZ(p, q);
    ConjOfProductW(p, q);
  }

  lemma ConjOfProductX(p: V4, q: V4)
    ensures Hamilton(Conj(q), Conj(p)).x == -Hamilton(p, q).x
  {
  }

  lemma ConjOfProductY(p: V4, q: V4)
    ensures Hamilton(Conj(q), Conj(p)).y == -Hamilton(p, q).y
  {
  }

  lemma ConjOfProductZ(p: V4, q: V4)
    ensures Hamilton(Conj(q), Conj(p)).z == -Hamilton(p, q).z
  {
  }

  lemma ConjOfProductW(p: V4, q: V4)
    ensures Hamilton(Conj(q), Conj(p)).w == Hamilton(p, q).w
  {
  }

  /** A quaternion times its conjugate, either way round, is the real number `quat_dot(q, q)`. */
  lemma ProductWithConj(q: V4)
    ensures Hamilton(q, Conj(q)) == V4(0.0, 0.0, 0.0, Dot4(q, q))
    ensures Hamilton(Conj(q), q) == V4(0.0, 0.0, 0.0, Dot4(q, q))
  {
  }

  /** The squared norm is multiplicative (Euler's four-square identity). */
  lemma NormOfProduct(p: V4, q: V4)
    ensures Dot4(Hamilton(p, q), Hamilton(p, q)) == Dot4(p, p) * Dot4(q, q)
  {
    ProductNorm(p, q, Hamilton(p, q));
  }

  lemma ProductNorm(p: V4, q: V4, h: V4)
    requires h.x == p.w * q.x + p.x * q.w + p.y * q.z - p.z * q.y
    requires h.y == p.w * q.y - p.x * q.z + p.y * q.w + p.z * q.x
    requires h.z == p.w * q.z + p.x * q.y - p.y * q.x + p.z * q.w
    requires h.w == p.w * q.w - p.x * q.x - p.y * q.y - p.z * q.z
    ensures Dot4(h, h) == Dot4(p, p) * Dot4(q, q)
  {
    FourSquare(p.x, p.y, p.z, p.w, q.x, q.y, q.z, q.w, h.x, h.y, h.z, h.w, Dot4(p, p), Dot4(q, q));
  }

  /**
   * Euler's four-square identity: `(x, y, z, w)` is the product of
   * `(a, b, c, d)` and `(e, f, g, h)`, and `n`, `m` are their squared norms.
   */
  lemma FourSquare(a: real, b: real, c: real, d: real, e: real, f: real, g: real, h: real,
                   x: real, y: real, z: real, w: real, n: real, m: real)
    requires x == d * e + a * h + b * g - c * f
    requires y == d * f - a * g + b * h + c * e
    requires z == d * g + a * f - b * e + c * h
    requires w == d * h - a * e - b * f - c * g
    requires n == a * a + b * b + c * c + d * d
    requires m == e * e + f * f + g * g + h * h
    ensures x * x + y * y + z * z + w * w == n * m
  {
  }

  // ---------------------------------------------------------------------
  // Rotation

  lemma RotateByIdentity(v: V4)
    ensures Rotate(IdentityQ(), v) == v
  {
    HamiltonIdentity(v);
  }

  /** The real part of `q·v·conj(q)`, multiplied out once. */
  lemma RotateRealPartExpanded(q: V4, v: V4)
    ensures Rotate(q, v).w ==
                (q.w * v.w - q.x * v.x - q.y * v.y - q.z * v.z) * q.w
              + (q.w * v.x + q.x * v.w + q.y * v.z - q.z * v.y) * q.x
              + (q.w * v.y - q.x * v.z + q.y * v.w + q.z * v.x) * q.y
              + (q.w * v.z + q.x * v.y - q.y * v.x + q.z * v.w) * q.z
  {
  }

  /** Conjugation scales the real part by `quat_dot(q, q)`: a pure vector stays pure. */
  lemma RotateRealPart(q: V4, v: V4)
    ensures Rotate(q, v).w == Dot4(q, q) * v.w
  {
    RotateRealPartExpanded(q, v);
    assert Dot4(q, q) == q.x * q.x + q.y * q.y + q.z * q.z + q.w * q.w;
    assert   (q.w * v.w - q.x * v.x - q.y * v.y - q.z * v.z) * q.w
           + (q.w * v.x + q.x * v.w + q.y * v.z - q.z * v.y) * q.x
           + (q.w * v.y - q.x * v.z + q.y * v.w + q.z * v.x) * q.y
           + (q.w * v.z + q.x * v.y - q.y * v.x + q.z * v.w) * q.z
        == (q.x * q.x + q.y * q.y + q.z * q.z + q.w * q.w) * v.w;
  }

  /** Rotating by a unit quaternion keeps the length. */
  lemma {:induction false} RotatePreservesNorm(q: V4, v: V4)
    requires Dot4(q, q) == 1.0
    ensures Dot4(Rotate(q, v), Rotate(q, v)) == Dot4(v, v)
  {
    NormOfProduct(q, v);
    NormOfProduct(Hamilton(q, v), Conj(q));
    assert Dot4(Conj(q), Conj(q)) == Dot4(q, q);
  }

  /** Rotating by `p·q` is rotating by `q`, then by `p`. */
  lemma {:induction false} RotateComposes(p: V4, q: V4, v: V4)
    ensures Rotate(Hamilton(p, q), v) == Rotate(p, Rotate(q, v))
  {
    calc {
      Rotate(Hamilton(p, q), v);
      Hamilton(Hamilton(Hamilton(p, q), v), Conj(Hamilton(p, q)));
      { ConjOfProduct(p, q); }
      Hamilton(Hamilton(Hamilton(p, q), v), Hamilton(Conj(q), Conj(p)));
      { HamiltonAssociative(p, q, v); }
      Hamilton(Hamilton(p, Hamilton(q, v)), Hamilton(Conj(q), Conj(p)));
      { HamiltonAssociative(Hamilton(p, Hamilton(q, v)), Conj(q), Conj(p)); }
      Hamilton(Hamilton(Hamilton(p, Hamilton(q, v)), Conj(q)), Conj(p));
      { HamiltonAssociative(p, Hamilton(q, v), Conj(q)); }
      Hamilton(Hamilton(p, Hamilton(Hamilton(q, v), Conj(q))), Conj(p));
    }
  }

  // ---------------------------------------------------------------------
  // The matrix

  lemma QuatMatrixOfIdentity()
    ensures QuatMatrix(IdentityQ()) == Identity4()
  {
  }

  /**
   * Read through `m<row><col>`, the matrix of `quat_mat4` multiplies by
   * `conj(q)` on the left, with the real part of the vector first.
   */
  lemma QuatMatrixIsConjugateProduct(q: V4, p: V4)
    ensures Transform4(QuatMatrix(q), p) == AsRealFirst(Hamilton(Conj(q), RealFirst(p)))
  {
  }

  // ---------------------------------------------------------------------
  // The cases the test suite checks

  /** `quat_conj` of `(0.5, 0.3, 0.2, 0.1)`. */
  lemma ConjExample(q: V4)
    requires q == V4(0.5, 0.3, 0.2, 0.1)
    ensures Conj(q) == V4(-0.5, -0.3, -0.2, 0.1)
  {
  }

  /**
   * A turn about x (`(t, 0, 0, u)`) times a turn about y (`(0, s, 0, s)`):
   * the `x` and `z` parts agree and so do `y` and `w`.
   */
  lemma MulQuatExample(s: real, t: real, u: real)
    ensures Hamilton(V4(t, 0.0, 0.0, u), V4(0.0, s, 0.0, s)) == V4(t * s, u * s, t * s, u * s)
  {
  }

  /** A quarter turn about z, `(0, 0, s, s)` with `s*s == 1/2`, takes x to y. */
  lemma QuarterTurnAboutZ(s: real)
    requires s * s == 0.5
    ensures Rotate(V4(0.0, 0.0, s, s), V4(1.0, 0.0, 0.0, 0.0)) == V4(0.0, 1.0, 0.0, 0.0)
  {
  }

  /** A quarter turn about x, `(s, 0, 0, s)` with `s*s == 1/2`, takes y to z. */
  lemma QuarterTurnAboutX(s: real)
    requires s * s == 0.5
    ensures Rotate(V4(s, 0.0, 0.0, s), V4(0.0, 1.0, 0.0, 0.0)) == V4(0.0, 0.0, 1.0, 0.0)
  {
  }

  /** A half turn about x, `(1, 0, 0, 0)`, takes y to -y. */
  lemma HalfTurnAboutX(q: V4, v: V4)
    requires q == V4(1.0, 0.0, 0.0, 0.0) && v == V4(0.0, 1.0, 0.0, 0.0)
    ensures Rotate(q, v) == V4(0.0, -1.0, 0.0, 0.0)
  {
  }
}

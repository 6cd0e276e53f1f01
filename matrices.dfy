/**
 * The fixed-size matrix part of r2_maths.h.
 *
 * `mat3` and `mat4` are unions of a flat float array with named fields
 * `m<row><col>`; the field `m<r><c>` of an n-by-n matrix sits at index
 * `r + n*c` of the array (column-major). The writers below take the flat
 * array, as the source's loops do, and the contracts read it back through
 * that layout.
 */
module Matrices {
  import opened Vectors

  /** Flat index of field `m<r><c>` of a `mat4`. */
  function Idx4(r: int, c: int): int { r + 4 * c }

  /** Flat index of field `m<r><c>` of a `mat3`. */
  function Idx3(r: int, c: int): int { r + 3 * c }

  /** The first `n` terms of row `r` of `a` against column `c` of `b`. */
  function RowCol4(a: seq<real>, b: seq<real>, r: int, c: int, n: nat): real
    requires |a| == 16 && |b| == 16 && 0 <= r < 4 && 0 <= c < 4 && n <= 4
  {
    if n == 0 then 0.0 else RowCol4(a, b, r, c, n - 1) + a[Idx4(r, n - 1)] * b[Idx4(n - 1, c)]
  }

  function RowCol3(a: seq<real>, b: seq<real>, r: int, c: int, n: nat): real
    requires |a| == 9 && |b| == 9 && 0 <= r < 3 && 0 <= c < 3 && n <= 3
  {
    if n == 0 then 0.0 else RowCol3(a, b, r, c, n - 1) + a[Idx3(r, n - 1)] * b[Idx3(n - 1, c)]
  }

  /** Entry `m<r><c>` of the product `a·b`. */
  function Entry4(a: seq<real>, b: seq<real>, r: int, c: int): real
    requires |a| == 16 && |b| == 16 && 0 <= r < 4 && 0 <= c < 4
  {
    RowCol4(a, b, r, c, 4)
  }

  function Entry3(a: seq<real>, b: seq<real>, r: int, c: int): real
    requires |a| == 9 && |b| == 9 && 0 <= r < 3 && 0 <= c < 3
  {
    RowCol3(a, b, r, c, 3)
  }

  /** Column `c` of the product `a·b`. */
  function Column4(a: seq<real>, b: seq<real>, c: int): seq<real>
    requires |a| == 16 && |b| == 16 && 0 <= c < 4
  {
    [Entry4(a, b, 0, c), Entry4(a, b, 1, c), Entry4(a, b, 2, c), Entry4(a, b, 3, c)]
  }

  function Column3(a: seq<real>, b: seq<real>, c: int): seq<real>
    requires |a| == 9 && |b| == 9 && 0 <= c < 3
  {
    [Entry3(a, b, 0, c), Entry3(a, b, 1, c), Entry3(a, b, 2, c)]
  }

  /** The matrix product `a·b`, in the flat column-major layout. */
  function Product4(a: seq<real>, b: seq<real>): seq<real>
    requires |a| == 16 && |b| == 16
  {
    Column4(a, b, 0) + Column4(a, b, 1) + Column4(a, b, 2) + Column4(a, b, 3)
  }

  function Product3(a: seq<real>, b: seq<real>): seq<real>
    requires |a| == 9 && |b| == 9
  {
    Column3(a, b, 0) + Column3(a, b, 1) + Column3(a, b, 2)
  }

  function Identity4(): seq<real>
  {
    [1.0, 0.0, 0.0, 0.0,
     0.0, 1.0, 0.0, 0.0,
     0.0, 0.0, 1.0, 0.0,
     0.0, 0.0, 0.0, 1.0]
  }

  function Identity3(): seq<real>
  {
    [1.0, 0.0, 0.0,
     0.0, 1.0, 0.0,
     0.0, 0.0, 1.0]
  }

  /** Row `r` of `m` applied to `p`. */
  function RowTimes(m: seq<real>, r: int, p: V4): real
    requires |m| == 16 && 0 <= r < 4
  {
    m[Idx4(r, 0)] * p.x + m[Idx4(r, 1)] * p.y + m[Idx4(r, 2)] * p.z + m[Idx4(r, 3)] * p.w
  }

  /** The matrix-vector product `m·p`. */
  function Transform4(m: seq<real>, p: V4): V4
    requires |m| == 16
  {
    V4(RowTimes(m, 0, p), RowTimes(m, 1, p), RowTimes(m, 2, p), RowTimes(m, 3, p))
  }

  // ---------------------------------------------------------------------
  // Reading the product

  /** An entry of the product written out term by term. */
  lemma Entry4Terms(a: seq<real>, b: seq<real>, r: int, c: int)
    requires |a| == 16 && |b| == 16 && 0 <= r < 4 && 0 <= c < 4
    ensures Entry4(a, b, r, c) ==
              a[Idx4(r, 0)] * b[Idx4(0, c)] + a[Idx4(r, 1)] * b[Idx4(1, c)] +
              a[Idx4(r, 2)] * b[Idx4(2, c)] + a[Idx4(r, 3)] * b[Idx4(3, c)]
  {
    assert RowCol4(a, b, r, c, 1) == a[Idx4(r, 0)] * b[Idx4(0, c)];
    assert RowCol4(a, b, r, c, 3) == RowCol4(a, b, r, c, 2) + a[Idx4(r, 2)] * b[Idx4(2, c)];
  }

  lemma Entry3Terms(a: seq<real>, b: seq<real>, r: int, c: int)
    requires |a| == 9 && |b| == 9 && 0 <= r < 3 && 0 <= c < 3
    ensures Entry3(a, b, r, c) ==
              a[Idx3(r, 0)] * b[Idx3(0, c)] + a[Idx3(r, 1)] * b[Idx3(1, c)] + a[Idx3(r, 2)] * b[Idx3(2, c)]
  {
    assert RowCol3(a, b, r, c, 1) == a[Idx3(r, 0)] * b[Idx3(0, c)];
    assert RowCol3(a, b, r, c, 2) == RowCol3(a, b, r, c, 1) + a[Idx3(r, 1)] * b[Idx3(1, c)];
  }

  /**
   * An entry of `a·b` from row `r` of `a` (`x0`..`x3`) and column `c` of `b`
   * (`y0`..`y3`), multiplied in the order the loop of `mat4_mul` uses.
   */
  lemma Entry4Of(a: seq<real>, b: seq<real>, r: int, c: int,
                 x0: real, x1: real, x2: real, x3: real, y0: real, y1: real, y2: real, y3: real)
    requires |a| == 16 && |b| == 16 && 0 <= r < 4 && 0 <= c < 4
    requires a[Idx4(r, 0)] == x0 && a[Idx4(r, 1)] == x1 && a[Idx4(r, 2)] == x2 && a[Idx4(r, 3)] == x3
    requires b[Idx4(0, c)] == y0 && b[Idx4(1, c)] == y1 && b[Idx4(2, c)] == y2 && b[Idx4(3, c)] == y3
    ensures Entry4(a, b, r, c) == y0 * x0 + y1 * x1 + y2 * x2 + y3 * x3
  {
    Entry4Terms(a, b, r, c);
  }

  lemma Entry3Of(a: seq<real>, b: seq<real>, r: int, c: int,
                 x0: real, x1: real, x2: real, y0: real, y1: real, y2: real)
    requires |a| == 9 && |b| == 9 && 0 <= r < 3 && 0 <= c < 3
    requires a[Idx3(r, 0)] == x0 && a[Idx3(r, 1)] == x1 && a[Idx3(r, 2)] == x2
    requires b[Idx3(0, c)] == y0 && b[Idx3(1, c)] == y1 && b[Idx3(2, c)] == y2
    ensures Entry3(a, b, r, c) == y0 * x0 + y1 * x1 + y2 * x2
  {
    Entry3Terms(a, b, r, c);
  }

  /** Field `m<r><c>` of the product is row `r` of `a` against column `c` of `b`. */
  lemma Product4At(a: seq<real>, b: seq<real>, r: int, c: int)
    requires |a| == 16 && |b| == 16 && 0 <= r < 4 && 0 <= c < 4
    ensures |Product4(a, b)| == 16 && Product4(a, b)[Idx4(r, c)] == Entry4(a, b, r, c)
  {
    var p := Product4(a, b);
    if c == 0 {
      assert p[..4] == Column4(a, b, 0);
    } else if c == 1 {
      assert p[4..8] == Column4(a, b, 1);
    } else if c == 2 {
      assert p[8..12] == Column4(a, b, 2);
    } else {
      assert p[12..] == Column4(a, b, 3);
    }
  }

  lemma Product3At(a: seq<real>, b: seq<real>, r: int, c: int)
    requires |a| == 9 && |b| == 9 && 0 <= r < 3 && 0 <= c < 3
    ensures |Product3(a, b)| == 9 && Product3(a, b)[Idx3(r, c)] == Entry3(a, b, r, c)
  {
    var p := Product3(a, b);
    if c == 0 {
      assert p[..3] == Column3(a, b, 0);
    } else if c == 1 {
      assert p[3..6] == Column3(a, b, 1);
    } else {
      assert p[6..] == Column3(a, b, 2);
    }
  }

  /** A flat matrix whose every field is the matching entry of `a·b` is `a·b`. */
  lemma Product4FromEntries(s: seq<real>, a: seq<real>, b: seq<real>)
    requires |s| == 16 && |a| == 16 && |b| == 16
    requires forall r, c :: 0 <= r < 4 && 0 <= c < 4 ==> s[Idx4(r, c)] == Entry4(a, b, r, c)
    ensures s == Product4(a, b)
  {
    assert s[..4] == Column4(a, b, 0);
    assert s[4..8] == Column4(a, b, 1);
    assert s[8..12] == Column4(a, b, 2);
    assert s[12..] == Column4(a, b, 3);
    assert s == s[..4] + s[4..8] + s[8..12] + s[12..];
  }

  lemma Product3FromEntries(s: seq<real>, a: seq<real>, b: seq<real>)
    requires |s| == 9 && |a| == 9 && |b| == 9
    requires forall r, c :: 0 <= r < 3 && 0 <= c < 3 ==> s[Idx3(r, c)] == Entry3(a, b, r, c)
    ensures s == Product3(a, b)
  {
    assert s[..3] == Column3(a, b, 0);
    assert s[3..6] == Column3(a, b, 1);
    assert s[6..] == Column3(a, b, 2);
    assert s == s[..3] + s[3..6] + s[6..];
  }

  // ---------------------------------------------------------------------
  // Writers

  /**
   * `mat4_set` assigns each field `m<r><c>` from `arry[r + 4c]`, which is the
   * flat index of that same field: the array is copied as it is, so its
   * first four values fill column 0, not row 0.
   */
  method Mat4Set(m: array<real>, arry: array<real>)
    requires m.Length == 16 && arry.Length >= 16
    modifies m
    ensures m[..] == old(arry[..16])
  {
    // All sixteen fields are assigned at once, reading `arry` before any
    // write; since every field is copied from its own flat index, this is
    // what the stores in turn give, also when `m` and `arry` are the same array.
    forall r, c | 0 <= r < 4 && 0 <= c < 4 {
      m[Idx4(r, c)] := arry[Idx4(r, c)];
    }
    forall k | 0 <= k < 16
      ensures m[k] == old(arry[k])
    {
      assert k == Idx4(k % 4, k / 4);
    }
  }

  /** `mat4_identity` writes 1 on the diagonal and leaves every other cell as it was. */
  method Mat4Identity(m: array<real>)
    requires m.Length == 16
    modifies m
    ensures forall r, c :: 0 <= r < 4 && 0 <= c < 4 ==>
              m[Idx4(r, c)] == if r == c then 1.0 else old(m[Idx4(r, c)])
    ensures (forall k :: 0 <= k < 16 ==> old(m[k]) == 0.0) ==> m[..] == Identity4()
  {
    m[Idx4(0, 0)] := 1.0;
    m[Idx4(1, 1)] := 1.0;
    m[Idx4(2, 2)] := 1.0;
    m[Idx4(3, 3)] := 1.0;
  }

  /** `mat3_identity` writes 1 on the diagonal and leaves every other cell as it was. */
  method Mat3Identity(m: array<real>)
    requires m.Length == 9
    modifies m
    ensures forall r, c :: 0 <= r < 3 && 0 <= c < 3 ==>
              m[Idx3(r, c)] == if r == c then 1.0 else old(m[Idx3(r, c)])
    ensures (forall k :: 0 <= k < 9 ==> old(m[k]) == 0.0) ==> m[..] == Identity3()
  {
    m[Idx3(0, 0)] := 1.0;
    m[Idx3(1, 1)] := 1.0;
    m[Idx3(2, 2)] := 1.0;
  }

  /**
   * `mat4_transform`: `out` is `mat·p`. The source reads `p` again after
   * writing `out->x`, so `out` must not be `p`.
   */
  method Mat4Transform(p: Vec4, mat: array<real>, out: Vec4)
    requires mat.Length == 16 && out != p
    modifies out
    ensures out.Value() == Transform4(mat[..], p.Value())
  {
    out.x := mat[Idx4(0, 0)] * p.x + mat[Idx4(0, 1)] * p.y + mat[Idx4(0, 2)] * p.z + mat[Idx4(0, 3)] * p.w;
    out.y := mat[Idx4(1, 0)] * p.x + mat[Idx4(1, 1)] * p.y + mat[Idx4(1, 2)] * p.z + mat[Idx4(1, 3)] * p.w;
    out.z := mat[Idx4(2, 0)] * p.x + mat[Idx4(2, 1)] * p.y + mat[Idx4(2, 2)] * p.z + mat[Idx4(2, 3)] * p.w;
    out.w := mat[Idx4(3, 0)] * p.x + mat[Idx4(3, 1)] * p.y + mat[Idx4(3, 2)] * p.z + mat[Idx4(3, 3)] * p.w;
  }

  /**
   * `mat4_mul(m1, m2, out)` as built with `R2_MAT_MUL_LUDICROUS_SPEED`, which
   * r2_maths.h defines as 1 (with it set to 0 the call goes through `mat_mul`;
   * see `MatMul.Mat4MulByMatMul`):
   * the four values at `i..i+3` of the flat `m1` (column `i/4`) against the
   * values `j, j+4, j+8, j+12` of the flat `m2` (row `j`) land at `i + j`.
   * Read through the `m<r><c>` layout this is the product `M2·M1`. `out` is
   * written while the inputs are still being read, so it must be neither of
   * them.
   */
  method Mat4Mul(m1: array<real>, m2: array<real>, out: array<real>)
    requires m1.Length == 16 && m2.Length == 16 && out.Length == 16
    requires out != m1 && out != m2
    modifies out
    ensures out[..] == Product4(m2[..], m1[..])
  {
    var i := 0;
    ghost var ci := 0;
    while i < 16
      invariant 0 <= ci <= 4 && i == 4 * ci
      invariant forall r, c :: 0 <= r < 4 && 0 <= c < ci ==> out[Idx4(r, c)] == Entry4(m2[..], m1[..], r, c)
    {
      Mat4MulColumn(m1, m2, out, i, ci);
      i := i + 4;
      ci := ci + 1;
    }
    Product4FromEntries(out[..], m2[..], m1[..]);
  }

  /** The inner loop of `mat4_mul`: fills column `ci` of `out`, at `i..i+3`, and nothing else. */
  method Mat4MulColumn(m1: array<real>, m2: array<real>, out: array<real>, i: int, ghost ci: int)
    requires m1.Length == 16 && m2.Length == 16 && out.Length == 16
    requires out != m1 && out != m2 && 0 <= ci < 4 && i == 4 * ci
    modifies out
    ensures forall k :: 0 <= k < 16 && !(i <= k < i + 4) ==> out[k] == old(out[k])
    ensures forall r :: 0 <= r < 4 ==> out[Idx4(r, ci)] == Entry4(m2[..], m1[..], r, ci)
  {
    ghost var s1, s2 := m1[..], m2[..];
    var j := 0;
    while j < 4
      invariant 0 <= j <= 4
      invariant forall k :: 0 <= k < 16 && !(i <= k < i + j) ==> out[k] == old(out[k])
      invariant forall r :: 0 <= r < j ==> out[Idx4(r, ci)] == Entry4(s2, s1, r, ci)
    {
      var row := [m1[i + 0], m1[i + 1], m1[i + 2], m1[i + 3]];
      var col := [m2[j + 0], m2[j + 4], m2[j + 8], m2[j + 12]];

      Entry4Of(s2, s1, j, ci, col[0], col[1], col[2], col[3], row[0], row[1], row[2], row[3]);
      out[i + j] := row[0] * col[0] + row[1] * col[1] + row[2] * col[2] + row[3] * col[3];
      j := j + 1;
    }
  }

  /**
   * `mat3_mul(m1, m2, out)` as built with `R2_MAT_MUL_LUDICROUS_SPEED` set,
   * as r2_maths.h sets it (with it set to 0 the call goes through `mat_mul`;
   * see `MatMul.Mat3MulByMatMul`): the same loop with stride 3, giving `M2·M1`.
   */
  method Mat3Mul(m1: array<real>, m2: array<real>, out: array<real>)
    requires m1.Length == 9 && m2.Length == 9 && out.Length == 9
    requires out != m1 && out != m2
    modifies out
    ensures out[..] == Product3(m2[..], m1[..])
  {
    var i := 0;
    ghost var ci := 0;
    while i < 9
      invariant 0 <= ci <= 3 && i == 3 * ci
      invariant forall r, c :: 0 <= r < 3 && 0 <= c < ci ==> out[Idx3(r, c)] == Entry3(m2[..], m1[..], r, c)
    {
      Mat3MulColumn(m1, m2, out, i, ci);
      i := i + 3;
      ci := ci + 1;
    }
    Product3FromEntries(out[..], m2[..], m1[..]);
  }

  /** The inner loop of `mat3_mul`: fills column `ci` of `out`, at `i..i+2`, and nothing else. */
  method Mat3MulColumn(m1: array<real>, m2: array<real>, out: array<real>, i: int, ghost ci: int)
    requires m1.Length == 9 && m2.Length == 9 && out.Length == 9
    requires out != m1 && out != m2 && 0 <= ci < 3 && i == 3 * ci
    modifies out
    ensures forall k :: 0 <= k < 9 && !(i <= k < i + 3) ==> out[k] == old(out[k])
    ensures forall r :: 0 <= r < 3 ==> out[Idx3(r, ci)] == Entry3(m2[..], m1[..], r, ci)
  {
    ghost var s1, s2 := m1[..], m2[..];
    var j := 0;
    while j < 3
      invariant 0 <= j <= 3
      invariant forall k :: 0 <= k < 9 && !(i <= k < i + j) ==> out[k] == old(out[k])
      invariant forall r :: 0 <= r < j ==> out[Idx3(r, ci)] == Entry3(s2, s1, r, ci)
    {
      var row := [m1[i + 0], m1[i + 1], m1[i + 2]];
      var col := [m2[j + 0], m2[j + 3], m2[j + 6]];

      Entry3Of(s2, s1, j, ci, col[0], col[1], col[2], row[0], row[1], row[2]);
      out[i + j] := row[0] * col[0] + row[1] * col[1] + row[2] * col[2];
      j := j + 1;
    }
  }

  // ---------------------------------------------------------------------
  // Properties

  /** Every entry of a product with the identity on either side is the other factor's entry. */
  lemma IdentityEntry4(a: seq<real>, r: int, c: int)
    requires |a| == 16 && 0 <= r < 4 && 0 <= c < 4
    ensures Entry4(Identity4(), a, r, c) == a[Idx4(r, c)] && Entry4(a, Identity4(), r, c) == a[Idx4(r, c)]
  {
    Entry4Terms(Identity4(), a, r, c);
    Entry4Terms(a, Identity4(), r, c);
  }

  lemma IdentityEntry3(a: seq<real>, r: int, c: int)
    requires |a| == 9 && 0 <= r < 3 && 0 <= c < 3
    ensures Entry3(Identity3(), a, r, c) == a[Idx3(r, c)] && Entry3(a, Identity3(), r, c) == a[Idx3(r, c)]
  {
    Entry3Terms(Identity3(), a, r, c);
    Entry3Terms(a, Identity3(), r, c);
  }

  /** The identity matrix is a unit on both sides of the product. */
  lemma Identity4IsUnit(a: seq<real>)
    requires |a| == 16
    ensures Product4(Identity4(), a) == a && Product4(a, Identity4()) == a
  {
    forall r, c | 0 <= r < 4 && 0 <= c < 4
      ensures a[Idx4(r, c)] == Entry4(Identity4(), a, r, c) == Entry4(a, Identity4(), r, c)
    {
      IdentityEntry4(a, r, c);
    }
    Product4FromEntries(a, Identity4(), a);
    Product4FromEntries(a, a, Identity4());
  }

  lemma Identity3IsUnit(a: seq<real>)
    requires |a| == 9
    ensures Product3(Identity3(), a) == a && Product3(a, Identity3()) == a
  {
    forall r, c | 0 <= r < 3 && 0 <= c < 3
      ensures a[Idx3(r, c)] == Entry3(Identity3(), a, r, c) == Entry3(a, Identity3(), r, c)
    {
      IdentityEntry3(a, r, c);
    }
    Product3FromEntries(a, Identity3(), a);
    Product3FromEntries(a, a, Identity3());
  }

  /** The identity matrix leaves every point where it is. */
  lemma Identity4Transform(p: V4)
    ensures Transform4(Identity4(), p) == p
  {
  }

  /** A scalar times a row applied to `p`, distributed over the terms. */
  lemma ScaleRow(k: real, t: real, c0: real, c1: real, c2: real, c3: real, p: V4)
    requires t == c0 * p.x + c1 * p.y + c2 * p.z + c3 * p.w
    ensures k * t == k * c0 * p.x + k * c1 * p.y + k * c2 * p.z + k * c3 * p.w
  {
  }

  /** A sum of four terms times a scalar, distributed over the terms. */
  lemma ScaleSum(e: real, q: real, s0: real, s1: real, s2: real, s3: real)
    requires e == s0 + s1 + s2 + s3
    ensures e * q == s0 * q + s1 * q + s2 * q + s3 * q
  {
  }

  /** Row `r` of `m2` against `m1` and `p`, as the sixteen products of one entry of each. */
  function Expanded(m2: seq<real>, m1: seq<real>, p: V4, r: int): real
    requires |m1| == 16 && |m2| == 16 && 0 <= r < 4
  {
    m2[Idx4(r, 0)] * m1[Idx4(0, 0)] * p.x + m2[Idx4(r, 0)] * m1[Idx4(0, 1)] * p.y + m2[Idx4(r, 0)] * m1[Idx4(0, 2)] * p.z + m2[Idx4(r, 0)] * m1[Idx4(0, 3)] * p.w
      + m2[Idx4(r, 1)] * m1[Idx4(1, 0)] * p.x + m2[Idx4(r, 1)] * m1[Idx4(1, 1)] * p.y + m2[Idx4(r, 1)] * m1[Idx4(1, 2)] * p.z + m2[Idx4(r, 1)] * m1[Idx4(1, 3)] * p.w
      + m2[Idx4(r, 2)] * m1[Idx4(2, 0)] * p.x + m2[Idx4(r, 2)] * m1[Idx4(2, 1)] * p.y + m2[Idx4(r, 2)] * m1[Idx4(2, 2)] * p.z + m2[Idx4(r, 2)] * m1[Idx4(2, 3)] * p.w
      + m2[Idx4(r, 3)] * m1[Idx4(3, 0)] * p.x + m2[Idx4(r, 3)] * m1[Idx4(3, 1)] * p.y + m2[Idx4(r, 3)] * m1[Idx4(3, 2)] * p.z + m2[Idx4(r, 3)] * m1[Idx4(3, 3)] * p.w
  }

  /** Row `r` of `m2` applied to `m1·p`, multiplied out. */
  lemma RowOfTransformExpanded(m2: seq<real>, m1: seq<real>, p: V4, r: int)
    requires |m1| == 16 && |m2| == 16 && 0 <= r < 4
    ensures RowTimes(m2, r, Transform4(m1, p)) == Expanded(m2, m1, p, r)
  {
    ScaleRow(m2[Idx4(r, 0)], RowTimes(m1, 0, p), m1[Idx4(0, 0)], m1[Idx4(0, 1)], m1[Idx4(0, 2)], m1[Idx4(0, 3)], p);
    ScaleRow(m2[Idx4(r, 1)], RowTimes(m1, 1, p), m1[Idx4(1, 0)], m1[Idx4(1, 1)], m1[Idx4(1, 2)], m1[Idx4(1, 3)], p);
    ScaleRow(m2[Idx4(r, 2)], RowTimes(m1, 2, p), m1[Idx4(2, 0)], m1[Idx4(2, 1)], m1[Idx4(2, 2)], m1[Idx4(2, 3)], p);
    ScaleRow(m2[Idx4(r, 3)], RowTimes(m1, 3, p), m1[Idx4(3, 0)], m1[Idx4(3, 1)], m1[Idx4(3, 2)], m1[Idx4(3, 3)], p);
  }

  /** Row `r` of `m2·m1` applied to `p`, multiplied out. */
  lemma EntriesExpanded(m2: seq<real>, m1: seq<real>, p: V4, r: int)
    requires |m1| == 16 && |m2| == 16 && 0 <= r < 4
    ensures Entry4(m2, m1, r, 0) * p.x + Entry4(m2, m1, r, 1) * p.y +
            Entry4(m2, m1, r, 2) * p.z + Entry4(m2, m1, r, 3) * p.w == Expanded(m2, m1, p, r)
  {
    Entry4Terms(m2, m1, r, 0);
    ScaleSum(Entry4(m2, m1, r, 0), p.x, m2[Idx4(r, 0)] * m1[Idx4(0, 0)], m2[Idx4(r, 1)] * m1[Idx4(1, 0)],
             m2[Idx4(r, 2)] * m1[Idx4(2, 0)], m2[Idx4(r, 3)] * m1[Idx4(3, 0)]);
    Entry4Terms(m2, m1, r, 1);
    ScaleSum(Entry4(m2, m1, r, 1), p.y, m2[Idx4(r, 0)] * m1[Idx4(0, 1)], m2[Idx4(r, 1)] * m1[Idx4(1, 1)],
             m2[Idx4(r, 2)] * m1[Idx4(2, 1)], m2[Idx4(r, 3)] * m1[Idx4(3, 1)]);
    Entry4Terms(m2, m1, r, 2);
    ScaleSum(Entry4(m2, m1, r, 2), p.z, m2[Idx4(r, 0)] * m1[Idx4(0, 2)], m2[Idx4(r, 1)] * m1[Idx4(1, 2)],
             m2[Idx4(r, 2)] * m1[Idx4(2, 2)], m2[Idx4(r, 3)] * m1[Idx4(3, 2)]);
    Entry4Terms(m2, m1, r, 3);
    ScaleSum(Entry4(m2, m1, r, 3), p.w, m2[Idx4(r, 0)] * m1[Idx4(0, 3)], m2[Idx4(r, 1)] * m1[Idx4(1, 3)],
             m2[Idx4(r, 2)] * m1[Idx4(2, 3)], m2[Idx4(r, 3)] * m1[Idx4(3, 3)]);
  }

  /** Row `r` of `m2` applied to `m1·p`, regrouped by the entries of `m2·m1`. */
  lemma RowRegroup(m2: seq<real>, m1: seq<real>, p: V4, r: int)
    requires |m1| == 16 && |m2| == 16 && 0 <= r < 4
    ensures RowTimes(m2, r, Transform4(m1, p)) ==
              Entry4(m2, m1, r, 0) * p.x + Entry4(m2, m1, r, 1) * p.y +
              Entry4(m2, m1, r, 2) * p.z + Entry4(m2, m1, r, 3) * p.w
  {
    RowOfTransformExpanded(m2, m1, p, r);
    EntriesExpanded(m2, m1, p, r);
  }

  /** Row `r` of a product applied to `p`, by the entries of that row. */
  lemma ProductRow(m2: seq<real>, m1: seq<real>, p: V4, r: int)
    requires |m1| == 16 && |m2| == 16 && 0 <= r < 4
    ensures RowTimes(Product4(m2, m1), r, p) ==
              Entry4(m2, m1, r, 0) * p.x + Entry4(m2, m1, r, 1) * p.y +
              Entry4(m2, m1, r, 2) * p.z + Entry4(m2, m1, r, 3) * p.w
  {
    Product4At(m2, m1, r, 0);
    Product4At(m2, m1, r, 1);
    Product4At(m2, m1, r, 2);
    Product4At(m2, m1, r, 3);
  }

  /** Row `r` of a product applied to `p` is row `r` of the left factor applied to the right factor's image of `p`. */
  lemma RowOfProduct(m2: seq<real>, m1: seq<real>, p: V4, r: int)
    requires |m1| == 16 && |m2| == 16 && 0 <= r < 4
    ensures RowTimes(Product4(m2, m1), r, p) == RowTimes(m2, r, Transform4(m1, p))
  {
    ProductRow(m2, m1, p, r);
    RowRegroup(m2, m1, p, r);
  }

  /**
   * Transforming by a product is transforming by each factor in turn, so the
   * matrix `mat4_mul(m1, m2)` applies `m1` first and then `m2`.
   */
  lemma TransformOfProduct(m2: seq<real>, m1: seq<real>, p: V4)
    requires |m1| == 16 && |m2| == 16
    ensures Transform4(Product4(m2, m1), p) == Transform4(m2, Transform4(m1, p))
  {
    RowOfProduct(m2, m1, p, 0);
    RowOfProduct(m2, m1, p, 1);
    RowOfProduct(m2, m1, p, 2);
    RowOfProduct(m2, m1, p, 3);
  }

  // ---------------------------------------------------------------------
  // Expectations of the matrix tests, over exact reals

  /**
   * The flat values 1,1,1,1,2,2,2,2,... are the matrix whose column `c` is
   * all `c + 1`; the flat values 4,4,4,4,3,3,3,3,... the one whose column `c`
   * is all `4 - c`. Column `c` of the product is all `10(c + 1)`, one lemma
   * per column.
   */
  lemma Mat4MulExampleColumn0(k1: seq<real>, k2: seq<real>)
    requires |k1| == 16 && |k2| == 16
    requires forall r, c :: 0 <= r < 4 && 0 <= c < 4 ==> k1[Idx4(r, c)] == (c + 1) as real
    requires forall r, c :: 0 <= r < 4 && 0 <= c < 4 ==> k2[Idx4(r, c)] == (4 - c) as real
    ensures Column4(k2, k1, 0) == [10.0, 10.0, 10.0, 10.0]
  {
    Entry4Of(k2, k1, 0, 0, 4.0, 3.0, 2.0, 1.0, 1.0, 1.0, 1.0, 1.0);
    Entry4Of(k2, k1, 1, 0, 4.0, 3.0, 2.0, 1.0, 1.0, 1.0, 1.0, 1.0);
    Entry4Of(k2, k1, 2, 0, 4.0, 3.0, 2.0, 1.0, 1.0, 1.0, 1.0, 1.0);
    Entry4Of(k2, k1, 3, 0, 4.0, 3.0, 2.0, 1.0, 1.0, 1.0, 1.0, 1.0);
  }

  lemma Mat4MulExampleColumn1(k1: seq<real>, k2: seq<real>)
    requires |k1| == 16 && |k2| == 16
    requires forall r, c :: 0 <= r < 4 && 0 <= c < 4 ==> k1[Idx4(r, c)] == (c + 1) as real
    requires forall r, c :: 0 <= r < 4 && 0 <= c < 4 ==> k2[Idx4(r, c)] == (4 - c) as real
    ensures Column4(k2, k1, 1) == [20.0, 20.0, 20.0, 20.0]
  {
    Entry4Of(k2, k1, 0, 1, 4.0, 3.0, 2.0, 1.0, 2.0, 2.0, 2.0, 2.0);
    Entry4Of(k2, k1, 1, 1, 4.0, 3.0, 2.0, 1.0, 2.0, 2.0, 2.0, 2.0);
    Entry4Of(k2, k1, 2, 1, 4.0, 3.0, 2.0, 1.0, 2.0, 2.0, 2.0, 2.0);
    Entry4Of(k2, k1, 3, 1, 4.0, 3.0, 2.0, 1.0, 2.0, 2.0, 2.0, 2.0);
  }

  lemma Mat4MulExampleColumn2(k1: seq<real>, k2: seq<real>)
    requires |k1| == 16 && |k2| == 16
    requires forall r, c :: 0 <= r < 4 && 0 <= c < 4 ==> k1[Idx4(r, c)] == (c + 1) as real
    requires forall r, c :: 0 <= r < 4 && 0 <= c < 4 ==> k2[Idx4(r, c)] == (4 - c) as real
    ensures Column4(k2, k1, 2) == [30.0, 30.0, 30.0, 30.0]
  {
    Entry4Of(k2, k1, 0, 2, 4.0, 3.0, 2.0, 1.0, 3.0, 3.0, 3.0, 3.0);
    Entry4Of(k2, k1, 1, 2, 4.0, 3.0, 2.0, 1.0, 3.0, 3.0, 3.0, 3.0);
    Entry4Of(k2, k1, 2, 2, 4.0, 3.0, 2.0, 1.0, 3.0, 3.0, 3.0, 3.0);
    Entry4Of(k2, k1, 3, 2, 4.0, 3.0, 2.0, 1.0, 3.0, 3.0, 3.0, 3.0);
  }

  lemma Mat4MulExampleColumn3(k1: seq<real>, k2: seq<real>)
    requires |k1| == 16 && |k2| == 16
    requires forall r, c :: 0 <= r < 4 && 0 <= c < 4 ==> k1[Idx4(r, c)] == (c + 1) as real
    requires forall r, c :: 0 <= r < 4 && 0 <= c < 4 ==> k2[Idx4(r, c)] == (4 - c) as real
    ensures Column4(k2, k1, 3) == [40.0, 40.0, 40.0, 40.0]
  {
    Entry4Of(k2, k1, 0, 3, 4.0, 3.0, 2.0, 1.0, 4.0, 4.0, 4.0, 4.0);
    Entry4Of(k2, k1, 1, 3, 4.0, 3.0, 2.0, 1.0, 4.0, 4.0, 4.0, 4.0);
    Entry4Of(k2, k1, 2, 3, 4.0, 3.0, 2.0, 1.0, 4.0, 4.0, 4.0, 4.0);
    Entry4Of(k2, k1, 3, 3, 4.0, 3.0, 2.0, 1.0, 4.0, 4.0, 4.0, 4.0);
  }

  lemma Mat4MulExample(k1: seq<real>, k2: seq<real>)
    requires |k1| == 16 && |k2| == 16
    requires forall r, c :: 0 <= r < 4 && 0 <= c < 4 ==> k1[Idx4(r, c)] == (c + 1) as real
    requires forall r, c :: 0 <= r < 4 && 0 <= c < 4 ==> k2[Idx4(r, c)] == (4 - c) as real
    ensures Product4(k2, k1) ==
              [10.0, 10.0, 10.0, 10.0, 20.0, 20.0, 20.0, 20.0, 30.0, 30.0, 30.0, 30.0, 40.0, 40.0, 40.0, 40.0]
  {
    Mat4MulExampleColumn0(k1, k2);
    Mat4MulExampleColumn1(k1, k2);
    Mat4MulExampleColumn2(k1, k2);
    Mat4MulExampleColumn3(k1, k2);
  }

  /** The 3-by-3 example: a scale-and-translate matrix composed with a rotation-like one. */
  lemma Mat3MulExample(k1: seq<real>, k2: seq<real>)
    requires k1 == [1.0, 0.0, 300.0, 0.0, 2.0, 300.0, 0.0, 0.0, 1.0]
    requires k2 == [-1.836970198, 1.0, 0.0, -1.0, -1.836970198, 0.0, 0.0, 0.0, 1.0]
    ensures Product3(k2, k1) == [-1.836970198, 1.0, 300.0, -2.0, -3.673940396, 300.0, 0.0, 0.0, 1.0]
  {
    assert Column3(k2, k1, 0) == [-1.836970198, 1.0, 300.0] by {
      Entry3Terms(k2, k1, 0, 0); Entry3Terms(k2, k1, 1, 0); Entry3Terms(k2, k1, 2, 0);
    }
    assert Column3(k2, k1, 1) == [-2.0, -3.673940396, 300.0] by {
      Entry3Terms(k2, k1, 0, 1); Entry3Terms(k2, k1, 1, 1); Entry3Terms(k2, k1, 2, 1);
    }
    assert Column3(k2, k1, 2) == [0.0, 0.0, 1.0] by {
      Entry3Terms(k2, k1, 0, 2); Entry3Terms(k2, k1, 1, 2); Entry3Terms(k2, k1, 2, 2);
    }
  }

  /** Columns of ones to fours applied to (3, 3, 3, 0): every component is 18. */
  lemma Mat4TransformExample(kern: seq<real>)
    requires kern == [1.0, 1.0, 1.0, 1.0, 2.0, 2.0, 2.0, 2.0, 3.0, 3.0, 3.0, 3.0, 4.0, 4.0, 4.0, 4.0]
    ensures Transform4(kern, V4(3.0, 3.0, 3.0, 0.0)) == V4(18.0, 18.0, 18.0, 18.0)
  {
  }
}

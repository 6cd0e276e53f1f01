/**
 * The generic `mat_mul` of r2_maths.h: an `r1`-by-`c1` matrix times an
 * `r2`-by-`c2` one. Both inputs are read row by row (`m1[col + row*c1]`,
 * `m2[col + row*c2]`), and every product term is added with `+=` to what
 * `out` already holds.
 *
 * As written, the entry for row `i` and column `j` lands at `j + i*r1`,
 * where the row-by-row layout of an `r1`-by-`c2` result puts it at
 * `j + i*c2`; the scratch buffers are `r1` and `c2` floats long, where `c1`
 * and `r2` are needed. `MatMulAsWritten` models that code; `MatMul` is
 * the corrected routine, and the two coincide for square matrices.
 */
module MatMul {
  import opened Matrices

  /** The four sizes `mat_mul` takes (each an `unsigned char`). */
  datatype Dims = Dims(r1: nat, c1: nat, r2: nat, c2: nat)

  predicate ByteSized(d: Dims)
  {
    d.r1 < 256 && d.c1 < 256 && d.r2 < 256 && d.c2 < 256
  }

  /** `s[k]`, or 0 outside `s`. */
  function Get(s: seq<real>, k: int): real
  {
    if 0 <= k < |s| then s[k] else 0.0
  }

  /**
   * The position of row `i`, column `j` in a grid whose rows are `w` apart,
   * that is `j + i*w` (`FlatIsProduct`). Spelled out by repeated addition so
   * that the loops below reason about positions without products.
   */
  function Flat(i: nat, j: nat, w: nat): nat
  {
    if i == 0 then j else Flat(i - 1, j, w) + w
  }

  /** The first `n` terms of row `i` of `m1` against column `j` of `m2`. */
  function Cell(m1: seq<real>, m2: seq<real>, d: Dims, i: nat, j: nat, n: nat): real
  {
    if n == 0 then 0.0
    else Cell(m1, m2, d, i, j, n - 1) + Get(m1, Flat(i, n - 1, d.c1)) * Get(m2, Flat(n - 1, j, d.c2))
  }

  /** What the pass for row `i` and column `j` adds to `out[k]` when rows of `out` are `stride` apart. */
  function Hit(m1: seq<real>, m2: seq<real>, d: Dims, stride: nat, i: nat, j: nat, k: int): real
  {
    if Flat(i, j, stride) == k then Cell(m1, m2, d, i, j, d.r2) else 0.0
  }

  /** What the passes for row `i` and its first `n` columns add to `out[k]`. */
  function RowAdded(m1: seq<real>, m2: seq<real>, d: Dims, stride: nat, i: nat, k: int, n: nat): real
  {
    if n == 0 then 0.0 else RowAdded(m1, m2, d, stride, i, k, n - 1) + Hit(m1, m2, d, stride, i, n - 1, k)
  }

  /** What the passes for the first `n` rows add to `out[k]`. */
  function Added(m1: seq<real>, m2: seq<real>, d: Dims, stride: nat, k: int, n: nat): real
  {
    if n == 0 then 0.0 else Added(m1, m2, d, stride, k, n - 1) + RowAdded(m1, m2, d, stride, n - 1, k, d.c2)
  }

  // ---------------------------------------------------------------------
  // Index arithmetic

  lemma {:induction false} FlatIsProduct(i: nat, j: nat, w: nat)
    ensures Flat(i, j, w) == j + i * w
  {
    if i > 0 {
      FlatIsProduct(i - 1, j, w);
    }
  }

  lemma MulMono(a: nat, b: nat, m: nat)
    requires a <= b
    ensures a * m <= b * m
  {
    assert b * m == a * m + (b - a) * m;
  }

  /** Every position of an earlier row comes before every position of a later one. */
  lemma FlatRowOrder(i: nat, j: nat, i2: nat, j2: nat, w: nat)
    requires i < i2 && j < w
    ensures Flat(i, j, w) < Flat(i2, j2, w)
  {
    FlatIsProduct(i, j, w);
    FlatIsProduct(i2, j2, w);
    MulMono(i + 1, i2, w);
  }

  /** Row `i` and column `r` of a `rows`-by-`cols` grid, stored row by row, is inside it. */
  lemma InGrid(i: nat, r: nat, rows: nat, cols: nat)
    requires i < rows && r < cols
    ensures Flat(i, r, cols) < rows * cols
  {
    FlatRowOrder(i, r, rows, 0, cols);
    FlatIsProduct(rows, 0, cols);
  }

  /** Two positions with columns below the row width are equal only for the same row and column. */
  lemma FlatUnique(i: nat, j: nat, i2: nat, j2: nat, w: nat)
    requires j < w && j2 < w && Flat(i, j, w) == Flat(i2, j2, w)
    ensures i == i2 && j == j2
  {
    if i < i2 {
      FlatRowOrder(i, j, i2, j2, w);
    } else if i2 < i {
      FlatRowOrder(i2, j2, i, j, w);
    } else {
      FlatIsProduct(i, j, w);
      FlatIsProduct(i2, j2, w);
    }
  }

  /** Positions grow with the row and, within a row, with the column. */
  lemma FlatMono(i: nat, j: nat, i2: nat, j2: nat, w: nat)
    requires i <= i2 && j <= j2
    ensures Flat(i, j, w) <= Flat(i2, j2, w)
  {
    FlatIsProduct(i, j, w);
    FlatIsProduct(i2, j2, w);
    MulMono(i, i2, w);
  }

  /** One more term of a cell, given the two factors as loaded into the scratch buffers. */
  lemma CellStep(m1: seq<real>, m2: seq<real>, d: Dims, i: nat, j: nat, c: nat, x: real, y: real)
    requires Get(m1, Flat(i, c, d.c1)) == x && Get(m2, Flat(c, j, d.c2)) == y
    ensures Cell(m1, m2, d, i, j, c + 1) == Cell(m1, m2, d, i, j, c) + x * y
  {
  }

  // ---------------------------------------------------------------------
  // The routine

  /** The length of the `row` scratch buffer as written: `calloc` of `r1` floats. */
  function RowBufferAsWritten(d: Dims): nat { d.r1 }

  /** The length of the `col` scratch buffer as written: `calloc` of `c2` floats. */
  function ColBufferAsWritten(d: Dims): nat { d.c2 }

  /**
   * `mat_mul` as written: nothing happens unless `c1 == r2`; otherwise
   * every `out[k]` gains the cells that the stride `r1` sends to `k`. The
   * scratch buffers are `r1` and `c2` long, so the routine stays inside them
   * only when `c1 <= r1` and `r2 <= c2`.
   */
  method MatMulAsWritten(m1: array<real>, m2: array<real>, d: Dims, out: array<real>)
    requires ByteSized(d)
    requires d.c1 == d.r2 ==> d.c1 <= RowBufferAsWritten(d) && d.r2 <= ColBufferAsWritten(d)
    requires d.r1 * d.c1 <= m1.Length && d.r2 * d.c2 <= m2.Length
    requires d.c1 == d.r2 && d.r1 > 0 && d.c2 > 0 ==> Flat(d.r1 - 1, d.c2 - 1, d.r1) < out.Length
    requires out != m1 && out != m2
    modifies out
    ensures d.c1 != d.r2 ==> out[..] == old(out[..])
    ensures d.c1 == d.r2 ==>
              forall k :: 0 <= k < out.Length ==> out[k] == old(out[k]) + Added(m1[..], m2[..], d, d.r1, k, d.r1)
  {
    if d.c1 != d.r2 {
      return;
    }
    var row := new real[RowBufferAsWritten(d)];
    var col := new real[ColBufferAsWritten(d)];
    MulRows(m1, m2, d, d.r1, row, col, out);
  }

  /**
   * `mat_mul` as evidently intended: the same loops, with the result stored
   * row by row (stride `c2`) and scratch buffers of `c1` and `r2` floats.
   */
  method MatMul(m1: array<real>, m2: array<real>, d: Dims, out: array<real>)
    requires ByteSized(d)
    requires d.r1 * d.c1 <= m1.Length && d.r2 * d.c2 <= m2.Length
    requires d.c1 == d.r2 ==> d.r1 * d.c2 <= out.Length
    requires out != m1 && out != m2
    modifies out
    ensures d.c1 != d.r2 ==> out[..] == old(out[..])
    ensures d.c1 == d.r2 ==>
              forall k :: 0 <= k < out.Length ==> out[k] == old(out[k]) + Added(m1[..], m2[..], d, d.c2, k, d.r1)
  {
    if d.c1 != d.r2 {
      return;
    }
    var row := new real[d.c1];
    var col := new real[d.r2];
    if d.r1 > 0 && d.c2 > 0 {
      FlatIsProduct(d.r1 - 1, d.c2 - 1, d.c2);
    }
    MulRows(m1, m2, d, d.c2, row, col, out);
  }

  /**
   * The loops of `mat_mul`, with the rows of `out` `stride` apart: for
   * each row of `m1`, load it into `row`, then run the row pass.
   */
  method MulRows(m1: array<real>, m2: array<real>, d: Dims, stride: nat,
                 row: array<real>, col: array<real>, out: array<real>)
    requires d.c1 == d.r2 && d.c1 <= row.Length && d.r2 <= col.Length
    requires d.r1 * d.c1 <= m1.Length && d.r2 * d.c2 <= m2.Length
    requires d.r1 > 0 && d.c2 > 0 ==> Flat(d.r1 - 1, d.c2 - 1, stride) < out.Length
    requires out != m1 && out != m2 && row != m1 && row != m2 && col != m1 && col != m2
    requires row != col && row != out && col != out
    modifies row, col, out
    ensures forall k :: 0 <= k < out.Length ==> out[k] == old(out[k]) + Added(m1[..], m2[..], d, stride, k, d.r1)
  {
    ghost var o := out[..];
    var i := 0;
    while i < d.r1
      invariant 0 <= i <= d.r1
      invariant forall k :: 0 <= k < out.Length ==> out[k] == o[k] + Added(m1[..], m2[..], d, stride, k, i)
    {
      var r := 0;
      while r < d.c1
        invariant 0 <= r <= d.c1
        invariant forall t :: 0 <= t < r ==> row[t] == Get(m1[..], Flat(i, t, d.c1))
        modifies row
      {
        InGrid(i, r, d.r1, d.c1);
        row[r] := m1[Flat(i, r, d.c1)];
        r := r + 1;
      }
      if d.c2 > 0 {
        FlatMono(i, d.c2 - 1, d.r1 - 1, d.c2 - 1, stride);
      }
      RowPass(m1[..], m2, d, stride, i, row, col, out);
      i := i + 1;
    }
  }

  /**
   * One row pass: for each column `j` of `m2`, add row `i` (already in
   * `row`) times that column, loaded term by term into `col`, to
   * `out[Flat(i, j, stride)]`.
   */
  method RowPass(ghost s1: seq<real>, m2: array<real>, d: Dims, stride: nat, i: nat,
                 row: array<real>, col: array<real>, out: array<real>)
    requires d.c1 == d.r2 && d.c1 <= row.Length && d.r2 <= col.Length
    requires d.r2 * d.c2 <= m2.Length
    requires forall t :: 0 <= t < d.c1 ==> row[t] == Get(s1, Flat(i, t, d.c1))
    requires d.c2 > 0 ==> Flat(i, d.c2 - 1, stride) < out.Length
    requires out != m2 && col != m2 && row != col && row != out && col != out
    modifies col, out
    ensures forall k :: 0 <= k < out.Length ==> out[k] == old(out[k]) + RowAdded(s1, m2[..], d, stride, i, k, d.c2)
  {
    ghost var s2, o := m2[..], out[..];
    var j := 0;
    while j < d.c2
      invariant 0 <= j <= d.c2
      invariant forall k :: 0 <= k < out.Length ==> out[k] == o[k] + RowAdded(s1, s2, d, stride, i, k, j)
    {
      FlatMono(i, j, i, d.c2 - 1, stride);
      ghost var base := out[..];
      var c := 0;
      while c < d.r2
        invariant 0 <= c <= d.r2
        invariant forall k :: 0 <= k < out.Length && k != Flat(i, j, stride) ==> out[k] == base[k]
        invariant out[Flat(i, j, stride)] == base[Flat(i, j, stride)] + Cell(s1, s2, d, i, j, c)
      {
        InGrid(c, j, d.r2, d.c2);
        col[c] := m2[Flat(c, j, d.c2)];
        var x, y := row[c], col[c];
        CellStep(s1, s2, d, i, j, c, x, y);
        out[Flat(i, j, stride)] := out[Flat(i, j, stride)] + x * y;
        c := c + 1;
      }
      j := j + 1;
    }
  }

  // ---------------------------------------------------------------------
  // What the corrected routine computes

  /** Within one row pass, only column `j` reaches `j + i*c2`, and only from row `i`. */
  lemma {:induction false} RowAddedAt(m1: seq<real>, m2: seq<real>, d: Dims, i2: nat, i: nat, j: nat, n: nat)
    requires j < d.c2 && n <= d.c2
    ensures RowAdded(m1, m2, d, d.c2, i2, Flat(i, j, d.c2), n) ==
              if i2 == i && j < n then Cell(m1, m2, d, i, j, d.r2) else 0.0
  {
    if n > 0 {
      RowAddedAt(m1, m2, d, i2, i, j, n - 1);
      if Flat(i2, n - 1, d.c2) == Flat(i, j, d.c2) {
        FlatUnique(i2, n - 1, i, j, d.c2);
      }
    }
  }

  /**
   * With stride `c2`, the entry at `j + i*c2` gains exactly row `i` of `m1`
   * against column `j` of `m2`: the row-by-row product.
   */
  lemma {:induction false} AddedIsProduct(m1: seq<real>, m2: seq<real>, d: Dims, i: nat, j: nat, n: nat)
    requires j < d.c2
    ensures Added(m1, m2, d, d.c2, Flat(i, j, d.c2), n) == if i < n then Cell(m1, m2, d, i, j, d.r2) else 0.0
  {
    if n > 0 {
      AddedIsProduct(m1, m2, d, i, j, n - 1);
      RowAddedAt(m1, m2, d, n - 1, i, j, d.c2);
    }
  }

  /** With stride `c2`, nothing is added past the `r1*c2` entries of the result. */
  lemma {:induction false} AddedBeyondResult(m1: seq<real>, m2: seq<real>, d: Dims, k: int, n: nat)
    requires n <= d.r1 && k >= d.r1 * d.c2
    ensures Added(m1, m2, d, d.c2, k, n) == 0.0
  {
    if n > 0 {
      AddedBeyondResult(m1, m2, d, k, n - 1);
      RowAddedBeyond(m1, m2, d, n - 1, k, d.c2);
    }
  }

  lemma {:induction false} RowAddedBeyond(m1: seq<real>, m2: seq<real>, d: Dims, i: nat, k: int, n: nat)
    requires i < d.r1 && n <= d.c2 && k >= d.r1 * d.c2
    ensures RowAdded(m1, m2, d, d.c2, i, k, n) == 0.0
  {
    if n > 0 {
      RowAddedBeyond(m1, m2, d, i, k, n - 1);
      InGrid(i, n - 1, d.r1, d.c2);
    }
  }

  /** The terms `mat_mul` loads for a 3-by-3 cell, read through the `m<r><c>` layout. */
  lemma Loads3(m1: seq<real>, m2: seq<real>, i: nat, j: nat)
    requires |m1| == 9 && |m2| == 9 && i < 3 && j < 3
    ensures Get(m1, Flat(i, 0, 3)) == m1[Idx3(0, i)] && Get(m1, Flat(i, 1, 3)) == m1[Idx3(1, i)]
    ensures Get(m1, Flat(i, 2, 3)) == m1[Idx3(2, i)]
    ensures Get(m2, Flat(0, j, 3)) == m2[Idx3(j, 0)] && Get(m2, Flat(1, j, 3)) == m2[Idx3(j, 1)]
    ensures Get(m2, Flat(2, j, 3)) == m2[Idx3(j, 2)]
  {
    FlatIsProduct(i, 0, 3);
    FlatIsProduct(i, 1, 3);
    FlatIsProduct(i, 2, 3);
  }

  /** A full 3-by-3 cell from the terms loaded for it. */
  lemma Cell3Of(m1: seq<real>, m2: seq<real>, i: nat, j: nat, x0: real, x1: real, x2: real, y0: real, y1: real, y2: real)
    requires Get(m1, Flat(i, 0, 3)) == y0 && Get(m1, Flat(i, 1, 3)) == y1 && Get(m1, Flat(i, 2, 3)) == y2
    requires Get(m2, Flat(0, j, 3)) == x0 && Get(m2, Flat(1, j, 3)) == x1 && Get(m2, Flat(2, j, 3)) == x2
    ensures Cell(m1, m2, Dims(3, 3, 3, 3), i, j, 3) == y0 * x0 + y1 * x1 + y2 * x2
  {
    var d := Dims(3, 3, 3, 3);
    CellStep(m1, m2, d, i, j, 0, y0, x0);
    CellStep(m1, m2, d, i, j, 1, y1, x1);
    CellStep(m1, m2, d, i, j, 2, y2, x2);
  }

  /** A full 3-by-3 cell is the `Entry3` of `M2·M1` with row and column swapped. */
  lemma CellIsEntry3(m1: seq<real>, m2: seq<real>, i: nat, j: nat)
    requires |m1| == 9 && |m2| == 9 && i < 3 && j < 3
    ensures Cell(m1, m2, Dims(3, 3, 3, 3), i, j, 3) == Entry3(m2, m1, j, i)
  {
    var y0, y1, y2 := m1[Idx3(0, i)], m1[Idx3(1, i)], m1[Idx3(2, i)];
    var x0, x1, x2 := m2[Idx3(j, 0)], m2[Idx3(j, 1)], m2[Idx3(j, 2)];
    Loads3(m1, m2, i, j);
    Cell3Of(m1, m2, i, j, x0, x1, x2, y0, y1, y2);
    Entry3Of(m2, m1, j, i, x0, x1, x2, y0, y1, y2);
  }

  /**
   * On 3-by-3 inputs `mat_mul(m1, m2, 3, 3, 3, 3, out)` adds the row-by-row
   * product `m1·m2`, which read through the `m<r><c>` layout is the
   * `M2·M1` that `mat3_mul` computes.
   */
  lemma MatMulMatchesMat3(m1: seq<real>, m2: seq<real>, k: int)
    requires |m1| == 9 && |m2| == 9 && 0 <= k < 9
    ensures Added(m1, m2, Dims(3, 3, 3, 3), 3, k, 3) == Product3(m2, m1)[k]
  {
    var i, j := k / 3, k % 3;
    FlatIsProduct(i, j, 3);
    assert k == Flat(i, j, 3) == Idx3(j, i);
    AddedIsProduct(m1, m2, Dims(3, 3, 3, 3), i, j, 3);
    Product3At(m2, m1, j, i);
    CellIsEntry3(m1, m2, i, j);
  }

  /** The terms `mat_mul` loads for a 4-by-4 cell, read through the `m<r><c>` layout. */
  lemma Loads4(m1: seq<real>, m2: seq<real>, i: nat, j: nat)
    requires |m1| == 16 && |m2| == 16 && i < 4 && j < 4
    ensures Get(m1, Flat(i, 0, 4)) == m1[Idx4(0, i)] && Get(m1, Flat(i, 1, 4)) == m1[Idx4(1, i)]
    ensures Get(m1, Flat(i, 2, 4)) == m1[Idx4(2, i)] && Get(m1, Flat(i, 3, 4)) == m1[Idx4(3, i)]
    ensures Get(m2, Flat(0, j, 4)) == m2[Idx4(j, 0)] && Get(m2, Flat(1, j, 4)) == m2[Idx4(j, 1)]
    ensures Get(m2, Flat(2, j, 4)) == m2[Idx4(j, 2)] && Get(m2, Flat(3, j, 4)) == m2[Idx4(j, 3)]
  {
    FlatIsProduct(i, 0, 4);
    FlatIsProduct(i, 1, 4);
    FlatIsProduct(i, 2, 4);
    FlatIsProduct(i, 3, 4);
  }

  /** A full 4-by-4 cell from the terms loaded for it. */
  lemma Cell4Of(m1: seq<real>, m2: seq<real>, i: nat, j: nat,
                x0: real, x1: real, x2: real, x3: real, y0: real, y1: real, y2: real, y3: real)
    requires Get(m1, Flat(i, 0, 4)) == y0 && Get(m1, Flat(i, 1, 4)) == y1
    requires Get(m1, Flat(i, 2, 4)) == y2 && Get(m1, Flat(i, 3, 4)) == y3
    requires Get(m2, Flat(0, j, 4)) == x0 && Get(m2, Flat(1, j, 4)) == x1
    requires Get(m2, Flat(2, j, 4)) == x2 && Get(m2, Flat(3, j, 4)) == x3
    ensures Cell(m1, m2, Dims(4, 4, 4, 4), i, j, 4) == y0 * x0 + y1 * x1 + y2 * x2 + y3 * x3
  {
    var d := Dims(4, 4, 4, 4);
    CellStep(m1, m2, d, i, j, 0, y0, x0);
    CellStep(m1, m2, d, i, j, 1, y1, x1);
    CellStep(m1, m2, d, i, j, 2, y2, x2);
    CellStep(m1, m2, d, i, j, 3, y3, x3);
  }

  /** A full 4-by-4 cell is the `Entry4` of `M2·M1` with row and column swapped. */
  lemma CellIsEntry4(m1: seq<real>, m2: seq<real>, i: nat, j: nat)
    requires |m1| == 16 && |m2| == 16 && i < 4 && j < 4
    ensures Cell(m1, m2, Dims(4, 4, 4, 4), i, j, 4) == Entry4(m2, m1, j, i)
  {
    var y0, y1, y2, y3 := m1[Idx4(0, i)], m1[Idx4(1, i)], m1[Idx4(2, i)], m1[Idx4(3, i)];
    var x0, x1, x2, x3 := m2[Idx4(j, 0)], m2[Idx4(j, 1)], m2[Idx4(j, 2)], m2[Idx4(j, 3)];
    Loads4(m1, m2, i, j);
    Cell4Of(m1, m2, i, j, x0, x1, x2, x3, y0, y1, y2, y3);
    Entry4Of(m2, m1, j, i, x0, x1, x2, x3, y0, y1, y2, y3);
  }

  /** On 4-by-4 inputs `mat_mul` adds `M2·M1`, as `mat3_mul` does for 3-by-3 ones. */
  lemma MatMulMatchesMat4(m1: seq<real>, m2: seq<real>, k: int)
    requires |m1| == 16 && |m2| == 16 && 0 <= k < 16
    ensures Added(m1, m2, Dims(4, 4, 4, 4), 4, k, 4) == Product4(m2, m1)[k]
  {
    var i, j := k / 4, k % 4;
    FlatIsProduct(i, j, 4);
    assert k == Flat(i, j, 4) == Idx4(j, i);
    AddedIsProduct(m1, m2, Dims(4, 4, 4, 4), i, j, 4);
    Product4At(m2, m1, j, i);
    CellIsEntry4(m1, m2, i, j);
  }

  /**
   * `mat4_mul` as built with `R2_MAT_MUL_LUDICROUS_SPEED` set to 0 (r2_maths.h
   * defines it as 1), through `mat_mul(m1, m2, 4, 4, 4, 4, out)` as written:
   * the product `M2·M1` is added to what `out` holds, so it equals the
   * unrolled `Mat4Mul` exactly when `out` starts zeroed.
   */
  method Mat4MulByMatMul(m1: array<real>, m2: array<real>, out: array<real>)
    requires m1.Length == 16 && m2.Length == 16 && out.Length == 16
    requires out != m1 && out != m2
    modifies out
    ensures forall k :: 0 <= k < 16 ==> out[k] == old(out[k]) + Product4(m2[..], m1[..])[k]
  {
    FlatIsProduct(3, 3, 4);
    MatMulAsWritten(m1, m2, Dims(4, 4, 4, 4), out);
    forall k | 0 <= k < 16
      ensures out[k] == old(out[k]) + Product4(m2[..], m1[..])[k]
    {
      MatMulMatchesMat4(m1[..], m2[..], k);
    }
  }

  /**
   * `mat3_mul` as built with `R2_MAT_MUL_LUDICROUS_SPEED` set to 0, through
   * `mat_mul` as written: `M2·M1` added to what `out` holds.
   */
  method Mat3MulByMatMul(m1: array<real>, m2: array<real>, out: array<real>)
    requires m1.Length == 9 && m2.Length == 9 && out.Length == 9
    requires out != m1 && out != m2
    modifies out
    ensures forall k :: 0 <= k < 9 ==> out[k] == old(out[k]) + Product3(m2[..], m1[..])[k]
  {
    FlatIsProduct(2, 2, 3);
    MatMulAsWritten(m1, m2, Dims(3, 3, 3, 3), out);
    forall k | 0 <= k < 9
      ensures out[k] == old(out[k]) + Product3(m2[..], m1[..])[k]
    {
      MatMulMatchesMat3(m1[..], m2[..], k);
    }
  }

  // ---------------------------------------------------------------------
  // The stride as written

  /**
   * A 2-by-1 matrix of ones times a 1-by-3 matrix of ones: the product is
   * six ones, but as written the entries for row 0, column 2 and for row 1,
   * column 0 both land on index 2, which gains 2.
   */
  lemma StrideCounterexample(m1: seq<real>, m2: seq<real>, d: Dims)
    requires m1 == [1.0, 1.0] && m2 == [1.0, 1.0, 1.0] && d == Dims(2, 1, 1, 3)
    ensures Added(m1, m2, d, d.r1, 2, d.r1) == 2.0
    ensures Added(m1, m2, d, d.c2, 2, d.r1) == 1.0
  {
    assert Cell(m1, m2, d, 0, 2, 1) == 1.0;
    assert Cell(m1, m2, d, 1, 0, 1) == 1.0;
    assert RowAdded(m1, m2, d, 2, 0, 2, 1) == 0.0;
    assert RowAdded(m1, m2, d, 2, 0, 2, 2) == 0.0;
    assert RowAdded(m1, m2, d, 2, 0, 2, 3) == 1.0;
    assert RowAdded(m1, m2, d, 2, 1, 2, 1) == 1.0;
    assert RowAdded(m1, m2, d, 2, 1, 2, 2) == 1.0;
    assert RowAdded(m1, m2, d, 2, 1, 2, 3) == 1.0;
    assert Added(m1, m2, d, 2, 2, 1) == 1.0;
    AddedIsProduct(m1, m2, d, 0, 2, 2);
  }

  // ---------------------------------------------------------------------
  // The scratch buffers as written

  /**
   * A 1-by-2 matrix times a 2-by-1 one: the sizes agree, yet the row loop
   * stores `c1 = 2` floats into a `row` of `r1 = 1` and the column loop
   * `r2 = 2` floats into a `col` of `c2 = 1`, each one past its end.
   */
  lemma ScratchOverflow(d: Dims)
    requires d == Dims(1, 2, 2, 1)
    ensures ByteSized(d) && d.c1 == d.r2
    ensures RowBufferAsWritten(d) < d.c1 && ColBufferAsWritten(d) < d.r2
  {
  }

  // ---------------------------------------------------------------------
  // The result buffer as written

  /**
   * A 2-by-1 matrix times a 1-by-1 one: both scratch buffers are large
   * enough, yet the store for row 1, column 0 goes to `0 + 1*r1 = 2`, past
   * the two floats of the 2-by-1 result; the stride `c2` puts it at 1.
   */
  lemma OutOverrun(d: Dims)
    requires d == Dims(2, 1, 1, 1)
    ensures ByteSized(d) && d.c1 == d.r2
    ensures d.c1 <= RowBufferAsWritten(d) && d.r2 <= ColBufferAsWritten(d)
    ensures Flat(1, 0, d.r1) == d.r1 * d.c2
    ensures Flat(1, 0, d.c2) < d.r1 * d.c2
  {
  }
}

# r2 maths and UTF-8 helpers in Dafny

This project models two parts of the r2 single-header C library:

- The exact-arithmetic part of `r2_maths.h`:
  - `vec2`, `vec3` and `vec4` arithmetic;
  - the quaternion product, conjugate, rotation of a vector and rotation matrix;
  - the fixed-size `mat3` and `mat4` writers and products;
  - the generic `mat_mul`.
- The UTF-8 helper in `r2_strings.h`:
  - the lead-byte table `utf[]`;
  - `utf8_len`, `to_rune`, `str_to_utf8`;
  - the string constructor `S`.

## Files

| file | module | what it holds |
|---|---|---|
| `vectors.dfy` | `Vectors` | value types `V2`/`V3`/`V4`, classes `Vec2` and `Vec4` for the C unions that the writers update in place, the `vec*` operations |
| `matrices.dfy` | `Matrices` | the flat column-major `mat3`/`mat4` layout, `mat4_set`, the identities, `mat4_transform`, the unrolled `mat4_mul`/`mat3_mul` |
| `matmul.dfy` | `MatMul` | the generic `mat_mul`, as written and corrected, and `mat4_mul`/`mat3_mul` as built on it when `R2_MAT_MUL_LUDICROUS_SPEED` is set to 0 |
| `quaternions.dfy` | `Quaternions` | the `quat_*` operations and the algebra behind them |
| `utf8.dfy` | `Utf8` | the `utf[]` table, the decoder, the code-point counter, and a reference encoder used to state round trips |

## Modelling decisions

Floats and the vector types:

- A C `float` is a `real`. Every property proved is exact: rounding is not modelled.
- `vec3`, `vec4`, `quat` and `color` are one union of four floats.
  - The model gives them one class, `Vec4`.
  - The `vec3_*` writers leave `w` as it was, and their contracts say so.
- Every writer takes an `out` pointer, and callers are free to pass one of the inputs as `out`.
  - The classes have the fields that the C code assigns one statement at a time.
  - Contracts describe the result in terms of the inputs' `old` values.
  - Each writer is therefore proved correct under aliasing. The exceptions are:
    - `vec3_cross` and `mat4_transform` read an input after overwriting `out`. Their models require `out` to be distinct from that input.
    - `mat4_mul`, `mat3_mul` and `mat_mul` read an input after overwriting `out`. Their models require `out` to be distinct from both inputs.

Matrices:

- Field `m<r><c>` of a `mat4` sits at flat index `r + 4c`, and of a `mat3` at `r + 3c` (column-major).
- Read through that layout:
  - `mat4_mul(m1, m2, out)` and `mat3_mul(m1, m2, out)` compute the product `M2·M1`;
  - `mat4_transform(p, m, out)` computes `M·p`.
- `mat4_set` copies its 16 values index for index, so its argument is in column-major order.
  - The transform test (tests/r2_maths.c:371-374) passes the arguments of `vec4_set` and `mat4_set` in swapped order.
  - The 18s it expects hold only if the kernel holds the 16 values read index for index (`Matrices.Mat4TransformExample`).
- r2_maths.h defines `R2_MAT_MUL_LUDICROUS_SPEED` as 1 (line 44), so `mat4_mul` and `mat3_mul` are built as unrolled loops.
  - With the switch set to 0 they call `mat_mul`, which adds into `out` with `+=`.
  - Both builds are modelled: `Matrices.Mat4Mul` is the unrolled loop, and `MatMul.Mat4MulByMatMul` is the build with the switch set to 0.
  - The two agree when `out` starts zeroed.

Quaternions:

- A quaternion keeps its real part in `w`.
- `quat_mat4(q)` is the matrix of `p ↦ conj(q)·p` in coordinates that put the real part first. `QuatMatrixIsConjugateProduct` proves this.

UTF-8:

- A C `char` is its 8 bits (`bv8`), and a `rune` is a `bv32`.
- `utf8_len` and `str_to_utf8` have two ways to go outside defined behaviour. Each becomes a `Fail` value of the model's `Result`:
  - `utf8_len` walks past the end of `utf[]` on a byte of `0xF8` or above. No entry matches such a byte, and the zeroed last entry is a non-null pointer, so it does not stop the walk.
  - `str_to_utf8` reads past the end of its buffer when a lead byte announces more bytes than remain.
- `str_to_utf8` bounds its loop by `src_size` iterations, not bytes. `S` passes `strlen(s)`.
  - For well-formed text, `strlen(s)` is at least the number of sequences, so the count stops at the terminating NUL (`SCountsCodePoints`).
  - Otherwise it need not. A stray continuation byte has length 0, so `srci` never moves and the count runs until the bound is used up (`StrayContinuationRepeats`).
  - A lead byte whose sequence is cut short inside the buffer steps over a NUL (`TruncatedStepsOverNul`).
- `to_rune` also goes outside defined behaviour on a byte that does not start a sequence. The model's `ToRune` requires such a byte instead (see "## Left out").
- Continuation bytes, overlong forms and surrogates are not checked; `NothingIsRejected` shows examples.

## Model

| member | source | states |
|---|---|---|
| Vectors.Vec2.constructor | r2_maths.h:60-66 | a `vec2` holds the two floats it is built from |
| Vectors.Vec4.constructor | r2_maths.h:74-83 | a `vec3`/`vec4`/`quat` holds the four floats it is built from |
| Vectors.Vec2Zero | r2_maths.h:259-263 | `out` becomes (0, 0) |
| Vectors.Vec2Set | r2_maths.h:270-274 | x and y are set, and z and w of the union are untouched |
| Vectors.Vec2Add | r2_maths.h:276-280 | `out` is the componentwise sum of the old inputs, even when `out` aliases an input |
| Vectors.Vec2Sub | r2_maths.h:282-286 | `out` is the componentwise difference of the old inputs |
| Vectors.Vec2Div | r2_maths.h:288-293 | `out` is the input scaled by 1/fac, or left equal to the input when fac is 0 |
| Vectors.Vec2DivVec2 | r2_maths.h:295-299 | componentwise quotient, with a zero divisor component leaving that component as it was |
| Vectors.Vec2Mul | r2_maths.h:301-305 | `out` is the input scaled by fac |
| Vectors.Vec2MulVec2 | r2_maths.h:307-311 | componentwise product |
| Vectors.Vec3Zero | r2_maths.h:363-368 | x, y, z become 0 and w is untouched |
| Vectors.Vec3Set | r2_maths.h:375-380 | x, y, z are set and w is untouched |
| Vectors.Vec3Add | r2_maths.h:382-387 | x, y, z are the sum of the old inputs, and w of `out` is untouched |
| Vectors.Vec3Sub | r2_maths.h:389-394 | x, y, z are the difference of the old inputs, and w is untouched |
| Vectors.Vec3Div | r2_maths.h:396-402 | the input scaled by 1/fac, and unchanged when fac is 0; w is untouched |
| Vectors.Vec3DivVec3 | r2_maths.h:404-409 | componentwise quotient with zero divisors skipped; w is untouched |
| Vectors.Vec3Mul | r2_maths.h:411-416 | the input scaled by fac; w is untouched |
| Vectors.Vec3MulVec3 | r2_maths.h:418-423 | componentwise product; w is untouched |
| Vectors.Vec3Cross | r2_maths.h:437-442 | `out` is the cross product of the inputs, and w is untouched |
| Vectors.Vec3Normalize | r2_maths.h:474-481 | a zero vector gives zero; otherwise the result is the input divided by its length and has squared length 1 |
| Vectors.Vec4Zero | r2_maths.h:486-492 | all four components become 0 |
| Vectors.Vec4Set | r2_maths.h:499-506 | the four components are the first four array entries |
| Vectors.Vec4Add | r2_maths.h:508-514 | componentwise sum of the old inputs |
| Vectors.Vec4Sub | r2_maths.h:516-522 | componentwise difference of the old inputs |
| Vectors.Vec4Div | r2_maths.h:524-531 | the input scaled by 1/fac, and unchanged when fac is 0 |
| Vectors.Vec4Mul | r2_maths.h:533-539 | the input scaled by fac |
| Vectors.Vec4MulVec4 | r2_maths.h:541-547 | componentwise product |
| Vectors.Dot2 | r2_maths.h:319-322 | `vec2_dot`: the sum of the componentwise products (its test value is in `VectorExamples`) |
| Vectors.LengthSqrd2 | r2_maths.h:324-330 | `vec2_length_sqrd`: the sum of the squared components |
| Vectors.DistSqrd2 | r2_maths.h:337-340 | `vec2_dist_sqrd`: the sum of the squared component differences (`DistSqrdIsLengthOfDifference`) |
| Vectors.Dot3 | r2_maths.h:432-435 | `vec3_dot`: the sum of the componentwise products |
| Vectors.Cross | r2_maths.h:437-442 | the cross product `vec3_cross` writes (`CrossIsPerpendicular`) |
| Vectors.LengthSqrd3 | r2_maths.h:444-448 | `vec3_length_sqrd`: the sum of the squared components |
| Vectors.DistSqrd3 | r2_maths.h:455-459 | `vec3_dist_sqrd`: the sum of the squared component differences |
| Vectors.Dot4 | r2_maths.h:573-576 | `vec4_dot`, which `quat_dot` (r2_maths.h:648-651) calls: the sum of the four componentwise products |
| Vectors.DistSqrd4AsWritten | r2_maths.h:583-587 | `vec4_dist_sqrd` as written, with `v1->y` in the z and w terms (`DistSqrd4Counterexample`) |
| Vectors.SubUndoesAdd | r2_maths.h:276-286 | subtracting `b` undoes adding `b`, for 2, 3 and 4 components |
| Vectors.DivUndoesMul | r2_maths.h:288-305 | dividing by a nonzero `fac` undoes multiplying by it (at 0 the product is zero, and `DivByZeroIsIdentity` covers division by 0) |
| Vectors.ScaleBack | r2_maths.h:396-402 | one component of that round trip |
| Vectors.DivByZeroIsIdentity | r2_maths.h:288-293 | dividing by 0 leaves the vector unchanged |
| Vectors.DivVecUndoesMulVec | r2_maths.h:404-423 | a componentwise quotient undoes the componentwise product |
| Vectors.DivVecByZeroComponents | r2_maths.h:295-299 | a zero divisor component leaves that component unchanged |
| Vectors.Dot2Symmetric | r2_maths.h:319-330 | `vec2_dot` is symmetric, and `vec2_length_sqrd` is the dot of a vector with itself |
| Vectors.DotSymmetric | r2_maths.h:432-448 | the dot products are symmetric, and `vec3_length_sqrd` is the dot of a vector with itself |
| Vectors.DistSqrdIsLengthOfDifference | r2_maths.h:337-340 | `vec2_dist_sqrd` is the squared length of the difference, and the same either way round |
| Vectors.CrossIsPerpendicular | r2_maths.h:437-442 | the cross product is perpendicular to both inputs, antisymmetric, and zero for a vector with itself |
| Vectors.NormalizedHasUnitLength | r2_maths.h:474-481 | a nonzero vector divided by its length has squared length 1 |
| Vectors.DistSqrd4IsDotOfDifference | r2_maths.h:583-587 | the corrected `vec4_dist_sqrd` is the dot of the difference with itself, is symmetric, and is 0 from a vector to itself |
| Vectors.DistSqrd4Counterexample | r2_maths.h:583-587 | as written, the distance from (0, 0, 1, 0) to itself is 1; corrected, it is 0 |
| Vectors.VectorExamples | tests/r2_maths.c:36-109 | the values the vec2/vec3 tests expect, including division by zero and the cross product |
| Matrices.Mat4Set | r2_maths.h:788-809 | the matrix holds the first 16 array values in flat order, even when the arrays alias |
| Matrices.Mat4Identity | r2_maths.h:778-784 | the diagonal becomes 1 and every other cell keeps its value, so a zeroed matrix becomes the identity |
| Matrices.Mat3Identity | r2_maths.h:903-908 | the same for a `mat3` |
| Matrices.Mat4Transform | r2_maths.h:811-817 | `out` is the matrix times the vector |
| Matrices.Mat4Mul | r2_maths.h:838-864 | the unrolled loop leaves `M2·M1` in `out` |
| Matrices.Mat4MulColumn | r2_maths.h:840-862 | one pass of the outer loop fills column `i/4` and leaves the other cells alone |
| Matrices.Mat3Mul | r2_maths.h:911-952 | the unrolled 3-by-3 loop leaves `M2·M1` in `out` |
| Matrices.Mat3MulColumn | r2_maths.h:911-952 | one pass of the outer loop fills one column |
| Matrices.Entry4Terms | r2_maths.h:853-858 | a product entry is the four-term row-by-column sum |
| Matrices.Entry3Terms | r2_maths.h:911-952 | the same for three terms |
| Matrices.Product4At | r2_maths.h:820-864 | the product has 16 cells, and cell `m<r><c>` is the row-`r`-by-column-`c` sum |
| Matrices.Product3At | r2_maths.h:911-952 | the same for `mat3` |
| Matrices.Product4FromEntries | r2_maths.h:820-864 | a flat matrix whose every cell is the matching entry is the product |
| Matrices.Product3FromEntries | r2_maths.h:911-952 | the same for `mat3` |
| Matrices.Identity4IsUnit | r2_maths.h:778-784 | the identity is a left and a right unit of the 4-by-4 product |
| Matrices.Identity3IsUnit | r2_maths.h:903-908 | the identity is a left and a right unit of the 3-by-3 product |
| Matrices.Identity4Transform | r2_maths.h:811-817 | transforming by the identity leaves the vector unchanged |
| Matrices.RowOfProduct | r2_maths.h:811-864 | row `r` of `M2·M1` applied to `p` equals row `r` of `M2` applied to `M1·p` |
| Matrices.TransformOfProduct | r2_maths.h:811-864 | transforming by `mat4_mul`'s product is transforming by `M1` and then by `M2` |
| Matrices.Mat4MulExample | tests/r2_maths.c:412-439 | the product of the two test matrices has every column `c` equal to 10(c+1) |
| Matrices.Mat3MulExample | tests/r2_maths.c:537-575 | the 3-by-3 product of the test matrices is the expected matrix |
| Matrices.Mat4TransformExample | tests/r2_maths.c:364-382 | the test kernel sends (3, 3, 3, 0) to (18, 18, 18, 18) |
| MatMul.MatMulAsWritten | r2_maths.h:957-994 | nothing changes when `c1 != r2`; otherwise each cell gains the product terms that the stride `r1` sends to it |
| MatMul.MatMul | r2_maths.h:957-994 | the corrected routine, storing with stride `c2`: nothing changes when `c1 != r2`; otherwise each cell gains its product terms |
| MatMul.MulRows | r2_maths.h:971-991 | the outer loop adds the cells of every row of `m1` |
| MatMul.RowPass | r2_maths.h:981-990 | the inner loops add the cells of one row |
| MatMul.FlatIsProduct | r2_maths.h:975 | the repeated-addition position is `j + i*w` |
| MatMul.FlatUnique | r2_maths.h:988 | stride `c2` gives distinct cells distinct positions |
| MatMul.InGrid | r2_maths.h:975 | every loaded element lies inside its matrix |
| MatMul.AddedIsProduct | r2_maths.h:957-994 | with stride `c2`, each result cell gains exactly its row-by-column sum, and only once |
| MatMul.AddedBeyondResult | r2_maths.h:957-994 | with stride `c2`, nothing is added beyond the `r1*c2` result |
| MatMul.CellIsEntry3 | r2_maths.h:911-914 | a 3-by-3 `mat_mul` cell is the `mat3_mul` entry with row and column swapped |
| MatMul.MatMulMatchesMat3 | r2_maths.h:911-914 | on 3-by-3 inputs, `mat_mul` adds exactly the `mat3_mul` product |
| MatMul.CellIsEntry4 | r2_maths.h:820-823 | a 4-by-4 `mat_mul` cell is the `mat4_mul` entry with row and column swapped |
| MatMul.MatMulMatchesMat4 | r2_maths.h:820-823 | on 4-by-4 inputs, `mat_mul` adds exactly the `mat4_mul` product |
| MatMul.Mat4MulByMatMul | r2_maths.h:820-823 | `mat4_mul` built with `R2_MAT_MUL_LUDICROUS_SPEED` set to 0 calls `mat_mul` as written and adds `M2·M1` to what `out` held |
| MatMul.Mat3MulByMatMul | r2_maths.h:911-914 | `mat3_mul` built with `R2_MAT_MUL_LUDICROUS_SPEED` set to 0 calls `mat_mul` as written and adds `M2·M1` to what `out` held |
| MatMul.OutOverrun | r2_maths.h:988 | for a 2-by-1 times a 1-by-1 matrix, the scratch buffers suffice but row 1, column 0 is stored at index 2, one past the 2-float result; the stride `c2` stores it at 1 |
| MatMul.ScratchOverflow | r2_maths.h:966-986 | for a 1-by-2 times a 2-by-1 matrix, the `row` buffer of `r1` floats is shorter than the `c1` stored into it, and the `col` buffer of `c2` floats is shorter than the `r2` stored into it |
| MatMul.StrideCounterexample | r2_maths.h:957-994 | for a 2-by-1 times a 1-by-3 matrix of ones, index 2 gains 2 as written and 1 corrected |
| Quaternions.QuatZero | r2_maths.h:622-628 | all four components become 0 |
| Quaternions.QuatIdentity | r2_maths.h:630-636 | the quaternion becomes (0, 0, 0, 1) |
| Quaternions.QuatAdd | r2_maths.h:638-641 | componentwise sum of the old inputs |
| Quaternions.QuatSub | r2_maths.h:643-646 | componentwise difference of the old inputs |
| Quaternions.QuatMulQuat | r2_maths.h:694-718 | `out` is the Hamilton product of the old inputs, even when `out` is one of them |
| Quaternions.QuatConj | r2_maths.h:720-726 | x, y, z are negated and w kept, even in place |
| Quaternions.QuatMulVec3 | r2_maths.h:733-741 | `out` is `q·v·conj(q)` of the old inputs |
| Quaternions.QuatMat4 | r2_maths.h:743-773 | the 16 cells written are those of the matrix of `q` |
| Quaternions.HamiltonIsScalarVector | r2_maths.h:694-718 | the product is the textbook one: real part `pw qw − p·q`, vector part `pw q + qw p + p×q` |
| Quaternions.HamiltonIdentity | r2_maths.h:630-636 | (0, 0, 0, 1) is a left and a right unit of the product |
| Quaternions.HamiltonAssociative | r2_maths.h:694-718 | the product is associative |
| Quaternions.ConjInvolution | r2_maths.h:720-726 | conjugating twice gives the quaternion back |
| Quaternions.ConjOfProduct | r2_maths.h:694-726 | the conjugate of a product is the product of the conjugates in reverse order |
| Quaternions.ProductWithConj | r2_maths.h:648-651 | `q·conj(q)` and `conj(q)·q` are the real number `quat_dot(q, q)` |
| Quaternions.NormOfProduct | r2_maths.h:648-718 | the squared norm of a product is the product of the squared norms |
| Quaternions.RotateByIdentity | r2_maths.h:733-741 | rotating by the identity quaternion leaves the vector unchanged |
| Quaternions.RotateRealPart | r2_maths.h:733-741 | the real part of `q·v·conj(q)` is `|q|²` times that of `v` |
| Quaternions.RotatePreservesNorm | r2_maths.h:733-741 | rotating by a unit quaternion keeps the squared norm |
| Quaternions.RotateComposes | r2_maths.h:694-741 | rotating by `p·q` is rotating by `q` and then by `p` |
| Quaternions.QuatMatrixOfIdentity | r2_maths.h:743-773 | the matrix of the identity quaternion is the identity matrix |
| Quaternions.QuatMatrixIsConjugateProduct | r2_maths.h:743-773 | the matrix applied to `p` is `conj(q)·p`, real part first |
| Quaternions.ConjExample | tests/r2_maths.c:236-248 | the conjugate of (0.5, 0.3, 0.2, 0.1) is (−0.5, −0.3, −0.2, 0.1) |
| Quaternions.MulQuatExample | tests/r2_maths.c:250-269 | the product of the two test quaternions has the expected components |
| Quaternions.QuarterTurnAboutZ | tests/r2_maths.c:271-294 | a quarter turn about z sends x to y |
| Quaternions.QuarterTurnAboutX | tests/r2_maths.c:296-318 | a quarter turn about x sends y to z |
| Quaternions.HalfTurnAboutX | tests/r2_maths.c:320-334 | a half turn about x sends y to −y |
| Utf8.Utf8Len | r2_strings.h:90-102 | the index of the first matching table entry, which is the sequence length (0 for a continuation byte); bytes from 0xF8 up walk off the table |
| Utf8.FirstMatchIsSequenceLength | r2_strings.h:71-76 | the sequence length is the first entry that matches, and no entry matches from 0xF8 up |
| Utf8.MatchDecidesLength | r2_strings.h:90-102 | a byte matching entry `len` with none before it has that sequence length |
| Utf8.SentinelNeverStops | r2_strings.h:76 | the zeroed entry matches only NUL, which entry 1 already takes |
| Utf8.TableRanges | r2_strings.h:68-78 | the code-point ranges of `utf[]` start at 0, follow one another without a gap, end at U+10FFFF and fit their payload bits; the stored bit counts are 7, 5, 4, 3 and 6 for continuation bytes |
| Utf8.TableMasks | r2_strings.h:71-75 | entry 0 keeps 6 payload bits, and entry `n` keeps the payload bits of an `n`-byte lead |
| Utf8.ToRune | r2_strings.h:104-115 | the rune is the lead payload followed by six bits from each continuation byte |
| Utf8.PartialComplete | r2_strings.h:108-113 | after the loop, the shifted partial value is the assembled code point |
| Utf8.AssembleBound | r2_strings.h:71-75 | an `n`-byte sequence decodes below the `n`-byte limit of the table |
| Utf8.AsciiDecodesToItself | r2_strings.h:72 | a one-byte sequence decodes to its byte |
| Utf8.EncodeLead | r2_strings.h:71-76 | the encoding of a scalar value starts with a lead byte whose length is the encoding's length |
| Utf8.DecodeEncode | r2_strings.h:104-115 | `to_rune` of the encoding of any scalar value gives it back |
| Utf8.EncodeDecode | r2_strings.h:104-115 | a well-formed sequence is the encoding of what `to_rune` decodes |
| Utf8.WavingHand | tests/r2_strings.c:42-53 | F0 9F 91 8B decodes to U+1F44B, and back |
| Utf8.NothingIsRejected | r2_strings.h:104-115 | overlong, out-of-range, surrogate and broken sequences are decoded without complaint |
| Utf8.CopySequence | r2_strings.h:126-130 | the copy succeeds exactly when the sequence lies inside the buffer, and then holds its bytes |
| Utf8.StrToUtf8 | r2_strings.h:117-152 | the result is the scan: counting sequences until NUL or `src_size` iterations, or failing past the buffer or the table |
| Utf8.ScanStopsAtNul | r2_strings.h:124-125 | the count stops at NUL |
| Utf8.ScanAdvances | r2_strings.h:130-149 | each iteration counts one and moves past the sequence |
| Utf8.ScanTruncated | r2_strings.h:128-131 | a sequence running off the buffer fails |
| Utf8.Strlen | r2_strings.h:84-86 | `strlen` is the position of the first NUL |
| Utf8.S | r2_strings.h:80-88 | NULL gives the empty string; otherwise size is `strlen` and len is `str_to_utf8` of it |
| Utf8.EncodeAllHasNoNul | r2_strings.h:117-152 | an encoded text has no NUL inside it |
| Utf8.ScanSequences | r2_strings.h:117-152 | over well-formed sequences followed by NUL, the scan counts the sequences, capped by the bound |
| Utf8.ScanEncoded | r2_strings.h:117-152 | over the encoding of code points followed by NUL, the scan counts the code points |
| Utf8.SCountsCodePoints | r2_strings.h:80-88 | `S` of an encoded text counts its code points |
| Utf8.ScanAscii | r2_strings.h:139-144 | over bytes below 0x80, the count is the number of bytes |
| Utf8.StrayContinuationRepeats | r2_strings.h:133-149 | a continuation byte has length 0, so the scan counts it over and over without moving |
| Utf8.TruncatedStepsOverNul | r2_strings.h:126-149 | a sequence cut short inside the buffer is stepped over whole, NUL included |
| Utf8.TruncatedSequence | r2_strings.h:126-130 | a lead byte near the end of the buffer reads past it |
| Utf8.NoEntryForF8 | r2_strings.h:90-102 | byte 0xF8 walks off the table |
| Utf8.BlankString | tests/r2_strings.c:22-29 | `S("")` has size 0 and len 0 |
| Utf8.ThisIsATest | tests/r2_strings.c:13-20 | "This is a test" has size 14 and len 14 |
| Utf8.MixedScripts | tests/r2_strings.c:42-53 | the 7-code-point emoji and Chinese string has size 24 and len 7 |
| Utf8.MixedScriptsRunes | tests/r2_strings.c:42-53 | its runes 0, 1 and 6 are U+1F44B, U+1F44F and U+1F63A |
| Utf8.FamilyOfThree | tests/r2_strings.c:70-114 | man, ZWJ, woman, ZWJ, boy has size 18 and len 5 |
| Utf8.RainbowFlag | tests/r2_strings.c:116-136 | the rainbow flag has size 14 and len 4 |

## Left out

- Everything that needs `sqrt`, trigonometry, `pow` or `fabs` is not modelled, because those operations are not exact over the reals:
  - the vector lengths and normals, except the zero branch of `vec3_normalize`;
  - `quat_length`, `quat_magnitude`, `quat_normalize`, `quat_from_euler`, `quat_rot2q`;
  - `mat4_perspective`, `deg_to_rad`;
  - the `*_pow`, `*_abs` and `*_sqrt` helpers;
  - the `*_equals` functions and `r2_equals`.
- Float rounding and NaN: every float is a `real`.
- Vec3Normalize: the length is a parameter that satisfies `len*len == |v|²`, because `sqrt` is outside the model.
- Vec3Cross: requires `out` to differ from both inputs, because the C code reads an input after writing `out`.
- Mat4Transform: requires `out` to differ from `p`, for the same reason.
- Matrices.Mat4Mul, Matrices.Mat3Mul, MatMul.Mat4MulByMatMul, MatMul.Mat3MulByMatMul, MatMul.MatMul and MatMul.MatMulAsWritten: require `out` to differ from both inputs, for the same reason.
- MatMul.MatMulAsWritten: requires that the scratch buffers (`r1` and `c2` floats) are large enough for the row and column loaded (`c1` and `r2`), and that `out` holds every position the stride `r1` reaches. Past those bounds the C code writes outside its buffers. Both are findings below: the scratch buffers in `ScratchOverflow`, and `out` in `OutOverrun`.
- `mat_mul` uses `unsigned char` loop counters, so sizes of 256 and more are not possible; the model requires every size below 256 (`ByteSized`). A failed `calloc` and the `free` calls are not modelled.
- The OpenMP `#pragma` lines: the loops are modelled as sequential code.
- `vec4_to_array`, the remaining `to_array` helpers and printing are not part of this model.
- Utf8.ToRune: requires a byte that starts a sequence (`0x00`..`0x7F` or `0xC0`..`0xF7`), with all its bytes present. On a continuation byte `utf8_len` gives 0, so the shift is -6 and `<< -6` is undefined in C. On `0xF8`..`0xFF` the table walk runs off `utf[]`. Neither has a defined result to model. The only caller, `str_to_utf8` (r2_strings.h:137), passes only leads whose length is above 1.
- `str_to_utf8` computes each rune with `to_rune` and discards it. The model decodes through `ToRune` but does not collect the runes, because the C code never stores them.
- `S` keeps a pointer to the caller's string. The model returns its bytes as a value. The tests release strings with a `free_S` (tests/r2_strings.c:18) that r2_strings.h does not define; it is not part of this model.
- The mixed-script test (tests/r2_strings.c:47-50) reads `str.rune[0..7]`, but the `s8` of r2_strings.h:19-24 has no `rune` field, so that test does not compile against this header. `MixedScriptsRunes` states what `to_rune` gives for the byte slices of the expected runes. The `rune[7] == 0` assertion is not modelled.
- A NULL argument to `S` is `None`. The uninitialised `malloc` buffer of the `create_string_null` test has no defined contents, so that test is not modelled.
- `r2_window.h`, `r2_unit.h` and the terminal UI are not part of this model.

## Findings

| source | as written | input that shows it | evidently intended | confidence | as-written member | corrected member |
|---|---|---|---|---|---|---|
| r2_maths.h:583-587 | the z and w terms of `vec4_dist_sqrd` subtract `v2->z` and `v2->w` from `v1->y` | `v1 = v2 = (0, 0, 1, 0)` gives 1, not 0 | `(v1->z - v2->z)²` and `(v1->w - v2->w)²` | high, not executed | Vectors.DistSqrd4Counterexample | Vectors.DistSqrd4IsDotOfDifference |
| r2_maths.h:957-994 | `mat_mul` stores row `i`, column `j` of the result at `j + i*r1` | a 2-by-1 matrix of ones times a 1-by-3 matrix of ones: index 2 receives both `(0,2)` and `(1,0)`, so it holds 2 | store at `j + i*c2`, the row-by-row layout of an `r1`-by-`c2` result | high, not executed | MatMul.StrideCounterexample | MatMul.AddedIsProduct |
| r2_maths.h:966-986 | `mat_mul` allocates `row` with `r1` floats and `col` with `c2` floats, then stores `c1` floats into `row` and `r2` floats into `col` | a 1-by-2 matrix times a 2-by-1 matrix: `row[1]` and `col[1]` are written one past the end of their buffers | allocate `c1` floats for `row` and `r2` floats for `col` | high, not executed | MatMul.ScratchOverflow | MatMul.MatMul |
| r2_maths.h:988 | the store `out[j + i*r1]` reaches index `(c2 - 1) + (r1 - 1)*r1`, past the `r1*c2` floats of the result whenever `r1 > c2` | a 2-by-1 matrix times a 1-by-1 matrix: both scratch buffers are large enough, but row 1, column 0 is stored at index 2 of a 2-float result | store at `j + i*c2`, which stays below `r1*c2` | high, not executed | MatMul.OutOverrun | MatMul.AddedBeyondResult |

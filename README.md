# cgmath in Dafny

This project is a model of cgmath, a small C library of single-precision
vectors (vec2f, vec3f, vec4f) and square matrices (mat2f, mat3f, mat4f)
meant for graphics code. Its core is determinant and inverse by cofactor
expansion and the adjugate, for the 2x2, 3x3 and 4x4 sizes. Around that
core sit the plain routines: zero, identity, add, scale, multiply,
transpose, row and column accessors, dot product, squared magnitude and
the 3D vector product.

The C routines come in two shapes, and the model keeps both:

- A routine that produces a matrix or a vector writes it into a
  fixed-size `float` array passed by address. Each of these is a Dafny
  `method` over `array2<real>` (matrices) or `array<real>` (vectors).
- The determinants, scalar products and squared magnitudes return a
  `float`. Each of these is a Dafny function: `Mat2f.Determinant`,
  `Mat3f.Determinant`, `Mat4f.Determinant`, and `ScalarProd` and `SqrMag`
  in each of `Vec2f`, `Vec3f` and `Vec4f`.
- Like the C code, a method computes into a fresh local `tmp` and then
  copies it into `dest`. The postconditions are stated over
  `old(...)` of the inputs, so they also hold when `dest` is an input
  (`mat4f_inverse` itself calls `mat4f_transpose(&tmp, &tmp)`).
- Each method is proved against a pure function over
  `seq<seq<real>>` or `seq<real>`.
- The `Matrix` and `Vector` modules hold the textbook reference
  definitions. These are the entry-wise operations, the row-by-column
  product, transpose, minors, the Laplace determinant along row 0,
  cofactors and the adjugate inverse.
- The per-size modules (`Mat2f`, `Mat3f`, `Mat4f`, `Vec2f`, `Vec3f`,
  `Vec4f`) model each C file routine by routine.
- Lemmas relate what each routine computes to the reference.

The C code is modelled as written. Where it departs from the textbook
operation, the model proves exactly how it departs and adds a corrected
member proved against the reference (see "## Findings").

Where a textbook law and the code part ways, the model follows the code:

- The textbook law det(Mᵀ) == det(M) fails for the 3x3 routines: the
  transpose swaps only row 0 with column 0, and
  `Mat3f.TransposeChangesDeterminant` shows a matrix whose determinant
  goes from 1 to 0 under it.
- The textbook inverse uses the full transpose and the cofactor signs
  `(-1)^(i+j)`. The 3x3 and 4x4 transposes swap only row 0 with column 0,
  and the 4x4 inverse signs its cells by column alone. Both are modelled as
  written (`Mat3f.InverseOfIsInverseIff`, `Mat4f.CofactorCellSign`).
- The textbook 4x4 expansion along row 0 has the signs `+,-,+,-`. The
  routine's 4x4 signs are `+,-,+,+` (`Mat4f.DeterminantValue`).

## Model

| member | source | states |
|---|---|---|
| Matrix.Zero | mat4f.c:26-29 | an n x n grid whose every cell is 0 |
| Matrix.Identity | mat4f.c:31-38 | an n x n grid with 1 on the diagonal and 0 elsewhere |
| Matrix.Add | mat4f.c:40-63 | cell (i, j) of the sum is a[i][j] + b[i][j] |
| Matrix.Scale | mat3f.c:57-73 | cell (i, j) of the result is m[i][j] * s |
| Matrix.AddCommutes | mat3f.c:39-55 | matrix addition is commutative |
| Matrix.AddZero | mat3f.c:39-55 | adding the zero matrix changes nothing |
| Matrix.ScaleByOne | mat3f.c:57-73 | scaling by 1 changes nothing |
| Matrix.ScaleTwice | mat3f.c:57-73 | scaling by s and then t is scaling by s * t |
| Matrix.ScaleDistributes | mat3f.c:57-73 | scaling distributes over addition |
| Matrix.ScaleInjective | mat3f.c:57-73 | for a nonzero factor, two matrices scale to the same result exactly when they are equal |
| Matrix.RowColStep | mat3f.c:75-112 | the row-by-column sum up to k is the sum up to k - 1 plus one more product |
| Matrix.Multiply | mat3f.c:75-112 | cell (i, j) of the product is the sum over k of a[i][k] * b[k][j] |
| Matrix.RowColLeftIdentity | mat3f.c:75-112 | the partial row-by-column sum of the identity with m is m[i][j] once k passes i, and 0 before |
| Matrix.RowColRightIdentity | mat3f.c:75-112 | the same for m times the identity, with k passing j |
| Matrix.MultiplyIdentity | mat3f.c:75-112 | the identity is a left and a right unit of the product |
| Matrix.RowColScale | mat3f.c:75-112 | scaling the right factor scales each partial sum |
| Matrix.MultiplyScale | mat3f.c:75-112 | a * (s b) == s (a b) |
| Matrix.RowColScaleLeft | mat3f.c:75-112 | scaling the left factor scales each partial sum |
| Matrix.ScaleMultiply | mat3f.c:75-112 | (s a) * b == s (a b) |
| Matrix.Transpose | mat2f.c:99-111 | cell (i, j) of the transpose is m[j][i] |
| Matrix.SwapRow0Col0 | mat3f.c:148-171 | what the 3x3 and 4x4 transposes compute: row 0 and column 0 trade places and every other cell stays put |
| Matrix.TransposeInvolution | mat2f.c:99-111 | transposing twice gives back the matrix |
| Matrix.SwapRow0Col0Involution | mat4f.c:224-244 | swapping row 0 and column 0 twice gives back the matrix |
| Matrix.SwapRow0Col0IsTransposeIff | mat4f.c:224-244 | the swap equals the transpose exactly when the block of rows and columns 1.. is symmetric |
| Matrix.Minor | mat3f.c:120-146 | minor (row, col) is m with that row and column removed, cell by cell |
| Matrix.Det1 | mat2f.c:92-97 | the determinant of a 1x1 matrix is its cell |
| Matrix.Det2 | mat2f.c:92-97 | the 2x2 Laplace determinant is m00 m11 - m01 m10 |
| Matrix.ExpandRow0Three | mat3f.c:120-146 | the first three terms of the row-0 expansion, one by one |
| Matrix.Det3Terms | mat3f.c:120-146 | the 3x3 determinant is the row-0 expansion with signs +, -, + |
| Matrix.Det3Expanded | mat3f.c:120-146 | the 3x3 determinant as a polynomial in the nine cells |
| Matrix.Det4Terms | mat4f.c:170-222 | the 4x4 determinant is the row-0 expansion with signs +, -, +, - |
| Matrix.Cofactors | mat3f.c:182-234 | cell (i, j) is the signed minor determinant (-1)^(i+j) det(minor i j) |
| Matrix.DividedRightInverse | mat2f.c:113-129 | if m * adj == d I and d != 0, then m * (adj / d) == I |
| Matrix.DividedLeftInverse | mat2f.c:113-129 | if adj * m == d I and d != 0, then (adj / d) * m == I |
| Matrix.InverseFromAdjugate | mat3f.c:173-240 | the adjugate identity m * adj(m) == det(m) I makes Matrix.Inverse a right inverse |
| Matrix.InverseFromLeftAdjugate | mat3f.c:173-240 | the adjugate identity adj(m) * m == det(m) I makes Matrix.Inverse a left inverse |
| Matrix.Column | mat4f.c:447-455 | the column vector: entry i is m[i][col] |
| Matrix.WithRowCells | mat4f.c:457-465 | the new row is v, every other row is untouched, and writing a row's own contents back changes nothing |
| Matrix.WithColumnCells | mat4f.c:467-475 | the new column is v, every other column is untouched, and writing a column's own contents back changes nothing |
| Matrix.GetRow | mat4f.c:437-445 | corrected accessor: every in-range row, 0 included, is copied into dest; otherwise dest is unchanged |
| Matrix.GetCol | mat4f.c:447-455 | corrected accessor: every in-range column, 0 included, is copied into dest; otherwise dest is unchanged |
| Matrix.SetRow | mat4f.c:457-465 | corrected accessor: every in-range row, 0 included, is replaced by src; otherwise the matrix is unchanged |
| Matrix.SetCol | mat4f.c:467-475 | corrected accessor: every in-range column, 0 included, is replaced by src; otherwise the matrix is unchanged |
| Vector.Zero | vec4f.c:21-24 | n zeros |
| Vector.Unit | vec4f.c:26-32 | the unit vector along axis: 1 there and 0 elsewhere |
| Vector.Add | vec4f.c:34-45 | entry i of the sum is a[i] + b[i] |
| Vector.Scale | vec4f.c:47-58 | entry i is v[i] * s |
| Vector.AddCommutes | vec3f.c:34-44 | vector addition is commutative |
| Vector.ScaleTwice | vec3f.c:46-56 | scaling by s and then t is scaling by s * t |
| Vector.DotSymmetric | vec3f.c:58-65 | Vector.Dot, the scalar product the routines compute, is symmetric |
| Vector.DotSelfNonnegative | vec3f.c:78-81 | the scalar product of a vector with itself is never negative |
| Vector.SetUnit | vec4f.c:26-32 | corrected identity: every in-range axis, 0 included, gives the unit vector; otherwise the vector is unchanged |
| Mat2f.Zero | mat2f.c:26-29 | the matrix becomes the zero matrix |
| Mat2f.Identity | mat2f.c:31-36 | the matrix becomes the identity |
| Mat2f.Add | mat2f.c:38-49 | dest becomes the entry-wise sum of the old inputs |
| Mat2f.ScaleCells | mat2f.c:51-62 | the four cells of a scaled 2x2 matrix |
| Mat2f.Scale | mat2f.c:51-62 | dest becomes the old matrix scaled entry-wise |
| Mat2f.Product | mat2f.c:64-90 | the four-sum formula written out in the routine is the row-by-column product |
| Mat2f.Multiply | mat2f.c:64-90 | dest becomes the row-by-column product of the old inputs |
| Mat2f.DeterminantIsDet | mat2f.c:92-97 | Mat2f.Determinant, the routine's m00 m11 - m01 m10, is the Laplace determinant |
| Mat2f.Transpose | mat2f.c:99-111 | dest becomes the transpose, which for 2x2 is also the row-0/column-0 swap |
| Mat2f.DeterminantOfIdentity | mat2f.c:92-97 | the identity has determinant 1 |
| Mat2f.DeterminantOfTranspose | mat2f.c:92-97 | the determinant is unchanged by transposition |
| Mat2f.AdjugateIsTransposedCofactors | mat2f.c:121-124 | Mat2f.Adjugate, the four cells the routine writes into tmp, is the transposed cofactor matrix |
| Mat2f.InverseOfIsTextbook | mat2f.c:113-129 | Mat2f.InverseOf, the adjugate scaled by 1/det as the routine writes it, is the reference adjugate inverse |
| Mat2f.ScaledIdentity | mat2f.c:51-62 | d I written out cell by cell |
| Mat2f.AdjugateProducts | mat2f.c:113-129 | m * adj(m) == adj(m) * m == det(m) I |
| Mat2f.AdjugateOnRight | mat2f.c:113-129 | m times the scaled adjugate is the identity when det(m) != 0 |
| Mat2f.AdjugateOnLeft | mat2f.c:113-129 | the scaled adjugate times m is the identity when det(m) != 0 |
| Mat2f.InverseOfIsInverse | mat2f.c:113-129 | for a nonzero determinant the result is a two-sided inverse |
| Mat2f.InverseOfDeterminant | mat2f.c:113-129 | the routine's inverse has determinant 1/det(m), which is not 0 |
| Mat2f.InverseOfRoundTrip | mat2f.c:113-129 | inverting twice gives the matrix back, and the inverse has determinant 1/det(m) |
| Mat2f.InverseExample | mat2f.c:113-129 | for [[1,2],[3,4]] the determinant is -2 and the inverse is [[-2,1],[1.5,-0.5]] |
| Mat2f.Inverse | mat2f.c:113-129 | for a nonzero determinant dest becomes the inverse; for a zero determinant dest is untouched |
| Mat2f.GetRow | mat2f.c:131-137 | rows 1..1 are copied into dest; row 0 and out-of-range rows leave dest unchanged |
| Mat2f.GetCol | mat2f.c:139-145 | columns 1..1 are copied into dest; column 0 and out-of-range columns leave dest unchanged |
| Mat2f.SetRow | mat2f.c:147-153 | rows 1..1 are replaced by src; otherwise the matrix is unchanged |
| Mat2f.SetCol | mat2f.c:155-161 | columns 1..1 are replaced by src; otherwise the matrix is unchanged |
| Mat3f.Zero | mat3f.c:26-29 | the matrix becomes the zero matrix |
| Mat3f.Identity | mat3f.c:31-37 | the matrix becomes the identity |
| Mat3f.Add | mat3f.c:39-55 | dest becomes the entry-wise sum of the old inputs |
| Mat3f.Scale | mat3f.c:57-73 | dest becomes the old matrix scaled entry-wise |
| Mat3f.RowCol3 | mat3f.c:75-112 | each three-term sum the routine writes is cell (i, j) of the product |
| Mat3f.Multiply | mat3f.c:75-112 | dest becomes the row-by-column product of the old inputs |
| Mat3f.FreshProduct | mat3f.c:75-112 | the nine sums, written into a fresh tmp, form the product |
| Mat3f.MinorOfIsMinor | mat3f.c:120-146 | Mat3f.MinorOf, the 2x2 scratch matrix filled for (row, col), is the minor |
| Mat3f.DeterminantIsDet | mat3f.c:120-146 | Mat3f.Determinant, the routine's row-0 expansion through three 2x2 determinants, is the Laplace determinant |
| Mat3f.DeterminantExpanded | mat3f.c:120-146 | the routine's determinant as a polynomial in the nine cells |
| Mat3f.Transpose | mat3f.c:148-171 | dest becomes the matrix with row 0 and column 0 swapped, as the swaps at lines 162-168 do |
| Mat3f.TransposeIsTransposeIff | mat3f.c:162-168 | the routine computes the transpose exactly when m[1][2] == m[2][1] |
| Mat3f.TransposeCounterexample | mat3f.c:162-168 | a matrix with a single 1 at [1][2] whose routine-transpose differs from its transpose |
| Mat3f.TransposeChangesDeterminant | mat3f.c:148-171 | a permutation matrix with determinant 1 comes out of the routine with determinant 0 |
| Mat3f.FullTranspose | mat3f.c:148-171 | corrected transpose: dest becomes the transpose |
| Mat3f.CofactorMatrixIsCofactors | mat3f.c:182-234 | Mat3f.CofactorMatrix, the nine Mat3f.CofactorCell values (2x2 minor determinants negated where i + j is odd), is the cofactor matrix |
| Mat3f.FillCofactors | mat3f.c:182-234 | a fresh tmp holding the nine signed minors |
| Mat3f.Inverse | mat3f.c:173-240 | for a nonzero determinant dest becomes the cofactors passed through the routine's transpose and scaled by 1/det; for a zero determinant dest is untouched |
| Mat3f.DeterminantOfIdentity | mat3f.c:120-146 | the identity has determinant 1 |
| Mat3f.TransposeInvolution | mat3f.c:148-171 | applying the routine twice gives back the matrix |
| Mat3f.InverseOfIsInverseIff | mat3f.c:173-240 | Mat3f.InverseOf, the routine's result, equals the textbook inverse, and is a right and a left inverse of m, each exactly when cofactors (1,2) and (2,1) are equal |
| Mat3f.InverseOfSymmetric | mat3f.c:236-237 | for a symmetric matrix the routine's result is the textbook inverse and a two-sided inverse |
| Mat3f.SymmetricCofactors | mat3f.c:182-234 | a symmetric matrix has a symmetric cofactor matrix at (1,2) and (2,1) |
| Mat3f.InverseExample | bin/test/main.c:7-12 | for the test driver's matrix: determinant 3, the exact inverse, equal to the textbook inverse, and m times it is the identity |
| Mat3f.InverseCounterexample | mat3f.c:236 | a matrix with determinant 1 whose routine-inverse, times the matrix, is not the identity |
| Mat3f.CorrectedInverse | mat3f.c:173-240 | corrected inverse: for a nonzero determinant dest becomes the textbook inverse, and its products with the old matrix on either side are the identity; for a zero determinant dest is untouched |
| Mat3f.DeterminantIsDetPoly | mat3f.c:120-146 | the routine's determinant is the signed sum of six products of cells, one per column permutation |
| Mat3f.CofactorsExpanded | mat3f.c:182-234 | the cells the routine writes, in closed form as 2x2 determinants of the cells |
| Mat3f.CofactorSums | mat3f.c:182-234 | a row (or column) of cells against the cofactors of the same row (column) sums to det, and against another one to 0 |
| Mat3f.AdjugateProducts | mat3f.c:173-240 | a grid holding the transposed cofactors multiplies m on either side to det(m) I |
| Mat3f.Adjugate | mat3f.c:173-240 | the adjugate identity m adj(m) == adj(m) m == det(m) I |
| Mat3f.InverseInverts | mat3f.c:173-240 | the textbook inverse is a two-sided inverse of every matrix with nonzero determinant |
| Mat3f.MultiplyAssociative | mat3f.c:75-112 | the 3x3 product is associative |
| Mat3f.InverseUnique | mat3f.c:173-240 | a right inverse, or a left inverse, of a matrix with nonzero determinant is the textbook inverse |
| Mat3f.DetIsDetPoly | mat3f.c:120-146 | the Laplace determinant is the six-product polynomial in the cells |
| Mat3f.DetScale | mat3f.c:57-73 | scaling by s multiplies the determinant by s^3 |
| Mat3f.DetAdjugate | mat3f.c:173-240 | the determinant of the adjugate is det(m)^2 |
| Mat3f.InverseRoundTrip | mat3f.c:173-240 | the textbook inverse has determinant 1/det(m), which is not 0, and inverting twice gives the matrix back |
| Mat3f.GetRow | mat3f.c:242-249 | rows 1..2 are copied into dest; row 0 and out-of-range rows leave dest unchanged |
| Mat3f.GetCol | mat3f.c:251-258 | columns 1..2 are copied into dest; column 0 and out-of-range columns leave dest unchanged |
| Mat3f.SetRow | mat3f.c:260-267 | rows 1..2 are replaced by src; otherwise the matrix is unchanged |
| Mat3f.SetCol | mat3f.c:269-276 | columns 1..2 are replaced by src; otherwise the matrix is unchanged |
| Mat4f.Zero | mat4f.c:26-29 | the matrix becomes the zero matrix |
| Mat4f.Identity | mat4f.c:31-38 | the matrix becomes the identity |
| Mat4f.Add | mat4f.c:40-63 | dest becomes the entry-wise sum of the old inputs |
| Mat4f.Scale | mat4f.c:65-88 | dest becomes Scaled: cells [3][0..2] unscaled, cells [0..2][3] scaled twice, the rest scaled once |
| Mat4f.ScaledInTwoSteps | mat4f.c:65-88 | Mat4f.Scaled, the routine's result, is Mat4f.Column3Scaled (column 3 scaled) of Mat4f.RowsScaled (rows 0..2 scaled) |
| Mat4f.CopyScalingRows | mat4f.c:68-81 | a fresh tmp holding the matrix with rows 0..2 scaled |
| Mat4f.ScaleColumn3 | mat4f.c:82-85 | column 3 of tmp is scaled and nothing else changes |
| Mat4f.FixedByFactor | mat4f.c:65-88 | x * s == x exactly when x == 0 or s == 1 |
| Mat4f.FixedBySquare | mat4f.c:82-84 | x * s * s == x * s exactly when x == 0, s == 0 or s == 1 |
| Mat4f.ScaledIsScaleIff | mat4f.c:65-88 | Mat4f.Scaled equals the entry-wise scale exactly when s == 1, or row 3's first three cells are 0 and either s == 0 or column 3's first three cells are 0 |
| Mat4f.ScaledMatchesScale | mat4f.c:65-88 | the routine scales correctly exactly when each of its six wrong cells happens to come out right |
| Mat4f.ScaleCounterexample | mat4f.c:82-84 | the all-ones matrix scaled by 2 gives 1 at [3][0] and 4 at [0][3] |
| Mat4f.CorrectedScale | mat4f.c:65-88 | corrected scale: dest becomes the old matrix scaled entry-wise |
| Mat4f.RowCol4 | mat4f.c:90-164 | each four-term sum the routine writes is cell (i, j) of the product |
| Mat4f.Multiply | mat4f.c:90-164 | dest becomes the row-by-column product of the old inputs |
| Mat4f.FreshProduct | mat4f.c:90-164 | the sixteen sums, written into a fresh tmp, form the product |
| Mat4f.MinorOfIsMinor | mat4f.c:170-222 | Mat4f.MinorOf, the 3x3 scratch matrix filled for (row, col), is the minor |
| Mat4f.MinorDeterminantIsDet | mat4f.c:170-222 | mat3f_determinant of the scratch matrix is the Laplace determinant of the minor |
| Mat4f.MinorOfExpanded | mat4f.c:170-222 | mat3f_determinant of minor (0, j) as a polynomial in the cells |
| Mat4f.MinorDetExpanded | mat4f.c:170-222 | the Laplace determinant of minor (0, j) as the same polynomial |
| Mat4f.DeterminantExpanded | mat4f.c:170-222 | the routine's determinant as a polynomial, with the last term added |
| Mat4f.CorrectedDeterminantExpanded | mat4f.c:219 | the corrected determinant as a polynomial, with the last term subtracted |
| Mat4f.DetExpanded | mat4f.c:170-222 | the Laplace determinant as the same polynomial as the corrected one |
| Mat4f.CorrectedDeterminantIsDet | mat4f.c:219 | Mat4f.CorrectedDeterminant, with the last term subtracted, is the Laplace determinant |
| Mat4f.DeterminantValue | mat4f.c:170-222 | Mat4f.Determinant, the routine's value with signs +,-,+,+, is det(m) + 2 m[0][3] det(minor 0 3) |
| Mat4f.LastTermFlipped | mat4f.c:219 | flipping the sign of the last term adds twice that term |
| Mat4f.DeterminantIsCorrectedPlus | mat4f.c:219 | the routine's value is the corrected value plus twice the last term |
| Mat4f.DeterminantIsDetIff | mat4f.c:170-222 | the routine's determinant is right exactly when m[0][3] * det(minor 0 3) == 0 |
| Mat4f.DeterminantOfIdentity | mat4f.c:170-222 | the identity has determinant 1 |
| Mat4f.DeterminantCounterexample | mat4f.c:219 | a cyclic permutation matrix whose routine determinant is 1 while its determinant is -1 |
| Mat4f.Transpose | mat4f.c:224-244 | dest becomes the matrix with row 0 and column 0 swapped, as the swaps at lines 231-241 do |
| Mat4f.TransposeInvolution | mat4f.c:224-244 | applying the routine twice gives back the matrix |
| Mat4f.TransposeIsTransposeIff | mat4f.c:231-241 | the routine computes the transpose exactly when rows and columns 1..3 form a symmetric block |
| Mat4f.FullTranspose | mat4f.c:224-244 | corrected transpose: dest becomes the transpose |
| Mat4f.CofactorCellSign | mat4f.c:255-429 | Mat4f.CofactorCell, each cell of Mat4f.CofactorMatrix that the routine writes, is the cofactor times (-1)^i, so rows 1 and 3 are negated |
| Mat4f.ColumnSign | mat4f.c:255-429 | signing by column alone is the cofactor sign times (-1)^i |
| Mat4f.FillCofactors | mat4f.c:255-429 | a fresh tmp holding the sixteen cells the routine writes |
| Mat4f.Inverse | mat4f.c:246-435 | for a nonzero routine determinant dest becomes those cells passed through the routine's transpose and scale by 1/det; for a zero determinant dest is untouched |
| Mat4f.InverseOfIdentity | mat4f.c:246-435 | Mat4f.InverseOf, the routine's result, is diag(1, -1, 1, -1) on the identity, and its product with the input is not the identity |
| Mat4f.DiagonalUnmoved | mat4f.c:431-432 | a diagonal matrix passes through the routine's transpose and through its scale by 1 unchanged |
| Mat4f.CofactorMatrixOfIdentity | mat4f.c:255-429 | the sixteen cells the routine writes for the identity are diag(1, -1, 1, -1) |
| Mat4f.MinorOfIdentity | mat4f.c:255-429 | each 3x3 minor of the identity has determinant 1 on the diagonal and 0 off it |
| Mat4f.CorrectedCofactorCell | mat4f.c:255-429 | corrected cell: the cofactor (-1)^(i+j) det(minor i j) |
| Mat4f.FillCorrectedCofactors | mat4f.c:255-429 | a fresh tmp holding the cofactor matrix |
| Mat4f.CorrectedInverse | mat4f.c:246-435 | corrected inverse: for a nonzero determinant dest becomes the textbook inverse, and its products with the old matrix on either side are the identity; for a zero determinant dest is untouched |
| Mat4f.ProductCell | mat4f.c:90-164 | cell (i, j) of the product is row i of a against column j of b |
| Mat4f.DetIsDetPoly | mat4f.c:170-222 | the Laplace determinant as a polynomial in the sixteen cells |
| Mat4f.CofactorRowSums | mat4f.c:255-429 | a row of cells against the cofactors of the same row sums to det, against another row to 0 |
| Mat4f.CofactorColumnSums | mat4f.c:255-429 | the same down the columns |
| Mat4f.AdjugateRightSums | mat4f.c:246-435 | each cell of m times the adjugate is det on the diagonal and 0 off it |
| Mat4f.AdjugateLeftSums | mat4f.c:246-435 | each cell of the adjugate times m is det on the diagonal and 0 off it |
| Mat4f.CofactorExpanded | mat4f.c:255-429 | cofactor (j, k) is the signed six-product polynomial of its 3x3 minor |
| Mat4f.AdjugateIsPoly | mat4f.c:255-429 | the transposed cofactor matrix, written out in the cells |
| Mat4f.AdjugateRight | mat4f.c:246-435 | m times a grid holding the transposed cofactors is det(m) I |
| Mat4f.AdjugateLeft | mat4f.c:246-435 | a grid holding the transposed cofactors, times m, is det(m) I |
| Mat4f.AdjugatePolyUpper | mat4f.c:255-429 | rows 0 and 1 of the adjugate, cell by cell |
| Mat4f.AdjugatePolyLower | mat4f.c:255-429 | rows 2 and 3 of the adjugate, cell by cell |
| Mat4f.AdjugatePolyProducts | mat4f.c:246-435 | m and the written-out adjugate multiply on either side to det(m) I |
| Mat4f.Adjugate | mat4f.c:246-435 | the adjugate identity m adj(m) == adj(m) m == det(m) I |
| Mat4f.InverseInverts | mat4f.c:246-435 | the textbook inverse is a two-sided inverse of every matrix with nonzero determinant |
| Mat4f.GetRow | mat4f.c:437-445 | rows 1..3 are copied into dest; row 0 and out-of-range rows leave dest unchanged |
| Mat4f.GetCol | mat4f.c:447-455 | columns 1..3 are copied into dest; column 0 and out-of-range columns leave dest unchanged |
| Mat4f.SetRow | mat4f.c:457-465 | rows 1..3 are replaced by src; otherwise the matrix is unchanged |
| Mat4f.SetCol | mat4f.c:467-475 | columns 1..3 are replaced by src; otherwise the matrix is unchanged |
| Mat4f.RowZeroIgnored | mat4f.c:439 | on an all-ones matrix, getting row 0 leaves a zeroed dest at zeros, while the corrected accessor copies the ones |
| Vec2f.Zero | vec2f.c:22-25 | the vector becomes zero |
| Vec2f.Identity | vec2f.c:27-33 | axis 1 gives the unit vector; axis 0 and out-of-range axes leave the vector unchanged |
| Vec2f.Add | vec2f.c:35-44 | dest becomes the entry-wise sum of the old inputs |
| Vec2f.Scale | vec2f.c:46-55 | dest becomes the old vector scaled |
| Vec2f.ScalarProd | vec2f.c:57-63 | the two-term sum is the scalar product |
| Vec2f.SqrMag | vec2f.c:65-68 | the squared magnitude is the scalar product with itself, and it is never negative |
| Vec3f.Zero | vec3f.c:21-24 | the vector becomes zero |
| Vec3f.Identity | vec3f.c:26-32 | axes 1..2 give the unit vector; axis 0 and out-of-range axes leave the vector unchanged |
| Vec3f.Add | vec3f.c:34-44 | dest becomes the entry-wise sum of the old inputs |
| Vec3f.Scale | vec3f.c:46-56 | dest becomes the old vector scaled |
| Vec3f.ScalarProd | vec3f.c:58-65 | the three-term sum is the scalar product |
| Vec3f.SqrMag | vec3f.c:78-81 | the squared magnitude is the scalar product with itself, and it is never negative |
| Vec3f.VectorProd | vec3f.c:67-76 | dest becomes the routine's product of the old inputs, y component included as written |
| Vec3f.Cross | vec3f.c:67-76 | corrected cross product: the result is orthogonal to both inputs |
| Vec3f.VectorProductNegatesY | vec3f.c:72 | the routine's product agrees with the cross product in x and z and is its negation in y |
| Vec3f.VectorProductLaws | vec3f.c:67-76 | Vec3f.VectorProduct, the routine's product: a vector times itself is zero, and swapping the inputs negates the result |
| Vec3f.VectorProductWitness | vec3f.c:72 | x times z gives +y where the cross product gives -y, and the result is not orthogonal to its input |
| Vec4f.Zero | vec4f.c:21-24 | the vector becomes zero |
| Vec4f.Identity | vec4f.c:26-32 | axes 1..3 give the unit vector; axis 0 and out-of-range axes leave the vector unchanged |
| Vec4f.Add | vec4f.c:34-45 | dest becomes the entry-wise sum of the old inputs |
| Vec4f.Scale | vec4f.c:47-58 | dest becomes the old vector scaled |
| Vec4f.ScalarProd | vec4f.c:60-68 | the four-term sum is the scalar product |
| Vec4f.SqrMag | vec4f.c:70-73 | the squared magnitude is the scalar product with itself, and it is never negative |
| Vec4f.AxisZeroIgnored | vec4f.c:28 | identity with axis 0 leaves a vector of fives unchanged, while the corrected version gives [1, 0, 0, 0] |

## Left out

- `float` is modelled as `real`. IEEE rounding, NaN, infinities and
  negative zero are not modelled, so every equality here is exact real
  arithmetic.
- The singularity test `_cgmath_absf(dt) != 0.0f` is modelled as `dt != 0`.
  So is its doubled form `_cgmath_absf(dt) != 0.0f != 0.0f` in mat2f.c:120,
  which has the same truth value. `_cgmath_absf` is not modelled separately.
- The transposes swap cells by XOR-ing their bit patterns as integers. This
  is modelled as an exchange of the two values.
- `memcpy` and `memset` with the byte-count macros (`CGMATH_MATRIX_SIZE`,
  `CGMATH_VECTOR_SIZE`) are modelled as whole-array copies and fills. Their
  byte arithmetic is not modelled.
- Unrolled runs of cell statements are modelled as `forall` statements over
  the same cells. Unused locals and commented-out loops have no counterpart.
- Normalisation and the inverse-square-root helper `_cgmath_invsqrt` are not
  part of this model.
- Headers (`cgmath.h`, `cgmath_core.h`) contribute only the array shapes and
  the axis names.
- The test driver bin/test/main.c is used only for its 3x3 matrix
  (`Mat3f.InverseExample`). Its printing is not modelled.
- Mat4f.InverseInverts: the 4x4 round trip (inverting twice gives the
  matrix back, and the inverse has determinant 1/det) is not proved. For
  3x3 it rests on det(adj(m)) == det(m)^2, a degree-6 identity in nine
  cells that already has to be split into single-step lemmas to stay
  within the verifier's resource limit. The 4x4 counterpart,
  det(adj(m)) == det(m)^3, has degree 12 in sixteen cells.
- The textbook law det(Mᵀ) == det(M) is proved for 2x2 only
  (`Mat2f.DeterminantOfTranspose`). For 3x3 the code's transpose breaks it
  (`Mat3f.TransposeChangesDeterminant`). The law for the reference
  transpose at other sizes is not proved.

## Findings

| source | as written | input that shows it | evidently intended | confidence | as-written member | corrected member |
|---|---|---|---|---|---|---|
| mat3f.c:162-168 | the transpose swaps only row 0 with column 0; cells [1][2] and [2][1] stay put | [[0,0,0],[0,0,1],[0,0,0]] | the full transpose | not executed | Mat3f.TransposeCounterexample | Mat3f.FullTranspose |
| mat3f.c:236 | the inverse passes the cofactors through that partial transpose | [[1,0,0],[0,1,1],[0,0,1]]: the result times the input is not the identity | the adjugate (fully transposed cofactors) scaled by 1/det | not executed | Mat3f.InverseCounterexample | Mat3f.CorrectedInverse |
| mat4f.c:231-241 | the transpose swaps only row 0 with column 0; cells among rows and columns 1..3 stay put | any matrix with m[1][2] != m[2][1] | the full transpose | not executed | Mat4f.TransposeIsTransposeIff | Mat4f.FullTranspose |
| mat4f.c:82-84 | cells [0..2][3] are scaled twice and cells [3][0..2] not at all | the all-ones matrix scaled by 2 | every cell scaled once | not executed | Mat4f.ScaleCounterexample | Mat4f.CorrectedScale |
| mat4f.c:219 | the last term of the row-0 expansion is added | [[0,0,0,1],[1,0,0,0],[0,1,0,0],[0,0,1,0]]: gives 1, determinant -1 | the term subtracted, sign (-1)^3 | not executed | Mat4f.DeterminantCounterexample | Mat4f.CorrectedDeterminantIsDet |
| mat4f.c:255-429 | each cell is signed by its column alone, (-1)^j, not (-1)^(i+j) | the identity: the result is diag(1,-1,1,-1) | checkerboard cofactor signs, then the full transpose | not executed | Mat4f.InverseOfIdentity | Mat4f.CorrectedInverse |
| vec3f.c:72 | y is a.x b.z - a.z b.x, the negated cross-product component | x = [1,0,0], z = [0,0,1]: gives +y | a.z b.x - a.x b.z | not executed | Vec3f.VectorProductWitness | Vec3f.Cross |
| mat4f.c:439 | the accessor guard `row > 0` excludes index 0; the same guard is at mat4f.c:449, 459, 469, mat3f.c:244, 253, 262, 271 and mat2f.c:133, 141, 149, 157 | row 0 of the all-ones matrix: dest is not written | `row >= 0` | not executed | Mat4f.RowZeroIgnored | Matrix.GetRow |
| vec4f.c:28 | the identity guard `axis > 0` excludes the x axis; the same guard is in vec2f.c:29 and vec3f.c:28 | axis 0 on [5,5,5,5]: the vector is not written | `axis >= 0` | not executed | Vec4f.AxisZeroIgnored | Vector.SetUnit |

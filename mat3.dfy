/** The 3x3 matrix routines of mat3f.c.  A `mat3f*` is a 3x3 `array2`;
    as in the 2x2 routines, results are built in a fresh local `tmp` and
    copied into `dest` last, so `dest` may be one of the inputs.  The
    routines spell out one statement per cell; here a `forall` statement
    over the cells performs the same simultaneous updates. */
module Mat3f {
  import Matrix
  import Vector
  import Mat2f

  /** mat3f_zero: every cell becomes 0. */
  method Zero(mat: array2<real>)
    requires Matrix.HasShape(mat, 3)
    modifies mat
    ensures Matrix.Grid(mat) == Matrix.Zero(3)
  {
    forall i, j | 0 <= i < 3 && 0 <= j < 3 {
      mat[i, j] := 0.0;
    }
    Matrix.GridIs(mat, Matrix.Zero(3));
  }

  /** mat3f_identity: zero, then 1 on the diagonal. */
  method Identity(mat: array2<real>)
    requires Matrix.HasShape(mat, 3)
    modifies mat
    ensures Matrix.Grid(mat) == Matrix.Identity(3)
  {
    Zero(mat);
    assert mat[0, 1] == Matrix.Grid(mat)[0][1] && mat[0, 2] == Matrix.Grid(mat)[0][2];
    assert mat[1, 0] == Matrix.Grid(mat)[1][0] && mat[1, 2] == Matrix.Grid(mat)[1][2];
    assert mat[2, 0] == Matrix.Grid(mat)[2][0] && mat[2, 1] == Matrix.Grid(mat)[2][1];
    mat[0, 0] := 1.0;
    mat[1, 1] := 1.0;
    mat[2, 2] := 1.0;
    Matrix.GridIs3(mat, Matrix.Identity(3));
  }

  method Add(a: array2<real>, b: array2<real>, dest: array2<real>)
    requires Matrix.HasShape(a, 3) && Matrix.HasShape(b, 3) && Matrix.HasShape(dest, 3)
    modifies dest
    ensures Matrix.Grid(dest) == Matrix.Add(old(Matrix.Grid(a)), old(Matrix.Grid(b)))
  {
    var tmp := new real[3, 3];
    Matrix.CopyInto(a, tmp);
    forall i, j | 0 <= i < 3 && 0 <= j < 3 {
      tmp[i, j] := tmp[i, j] + b[i, j];
    }
    Matrix.CopyInto(tmp, dest);
    Matrix.GridIs(dest, Matrix.Add(old(Matrix.Grid(a)), old(Matrix.Grid(b))));
  }

  method Scale(mat: array2<real>, scalar: real, dest: array2<real>)
    requires Matrix.HasShape(mat, 3) && Matrix.HasShape(dest, 3)
    modifies dest
    ensures Matrix.Grid(dest) == Matrix.Scale(old(Matrix.Grid(mat)), scalar)
  {
    var tmp := new real[3, 3];
    Matrix.CopyInto(mat, tmp);
    forall i, j | 0 <= i < 3 && 0 <= j < 3 {
      tmp[i, j] := tmp[i, j] * scalar;
    }
    Matrix.CopyInto(tmp, dest);
    Matrix.GridIs(dest, Matrix.Scale(old(Matrix.Grid(mat)), scalar));
  }

  /** A row times a column: the three-term sum of cell (i, j) of a
      3x3 product. */
  function Dot(x0: real, x1: real, x2: real, y0: real, y1: real, y2: real): real {
    x0 * y0 + x1 * y1 + x2 * y2
  }

  /** Cell (i, j) of the product is the three-term sum the routine writes. */
  lemma RowCol3(a: Matrix.Mat3, b: Matrix.Mat3, i: nat, j: nat)
    requires i < 3 && j < 3
    ensures Matrix.RowCol(a, b, i, j, 3) == a[i][0] * b[0][j] + a[i][1] * b[1][j] + a[i][2] * b[2][j]
  {
    Matrix.RowColStep(a, b, i, j, 1);
    Matrix.RowColStep(a, b, i, j, 2);
    Matrix.RowColStep(a, b, i, j, 3);
  }

  /** The same, as a Dot of row i of `a` and column j of `b`. */
  lemma ProductCell(a: Matrix.Mat3, b: Matrix.Mat3, i: nat, j: nat)
    requires i < 3 && j < 3
    ensures Matrix.Multiply(a, b)[i][j] == Dot(a[i][0], a[i][1], a[i][2], b[0][j], b[1][j], b[2][j])
  {
    RowCol3(a, b, i, j);
  }

  /** mat3f_multiply.  Nothing is written to `a` or `b` before the final
      copy, so their contents are read once, as values, up front. */
  method Multiply(a: array2<real>, b: array2<real>, dest: array2<real>)
    requires Matrix.HasShape(a, 3) && Matrix.HasShape(b, 3) && Matrix.HasShape(dest, 3)
    modifies dest
    ensures Matrix.Grid(dest) == Matrix.Multiply(old(Matrix.Grid(a)), old(Matrix.Grid(b)))
  {
    var ma: Matrix.Mat3, mb: Matrix.Mat3 := Matrix.Grid(a), Matrix.Grid(b);
    var tmp := FreshProduct(ma, mb);
    ghost var g := Matrix.Grid(tmp);
    Matrix.CopyInto(tmp, dest);
    Matrix.GridIs(dest, g);
  }

  /** The routine's 9 sums of products, written into a fresh scratch matrix. */
  method FreshProduct(ma: Matrix.Mat3, mb: Matrix.Mat3) returns (tmp: array2<real>)
    ensures fresh(tmp) && Matrix.HasShape(tmp, 3)
    ensures Matrix.Grid(tmp) == Matrix.Multiply(ma, mb)
  {
    tmp := new real[3, 3];
    forall i, j | 0 <= i < 3 && 0 <= j < 3 {
      tmp[i, j] := ma[i][0] * mb[0][j] + ma[i][1] * mb[1][j] + ma[i][2] * mb[2][j];
    }
    forall i, j | 0 <= i < 3 && 0 <= j < 3 ensures Matrix.Multiply(ma, mb)[i][j] == tmp[i, j] {
      RowCol3(ma, mb, i, j);
    }
    Matrix.GridIs(tmp, Matrix.Multiply(ma, mb));
  }

  /** The scratch 2x2 matrix `sm` that the determinant and the inverse
      fill: `m` without row `row` and column `col`. */
  function MinorOf(m: Matrix.Mat3, row: nat, col: nat): Matrix.Mat2
    requires row < 3 && col < 3
  {
    var r0 := if row == 0 then 1 else 0;
    var r1 := if row == 2 then 1 else 2;
    var c0 := if col == 0 then 1 else 0;
    var c1 := if col == 2 then 1 else 2;
    [[m[r0][c0], m[r0][c1]], [m[r1][c0], m[r1][c1]]]
  }

  /** The cells the routines copy into `sm` are exactly the minor. */
  lemma MinorOfIsMinor(m: Matrix.Mat3, row: nat, col: nat)
    requires row < 3 && col < 3
    ensures MinorOf(m, row, col) == Matrix.Minor(m, row, col)
  {
    Matrix.Extensionality(MinorOf(m, row, col), Matrix.Minor(m, row, col));
  }

  /** mat3f_determinant: expansion along row 0 through three 2x2
      determinants. */
  function Determinant(m: Matrix.Mat3): real {
    0.0 + m[0][0] * Mat2f.Determinant(MinorOf(m, 0, 0))
        - m[0][1] * Mat2f.Determinant(MinorOf(m, 0, 1))
        + m[0][2] * Mat2f.Determinant(MinorOf(m, 0, 2))
  }

  /** It is the Laplace determinant. */
  lemma DeterminantIsDet(m: Matrix.Mat3)
    ensures Determinant(m) == Matrix.Det(m)
  {
    Matrix.Det3Expanded(m);
  }

  /** The same value as a polynomial in the cells, grouped by row 0. */
  lemma DeterminantExpanded(m: Matrix.Mat3)
    ensures Determinant(m) == m[0][0] * (m[1][1] * m[2][2] - m[1][2] * m[2][1])
                              - m[0][1] * (m[1][0] * m[2][2] - m[1][2] * m[2][0])
                              + m[0][2] * (m[1][0] * m[2][1] - m[1][1] * m[2][0])
  {
  }

  /** mat3f_transpose: copies the matrix and exchanges [0][1] with [1][0]
      and [0][2] with [2][0]; the pair [1][2], [2][1] is never exchanged. */
  method Transpose(mat: array2<real>, dest: array2<real>)
    requires Matrix.HasShape(mat, 3) && Matrix.HasShape(dest, 3)
    modifies dest
    ensures Matrix.Grid(dest) == Matrix.SwapRow0Col0(old(Matrix.Grid(mat)))
  {
    var tmp := new real[3, 3];
    Matrix.CopyInto(mat, tmp);
    tmp[0, 1], tmp[1, 0] := tmp[1, 0], tmp[0, 1];
    tmp[0, 2], tmp[2, 0] := tmp[2, 0], tmp[0, 2];
    Matrix.CopyInto(tmp, dest);
    Matrix.GridIs3(dest, Matrix.SwapRow0Col0(old(Matrix.Grid(mat))));
  }

  /** What mat3f_transpose computes is the transpose exactly when cells
      [1][2] and [2][1] already agree. */
  lemma TransposeIsTransposeIff(m: Matrix.Mat3)
    ensures Matrix.SwapRow0Col0(m) == Matrix.Transpose(m) <==> m[1][2] == m[2][1]
  {
    Matrix.SwapRow0Col0IsTransposeIff(m);
    if m[1][2] == m[2][1] {
      forall i, j | 0 < i < 3 && 0 < j < 3 ensures m[i][j] == m[j][i] {
      }
    }
  }

  /** A matrix on which mat3f_transpose is not the transpose. */
  lemma TransposeCounterexample()
    ensures var m: Matrix.Mat3 := [[0.0, 0.0, 0.0], [0.0, 0.0, 1.0], [0.0, 0.0, 0.0]];
            Matrix.SwapRow0Col0(m) != Matrix.Transpose(m)
  {
    var m: Matrix.Mat3 := [[0.0, 0.0, 0.0], [0.0, 0.0, 1.0], [0.0, 0.0, 0.0]];
    TransposeIsTransposeIff(m);
  }

  /** Unlike the transpose, mat3f_transpose can change the determinant:
      it turns the cyclic permutation, of determinant 1, into a matrix
      with a zero row. */
  lemma TransposeChangesDeterminant(m: Matrix.Mat3)
    requires m == [[0.0, 1.0, 0.0], [0.0, 0.0, 1.0], [1.0, 0.0, 0.0]]
    ensures Determinant(m) == 1.0
    ensures Matrix.SwapRow0Col0(m) == [[0.0, 0.0, 1.0], [1.0, 0.0, 1.0], [0.0, 0.0, 0.0]]
    ensures Determinant(Matrix.SwapRow0Col0(m)) == 0.0
  {
    Matrix.Equal3(Matrix.SwapRow0Col0(m), [[0.0, 0.0, 1.0], [1.0, 0.0, 1.0], [0.0, 0.0, 0.0]]);
  }

  /** The transpose as evidently intended: the missing exchange of [1][2]
      with [2][1] added. */
  method FullTranspose(mat: array2<real>, dest: array2<real>)
    requires Matrix.HasShape(mat, 3) && Matrix.HasShape(dest, 3)
    modifies dest
    ensures Matrix.Grid(dest) == Matrix.Transpose(old(Matrix.Grid(mat)))
  {
    var tmp := new real[3, 3];
    Matrix.CopyInto(mat, tmp);
    tmp[0, 1], tmp[1, 0] := tmp[1, 0], tmp[0, 1];
    tmp[0, 2], tmp[2, 0] := tmp[2, 0], tmp[0, 2];
    tmp[1, 2], tmp[2, 1] := tmp[2, 1], tmp[1, 2];
    Matrix.CopyInto(tmp, dest);
    Matrix.GridIs3(dest, Matrix.Transpose(old(Matrix.Grid(mat))));
  }

  /** The value mat3f_inverse stores in tmp.m[i][j]: the 2x2 determinant
      of minor (i, j), negated where i + j is odd. */
  function CofactorCell(m: Matrix.Mat3, i: nat, j: nat): real
    requires i < 3 && j < 3
  {
    var d := Mat2f.Determinant(MinorOf(m, i, j));
    if (i + j) % 2 == 1 then -1.0 * d else d
  }

  /** The nine cells mat3f_inverse fills before transposing. */
  function CofactorMatrix(m: Matrix.Mat3): Matrix.Mat3 {
    seq(3, i requires 0 <= i < 3 => seq(3, j requires 0 <= j < 3 => CofactorCell(m, i, j)))
  }

  /** Those signs are the checkerboard (-1)^(i+j): the routine's `tmp` is
      the cofactor matrix. */
  lemma CofactorMatrixIsCofactors(m: Matrix.Mat3)
    ensures CofactorMatrix(m) == Matrix.Cofactors(m)
  {
    forall i, j | 0 <= i < 3 && 0 <= j < 3
      ensures CofactorMatrix(m)[i][j] == Matrix.Cofactors(m)[i][j]
    {
      MinorOfIsMinor(m, i, j);
      Mat2f.DeterminantIsDet(MinorOf(m, i, j));
    }
    Matrix.Extensionality(CofactorMatrix(m), Matrix.Cofactors(m));
  }

  /** What mat3f_inverse writes when the determinant is not 0: the cofactor
      matrix passed through mat3f_transpose, then scaled by 1/det. */
  function InverseOf(m: Matrix.Mat3): Matrix.Mat3
    requires Determinant(m) != 0.0
  {
    Matrix.Scale(Matrix.SwapRow0Col0(CofactorMatrix(m)), 1.0 / Determinant(m))
  }

  /** The first part of mat3f_inverse: a fresh `tmp` holding the cofactor
      matrix. */
  method FillCofactors(m: Matrix.Mat3) returns (tmp: array2<real>)
    ensures fresh(tmp) && Matrix.HasShape(tmp, 3)
    ensures Matrix.Grid(tmp) == CofactorMatrix(m)
  {
    tmp := new real[3, 3];
    forall i, j | 0 <= i < 3 && 0 <= j < 3 {
      tmp[i, j] := CofactorCell(m, i, j);
    }
    Matrix.GridIs(tmp, CofactorMatrix(m));
  }

  /** mat3f_inverse: when the determinant is exactly 0, `dest` is left
      untouched; otherwise it receives InverseOf. */
  method Inverse(mat: array2<real>, dest: array2<real>)
    requires Matrix.HasShape(mat, 3) && Matrix.HasShape(dest, 3)
    modifies dest
    ensures var m: Matrix.Mat3 := old(Matrix.Grid(mat));
            if Determinant(m) != 0.0 then Matrix.Grid(dest) == InverseOf(m)
            else Matrix.Grid(dest) == old(Matrix.Grid(dest))
  {
    var m: Matrix.Mat3 := Matrix.Grid(mat);
    var dt := Determinant(m);
    if dt != 0.0 {
      var tmp := FillCofactors(m);
      Transpose(tmp, tmp);
      Scale(tmp, 1.0 / dt, tmp);
      ghost var inv := Matrix.Grid(tmp);
      Matrix.CopyInto(tmp, dest);
      Matrix.GridIs(dest, inv);
    }
  }

  lemma DeterminantOfIdentity(m: Matrix.Mat3)
    requires m == Matrix.Identity(3)
    ensures Determinant(m) == 1.0
  {
    assert m[0] == [1.0, 0.0, 0.0] && m[1] == [0.0, 1.0, 0.0] && m[2] == [0.0, 0.0, 1.0];
  }

  /** mat3f_transpose undoes itself. */
  lemma TransposeInvolution(m: Matrix.Mat3)
    ensures Matrix.SwapRow0Col0(Matrix.SwapRow0Col0(m)) == m
  {
    Matrix.SwapRow0Col0Involution(m);
  }

  /** The value mat3f_inverse writes is the textbook inverse exactly when
      cofactors [1][2] and [2][1] agree, the one pair that mat3f_transpose
      fails to exchange. */
  lemma InverseOfIsInverseIff(m: Matrix.Mat3)
    requires Determinant(m) != 0.0
    ensures Matrix.Det(m) == Determinant(m)
    ensures InverseOf(m) == Matrix.Inverse(m) <==> Matrix.Cofactors(m)[1][2] == Matrix.Cofactors(m)[2][1]
    ensures Matrix.Multiply(m, InverseOf(m)) == Matrix.Identity(3)
            <==> Matrix.Cofactors(m)[1][2] == Matrix.Cofactors(m)[2][1]
    ensures Matrix.Multiply(InverseOf(m), m) == Matrix.Identity(3)
            <==> Matrix.Cofactors(m)[1][2] == Matrix.Cofactors(m)[2][1]
  {
    DeterminantIsDet(m);
    CofactorMatrixIsCofactors(m);
    var c := Matrix.Cofactors(m);
    var s := 1.0 / Determinant(m);
    Matrix.ScaleInjective(Matrix.SwapRow0Col0(c), Matrix.Transpose(c), s);
    TransposeIsTransposeIff(c);
    InverseInverts(m);
    InverseUnique(m, InverseOf(m));
  }

  /** Hence it is the textbook inverse for every symmetric matrix. */
  lemma InverseOfSymmetric(m: Matrix.Mat3)
    requires Determinant(m) != 0.0
    requires m[0][1] == m[1][0] && m[0][2] == m[2][0] && m[1][2] == m[2][1]
    ensures Matrix.Det(m) == Determinant(m)
    ensures InverseOf(m) == Matrix.Inverse(m)
    ensures Matrix.Multiply(m, InverseOf(m)) == Matrix.Identity(3)
    ensures Matrix.Multiply(InverseOf(m), m) == Matrix.Identity(3)
  {
    SymmetricCofactors(m);
    InverseOfIsInverseIff(m);
  }

  /** A symmetric matrix has a symmetric cofactor matrix at (1, 2). */
  lemma SymmetricCofactors(m: Matrix.Mat3)
    requires m[0][1] == m[1][0] && m[0][2] == m[2][0] && m[1][2] == m[2][1]
    ensures Matrix.Cofactors(m)[1][2] == Matrix.Cofactors(m)[2][1]
  {
    Matrix.Det2(Matrix.Minor(m, 1, 2));
    Matrix.Det2(Matrix.Minor(m, 2, 1));
  }

  /** The matrix of the library's test driver: determinant 3 and inverse
      [[-1, 1, 0], [1, -2, 1], [0, 1, -2/3]], which is the textbook one. */
  lemma InverseExample(m: Matrix.Mat3)
    requires m == [[1.0, 2.0, 3.0], [2.0, 2.0, 3.0], [3.0, 3.0, 3.0]]
    ensures Determinant(m) == 3.0 && Matrix.Det(m) == 3.0
    ensures InverseOf(m) == [[-1.0, 1.0, 0.0], [1.0, -2.0, 1.0], [0.0, 1.0, -2.0 / 3.0]]
    ensures InverseOf(m) == Matrix.Inverse(m)
    ensures Matrix.Multiply(m, InverseOf(m)) == Matrix.Identity(3)
  {
    Matrix.Equal3(CofactorMatrix(m), [[-3.0, 3.0, 0.0], [3.0, -6.0, 3.0], [0.0, 3.0, -2.0]]);
    Matrix.Equal3(InverseOf(m), [[-1.0, 1.0, 0.0], [1.0, -2.0, 1.0], [0.0, 1.0, -2.0 / 3.0]]);
    InverseOfSymmetric(m);
  }

  /** A matrix that mat3f_inverse gets wrong: for [[1, 0, 0], [0, 1, 1],
      [0, 0, 1]] it writes [[1, 0, 0], [0, 1, 0], [0, -1, 1]], whose
      product with the input is not the identity. */
  lemma InverseCounterexample(m: Matrix.Mat3)
    requires m == [[1.0, 0.0, 0.0], [0.0, 1.0, 1.0], [0.0, 0.0, 1.0]]
    ensures Determinant(m) == 1.0 && Matrix.Det(m) == 1.0
    ensures InverseOf(m) == [[1.0, 0.0, 0.0], [0.0, 1.0, 0.0], [0.0, -1.0, 1.0]]
    ensures Matrix.Multiply(m, InverseOf(m)) != Matrix.Identity(3)
    ensures InverseOf(m) != Matrix.Inverse(m)
  {
    var inv := [[1.0, 0.0, 0.0], [0.0, 1.0, 0.0], [0.0, -1.0, 1.0]];
    Matrix.Equal3(CofactorMatrix(m), inv);
    Matrix.Equal3(InverseOf(m), inv);
    RowCol3(m, inv, 1, 1);
    assert Matrix.Multiply(m, inv)[1][1] == 0.0;
    InverseOfIsInverseIff(m);
  }

  /** The inverse as evidently intended: the cofactors through the full
      transpose, then scaled by 1/det, which is the textbook inverse. */
  method CorrectedInverse(mat: array2<real>, dest: array2<real>)
    requires Matrix.HasShape(mat, 3) && Matrix.HasShape(dest, 3)
    modifies dest
    ensures var m: Matrix.Mat3 := old(Matrix.Grid(mat));
            if Matrix.Det(m) != 0.0 then Matrix.Grid(dest) == Matrix.Inverse(m)
            else Matrix.Grid(dest) == old(Matrix.Grid(dest))
    ensures var m: Matrix.Mat3 := old(Matrix.Grid(mat));
            Matrix.Det(m) != 0.0 ==>
              Matrix.Multiply(m, Matrix.Grid(dest)) == Matrix.Identity(3)
              && Matrix.Multiply(Matrix.Grid(dest), m) == Matrix.Identity(3)
  {
    var m: Matrix.Mat3 := Matrix.Grid(mat);
    var dt := Determinant(m);
    DeterminantIsDet(m);
    if dt != 0.0 {
      InverseInverts(m);
      var tmp := FillCofactors(m);
      CofactorMatrixIsCofactors(m);
      FullTranspose(tmp, tmp);
      Scale(tmp, 1.0 / dt, tmp);
      ghost var inv := Matrix.Grid(tmp);
      Matrix.CopyInto(tmp, dest);
      Matrix.GridIs(dest, inv);
    }
  }

  // ---------------------------------------------------------------------
  // The adjugate identity, and what the corrected inverse is worth

  /** The 3x3 determinant as a signed sum of six products of cells, one
      per permutation of the columns. */
  function DetPoly(m00: real, m01: real, m02: real,
                   m10: real, m11: real, m12: real,
                   m20: real, m21: real, m22: real): real
  {
    m00 * m11 * m22 - m00 * m12 * m21 - m01 * m10 * m22
    + m01 * m12 * m20 + m02 * m10 * m21 - m02 * m11 * m20
  }

  /** Grouping the six products by row 0 gives the routine's expansion. */
  lemma DetPolyByRow0(m00: real, m01: real, m02: real,
                      m10: real, m11: real, m12: real,
                      m20: real, m21: real, m22: real)
    ensures DetPoly(m00, m01, m02, m10, m11, m12, m20, m21, m22)
            == m00 * (m11 * m22 - m12 * m21) - m01 * (m10 * m22 - m12 * m20)
               + m02 * (m10 * m21 - m11 * m20)
  {
  }

  /** mat3f_determinant is that sum of products. */
  lemma DeterminantIsDetPoly(m: Matrix.Mat3)
    ensures Determinant(m) == DetPoly(m[0][0], m[0][1], m[0][2], m[1][0], m[1][1], m[1][2],
                                      m[2][0], m[2][1], m[2][2])
  {
    DeterminantExpanded(m);
    DetPolyByRow0(m[0][0], m[0][1], m[0][2], m[1][0], m[1][1], m[1][2], m[2][0], m[2][1], m[2][2]);
  }

  /** The cofactor matrix of a 3x3 matrix in closed form. */
  lemma CofactorsExpanded(m: Matrix.Mat3)
    ensures var c := CofactorMatrix(m);
            c[0][0] == (m[1][1] * m[2][2] - m[1][2] * m[2][1])
            && c[0][1] == -1.0 * (m[1][0] * m[2][2] - m[1][2] * m[2][0])
            && c[0][2] == (m[1][0] * m[2][1] - m[1][1] * m[2][0])
    ensures var c := CofactorMatrix(m);
            c[1][0] == -1.0 * (m[0][1] * m[2][2] - m[0][2] * m[2][1])
            && c[1][1] == (m[0][0] * m[2][2] - m[0][2] * m[2][0])
            && c[1][2] == -1.0 * (m[0][0] * m[2][1] - m[0][1] * m[2][0])
    ensures var c := CofactorMatrix(m);
            c[2][0] == (m[0][1] * m[1][2] - m[0][2] * m[1][1])
            && c[2][1] == -1.0 * (m[0][0] * m[1][2] - m[0][2] * m[1][0])
            && c[2][2] == (m[0][0] * m[1][1] - m[0][1] * m[1][0])
  {
  }

  /** Row i of the cells against the cofactors of row j sums to the
      determinant when i == j and to 0 otherwise (the determinant of a
      matrix with a repeated row); so does column i of the cofactors
      against column j.  Stated on plain reals, cofactors written out. */
  lemma CofactorSums(m00: real, m01: real, m02: real,
                     m10: real, m11: real, m12: real,
                     m20: real, m21: real, m22: real, det: real)
    requires det == DetPoly(m00, m01, m02, m10, m11, m12, m20, m21, m22)
    ensures Dot(m00, m01, m02, (m11 * m22 - m12 * m21), (-1.0 * (m10 * m22 - m12 * m20)), (m10 * m21 - m11 * m20)) == det
    ensures Dot(m00, m01, m02, (-1.0 * (m01 * m22 - m02 * m21)), (m00 * m22 - m02 * m20), (-1.0 * (m00 * m21 - m01 * m20))) == 0.0
    ensures Dot(m00, m01, m02, (m01 * m12 - m02 * m11), (-1.0 * (m00 * m12 - m02 * m10)), (m00 * m11 - m01 * m10)) == 0.0
    ensures Dot(m10, m11, m12, (m11 * m22 - m12 * m21), (-1.0 * (m10 * m22 - m12 * m20)), (m10 * m21 - m11 * m20)) == 0.0
    ensures Dot(m10, m11, m12, (-1.0 * (m01 * m22 - m02 * m21)), (m00 * m22 - m02 * m20), (-1.0 * (m00 * m21 - m01 * m20))) == det
    ensures Dot(m10, m11, m12, (m01 * m12 - m02 * m11), (-1.0 * (m00 * m12 - m02 * m10)), (m00 * m11 - m01 * m10)) == 0.0
    ensures Dot(m20, m21, m22, (m11 * m22 - m12 * m21), (-1.0 * (m10 * m22 - m12 * m20)), (m10 * m21 - m11 * m20)) == 0.0
    ensures Dot(m20, m21, m22, (-1.0 * (m01 * m22 - m02 * m21)), (m00 * m22 - m02 * m20), (-1.0 * (m00 * m21 - m01 * m20))) == 0.0
    ensures Dot(m20, m21, m22, (m01 * m12 - m02 * m11), (-1.0 * (m00 * m12 - m02 * m10)), (m00 * m11 - m01 * m10)) == det
    ensures Dot((m11 * m22 - m12 * m21), (-1.0 * (m01 * m22 - m02 * m21)), (m01 * m12 - m02 * m11), m00, m10, m20) == det
    ensures Dot((m11 * m22 - m12 * m21), (-1.0 * (m01 * m22 - m02 * m21)), (m01 * m12 - m02 * m11), m01, m11, m21) == 0.0
    ensures Dot((m11 * m22 - m12 * m21), (-1.0 * (m01 * m22 - m02 * m21)), (m01 * m12 - m02 * m11), m02, m12, m22) == 0.0
    ensures Dot((-1.0 * (m10 * m22 - m12 * m20)), (m00 * m22 - m02 * m20), (-1.0 * (m00 * m12 - m02 * m10)), m00, m10, m20) == 0.0
    ensures Dot((-1.0 * (m10 * m22 - m12 * m20)), (m00 * m22 - m02 * m20), (-1.0 * (m00 * m12 - m02 * m10)), m01, m11, m21) == det
    ensures Dot((-1.0 * (m10 * m22 - m12 * m20)), (m00 * m22 - m02 * m20), (-1.0 * (m00 * m12 - m02 * m10)), m02, m12, m22) == 0.0
    ensures Dot((m10 * m21 - m11 * m20), (-1.0 * (m00 * m21 - m01 * m20)), (m00 * m11 - m01 * m10), m00, m10, m20) == 0.0
    ensures Dot((m10 * m21 - m11 * m20), (-1.0 * (m00 * m21 - m01 * m20)), (m00 * m11 - m01 * m10), m01, m11, m21) == 0.0
    ensures Dot((m10 * m21 - m11 * m20), (-1.0 * (m00 * m21 - m01 * m20)), (m00 * m11 - m01 * m10), m02, m12, m22) == det
  {
  }

  /** The same sums with the cofactors passed in as the cells a[k][j] of
      the adjugate (cofactor (j, k)): m * a and a * m are det * I, cell
      by cell. */
  lemma AdjugateSums(m00: real, m01: real, m02: real,
                     m10: real, m11: real, m12: real,
                     m20: real, m21: real, m22: real,
                     a00: real, a01: real, a02: real,
                     a10: real, a11: real, a12: real,
                     a20: real, a21: real, a22: real, det: real)
    requires det == DetPoly(m00, m01, m02, m10, m11, m12, m20, m21, m22)
    requires a00 == (m11 * m22 - m12 * m21) && a01 == -1.0 * (m01 * m22 - m02 * m21) && a02 == (m01 * m12 - m02 * m11)
    requires a10 == -1.0 * (m10 * m22 - m12 * m20) && a11 == (m00 * m22 - m02 * m20) && a12 == -1.0 * (m00 * m12 - m02 * m10)
    requires a20 == (m10 * m21 - m11 * m20) && a21 == -1.0 * (m00 * m21 - m01 * m20) && a22 == (m00 * m11 - m01 * m10)
    ensures Dot(m00, m01, m02, a00, a10, a20) == det && Dot(m00, m01, m02, a01, a11, a21) == 0.0 && Dot(m00, m01, m02, a02, a12, a22) == 0.0
    ensures Dot(m10, m11, m12, a00, a10, a20) == 0.0 && Dot(m10, m11, m12, a01, a11, a21) == det && Dot(m10, m11, m12, a02, a12, a22) == 0.0
    ensures Dot(m20, m21, m22, a00, a10, a20) == 0.0 && Dot(m20, m21, m22, a01, a11, a21) == 0.0 && Dot(m20, m21, m22, a02, a12, a22) == det
    ensures Dot(a00, a01, a02, m00, m10, m20) == det && Dot(a00, a01, a02, m01, m11, m21) == 0.0 && Dot(a00, a01, a02, m02, m12, m22) == 0.0
    ensures Dot(a10, a11, a12, m00, m10, m20) == 0.0 && Dot(a10, a11, a12, m01, m11, m21) == det && Dot(a10, a11, a12, m02, m12, m22) == 0.0
    ensures Dot(a20, a21, a22, m00, m10, m20) == 0.0 && Dot(a20, a21, a22, m01, m11, m21) == 0.0 && Dot(a20, a21, a22, m02, m12, m22) == det
  {
    CofactorSums(m00, m01, m02, m10, m11, m12, m20, m21, m22, det);
  }

  /** A matrix `adj` whose cells are the cofactors of `m`, transposed,
      multiplies `m` on either side to d * I, where d is the determinant. */
  lemma AdjugateProducts(m: Matrix.Mat3, adj: Matrix.Mat3, d: real)
    requires d == DetPoly(m[0][0], m[0][1], m[0][2], m[1][0], m[1][1], m[1][2], m[2][0], m[2][1], m[2][2])
    requires adj[0][0] == (m[1][1] * m[2][2] - m[1][2] * m[2][1])
             && adj[0][1] == -1.0 * (m[0][1] * m[2][2] - m[0][2] * m[2][1])
             && adj[0][2] == (m[0][1] * m[1][2] - m[0][2] * m[1][1])
    requires adj[1][0] == -1.0 * (m[1][0] * m[2][2] - m[1][2] * m[2][0])
             && adj[1][1] == (m[0][0] * m[2][2] - m[0][2] * m[2][0])
             && adj[1][2] == -1.0 * (m[0][0] * m[1][2] - m[0][2] * m[1][0])
    requires adj[2][0] == (m[1][0] * m[2][1] - m[1][1] * m[2][0])
             && adj[2][1] == -1.0 * (m[0][0] * m[2][1] - m[0][1] * m[2][0])
             && adj[2][2] == (m[0][0] * m[1][1] - m[0][1] * m[1][0])
    ensures Matrix.Multiply(m, adj) == Matrix.Scale(Matrix.Identity(3), d)
    ensures Matrix.Multiply(adj, m) == Matrix.Scale(Matrix.Identity(3), d)
  {
    AdjugateSums(m[0][0], m[0][1], m[0][2], m[1][0], m[1][1], m[1][2], m[2][0], m[2][1], m[2][2],
                 adj[0][0], adj[0][1], adj[0][2], adj[1][0], adj[1][1], adj[1][2], adj[2][0], adj[2][1], adj[2][2], d);
    forall i, j | 0 <= i < 3 && 0 <= j < 3
      ensures Matrix.Multiply(m, adj)[i][j] == Dot(m[i][0], m[i][1], m[i][2], adj[0][j], adj[1][j], adj[2][j])
      ensures Matrix.Multiply(adj, m)[i][j] == Dot(adj[i][0], adj[i][1], adj[i][2], m[0][j], m[1][j], m[2][j])
    {
      ProductCell(m, adj, i, j);
      ProductCell(adj, m, i, j);
    }
    Matrix.Equal3(Matrix.Multiply(m, adj), Matrix.Scale(Matrix.Identity(3), d));
    Matrix.Equal3(Matrix.Multiply(adj, m), Matrix.Scale(Matrix.Identity(3), d));
  }

  /** The adjugate identity, on both sides: m * adj(m) == adj(m) * m
      == det(m) * I. */
  lemma Adjugate(m: Matrix.Mat3)
    ensures Matrix.Multiply(m, Matrix.Transpose(Matrix.Cofactors(m)))
            == Matrix.Scale(Matrix.Identity(3), Matrix.Det(m))
    ensures Matrix.Multiply(Matrix.Transpose(Matrix.Cofactors(m)), m)
            == Matrix.Scale(Matrix.Identity(3), Matrix.Det(m))
  {
    CofactorMatrixIsCofactors(m);
    CofactorsExpanded(m);
    DeterminantIsDet(m);
    DeterminantIsDetPoly(m);
    AdjugateProducts(m, Matrix.Transpose(Matrix.Cofactors(m)), Matrix.Det(m));
  }

  /** The textbook inverse (adjugate over determinant) is a two-sided
      inverse of every 3x3 matrix with nonzero determinant. */
  lemma InverseInverts(m: Matrix.Mat3)
    requires Matrix.Det(m) != 0.0
    ensures Matrix.Multiply(m, Matrix.Inverse(m)) == Matrix.Identity(3)
    ensures Matrix.Multiply(Matrix.Inverse(m), m) == Matrix.Identity(3)
  {
    Adjugate(m);
    Matrix.InverseFromAdjugate(m);
    Matrix.InverseFromLeftAdjugate(m);
  }

  /** Regrouping a sum of sums: one cell of (x * y) * z against the same
      cell of x * (y * z). */
  lemma DotAssociates(x0: real, x1: real, x2: real,
                      y00: real, y01: real, y02: real,
                      y10: real, y11: real, y12: real,
                      y20: real, y21: real, y22: real,
                      z0: real, z1: real, z2: real)
    ensures Dot(Dot(x0, x1, x2, y00, y10, y20), Dot(x0, x1, x2, y01, y11, y21),
                Dot(x0, x1, x2, y02, y12, y22), z0, z1, z2)
            == Dot(x0, x1, x2, Dot(y00, y01, y02, z0, z1, z2), Dot(y10, y11, y12, z0, z1, z2),
                   Dot(y20, y21, y22, z0, z1, z2))
  {
  }

  /** The 3x3 product is associative. */
  lemma MultiplyAssociative(a: Matrix.Mat3, b: Matrix.Mat3, c: Matrix.Mat3)
    ensures Matrix.Multiply(Matrix.Multiply(a, b), c) == Matrix.Multiply(a, Matrix.Multiply(b, c))
  {
    var ab: Matrix.Mat3, bc: Matrix.Mat3 := Matrix.Multiply(a, b), Matrix.Multiply(b, c);
    forall i, j | 0 <= i < 3 && 0 <= j < 3
      ensures Matrix.Multiply(ab, c)[i][j] == Matrix.Multiply(a, bc)[i][j]
    {
      ProductCell(ab, c, i, j);
      ProductCell(a, bc, i, j);
      ProductCell(a, b, i, 0);
      ProductCell(a, b, i, 1);
      ProductCell(a, b, i, 2);
      ProductCell(b, c, 0, j);
      ProductCell(b, c, 1, j);
      ProductCell(b, c, 2, j);
      DotAssociates(a[i][0], a[i][1], a[i][2], b[0][0], b[0][1], b[0][2], b[1][0], b[1][1], b[1][2], b[2][0], b[2][1], b[2][2],
                    c[0][j], c[1][j], c[2][j]);
    }
    Matrix.Extensionality(Matrix.Multiply(ab, c), Matrix.Multiply(a, bc));
  }

  /** An inverse is unique: a right inverse, or a left inverse, of a matrix
      with nonzero determinant is the textbook inverse. */
  lemma InverseUnique(m: Matrix.Mat3, x: Matrix.Mat3)
    requires Matrix.Det(m) != 0.0
    ensures Matrix.Multiply(m, x) == Matrix.Identity(3) ==> x == Matrix.Inverse(m)
    ensures Matrix.Multiply(x, m) == Matrix.Identity(3) ==> x == Matrix.Inverse(m)
  {
    var inv: Matrix.Mat3 := Matrix.Inverse(m);
    InverseInverts(m);
    Matrix.MultiplyIdentity(x);
    Matrix.MultiplyIdentity(inv);
    if Matrix.Multiply(m, x) == Matrix.Identity(3) {
      MultiplyAssociative(inv, m, x);
    }
    if Matrix.Multiply(x, m) == Matrix.Identity(3) {
      MultiplyAssociative(x, m, inv);
    }
  }

  /** Scaling every cell by s scales the six products by s^3. */
  lemma ScaledDetPoly(a00: real, a01: real, a02: real,
                      a10: real, a11: real, a12: real,
                      a20: real, a21: real, a22: real, s: real, det: real)
    requires det == DetPoly(a00, a01, a02, a10, a11, a12, a20, a21, a22)
    ensures DetPoly(a00 * s, a01 * s, a02 * s, a10 * s, a11 * s, a12 * s, a20 * s, a21 * s, a22 * s)
            == s * s * s * det
  {
  }

  /** The determinant of the adjugate (transposed cofactors) is det^2. */
  lemma AdjugateDetPoly(m00: real, m01: real, m02: real,
                        m10: real, m11: real, m12: real,
                        m20: real, m21: real, m22: real, det: real)
    requires det == DetPoly(m00, m01, m02, m10, m11, m12, m20, m21, m22)
    ensures DetPoly((m11 * m22 - m12 * m21), (-1.0 * (m01 * m22 - m02 * m21)), (m01 * m12 - m02 * m11), (-1.0 * (m10 * m22 - m12 * m20)), (m00 * m22 - m02 * m20), (-1.0 * (m00 * m12 - m02 * m10)), (m10 * m21 - m11 * m20), (-1.0 * (m00 * m21 - m01 * m20)), (m00 * m11 - m01 * m10))
            == det * det
  {
  }

  /** The determinant of a grid with the given cells. */
  lemma DetOfCells(m: Matrix.Mat3, m00: real, m01: real, m02: real, m10: real, m11: real, m12: real,
                   m20: real, m21: real, m22: real)
    requires m[0][0] == m00 && m[0][1] == m01 && m[0][2] == m02
    requires m[1][0] == m10 && m[1][1] == m11 && m[1][2] == m12
    requires m[2][0] == m20 && m[2][1] == m21 && m[2][2] == m22
    ensures Matrix.Det(m) == DetPoly(m00, m01, m02, m10, m11, m12, m20, m21, m22)
  {
    DetIsDetPoly(m);
  }

  /** The Laplace determinant as the six-product polynomial. */
  lemma DetIsDetPoly(m: Matrix.Mat3)
    ensures Matrix.Det(m) == DetPoly(m[0][0], m[0][1], m[0][2], m[1][0], m[1][1], m[1][2], m[2][0], m[2][1], m[2][2])
  {
    DeterminantIsDet(m);
    DeterminantIsDetPoly(m);
  }

  /** det(b) as the polynomial of the cells of a times s. */
  lemma ScaledGridPoly(a: Matrix.Mat3, b: Matrix.Mat3, s: real)
    requires b[0][0] == a[0][0] * s && b[0][1] == a[0][1] * s && b[0][2] == a[0][2] * s
    requires b[1][0] == a[1][0] * s && b[1][1] == a[1][1] * s && b[1][2] == a[1][2] * s
    requires b[2][0] == a[2][0] * s && b[2][1] == a[2][1] * s && b[2][2] == a[2][2] * s
    ensures Matrix.Det(b) == DetPoly(a[0][0] * s, a[0][1] * s, a[0][2] * s, a[1][0] * s, a[1][1] * s, a[1][2] * s, a[2][0] * s, a[2][1] * s, a[2][2] * s)
  {
    DetOfCells(b, a[0][0] * s, a[0][1] * s, a[0][2] * s, a[1][0] * s, a[1][1] * s, a[1][2] * s,
               a[2][0] * s, a[2][1] * s, a[2][2] * s);
  }

  /** The polynomial of the cells of a times s is s^3 * det(a). */
  lemma ScaledPolyDet(a: Matrix.Mat3, s: real)
    ensures DetPoly(a[0][0] * s, a[0][1] * s, a[0][2] * s, a[1][0] * s, a[1][1] * s, a[1][2] * s, a[2][0] * s, a[2][1] * s, a[2][2] * s) == s * s * s * Matrix.Det(a)
  {
    DetIsDetPoly(a);
    ScaledDetPoly(a[0][0], a[0][1], a[0][2], a[1][0], a[1][1], a[1][2], a[2][0], a[2][1], a[2][2], s, Matrix.Det(a));
  }

  /** det(b) == s^3 * det(a) for a grid b whose cells are those of a times s. */
  lemma ScaledGridDet(a: Matrix.Mat3, b: Matrix.Mat3, s: real)
    requires b[0][0] == a[0][0] * s && b[0][1] == a[0][1] * s && b[0][2] == a[0][2] * s
    requires b[1][0] == a[1][0] * s && b[1][1] == a[1][1] * s && b[1][2] == a[1][2] * s
    requires b[2][0] == a[2][0] * s && b[2][1] == a[2][1] * s && b[2][2] == a[2][2] * s
    ensures Matrix.Det(b) == s * s * s * Matrix.Det(a)
  {
    ScaledGridPoly(a, b, s);
    ScaledPolyDet(a, s);
  }

  /** det(s * a) == s^3 * det(a). */
  lemma DetScale(a: Matrix.Mat3, s: real)
    ensures Matrix.Det(Matrix.Scale(a, s)) == s * s * s * Matrix.Det(a)
  {
    ScaledGridDet(a, Matrix.Scale(a, s), s);
  }

  /** det(adj) as the polynomial of the cofactors of m. */
  lemma AdjugateGridPoly(m: Matrix.Mat3, adj: Matrix.Mat3)
    requires adj[0][0] == (m[1][1] * m[2][2] - m[1][2] * m[2][1])
             && adj[0][1] == -1.0 * (m[0][1] * m[2][2] - m[0][2] * m[2][1])
             && adj[0][2] == (m[0][1] * m[1][2] - m[0][2] * m[1][1])
    requires adj[1][0] == -1.0 * (m[1][0] * m[2][2] - m[1][2] * m[2][0])
             && adj[1][1] == (m[0][0] * m[2][2] - m[0][2] * m[2][0])
             && adj[1][2] == -1.0 * (m[0][0] * m[1][2] - m[0][2] * m[1][0])
    requires adj[2][0] == (m[1][0] * m[2][1] - m[1][1] * m[2][0])
             && adj[2][1] == -1.0 * (m[0][0] * m[2][1] - m[0][1] * m[2][0])
             && adj[2][2] == (m[0][0] * m[1][1] - m[0][1] * m[1][0])
    ensures Matrix.Det(adj) == DetPoly((m[1][1] * m[2][2] - m[1][2] * m[2][1]), (-1.0 * (m[0][1] * m[2][2] - m[0][2] * m[2][1])), (m[0][1] * m[1][2] - m[0][2] * m[1][1]), (-1.0 * (m[1][0] * m[2][2] - m[1][2] * m[2][0])), (m[0][0] * m[2][2] - m[0][2] * m[2][0]), (-1.0 * (m[0][0] * m[1][2] - m[0][2] * m[1][0])), (m[1][0] * m[2][1] - m[1][1] * m[2][0]), (-1.0 * (m[0][0] * m[2][1] - m[0][1] * m[2][0])), (m[0][0] * m[1][1] - m[0][1] * m[1][0]))
  {
    DetOfCells(adj, (m[1][1] * m[2][2] - m[1][2] * m[2][1]),
               (-1.0 * (m[0][1] * m[2][2] - m[0][2] * m[2][1])),
               (m[0][1] * m[1][2] - m[0][2] * m[1][1]),
               (-1.0 * (m[1][0] * m[2][2] - m[1][2] * m[2][0])),
               (m[0][0] * m[2][2] - m[0][2] * m[2][0]),
               (-1.0 * (m[0][0] * m[1][2] - m[0][2] * m[1][0])),
               (m[1][0] * m[2][1] - m[1][1] * m[2][0]),
               (-1.0 * (m[0][0] * m[2][1] - m[0][1] * m[2][0])),
               (m[0][0] * m[1][1] - m[0][1] * m[1][0]));
  }

  /** The polynomial of the transposed cofactors of m is det(m)^2. */
  lemma AdjugatePolyDet(m: Matrix.Mat3)
    ensures DetPoly((m[1][1] * m[2][2] - m[1][2] * m[2][1]), (-1.0 * (m[0][1] * m[2][2] - m[0][2] * m[2][1])), (m[0][1] * m[1][2] - m[0][2] * m[1][1]), (-1.0 * (m[1][0] * m[2][2] - m[1][2] * m[2][0])), (m[0][0] * m[2][2] - m[0][2] * m[2][0]), (-1.0 * (m[0][0] * m[1][2] - m[0][2] * m[1][0])), (m[1][0] * m[2][1] - m[1][1] * m[2][0]), (-1.0 * (m[0][0] * m[2][1] - m[0][1] * m[2][0])), (m[0][0] * m[1][1] - m[0][1] * m[1][0])) == Matrix.Det(m) * Matrix.Det(m)
  {
    DetIsDetPoly(m);
    AdjugateDetPoly(m[0][0], m[0][1], m[0][2], m[1][0], m[1][1], m[1][2], m[2][0], m[2][1], m[2][2], Matrix.Det(m));
  }

  /** det(adj) == det(m)^2 for a grid adj whose cells are the transposed
      cofactors of m. */
  lemma AdjugateGridDet(m: Matrix.Mat3, adj: Matrix.Mat3)
    requires adj[0][0] == (m[1][1] * m[2][2] - m[1][2] * m[2][1])
             && adj[0][1] == -1.0 * (m[0][1] * m[2][2] - m[0][2] * m[2][1])
             && adj[0][2] == (m[0][1] * m[1][2] - m[0][2] * m[1][1])
    requires adj[1][0] == -1.0 * (m[1][0] * m[2][2] - m[1][2] * m[2][0])
             && adj[1][1] == (m[0][0] * m[2][2] - m[0][2] * m[2][0])
             && adj[1][2] == -1.0 * (m[0][0] * m[1][2] - m[0][2] * m[1][0])
    requires adj[2][0] == (m[1][0] * m[2][1] - m[1][1] * m[2][0])
             && adj[2][1] == -1.0 * (m[0][0] * m[2][1] - m[0][1] * m[2][0])
             && adj[2][2] == (m[0][0] * m[1][1] - m[0][1] * m[1][0])
    ensures Matrix.Det(adj) == Matrix.Det(m) * Matrix.Det(m)
  {
    AdjugateGridPoly(m, adj);
    AdjugatePolyDet(m);
  }

  /** det(adj(m)) == det(m)^2. */
  lemma DetAdjugate(m: Matrix.Mat3)
    ensures Matrix.Det(Matrix.Transpose(Matrix.Cofactors(m))) == Matrix.Det(m) * Matrix.Det(m)
  {
    CofactorMatrixIsCofactors(m);
    CofactorsExpanded(m);
    AdjugateGridDet(m, Matrix.Transpose(Matrix.Cofactors(m)));
  }

  /** s^3 * d^2 == s when s * d == 1. */
  lemma Reciprocal(d: real, s: real, e: real, f: real)
    requires s * d == 1.0 && e == d * d && f == s * s * s * e
    ensures f == s
  {
    assert f == s * (s * d) * (s * d);
  }

  /** Inverting twice gives the matrix back, and the inverse has the
      reciprocal determinant. */
  lemma InverseRoundTrip(m: Matrix.Mat3)
    requires Matrix.Det(m) != 0.0
    ensures Matrix.Det(Matrix.Inverse(m)) == 1.0 / Matrix.Det(m)
    ensures Matrix.Det(Matrix.Inverse(m)) != 0.0 && Matrix.Inverse(Matrix.Inverse(m)) == m
  {
    var d := Matrix.Det(m);
    var s := 1.0 / d;
    var adj: Matrix.Mat3 := Matrix.Transpose(Matrix.Cofactors(m));
    var inv: Matrix.Mat3 := Matrix.Inverse(m);
    DetScale(adj, s);
    DetAdjugate(m);
    Reciprocal(d, s, Matrix.Det(adj), Matrix.Det(inv));
    InverseInverts(m);
    InverseUnique(inv, m);
  }

  /** mat3f_get_row: the guard `row > 0 && row < 3` admits rows 1 and 2. */
  method GetRow(mat: array2<real>, dest: array<real>, row: int)
    requires Matrix.HasShape(mat, 3) && dest.Length == 3
    modifies dest
    ensures 0 < row < 3 ==> dest[..] == Matrix.Grid(mat)[row]
    ensures !(0 < row < 3) ==> dest[..] == old(dest[..])
  {
    if row > 0 && row < 3 {
      dest[0] := mat[row, 0];
      dest[1] := mat[row, 1];
      dest[2] := mat[row, 2];
    }
  }

  /** mat3f_get_col: the guard `col > 0 && col < 3` admits columns 1 and 2. */
  method GetCol(mat: array2<real>, dest: array<real>, col: int)
    requires Matrix.HasShape(mat, 3) && dest.Length == 3
    modifies dest
    ensures 0 < col < 3 ==> dest[..] == Matrix.Column(Matrix.Grid(mat), col)
    ensures !(0 < col < 3) ==> dest[..] == old(dest[..])
  {
    if col > 0 && col < 3 {
      dest[0] := mat[0, col];
      dest[1] := mat[1, col];
      dest[2] := mat[2, col];
    }
  }

  /** mat3f_set_row: overwrites row 1 or 2 when asked for it, else nothing. */
  method SetRow(mat: array2<real>, src: array<real>, row: int)
    requires Matrix.HasShape(mat, 3) && src.Length == 3
    modifies mat
    ensures 0 < row < 3 ==> Matrix.Grid(mat) == Matrix.WithRow(old(Matrix.Grid(mat)), row, src[..])
    ensures !(0 < row < 3) ==> Matrix.Grid(mat) == old(Matrix.Grid(mat))
  {
    if row > 0 && row < 3 {
      forall j | 0 <= j < 3 {
        mat[row, j] := src[j];
      }
      Matrix.GridIs(mat, Matrix.WithRow(old(Matrix.Grid(mat)), row, src[..]));
    }
  }

  /** mat3f_set_col: overwrites column 1 or 2 when asked for it, else
      nothing. */
  method SetCol(mat: array2<real>, src: array<real>, col: int)
    requires Matrix.HasShape(mat, 3) && src.Length == 3
    modifies mat
    ensures 0 < col < 3 ==> Matrix.Grid(mat) == Matrix.WithColumn(old(Matrix.Grid(mat)), col, src[..])
    ensures !(0 < col < 3) ==> Matrix.Grid(mat) == old(Matrix.Grid(mat))
  {
    if col > 0 && col < 3 {
      forall i | 0 <= i < 3 {
        mat[i, col] := src[i];
      }
      Matrix.GridIs(mat, Matrix.WithColumn(old(Matrix.Grid(mat)), col, src[..]));
    }
  }
}

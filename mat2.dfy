/** The 2x2 matrix routines of mat2f.c.  A `mat2f*` is a 2x2 `array2`;
    every routine that writes a destination fills a fresh local `tmp` and
    copies it into `dest` last, so `dest` may be one of the inputs (the
    postconditions speak of the inputs' values before the call). */
module Mat2f {
  import Matrix
  import Vector

  /** mat2f_zero: every cell becomes 0. */
  method Zero(mat: array2<real>)
    requires Matrix.HasShape(mat, 2)
    modifies mat
    ensures Matrix.Grid(mat) == Matrix.Zero(2)
  {
    forall i, j | 0 <= i < 2 && 0 <= j < 2 {
      mat[i, j] := 0.0;
    }
    Matrix.GridIs2(mat, Matrix.Zero(2));
  }

  /** mat2f_identity: zero, then 1 on the diagonal. */
  method Identity(mat: array2<real>)
    requires Matrix.HasShape(mat, 2)
    modifies mat
    ensures Matrix.Grid(mat) == Matrix.Identity(2)
  {
    Zero(mat);
    assert mat[0, 1] == Matrix.Grid(mat)[0][1] && mat[1, 0] == Matrix.Grid(mat)[1][0];
    mat[0, 0] := 1.0;
    mat[1, 1] := 1.0;
    Matrix.GridIs2(mat, Matrix.Identity(2));
  }

  method Add(a: array2<real>, b: array2<real>, dest: array2<real>)
    requires Matrix.HasShape(a, 2) && Matrix.HasShape(b, 2) && Matrix.HasShape(dest, 2)
    modifies dest
    ensures Matrix.Grid(dest) == Matrix.Add(old(Matrix.Grid(a)), old(Matrix.Grid(b)))
  {
    var tmp := new real[2, 2];
    Matrix.CopyInto(a, tmp);
    tmp[0, 0] := tmp[0, 0] + b[0, 0];
    tmp[0, 1] := tmp[0, 1] + b[0, 1];
    tmp[1, 0] := tmp[1, 0] + b[1, 0];
    tmp[1, 1] := tmp[1, 1] + b[1, 1];
    Matrix.CopyInto(tmp, dest);
    Matrix.GridIs2(dest, Matrix.Add(old(Matrix.Grid(a)), old(Matrix.Grid(b))));
  }

  /** The scaled matrix, cell by cell. */
  lemma ScaleCells(m: Matrix.Mat2, s: real)
    ensures Matrix.Scale(m, s) == [[m[0][0] * s, m[0][1] * s], [m[1][0] * s, m[1][1] * s]]
  {
    Matrix.Extensionality(Matrix.Scale(m, s), [[m[0][0] * s, m[0][1] * s], [m[1][0] * s, m[1][1] * s]]);
  }

  method Scale(mat: array2<real>, scalar: real, dest: array2<real>)
    requires Matrix.HasShape(mat, 2) && Matrix.HasShape(dest, 2)
    modifies dest
    ensures Matrix.Grid(dest) == Matrix.Scale(old(Matrix.Grid(mat)), scalar)
  {
    var tmp := new real[2, 2];
    Matrix.CopyInto(mat, tmp);
    tmp[0, 0] := tmp[0, 0] * scalar;
    tmp[0, 1] := tmp[0, 1] * scalar;
    tmp[1, 0] := tmp[1, 0] * scalar;
    tmp[1, 1] := tmp[1, 1] * scalar;
    Matrix.CopyInto(tmp, dest);
    ghost var m: Matrix.Mat2 := old(Matrix.Grid(mat));
    Matrix.GridIs2(dest, [[m[0][0] * scalar, m[0][1] * scalar], [m[1][0] * scalar, m[1][1] * scalar]]);
    ScaleCells(m, scalar);
  }

  /** The product written out cell by cell, as the routine unrolls it. */
  function Product(a: Matrix.Mat2, b: Matrix.Mat2): (r: Matrix.Mat2)
    ensures r == Matrix.Multiply(a, b)
  {
    var r := [[a[0][0] * b[0][0] + a[0][1] * b[1][0], a[0][0] * b[0][1] + a[0][1] * b[1][1]],
              [a[1][0] * b[0][0] + a[1][1] * b[1][0], a[1][0] * b[0][1] + a[1][1] * b[1][1]]];
    assert forall i, j :: 0 <= i < 2 && 0 <= j < 2 ==>
             Matrix.RowCol(a, b, i, j, 1) == a[i][0] * b[0][j];
    Matrix.Extensionality(r, Matrix.Multiply(a, b));
    r
  }

  method Multiply(a: array2<real>, b: array2<real>, dest: array2<real>)
    requires Matrix.HasShape(a, 2) && Matrix.HasShape(b, 2) && Matrix.HasShape(dest, 2)
    modifies dest
    ensures Matrix.Grid(dest) == Matrix.Multiply(old(Matrix.Grid(a)), old(Matrix.Grid(b)))
  {
    var ma: Matrix.Mat2, mb: Matrix.Mat2 := Matrix.Grid(a), Matrix.Grid(b);
    var tmp := new real[2, 2];
    tmp[0, 0] := ma[0][0] * mb[0][0] + ma[0][1] * mb[1][0];
    tmp[0, 1] := ma[0][0] * mb[0][1] + ma[0][1] * mb[1][1];
    tmp[1, 0] := ma[1][0] * mb[0][0] + ma[1][1] * mb[1][0];
    tmp[1, 1] := ma[1][0] * mb[0][1] + ma[1][1] * mb[1][1];
    Matrix.CopyInto(tmp, dest);
    Matrix.GridIs2(dest, Product(ma, mb));
  }

  /** mat2f_determinant: m00*m11 - m01*m10. */
  function Determinant(m: Matrix.Mat2): real {
    m[0][0] * m[1][1] - m[0][1] * m[1][0]
  }

  /** It is the Laplace determinant. */
  lemma DeterminantIsDet(m: Matrix.Mat2)
    ensures Determinant(m) == Matrix.Det(m)
  {
    Matrix.Det2(m);
  }

  /** mat2f_transpose: one swap of [0][1] with [1][0], which for 2x2 is the
      whole transpose. */
  method Transpose(mat: array2<real>, dest: array2<real>)
    requires Matrix.HasShape(mat, 2) && Matrix.HasShape(dest, 2)
    modifies dest
    ensures Matrix.Grid(dest) == Matrix.Transpose(old(Matrix.Grid(mat)))
    ensures Matrix.Grid(dest) == Matrix.SwapRow0Col0(old(Matrix.Grid(mat)))
  {
    var tmp := new real[2, 2];
    Matrix.CopyInto(mat, tmp);
    tmp[0, 1], tmp[1, 0] := tmp[1, 0], tmp[0, 1];
    Matrix.CopyInto(tmp, dest);
    Matrix.GridIs2(dest, Matrix.Transpose(old(Matrix.Grid(mat))));
    Matrix.GridIs2(dest, Matrix.SwapRow0Col0(old(Matrix.Grid(mat))));
  }

  lemma DeterminantOfIdentity()
    ensures Determinant(Matrix.Identity(2)) == 1.0
  {
  }

  lemma DeterminantOfTranspose(m: Matrix.Mat2)
    ensures Determinant(Matrix.Transpose(m)) == Determinant(m)
  {
  }

  /** The adjugate [[m11, -m01], [-m10, m00]] that mat2f_inverse builds in
      `tmp`. */
  function Adjugate(m: Matrix.Mat2): Matrix.Mat2 {
    [[m[1][1], -1.0 * m[0][1]], [-1.0 * m[1][0], m[0][0]]]
  }

  /** It is the transposed matrix of cofactors. */
  lemma AdjugateIsTransposedCofactors(m: Matrix.Mat2)
    ensures Adjugate(m) == Matrix.Transpose(Matrix.Cofactors(m))
  {
    forall i, j | 0 <= i < 2 && 0 <= j < 2
      ensures Adjugate(m)[i][j] == Matrix.Transpose(Matrix.Cofactors(m))[i][j]
    {
      Matrix.Det1(Matrix.Minor(m, j, i));
    }
    Matrix.Extensionality(Adjugate(m), Matrix.Transpose(Matrix.Cofactors(m)));
  }

  /** What mat2f_inverse writes when the determinant is not 0: the
      adjugate scaled by 1/det. */
  function InverseOf(m: Matrix.Mat2): Matrix.Mat2
    requires Determinant(m) != 0.0
  {
    Matrix.Scale(Adjugate(m), 1.0 / Determinant(m))
  }

  /** That value is the textbook inverse. */
  lemma InverseOfIsTextbook(m: Matrix.Mat2)
    requires Determinant(m) != 0.0
    ensures Matrix.Det(m) == Determinant(m)
    ensures InverseOf(m) == Matrix.Inverse(m)
  {
    DeterminantIsDet(m);
    AdjugateIsTransposedCofactors(m);
  }

  /** The determinant times the 2x2 identity, written out. */
  lemma ScaledIdentity(d: real)
    ensures Matrix.Scale(Matrix.Identity(2), d) == [[d, 0.0], [0.0, d]]
  {
    Matrix.Extensionality(Matrix.Scale(Matrix.Identity(2), d), [[d, 0.0], [0.0, d]]);
  }

  /** The product of a matrix with its adjugate, in either order, is the
      determinant times the identity. */
  lemma AdjugateProducts(m: Matrix.Mat2)
    ensures Matrix.Multiply(m, Adjugate(m)) == Matrix.Scale(Matrix.Identity(2), Determinant(m))
    ensures Matrix.Multiply(Adjugate(m), m) == Matrix.Scale(Matrix.Identity(2), Determinant(m))
  {
    ScaledIdentity(Determinant(m));
    AdjugateOnRight(m);
    AdjugateOnLeft(m);
  }

  lemma AdjugateOnRight(m: Matrix.Mat2)
    ensures var d := Determinant(m);
            Matrix.Multiply(m, Adjugate(m)) == [[d, 0.0], [0.0, d]]
  {
    var d := Determinant(m);
    var p := Product(m, Adjugate(m));
    Matrix.Extensionality(p, [[d, 0.0], [0.0, d]]);
  }

  lemma AdjugateOnLeft(m: Matrix.Mat2)
    ensures var d := Determinant(m);
            Matrix.Multiply(Adjugate(m), m) == [[d, 0.0], [0.0, d]]
  {
    var d := Determinant(m);
    var p := Product(Adjugate(m), m);
    Matrix.Extensionality(p, [[d, 0.0], [0.0, d]]);
  }

  /** Over the reals the value mat2f_inverse writes is a two-sided
      inverse. */
  lemma InverseOfIsInverse(m: Matrix.Mat2)
    requires Determinant(m) != 0.0
    ensures Matrix.Multiply(m, InverseOf(m)) == Matrix.Identity(2)
    ensures Matrix.Multiply(InverseOf(m), m) == Matrix.Identity(2)
  {
    AdjugateProducts(m);
    Matrix.DividedRightInverse(m, Adjugate(m), Determinant(m));
    Matrix.DividedLeftInverse(m, Adjugate(m), Determinant(m));
  }

  /** The cell arithmetic of inverting once: with s = 1/d, the adjugate
      a scaled by s has determinant s. */
  lemma InvertedCells(m00: real, m01: real, m10: real, m11: real,
                      a00: real, a01: real, a10: real, a11: real,
                      i00: real, i01: real, i10: real, i11: real, d: real, s: real)
    requires d == m00 * m11 - m01 * m10 && d != 0.0 && s == 1.0 / d
    requires a00 == m11 && a01 == -1.0 * m01 && a10 == -1.0 * m10 && a11 == m00
    requires i00 == a00 * s && i01 == a01 * s && i10 == a10 * s && i11 == a11 * s
    ensures i00 * i11 - i01 * i10 == s && s != 0.0
  {
    assert s * d == 1.0;
    assert i00 * i11 - i01 * i10 == s * (s * d);
  }

  /** The cell arithmetic of inverting twice: the adjugate c of the
      first inverse i (the adjugate a scaled by s = 1/d), scaled by 1/e
      where e = s is its determinant, gives back the original cells. */
  lemma TwiceInvertedCells(m00: real, m01: real, m10: real, m11: real,
                           a00: real, a01: real, a10: real, a11: real,
                           i00: real, i01: real, i10: real, i11: real,
                           c00: real, c01: real, c10: real, c11: real,
                           b00: real, b01: real, b10: real, b11: real, d: real, s: real, e: real, t: real)
    requires d == m00 * m11 - m01 * m10 && d != 0.0 && s == 1.0 / d
    requires a00 == m11 && a01 == -1.0 * m01 && a10 == -1.0 * m10 && a11 == m00
    requires i00 == a00 * s && i01 == a01 * s && i10 == a10 * s && i11 == a11 * s
    requires e == s && t == 1.0 / e
    requires c00 == i11 && c01 == -1.0 * i01 && c10 == -1.0 * i10 && c11 == i00
    requires b00 == c00 * t && b01 == c01 * t && b10 == c10 * t && b11 == c11 * t
    ensures b00 == m00 && b01 == m01 && b10 == m10 && b11 == m11
  {
    assert t == d;
  }

  /** Inverting gives a matrix whose determinant is the reciprocal. */
  lemma InverseOfDeterminant(m: Matrix.Mat2)
    requires Determinant(m) != 0.0
    ensures Determinant(InverseOf(m)) == 1.0 / Determinant(m)
    ensures Determinant(InverseOf(m)) != 0.0
  {
    var a, inv := Adjugate(m), InverseOf(m);
    InvertedCells(m[0][0], m[0][1], m[1][0], m[1][1], a[0][0], a[0][1], a[1][0], a[1][1],
                  inv[0][0], inv[0][1], inv[1][0], inv[1][1], Determinant(m), 1.0 / Determinant(m));
  }

  /** Inverting twice gives the matrix back, through a determinant that
      is the reciprocal of the original one. */
  lemma InverseOfRoundTrip(m: Matrix.Mat2)
    requires Determinant(m) != 0.0
    ensures Determinant(InverseOf(m)) == 1.0 / Determinant(m)
    ensures Determinant(InverseOf(m)) != 0.0 && InverseOf(InverseOf(m)) == m
  {
    InverseOfDeterminant(m);
    var inv := InverseOf(m);
    var a, c, back := Adjugate(m), Adjugate(inv), InverseOf(inv);
    TwiceInvertedCells(m[0][0], m[0][1], m[1][0], m[1][1], a[0][0], a[0][1], a[1][0], a[1][1], inv[0][0], inv[0][1], inv[1][0], inv[1][1],
                       c[0][0], c[0][1], c[1][0], c[1][1], back[0][0], back[0][1], back[1][0], back[1][1],
                       Determinant(m), 1.0 / Determinant(m), Determinant(inv), 1.0 / Determinant(inv));
    Matrix.Extensionality(back, m);
  }

  /** The worked example [[1, 2], [3, 4]]: determinant -2, inverse
      [[-2, 1], [1.5, -0.5]]. */
  lemma InverseExample()
    ensures Determinant([[1.0, 2.0], [3.0, 4.0]]) == -2.0
    ensures InverseOf([[1.0, 2.0], [3.0, 4.0]]) == [[-2.0, 1.0], [1.5, -0.5]]
  {
    var m: Matrix.Mat2 := [[1.0, 2.0], [3.0, 4.0]];
    Matrix.Extensionality(InverseOf(m), [[-2.0, 1.0], [1.5, -0.5]]);
  }

  /** mat2f_inverse: when the determinant is exactly 0, `dest` is left
      untouched; otherwise it receives InverseOf. */
  method Inverse(mat: array2<real>, dest: array2<real>)
    requires Matrix.HasShape(mat, 2) && Matrix.HasShape(dest, 2)
    modifies dest
    ensures var m: Matrix.Mat2 := old(Matrix.Grid(mat));
            if Determinant(m) != 0.0 then Matrix.Grid(dest) == InverseOf(m)
            else Matrix.Grid(dest) == old(Matrix.Grid(dest))
  {
    var m: Matrix.Mat2 := Matrix.Grid(mat);
    var dt := Determinant(m);
    if dt != 0.0 {
      var tmp := new real[2, 2];
      tmp[0, 0] := m[1][1];
      tmp[1, 1] := m[0][0];
      tmp[0, 1] := -1.0 * m[0][1];
      tmp[1, 0] := -1.0 * m[1][0];
      Matrix.GridIs2(tmp, Adjugate(m));
      Scale(tmp, 1.0 / dt, tmp);
      ghost var inv := Matrix.Grid(tmp);
      Matrix.CopyInto(tmp, dest);
      Matrix.GridIs2(dest, inv);
    }
  }

  /** mat2f_get_row: the guard `row > 0 && row < 2` admits row 1 only. */
  method GetRow(mat: array2<real>, dest: array<real>, row: int)
    requires Matrix.HasShape(mat, 2) && dest.Length == 2
    modifies dest
    ensures 0 < row < 2 ==> dest[..] == Matrix.Grid(mat)[row]
    ensures !(0 < row < 2) ==> dest[..] == old(dest[..])
  {
    if row > 0 && row < 2 {
      dest[0] := mat[row, 0];
      dest[1] := mat[row, 1];
    }
  }

  /** mat2f_get_col: the guard `col > 0 && col < 2` admits column 1 only. */
  method GetCol(mat: array2<real>, dest: array<real>, col: int)
    requires Matrix.HasShape(mat, 2) && dest.Length == 2
    modifies dest
    ensures 0 < col < 2 ==> dest[..] == Matrix.Column(Matrix.Grid(mat), col)
    ensures !(0 < col < 2) ==> dest[..] == old(dest[..])
  {
    if col > 0 && col < 2 {
      dest[0] := mat[0, col];
      dest[1] := mat[1, col];
    }
  }

  /** mat2f_set_row: overwrites row 1 when asked for it, else nothing. */
  method SetRow(mat: array2<real>, src: array<real>, row: int)
    requires Matrix.HasShape(mat, 2) && src.Length == 2
    modifies mat
    ensures 0 < row < 2 ==> Matrix.Grid(mat) == Matrix.WithRow(old(Matrix.Grid(mat)), row, src[..])
    ensures !(0 < row < 2) ==> Matrix.Grid(mat) == old(Matrix.Grid(mat))
  {
    if row > 0 && row < 2 {
      mat[row, 0] := src[0];
      mat[row, 1] := src[1];
      Matrix.GridIs2(mat, Matrix.WithRow(old(Matrix.Grid(mat)), row, src[..]));
    }
  }

  /** mat2f_set_col: overwrites column 1 when asked for it, else nothing. */
  method SetCol(mat: array2<real>, src: array<real>, col: int)
    requires Matrix.HasShape(mat, 2) && src.Length == 2
    modifies mat
    ensures 0 < col < 2 ==> Matrix.Grid(mat) == Matrix.WithColumn(old(Matrix.Grid(mat)), col, src[..])
    ensures !(0 < col < 2) ==> Matrix.Grid(mat) == old(Matrix.Grid(mat))
  {
    if col > 0 && col < 2 {
      mat[0, col] := src[0];
      mat[1, col] := src[1];
      Matrix.GridIs2(mat, Matrix.WithColumn(old(Matrix.Grid(mat)), col, src[..]));
    }
  }
}

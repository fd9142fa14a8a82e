/** The 4x4 matrix routines of mat4f.c.  A `mat4f*` is a 4x4 `array2`;
    results are built in a fresh local `tmp` and copied into `dest` last,
    so `dest` may be one of the inputs.  The routines spell out one
    statement per cell; here a `forall` statement over the cells performs
    the same simultaneous updates.  Four routines differ from the
    textbook operation they are named after (scale, determinant,
    transpose, inverse); each is modelled as written and followed by the
    corrected routine. */
module Mat4f {
  import Matrix
  import Vector
  import Mat3f

  /** mat4f_zero: every cell becomes 0. */
  method Zero(mat: array2<real>)
    requires Matrix.HasShape(mat, 4)
    modifies mat
    ensures Matrix.Grid(mat) == Matrix.Zero(4)
  {
    forall i, j | 0 <= i < 4 && 0 <= j < 4 {
      mat[i, j] := 0.0;
    }
    Matrix.GridIs(mat, Matrix.Zero(4));
  }

  /** mat4f_identity: zero, then 1 on the diagonal. */
  method Identity(mat: array2<real>)
    requires Matrix.HasShape(mat, 4)
    modifies mat
    ensures Matrix.Grid(mat) == Matrix.Identity(4)
  {
    Zero(mat);
    forall i | 0 <= i < 4 {
      mat[i, i] := 1.0;
    }
    Matrix.GridIs(mat, Matrix.Identity(4));
  }

  method Add(a: array2<real>, b: array2<real>, dest: array2<real>)
    requires Matrix.HasShape(a, 4) && Matrix.HasShape(b, 4) && Matrix.HasShape(dest, 4)
    modifies dest
    ensures Matrix.Grid(dest) == Matrix.Add(old(Matrix.Grid(a)), old(Matrix.Grid(b)))
  {
    var tmp := new real[4, 4];
    Matrix.CopyInto(a, tmp);
    forall i, j | 0 <= i < 4 && 0 <= j < 4 {
      tmp[i, j] := tmp[i, j] + b[i, j];
    }
    Matrix.CopyInto(tmp, dest);
    Matrix.GridIs(dest, Matrix.Add(old(Matrix.Grid(a)), old(Matrix.Grid(b))));
  }

  // ---------------------------------------------------------------------
  // Scale

  /** What mat4f_scale computes: rows 0..2 are scaled once, cells [0][3],
      [1][3] and [2][3] a second time, [3][3] once, and [3][0], [3][1],
      [3][2] not at all. */
  function Scaled(m: Matrix.Mat4, s: real): Matrix.Mat4 {
    seq(4, i requires 0 <= i < 4 => seq(4, j requires 0 <= j < 4 =>
      if i == 3 && j < 3 then m[i][j]
      else if i < 3 && j == 3 then m[i][j] * s * s
      else m[i][j] * s))
  }

  /** mat4f_scale: the copy and the twelve statements that scale rows 0..2,
      then the four statements on column 3. */
  method Scale(mat: array2<real>, scalar: real, dest: array2<real>)
    requires Matrix.HasShape(mat, 4) && Matrix.HasShape(dest, 4)
    modifies dest
    ensures Matrix.Grid(dest) == Scaled(old(Matrix.Grid(mat)), scalar)
  {
    var m: Matrix.Mat4 := Matrix.Grid(mat);
    var tmp := CopyScalingRows(m, scalar);
    ScaleColumn3(tmp, scalar);
    ScaledInTwoSteps(m, scalar);
    ghost var g := Matrix.Grid(tmp);
    Matrix.CopyInto(tmp, dest);
    Matrix.GridIs(dest, g);
  }

  /** Rows 0..2 scaled, row 3 as it was. */
  function RowsScaled(m: Matrix.Mat4, s: real): Matrix.Mat4 {
    seq(4, i requires 0 <= i < 4 => seq(4, j requires 0 <= j < 4 => if i < 3 then m[i][j] * s else m[i][j]))
  }

  /** Column 3 scaled, the rest as it was. */
  function Column3Scaled(m: Matrix.Mat4, s: real): Matrix.Mat4 {
    seq(4, i requires 0 <= i < 4 => seq(4, j requires 0 <= j < 4 => if j == 3 then m[i][j] * s else m[i][j]))
  }

  /** The routine's two phases compose to Scaled. */
  lemma ScaledInTwoSteps(m: Matrix.Mat4, s: real)
    ensures Column3Scaled(RowsScaled(m, s), s) == Scaled(m, s)
  {
    Matrix.Extensionality(Column3Scaled(RowsScaled(m, s), s), Scaled(m, s));
  }

  /** First phase: `tmp` is a copy of the matrix with rows 0..2 scaled. */
  method CopyScalingRows(m: Matrix.Mat4, scalar: real) returns (tmp: array2<real>)
    ensures fresh(tmp) && Matrix.HasShape(tmp, 4)
    ensures Matrix.Grid(tmp) == RowsScaled(m, scalar)
  {
    tmp := new real[4, 4];
    forall i, j | 0 <= i < 4 && 0 <= j < 4 {
      tmp[i, j] := if i < 3 then m[i][j] * scalar else m[i][j];
    }
    Matrix.GridIs(tmp, RowsScaled(m, scalar));
  }

  /** Second phase: the four statements `tmp.m[i][3] *= scalar`. */
  method ScaleColumn3(tmp: array2<real>, scalar: real)
    requires Matrix.HasShape(tmp, 4)
    modifies tmp
    ensures Matrix.Grid(tmp) == Column3Scaled(old(Matrix.Grid(tmp)), scalar)
  {
    ghost var g: Matrix.Mat4 := Matrix.Grid(tmp);
    forall i | 0 <= i < 4 {
      tmp[i, 3] := tmp[i, 3] * scalar;
    }
    Matrix.GridIs(tmp, Column3Scaled(g, scalar));
  }

  /** x * s equals x exactly when x is 0 or s is 1. */
  lemma FixedByFactor(x: real, s: real)
    ensures x * s == x <==> x == 0.0 || s == 1.0
  {
    assert x * s - x == x * (s - 1.0);
  }

  /** x * s * s equals x * s exactly when x * s is 0 or s is 1. */
  lemma FixedBySquare(x: real, s: real)
    ensures x * s * s == x * s <==> x == 0.0 || s == 0.0 || s == 1.0
  {
    FixedByFactor(x * s, s);
    assert x * s == 0.0 <==> x == 0.0 || s == 0.0;
  }

  /** mat4f_scale agrees with the textbook scale exactly when the factor is
      1, or cells [3][0..2] are 0 and, unless the factor is 0, so are cells
      [0..2][3]. */
  lemma ScaledIsScaleIff(m: Matrix.Mat4, s: real)
    ensures Scaled(m, s) == Matrix.Scale(m, s) <==>
            s == 1.0 || (m[3][0] == 0.0 && m[3][1] == 0.0 && m[3][2] == 0.0 &&
                         (s == 0.0 || (m[0][3] == 0.0 && m[1][3] == 0.0 && m[2][3] == 0.0)))
  {
    ScaledMatchesScale(m, s);
    FixedByFactor(m[3][0], s);
    FixedByFactor(m[3][1], s);
    FixedByFactor(m[3][2], s);
    FixedBySquare(m[0][3], s);
    FixedBySquare(m[1][3], s);
    FixedBySquare(m[2][3], s);
  }

  /** The two agree exactly when each of the six cells that mat4f_scale
      gets wrong comes out the same either way. */
  lemma ScaledMatchesScale(m: Matrix.Mat4, s: real)
    ensures Scaled(m, s) == Matrix.Scale(m, s) <==>
            m[3][0] * s == m[3][0] && m[3][1] * s == m[3][1] && m[3][2] * s == m[3][2] &&
            m[0][3] * s * s == m[0][3] * s && m[1][3] * s * s == m[1][3] * s && m[2][3] * s * s == m[2][3] * s
  {
    var r, t := Scaled(m, s), Matrix.Scale(m, s);
    assert r[3][0] == m[3][0] && r[3][1] == m[3][1] && r[3][2] == m[3][2];
    assert r[0][3] == m[0][3] * s * s && r[1][3] == m[1][3] * s * s && r[2][3] == m[2][3] * s * s;
    assert t[3][0] == m[3][0] * s && t[3][1] == m[3][1] * s && t[3][2] == m[3][2] * s;
    assert t[0][3] == m[0][3] * s && t[1][3] == m[1][3] * s && t[2][3] == m[2][3] * s;
    if m[3][0] * s == m[3][0] && m[3][1] * s == m[3][1] && m[3][2] * s == m[3][2] &&
       m[0][3] * s * s == m[0][3] * s && m[1][3] * s * s == m[1][3] * s && m[2][3] * s * s == m[2][3] * s {
      ScaledAgrees(m, s);
    } else if m[3][0] * s != m[3][0] {
      assert r[3][0] != t[3][0];
    } else if m[3][1] * s != m[3][1] {
      assert r[3][1] != t[3][1];
    } else if m[3][2] * s != m[3][2] {
      assert r[3][2] != t[3][2];
    } else if m[0][3] * s * s != m[0][3] * s {
      assert r[0][3] != t[0][3];
    } else if m[1][3] * s * s != m[1][3] * s {
      assert r[1][3] != t[1][3];
    } else {
      assert r[2][3] != t[2][3];
    }
  }

  /** When the six cells come out the same either way, so does the whole
      matrix. */
  lemma ScaledAgrees(m: Matrix.Mat4, s: real)
    requires m[3][0] * s == m[3][0] && m[3][1] * s == m[3][1] && m[3][2] * s == m[3][2]
    requires m[0][3] * s * s == m[0][3] * s && m[1][3] * s * s == m[1][3] * s && m[2][3] * s * s == m[2][3] * s
    ensures Scaled(m, s) == Matrix.Scale(m, s)
  {
    forall i, j | 0 <= i < 4 && 0 <= j < 4
      ensures Scaled(m, s)[i][j] == Matrix.Scale(m, s)[i][j]
    {
    }
    Matrix.Extensionality(Scaled(m, s), Matrix.Scale(m, s));
  }

  /** Doubling the all-ones matrix with mat4f_scale leaves [3][0] at 1 and
      makes [0][3] 4. */
  lemma ScaleCounterexample(m: Matrix.Mat4)
    requires m == [[1.0, 1.0, 1.0, 1.0], [1.0, 1.0, 1.0, 1.0], [1.0, 1.0, 1.0, 1.0], [1.0, 1.0, 1.0, 1.0]]
    ensures Scaled(m, 2.0)[3][0] == 1.0 && Scaled(m, 2.0)[0][3] == 4.0
    ensures Scaled(m, 2.0) != Matrix.Scale(m, 2.0)
  {
    assert Matrix.Scale(m, 2.0)[3][0] == 2.0;
  }

  /** The scale as evidently intended: every cell once. */
  method CorrectedScale(mat: array2<real>, scalar: real, dest: array2<real>)
    requires Matrix.HasShape(mat, 4) && Matrix.HasShape(dest, 4)
    modifies dest
    ensures Matrix.Grid(dest) == Matrix.Scale(old(Matrix.Grid(mat)), scalar)
  {
    var tmp := new real[4, 4];
    Matrix.CopyInto(mat, tmp);
    forall i, j | 0 <= i < 4 && 0 <= j < 4 {
      tmp[i, j] := tmp[i, j] * scalar;
    }
    Matrix.CopyInto(tmp, dest);
    Matrix.GridIs(dest, Matrix.Scale(old(Matrix.Grid(mat)), scalar));
  }

  // ---------------------------------------------------------------------
  // Multiply

  /** Cell (i, j) of the product is the four-term sum the routine writes. */
  lemma RowCol4(a: Matrix.Mat4, b: Matrix.Mat4, i: nat, j: nat)
    requires i < 4 && j < 4
    ensures Matrix.RowCol(a, b, i, j, 4) ==
            a[i][0] * b[0][j] + a[i][1] * b[1][j] + a[i][2] * b[2][j] + a[i][3] * b[3][j]
  {
    assert Matrix.RowCol(a, b, i, j, 0) == 0.0;
    Matrix.RowColStep(a, b, i, j, 1);
    Matrix.RowColStep(a, b, i, j, 2);
    Matrix.RowColStep(a, b, i, j, 3);
    Matrix.RowColStep(a, b, i, j, 4);
  }

  /** mat4f_multiply.  Nothing is written to `a` or `b` before the final
      copy, so their contents are read once, as values, up front. */
  method Multiply(a: array2<real>, b: array2<real>, dest: array2<real>)
    requires Matrix.HasShape(a, 4) && Matrix.HasShape(b, 4) && Matrix.HasShape(dest, 4)
    modifies dest
    ensures Matrix.Grid(dest) == Matrix.Multiply(old(Matrix.Grid(a)), old(Matrix.Grid(b)))
  {
    var ma: Matrix.Mat4, mb: Matrix.Mat4 := Matrix.Grid(a), Matrix.Grid(b);
    var tmp := FreshProduct(ma, mb);
    ghost var g := Matrix.Grid(tmp);
    Matrix.CopyInto(tmp, dest);
    Matrix.GridIs(dest, g);
  }

  /** The routine's 16 sums of products, written into a fresh scratch matrix. */
  method FreshProduct(ma: Matrix.Mat4, mb: Matrix.Mat4) returns (tmp: array2<real>)
    ensures fresh(tmp) && Matrix.HasShape(tmp, 4)
    ensures Matrix.Grid(tmp) == Matrix.Multiply(ma, mb)
  {
    tmp := new real[4, 4];
    forall i, j | 0 <= i < 4 && 0 <= j < 4 {
      tmp[i, j] := ma[i][0] * mb[0][j] + ma[i][1] * mb[1][j] + ma[i][2] * mb[2][j] + ma[i][3] * mb[3][j];
    }
    forall i, j | 0 <= i < 4 && 0 <= j < 4 ensures Matrix.Multiply(ma, mb)[i][j] == tmp[i, j] {
      RowCol4(ma, mb, i, j);
    }
    Matrix.GridIs(tmp, Matrix.Multiply(ma, mb));
  }

  // ---------------------------------------------------------------------
  // Determinant

  /** The scratch 3x3 matrix `sm` that the determinant and the inverse
      fill: `m` without row `row` and column `col`. */
  function MinorOf(m: Matrix.Mat4, row: nat, col: nat): Matrix.Mat3
    requires row < 4 && col < 4
  {
    var r0, r1, r2 := if row == 0 then 1 else 0, if row <= 1 then 2 else 1, if row <= 2 then 3 else 2;
    var c0, c1, c2 := if col == 0 then 1 else 0, if col <= 1 then 2 else 1, if col <= 2 then 3 else 2;
    [[m[r0][c0], m[r0][c1], m[r0][c2]], [m[r1][c0], m[r1][c1], m[r1][c2]], [m[r2][c0], m[r2][c1], m[r2][c2]]]
  }

  /** The cells the routines copy into `sm` are exactly the minor. */
  lemma MinorOfIsMinor(m: Matrix.Mat4, row: nat, col: nat)
    requires row < 4 && col < 4
    ensures MinorOf(m, row, col) == Matrix.Minor(m, row, col)
  {
    Matrix.Extensionality(MinorOf(m, row, col), Matrix.Minor(m, row, col));
  }

  /** mat3f_determinant of that scratch matrix is the determinant of the
      minor. */
  lemma MinorDeterminantIsDet(m: Matrix.Mat4, row: nat, col: nat)
    requires row < 4 && col < 4
    ensures Mat3f.Determinant(MinorOf(m, row, col)) == Matrix.Det(Matrix.Minor(m, row, col))
  {
    MinorOfIsMinor(m, row, col);
    Mat3f.DeterminantIsDet(MinorOf(m, row, col));
  }

  /** mat4f_determinant: the expansion along row 0 through four 3x3
      determinants, with the last term added where the Laplace expansion
      subtracts it. */
  function Determinant(m: Matrix.Mat4): real {
    0.0 + m[0][0] * Mat3f.Determinant(MinorOf(m, 0, 0))
        - m[0][1] * Mat3f.Determinant(MinorOf(m, 0, 1))
        + m[0][2] * Mat3f.Determinant(MinorOf(m, 0, 2))
        + m[0][3] * Mat3f.Determinant(MinorOf(m, 0, 3))
  }

  /** The determinant as evidently intended: the last term subtracted. */
  function CorrectedDeterminant(m: Matrix.Mat4): real {
    0.0 + m[0][0] * Mat3f.Determinant(MinorOf(m, 0, 0))
        - m[0][1] * Mat3f.Determinant(MinorOf(m, 0, 1))
        + m[0][2] * Mat3f.Determinant(MinorOf(m, 0, 2))
        - m[0][3] * Mat3f.Determinant(MinorOf(m, 0, 3))
  }

  /** The 3x3 determinants along row 0, written out: minor (0, j) keeps
      rows 1..3 and every column but j. */
  lemma MinorOfExpanded(m: Matrix.Mat4, j: nat)
    requires j < 4
    ensures Mat3f.Determinant(MinorOf(m, 0, j)) ==
              m[1][(if 0 < j then 0 else 1)] * (m[2][(if 1 < j then 1 else 2)] * m[3][(if 2 < j then 2 else 3)] - m[2][(if 2 < j then 2 else 3)] * m[3][(if 1 < j then 1 else 2)])
              - m[1][(if 1 < j then 1 else 2)] * (m[2][(if 0 < j then 0 else 1)] * m[3][(if 2 < j then 2 else 3)] - m[2][(if 2 < j then 2 else 3)] * m[3][(if 0 < j then 0 else 1)])
              + m[1][(if 2 < j then 2 else 3)] * (m[2][(if 0 < j then 0 else 1)] * m[3][(if 1 < j then 1 else 2)] - m[2][(if 1 < j then 1 else 2)] * m[3][(if 0 < j then 0 else 1)])
  {
    Mat3f.DeterminantExpanded(MinorOf(m, 0, j));
  }

  /** The same polynomial for the minor of the Laplace determinant. */
  lemma MinorDetExpanded(m: Matrix.Mat4, j: nat)
    requires j < 4
    ensures Matrix.Det(Matrix.Minor(m, 0, j)) ==
              m[1][(if 0 < j then 0 else 1)] * (m[2][(if 1 < j then 1 else 2)] * m[3][(if 2 < j then 2 else 3)] - m[2][(if 2 < j then 2 else 3)] * m[3][(if 1 < j then 1 else 2)])
              - m[1][(if 1 < j then 1 else 2)] * (m[2][(if 0 < j then 0 else 1)] * m[3][(if 2 < j then 2 else 3)] - m[2][(if 2 < j then 2 else 3)] * m[3][(if 0 < j then 0 else 1)])
              + m[1][(if 2 < j then 2 else 3)] * (m[2][(if 0 < j then 0 else 1)] * m[3][(if 1 < j then 1 else 2)] - m[2][(if 1 < j then 1 else 2)] * m[3][(if 0 < j then 0 else 1)])
  {
    Matrix.Det3Expanded(Matrix.Minor(m, 0, j));
  }

  /** mat4f_determinant as a polynomial in the cells. */
  lemma DeterminantExpanded(m: Matrix.Mat4)
    ensures Determinant(m) ==
              m[0][0] * (m[1][1] * (m[2][2] * m[3][3] - m[2][3] * m[3][2]) - m[1][2] * (m[2][1] * m[3][3] - m[2][3] * m[3][1]) + m[1][3] * (m[2][1] * m[3][2] - m[2][2] * m[3][1]))
              - m[0][1] * (m[1][0] * (m[2][2] * m[3][3] - m[2][3] * m[3][2]) - m[1][2] * (m[2][0] * m[3][3] - m[2][3] * m[3][0]) + m[1][3] * (m[2][0] * m[3][2] - m[2][2] * m[3][0]))
              + m[0][2] * (m[1][0] * (m[2][1] * m[3][3] - m[2][3] * m[3][1]) - m[1][1] * (m[2][0] * m[3][3] - m[2][3] * m[3][0]) + m[1][3] * (m[2][0] * m[3][1] - m[2][1] * m[3][0]))
              + m[0][3] * (m[1][0] * (m[2][1] * m[3][2] - m[2][2] * m[3][1]) - m[1][1] * (m[2][0] * m[3][2] - m[2][2] * m[3][0]) + m[1][2] * (m[2][0] * m[3][1] - m[2][1] * m[3][0]))
  {
    MinorOfExpanded(m, 0);
    MinorOfExpanded(m, 1);
    MinorOfExpanded(m, 2);
    MinorOfExpanded(m, 3);
  }

  /** The corrected routine as a polynomial in the cells. */
  lemma CorrectedDeterminantExpanded(m: Matrix.Mat4)
    ensures CorrectedDeterminant(m) ==
              m[0][0] * (m[1][1] * (m[2][2] * m[3][3] - m[2][3] * m[3][2]) - m[1][2] * (m[2][1] * m[3][3] - m[2][3] * m[3][1]) + m[1][3] * (m[2][1] * m[3][2] - m[2][2] * m[3][1]))
              - m[0][1] * (m[1][0] * (m[2][2] * m[3][3] - m[2][3] * m[3][2]) - m[1][2] * (m[2][0] * m[3][3] - m[2][3] * m[3][0]) + m[1][3] * (m[2][0] * m[3][2] - m[2][2] * m[3][0]))
              + m[0][2] * (m[1][0] * (m[2][1] * m[3][3] - m[2][3] * m[3][1]) - m[1][1] * (m[2][0] * m[3][3] - m[2][3] * m[3][0]) + m[1][3] * (m[2][0] * m[3][1] - m[2][1] * m[3][0]))
              - m[0][3] * (m[1][0] * (m[2][1] * m[3][2] - m[2][2] * m[3][1]) - m[1][1] * (m[2][0] * m[3][2] - m[2][2] * m[3][0]) + m[1][2] * (m[2][0] * m[3][1] - m[2][1] * m[3][0]))
  {
    MinorOfExpanded(m, 0);
    MinorOfExpanded(m, 1);
    MinorOfExpanded(m, 2);
    MinorOfExpanded(m, 3);
  }

  /** The Laplace determinant as a polynomial in the cells. */
  lemma DetExpanded(m: Matrix.Mat4)
    ensures Matrix.Det(m) ==
              m[0][0] * (m[1][1] * (m[2][2] * m[3][3] - m[2][3] * m[3][2]) - m[1][2] * (m[2][1] * m[3][3] - m[2][3] * m[3][1]) + m[1][3] * (m[2][1] * m[3][2] - m[2][2] * m[3][1]))
              - m[0][1] * (m[1][0] * (m[2][2] * m[3][3] - m[2][3] * m[3][2]) - m[1][2] * (m[2][0] * m[3][3] - m[2][3] * m[3][0]) + m[1][3] * (m[2][0] * m[3][2] - m[2][2] * m[3][0]))
              + m[0][2] * (m[1][0] * (m[2][1] * m[3][3] - m[2][3] * m[3][1]) - m[1][1] * (m[2][0] * m[3][3] - m[2][3] * m[3][0]) + m[1][3] * (m[2][0] * m[3][1] - m[2][1] * m[3][0]))
              - m[0][3] * (m[1][0] * (m[2][1] * m[3][2] - m[2][2] * m[3][1]) - m[1][1] * (m[2][0] * m[3][2] - m[2][2] * m[3][0]) + m[1][2] * (m[2][0] * m[3][1] - m[2][1] * m[3][0]))
  {
    Matrix.Det4Terms(m);
    MinorDetExpanded(m, 0);
    MinorDetExpanded(m, 1);
    MinorDetExpanded(m, 2);
    MinorDetExpanded(m, 3);
  }

  /** The corrected routine is the Laplace determinant. */
  lemma CorrectedDeterminantIsDet(m: Matrix.Mat4)
    ensures CorrectedDeterminant(m) == Matrix.Det(m)
  {
    CorrectedDeterminantExpanded(m);
    DetExpanded(m);
  }

  /** mat4f_determinant exceeds the determinant by twice the last term of
      the expansion. */
  lemma DeterminantValue(m: Matrix.Mat4)
    ensures Determinant(m) == Matrix.Det(m) + 2.0 * m[0][3] * Matrix.Det(Matrix.Minor(m, 0, 3))
  {
    DeterminantExpanded(m);
    DetExpanded(m);
    MinorDetExpanded(m, 3);
    LastTermFlipped(m[0][0], m[0][1], m[0][2], m[0][3], m[1][0], m[1][1], m[1][2], m[1][3], m[2][0], m[2][1], m[2][2], m[2][3], m[3][0], m[3][1], m[3][2], m[3][3]);
  }

  /** The polynomial identity behind it: flipping the sign of the last
      term adds twice that term. */
  lemma LastTermFlipped(a00: real, a01: real, a02: real, a03: real, a10: real, a11: real, a12: real, a13: real, a20: real, a21: real, a22: real, a23: real, a30: real, a31: real, a32: real, a33: real)
    ensures a00 * (a11 * (a22 * a33 - a23 * a32) - a12 * (a21 * a33 - a23 * a31) + a13 * (a21 * a32 - a22 * a31))
            - a01 * (a10 * (a22 * a33 - a23 * a32) - a12 * (a20 * a33 - a23 * a30) + a13 * (a20 * a32 - a22 * a30))
            + a02 * (a10 * (a21 * a33 - a23 * a31) - a11 * (a20 * a33 - a23 * a30) + a13 * (a20 * a31 - a21 * a30))
            + a03 * (a10 * (a21 * a32 - a22 * a31) - a11 * (a20 * a32 - a22 * a30) + a12 * (a20 * a31 - a21 * a30))
            == a00 * (a11 * (a22 * a33 - a23 * a32) - a12 * (a21 * a33 - a23 * a31) + a13 * (a21 * a32 - a22 * a31))
            - a01 * (a10 * (a22 * a33 - a23 * a32) - a12 * (a20 * a33 - a23 * a30) + a13 * (a20 * a32 - a22 * a30))
            + a02 * (a10 * (a21 * a33 - a23 * a31) - a11 * (a20 * a33 - a23 * a30) + a13 * (a20 * a31 - a21 * a30))
            - a03 * (a10 * (a21 * a32 - a22 * a31) - a11 * (a20 * a32 - a22 * a30) + a12 * (a20 * a31 - a21 * a30))
               + 2.0 * a03 * (a10 * (a21 * a32 - a22 * a31) - a11 * (a20 * a32 - a22 * a30) + a12 * (a20 * a31 - a21 * a30))
  {
  }

  /** The two routines differ in the sign of the last term only. */
  lemma DeterminantIsCorrectedPlus(m: Matrix.Mat4)
    ensures Determinant(m) == CorrectedDeterminant(m) + 2.0 * m[0][3] * Mat3f.Determinant(MinorOf(m, 0, 3))
  {
  }

  /** Hence mat4f_determinant is the determinant exactly when that last
      term is 0. */
  lemma DeterminantIsDetIff(m: Matrix.Mat4)
    ensures Determinant(m) == Matrix.Det(m) <==> m[0][3] * Matrix.Det(Matrix.Minor(m, 0, 3)) == 0.0
  {
    DeterminantValue(m);
  }

  lemma DeterminantOfIdentity(m: Matrix.Mat4)
    requires m == Matrix.Identity(4)
    ensures Determinant(m) == 1.0
  {
    assert m[0] == [1.0, 0.0, 0.0, 0.0] && m[1] == [0.0, 1.0, 0.0, 0.0];
    assert m[2] == [0.0, 0.0, 1.0, 0.0] && m[3] == [0.0, 0.0, 0.0, 1.0];
    DeterminantExpanded(m);
  }

  /** The cyclic permutation matrix has determinant -1, but
      mat4f_determinant returns 1. */
  lemma DeterminantCounterexample(m: Matrix.Mat4)
    requires m == [[0.0, 0.0, 0.0, 1.0], [1.0, 0.0, 0.0, 0.0], [0.0, 1.0, 0.0, 0.0], [0.0, 0.0, 1.0, 0.0]]
    ensures Determinant(m) == 1.0 && Matrix.Det(m) == -1.0
  {
    DeterminantExpanded(m);
    DetExpanded(m);
  }

  // ---------------------------------------------------------------------
  // Transpose

  /** mat4f_transpose: exchanges [0][j] with [j][0] for j = 1, 2, 3, each
      by three exclusive-ors of the bit patterns, and nothing else.  The
      copy is one `forall` statement; the three exchanges, which touch
      disjoint cells, are two more that read the values from before. */
  method Transpose(mat: array2<real>, dest: array2<real>)
    requires Matrix.HasShape(mat, 4) && Matrix.HasShape(dest, 4)
    modifies dest
    ensures Matrix.Grid(dest) == Matrix.SwapRow0Col0(old(Matrix.Grid(mat)))
  {
    var m: Matrix.Mat4 := Matrix.Grid(mat);
    var tmp := new real[4, 4];
    forall i, j | 0 <= i < 4 && 0 <= j < 4 {
      tmp[i, j] := m[i][j];
    }
    forall j | 0 < j < 4 {
      tmp[0, j] := m[j][0];
    }
    forall j | 0 < j < 4 {
      tmp[j, 0] := m[0][j];
    }
    Matrix.CopyInto(tmp, dest);
    Matrix.GridIs(dest, Matrix.SwapRow0Col0(m));
  }

  /** mat4f_transpose undoes itself. */
  lemma TransposeInvolution(m: Matrix.Mat4)
    ensures Matrix.SwapRow0Col0(Matrix.SwapRow0Col0(m)) == m
  {
    Matrix.SwapRow0Col0Involution(m);
  }

  /** What mat4f_transpose computes is the transpose exactly when the
      block of rows and columns 1..3 is already symmetric. */
  lemma TransposeIsTransposeIff(m: Matrix.Mat4)
    ensures Matrix.SwapRow0Col0(m) == Matrix.Transpose(m) <==>
            m[1][2] == m[2][1] && m[1][3] == m[3][1] && m[2][3] == m[3][2]
  {
    Matrix.SwapRow0Col0IsTransposeIff(m);
    if m[1][2] == m[2][1] && m[1][3] == m[3][1] && m[2][3] == m[3][2] {
      forall i, j | 0 < i < 4 && 0 < j < 4 ensures m[i][j] == m[j][i] {
      }
    }
  }

  /** The transpose as evidently intended: all six exchanges. */
  method FullTranspose(mat: array2<real>, dest: array2<real>)
    requires Matrix.HasShape(mat, 4) && Matrix.HasShape(dest, 4)
    modifies dest
    ensures Matrix.Grid(dest) == Matrix.Transpose(old(Matrix.Grid(mat)))
  {
    var tmp := new real[4, 4];
    forall i, j | 0 <= i < 4 && 0 <= j < 4 {
      tmp[i, j] := mat[j, i];
    }
    Matrix.CopyInto(tmp, dest);
    Matrix.GridIs(dest, Matrix.Transpose(old(Matrix.Grid(mat))));
  }

  // ---------------------------------------------------------------------
  // Inverse

  /** The value mat4f_inverse stores in tmp.m[i][j]: the 3x3 determinant
      of minor (i, j), negated in columns 1 and 3 whatever the row. */
  function CofactorCell(m: Matrix.Mat4, i: nat, j: nat): real
    requires i < 4 && j < 4
  {
    var d := Mat3f.Determinant(MinorOf(m, i, j));
    if j % 2 == 1 then -1.0 * d else d
  }

  /** The sixteen cells mat4f_inverse fills before transposing. */
  function CofactorMatrix(m: Matrix.Mat4): Matrix.Mat4 {
    seq(4, i requires 0 <= i < 4 => seq(4, j requires 0 <= j < 4 => CofactorCell(m, i, j)))
  }

  /** In rows 0 and 2 that value is the cofactor; in rows 1 and 3 it is
      the cofactor negated. */
  lemma CofactorCellSign(m: Matrix.Mat4, i: nat, j: nat)
    requires i < 4 && j < 4
    ensures CofactorCell(m, i, j) == Matrix.Sign(i) * Matrix.Cofactor(m, i, j)
  {
    MinorDeterminantIsDet(m, i, j);
    ColumnSign(i, j, Matrix.Det(Matrix.Minor(m, i, j)));
  }

  /** The sign by column parity is the checkerboard sign times the sign
      of the row. */
  lemma ColumnSign(i: nat, j: nat, d: real)
    ensures (if j % 2 == 1 then -1.0 * d else d) == Matrix.Sign(i) * (Matrix.Sign(i + j) * d)
  {
    if i % 2 == 0 {
      assert (i + j) % 2 == j % 2;
    } else {
      assert (i + j) % 2 != j % 2;
    }
  }

  /** What mat4f_inverse writes when its determinant is not 0: the matrix
      above through mat4f_transpose, then through mat4f_scale by 1/det. */
  function InverseOf(m: Matrix.Mat4): Matrix.Mat4
    requires Determinant(m) != 0.0
  {
    Scaled(Matrix.SwapRow0Col0(CofactorMatrix(m)), 1.0 / Determinant(m))
  }

  /** The first part of mat4f_inverse: a fresh `tmp` holding
      CofactorMatrix. */
  method FillCofactors(m: Matrix.Mat4) returns (tmp: array2<real>)
    ensures fresh(tmp) && Matrix.HasShape(tmp, 4)
    ensures Matrix.Grid(tmp) == CofactorMatrix(m)
  {
    tmp := new real[4, 4];
    forall i, j | 0 <= i < 4 && 0 <= j < 4 {
      tmp[i, j] := CofactorCell(m, i, j);
    }
    Matrix.GridIs(tmp, CofactorMatrix(m));
  }

  /** mat4f_inverse: when its determinant is exactly 0, `dest` is left
      untouched; otherwise it receives InverseOf. */
  method Inverse(mat: array2<real>, dest: array2<real>)
    requires Matrix.HasShape(mat, 4) && Matrix.HasShape(dest, 4)
    modifies dest
    ensures var m: Matrix.Mat4 := old(Matrix.Grid(mat));
            if Determinant(m) != 0.0 then Matrix.Grid(dest) == InverseOf(m)
            else Matrix.Grid(dest) == old(Matrix.Grid(dest))
  {
    var m: Matrix.Mat4 := Matrix.Grid(mat);
    var dt := Determinant(m);
    if dt != 0.0 {
      var tmp := FillCofactors(m);
      Transpose(tmp, tmp);
      Scale(tmp, 1.0 / dt, tmp);
      ghost var inv := Matrix.Grid(tmp);
      Matrix.CopyInto(tmp, dest);
      Matrix.GridIs(dest, inv);
    }
  }

  /** On the identity, whose determinant the routine gets right and whose
      cofactor matrix no transpose or scale can disturb, the wrong signs
      show: the routine writes diag(1, -1, 1, -1), whose product with the
      input is not the identity. */
  lemma InverseOfIdentity(m: Matrix.Mat4)
    requires m == Matrix.Identity(4)
    ensures Determinant(m) == 1.0
    ensures InverseOf(m) == [[1.0, 0.0, 0.0, 0.0], [0.0, -1.0, 0.0, 0.0], [0.0, 0.0, 1.0, 0.0], [0.0, 0.0, 0.0, -1.0]]
    ensures Matrix.Multiply(m, InverseOf(m)) != Matrix.Identity(4)
  {
    var d: Matrix.Mat4 := [[1.0, 0.0, 0.0, 0.0], [0.0, -1.0, 0.0, 0.0], [0.0, 0.0, 1.0, 0.0], [0.0, 0.0, 0.0, -1.0]];
    DeterminantOfIdentity(m);
    CofactorMatrixOfIdentity(m);
    DiagonalUnmoved(d);
    assert InverseOf(m) == d;
    Matrix.MultiplyIdentity(d);
    assert Matrix.Identity(4)[1][1] == 1.0;
    assert Matrix.Multiply(m, InverseOf(m))[1] != Matrix.Identity(4)[1];
  }

  /** A diagonal matrix passes through mat4f_transpose and through
      mat4f_scale by 1 unchanged. */
  lemma DiagonalUnmoved(d: Matrix.Mat4)
    requires forall i, j :: 0 <= i < 4 && 0 <= j < 4 && i != j ==> d[i][j] == 0.0
    ensures Scaled(Matrix.SwapRow0Col0(d), 1.0) == d
  {
    Matrix.Extensionality(Matrix.SwapRow0Col0(d), d);
    Matrix.Extensionality(Scaled(d, 1.0), d);
  }

  /** The sixteen cells the routine fills for the identity. */
  lemma CofactorMatrixOfIdentity(m: Matrix.Mat4)
    requires m == Matrix.Identity(4)
    ensures CofactorMatrix(m) == [[1.0, 0.0, 0.0, 0.0], [0.0, -1.0, 0.0, 0.0], [0.0, 0.0, 1.0, 0.0], [0.0, 0.0, 0.0, -1.0]]
  {
    var d: Matrix.Mat4 := [[1.0, 0.0, 0.0, 0.0], [0.0, -1.0, 0.0, 0.0], [0.0, 0.0, 1.0, 0.0], [0.0, 0.0, 0.0, -1.0]];
    forall i, j | 0 <= i < 4 && 0 <= j < 4 ensures CofactorMatrix(m)[i][j] == d[i][j] {
      MinorOfIdentity(m, i, j);
    }
    Matrix.Extensionality(CofactorMatrix(m), d);
  }

  /** mat3f_determinant of minor (i, j) of the identity: 1 on the
      diagonal, 0 elsewhere. */
  lemma MinorOfIdentity(m: Matrix.Mat4, i: nat, j: nat)
    requires m == Matrix.Identity(4) && i < 4 && j < 4
    ensures Mat3f.Determinant(MinorOf(m, i, j)) == if i == j then 1.0 else 0.0
  {
    MinorOfIsMinor(m, i, j);
    var s := MinorOf(m, i, j);
    Mat3f.DeterminantExpanded(s);
    if i != j {
      assert s[if i < j then j - 1 else j][if i < j then i else i - 1] == 0.0;
    }
  }

  /** The cofactor cell with the checkerboard sign (-1)^(i+j). */
  function CorrectedCofactorCell(m: Matrix.Mat4, i: nat, j: nat): (r: real)
    requires i < 4 && j < 4
    ensures r == Matrix.Cofactor(m, i, j)
  {
    MinorDeterminantIsDet(m, i, j);
    var d := Mat3f.Determinant(MinorOf(m, i, j));
    if (i + j) % 2 == 1 then -1.0 * d else d
  }

  method FillCorrectedCofactors(m: Matrix.Mat4) returns (tmp: array2<real>)
    ensures fresh(tmp) && Matrix.HasShape(tmp, 4)
    ensures Matrix.Grid(tmp) == Matrix.Cofactors(m)
  {
    tmp := new real[4, 4];
    forall i, j | 0 <= i < 4 && 0 <= j < 4 {
      tmp[i, j] := CorrectedCofactorCell(m, i, j);
    }
    Matrix.GridIs(tmp, Matrix.Cofactors(m));
  }

  /** The inverse as evidently intended: checkerboard cofactors, the full
      transpose, the corrected scale and determinant; this is the textbook
      inverse. */
  method CorrectedInverse(mat: array2<real>, dest: array2<real>)
    requires Matrix.HasShape(mat, 4) && Matrix.HasShape(dest, 4)
    modifies dest
    ensures var m: Matrix.Mat4 := old(Matrix.Grid(mat));
            if Matrix.Det(m) != 0.0 then Matrix.Grid(dest) == Matrix.Inverse(m)
            else Matrix.Grid(dest) == old(Matrix.Grid(dest))
    ensures var m: Matrix.Mat4 := old(Matrix.Grid(mat));
            Matrix.Det(m) != 0.0 ==>
              Matrix.Multiply(m, Matrix.Grid(dest)) == Matrix.Identity(4)
              && Matrix.Multiply(Matrix.Grid(dest), m) == Matrix.Identity(4)
  {
    var m: Matrix.Mat4 := Matrix.Grid(mat);
    var dt := CorrectedDeterminant(m);
    CorrectedDeterminantIsDet(m);
    if dt != 0.0 {
      InverseInverts(m);
      var tmp := FillCorrectedCofactors(m);
      FullTranspose(tmp, tmp);
      CorrectedScale(tmp, 1.0 / dt, tmp);
      ghost var inv := Matrix.Grid(tmp);
      Matrix.CopyInto(tmp, dest);
      Matrix.GridIs(dest, inv);
    }
  }

  // ---------------------------------------------------------------------
  // The adjugate identity, and what the corrected inverse is worth

  /** The 4x4 determinant as a polynomial in the sixteen cells, expanded
      along row 0 through the six-product 3x3 minors. */
  function DetPoly(m00: real, m01: real, m02: real, m03: real, m10: real, m11: real, m12: real, m13: real, m20: real, m21: real, m22: real, m23: real, m30: real, m31: real, m32: real, m33: real): real {
    m00 * (m11 * (m22 * m33 - m23 * m32) - m12 * (m21 * m33 - m23 * m31) + m13 * (m21 * m32 - m22 * m31)) - m01 * (m10 * (m22 * m33 - m23 * m32) - m12 * (m20 * m33 - m23 * m30) + m13 * (m20 * m32 - m22 * m30)) + m02 * (m10 * (m21 * m33 - m23 * m31) - m11 * (m20 * m33 - m23 * m30) + m13 * (m20 * m31 - m21 * m30)) - m03 * (m10 * (m21 * m32 - m22 * m31) - m11 * (m20 * m32 - m22 * m30) + m12 * (m20 * m31 - m21 * m30))
  }

  /** A row times a column: the four-term sum of cell (i, j) of a 4x4
      product. */
  function Dot(x0: real, x1: real, x2: real, x3: real, y0: real, y1: real, y2: real, y3: real): real {
    x0 * y0 + x1 * y1 + x2 * y2 + x3 * y3
  }

  /** Cell (i, j) of a product as a Dot of row i and column j. */
  lemma ProductCell(a: Matrix.Mat4, b: Matrix.Mat4, i: nat, j: nat)
    requires i < 4 && j < 4
    ensures Matrix.Multiply(a, b)[i][j] == Dot(a[i][0], a[i][1], a[i][2], a[i][3], b[0][j], b[1][j], b[2][j], b[3][j])
  {
    RowCol4(a, b, i, j);
  }

  /** The Laplace determinant is that polynomial. */
  lemma DetIsDetPoly(m: Matrix.Mat4)
    ensures Matrix.Det(m) == DetPoly(m[0][0], m[0][1], m[0][2], m[0][3], m[1][0], m[1][1], m[1][2], m[1][3], m[2][0], m[2][1], m[2][2], m[2][3], m[3][0], m[3][1], m[3][2], m[3][3])
  {
    DetExpanded(m);
  }

  /** Row i times the cofactors of row j: the expansion of the
      determinant along row i when i == j, and the determinant of a
      matrix with two equal rows, 0, otherwise. */
  lemma CofactorRowSums(m00: real, m01: real, m02: real, m03: real, m10: real, m11: real, m12: real, m13: real, m20: real, m21: real, m22: real, m23: real, m30: real, m31: real, m32: real, m33: real, det: real)
    requires det == DetPoly(m00, m01, m02, m03, m10, m11, m12, m13, m20, m21, m22, m23, m30, m31, m32, m33)
    ensures Dot(m00, m01, m02, m03, (m11 * (m22 * m33 - m23 * m32) - m12 * (m21 * m33 - m23 * m31) + m13 * (m21 * m32 - m22 * m31)), (-1.0 * (m10 * (m22 * m33 - m23 * m32) - m12 * (m20 * m33 - m23 * m30) + m13 * (m20 * m32 - m22 * m30))), (m10 * (m21 * m33 - m23 * m31) - m11 * (m20 * m33 - m23 * m30) + m13 * (m20 * m31 - m21 * m30)), (-1.0 * (m10 * (m21 * m32 - m22 * m31) - m11 * (m20 * m32 - m22 * m30) + m12 * (m20 * m31 - m21 * m30)))) == det
    ensures Dot(m00, m01, m02, m03, (-1.0 * (m01 * (m22 * m33 - m23 * m32) - m02 * (m21 * m33 - m23 * m31) + m03 * (m21 * m32 - m22 * m31))), (m00 * (m22 * m33 - m23 * m32) - m02 * (m20 * m33 - m23 * m30) + m03 * (m20 * m32 - m22 * m30)), (-1.0 * (m00 * (m21 * m33 - m23 * m31) - m01 * (m20 * m33 - m23 * m30) + m03 * (m20 * m31 - m21 * m30))), (m00 * (m21 * m32 - m22 * m31) - m01 * (m20 * m32 - m22 * m30) + m02 * (m20 * m31 - m21 * m30))) == 0.0
    ensures Dot(m00, m01, m02, m03, (m01 * (m12 * m33 - m13 * m32) - m02 * (m11 * m33 - m13 * m31) + m03 * (m11 * m32 - m12 * m31)), (-1.0 * (m00 * (m12 * m33 - m13 * m32) - m02 * (m10 * m33 - m13 * m30) + m03 * (m10 * m32 - m12 * m30))), (m00 * (m11 * m33 - m13 * m31) - m01 * (m10 * m33 - m13 * m30) + m03 * (m10 * m31 - m11 * m30)), (-1.0 * (m00 * (m11 * m32 - m12 * m31) - m01 * (m10 * m32 - m12 * m30) + m02 * (m10 * m31 - m11 * m30)))) == 0.0
    ensures Dot(m00, m01, m02, m03, (-1.0 * (m01 * (m12 * m23 - m13 * m22) - m02 * (m11 * m23 - m13 * m21) + m03 * (m11 * m22 - m12 * m21))), (m00 * (m12 * m23 - m13 * m22) - m02 * (m10 * m23 - m13 * m20) + m03 * (m10 * m22 - m12 * m20)), (-1.0 * (m00 * (m11 * m23 - m13 * m21) - m01 * (m10 * m23 - m13 * m20) + m03 * (m10 * m21 - m11 * m20))), (m00 * (m11 * m22 - m12 * m21) - m01 * (m10 * m22 - m12 * m20) + m02 * (m10 * m21 - m11 * m20))) == 0.0
    ensures Dot(m10, m11, m12, m13, (m11 * (m22 * m33 - m23 * m32) - m12 * (m21 * m33 - m23 * m31) + m13 * (m21 * m32 - m22 * m31)), (-1.0 * (m10 * (m22 * m33 - m23 * m32) - m12 * (m20 * m33 - m23 * m30) + m13 * (m20 * m32 - m22 * m30))), (m10 * (m21 * m33 - m23 * m31) - m11 * (m20 * m33 - m23 * m30) + m13 * (m20 * m31 - m21 * m30)), (-1.0 * (m10 * (m21 * m32 - m22 * m31) - m11 * (m20 * m32 - m22 * m30) + m12 * (m20 * m31 - m21 * m30)))) == 0.0
    ensures Dot(m10, m11, m12, m13, (-1.0 * (m01 * (m22 * m33 - m23 * m32) - m02 * (m21 * m33 - m23 * m31) + m03 * (m21 * m32 - m22 * m31))), (m00 * (m22 * m33 - m23 * m32) - m02 * (m20 * m33 - m23 * m30) + m03 * (m20 * m32 - m22 * m30)), (-1.0 * (m00 * (m21 * m33 - m23 * m31) - m01 * (m20 * m33 - m23 * m30) + m03 * (m20 * m31 - m21 * m30))), (m00 * (m21 * m32 - m22 * m31) - m01 * (m20 * m32 - m22 * m30) + m02 * (m20 * m31 - m21 * m30))) == det
    ensures Dot(m10, m11, m12, m13, (m01 * (m12 * m33 - m13 * m32) - m02 * (m11 * m33 - m13 * m31) + m03 * (m11 * m32 - m12 * m31)), (-1.0 * (m00 * (m12 * m33 - m13 * m32) - m02 * (m10 * m33 - m13 * m30) + m03 * (m10 * m32 - m12 * m30))), (m00 * (m11 * m33 - m13 * m31) - m01 * (m10 * m33 - m13 * m30) + m03 * (m10 * m31 - m11 * m30)), (-1.0 * (m00 * (m11 * m32 - m12 * m31) - m01 * (m10 * m32 - m12 * m30) + m02 * (m10 * m31 - m11 * m30)))) == 0.0
    ensures Dot(m10, m11, m12, m13, (-1.0 * (m01 * (m12 * m23 - m13 * m22) - m02 * (m11 * m23 - m13 * m21) + m03 * (m11 * m22 - m12 * m21))), (m00 * (m12 * m23 - m13 * m22) - m02 * (m10 * m23 - m13 * m20) + m03 * (m10 * m22 - m12 * m20)), (-1.0 * (m00 * (m11 * m23 - m13 * m21) - m01 * (m10 * m23 - m13 * m20) + m03 * (m10 * m21 - m11 * m20))), (m00 * (m11 * m22 - m12 * m21) - m01 * (m10 * m22 - m12 * m20) + m02 * (m10 * m21 - m11 * m20))) == 0.0
    ensures Dot(m20, m21, m22, m23, (m11 * (m22 * m33 - m23 * m32) - m12 * (m21 * m33 - m23 * m31) + m13 * (m21 * m32 - m22 * m31)), (-1.0 * (m10 * (m22 * m33 - m23 * m32) - m12 * (m20 * m33 - m23 * m30) + m13 * (m20 * m32 - m22 * m30))), (m10 * (m21 * m33 - m23 * m31) - m11 * (m20 * m33 - m23 * m30) + m13 * (m20 * m31 - m21 * m30)), (-1.0 * (m10 * (m21 * m32 - m22 * m31) - m11 * (m20 * m32 - m22 * m30) + m12 * (m20 * m31 - m21 * m30)))) == 0.0
    ensures Dot(m20, m21, m22, m23, (-1.0 * (m01 * (m22 * m33 - m23 * m32) - m02 * (m21 * m33 - m23 * m31) + m03 * (m21 * m32 - m22 * m31))), (m00 * (m22 * m33 - m23 * m32) - m02 * (m20 * m33 - m23 * m30) + m03 * (m20 * m32 - m22 * m30)), (-1.0 * (m00 * (m21 * m33 - m23 * m31) - m01 * (m20 * m33 - m23 * m30) + m03 * (m20 * m31 - m21 * m30))), (m00 * (m21 * m32 - m22 * m31) - m01 * (m20 * m32 - m22 * m30) + m02 * (m20 * m31 - m21 * m30))) == 0.0
    ensures Dot(m20, m21, m22, m23, (m01 * (m12 * m33 - m13 * m32) - m02 * (m11 * m33 - m13 * m31) + m03 * (m11 * m32 - m12 * m31)), (-1.0 * (m00 * (m12 * m33 - m13 * m32) - m02 * (m10 * m33 - m13 * m30) + m03 * (m10 * m32 - m12 * m30))), (m00 * (m11 * m33 - m13 * m31) - m01 * (m10 * m33 - m13 * m30) + m03 * (m10 * m31 - m11 * m30)), (-1.0 * (m00 * (m11 * m32 - m12 * m31) - m01 * (m10 * m32 - m12 * m30) + m02 * (m10 * m31 - m11 * m30)))) == det
    ensures Dot(m20, m21, m22, m23, (-1.0 * (m01 * (m12 * m23 - m13 * m22) - m02 * (m11 * m23 - m13 * m21) + m03 * (m11 * m22 - m12 * m21))), (m00 * (m12 * m23 - m13 * m22) - m02 * (m10 * m23 - m13 * m20) + m03 * (m10 * m22 - m12 * m20)), (-1.0 * (m00 * (m11 * m23 - m13 * m21) - m01 * (m10 * m23 - m13 * m20) + m03 * (m10 * m21 - m11 * m20))), (m00 * (m11 * m22 - m12 * m21) - m01 * (m10 * m22 - m12 * m20) + m02 * (m10 * m21 - m11 * m20))) == 0.0
    ensures Dot(m30, m31, m32, m33, (m11 * (m22 * m33 - m23 * m32) - m12 * (m21 * m33 - m23 * m31) + m13 * (m21 * m32 - m22 * m31)), (-1.0 * (m10 * (m22 * m33 - m23 * m32) - m12 * (m20 * m33 - m23 * m30) + m13 * (m20 * m32 - m22 * m30))), (m10 * (m21 * m33 - m23 * m31) - m11 * (m20 * m33 - m23 * m30) + m13 * (m20 * m31 - m21 * m30)), (-1.0 * (m10 * (m21 * m32 - m22 * m31) - m11 * (m20 * m32 - m22 * m30) + m12 * (m20 * m31 - m21 * m30)))) == 0.0
    ensures Dot(m30, m31, m32, m33, (-1.0 * (m01 * (m22 * m33 - m23 * m32) - m02 * (m21 * m33 - m23 * m31) + m03 * (m21 * m32 - m22 * m31))), (m00 * (m22 * m33 - m23 * m32) - m02 * (m20 * m33 - m23 * m30) + m03 * (m20 * m32 - m22 * m30)), (-1.0 * (m00 * (m21 * m33 - m23 * m31) - m01 * (m20 * m33 - m23 * m30) + m03 * (m20 * m31 - m21 * m30))), (m00 * (m21 * m32 - m22 * m31) - m01 * (m20 * m32 - m22 * m30) + m02 * (m20 * m31 - m21 * m30))) == 0.0
    ensures Dot(m30, m31, m32, m33, (m01 * (m12 * m33 - m13 * m32) - m02 * (m11 * m33 - m13 * m31) + m03 * (m11 * m32 - m12 * m31)), (-1.0 * (m00 * (m12 * m33 - m13 * m32) - m02 * (m10 * m33 - m13 * m30) + m03 * (m10 * m32 - m12 * m30))), (m00 * (m11 * m33 - m13 * m31) - m01 * (m10 * m33 - m13 * m30) + m03 * (m10 * m31 - m11 * m30)), (-1.0 * (m00 * (m11 * m32 - m12 * m31) - m01 * (m10 * m32 - m12 * m30) + m02 * (m10 * m31 - m11 * m30)))) == 0.0
    ensures Dot(m30, m31, m32, m33, (-1.0 * (m01 * (m12 * m23 - m13 * m22) - m02 * (m11 * m23 - m13 * m21) + m03 * (m11 * m22 - m12 * m21))), (m00 * (m12 * m23 - m13 * m22) - m02 * (m10 * m23 - m13 * m20) + m03 * (m10 * m22 - m12 * m20)), (-1.0 * (m00 * (m11 * m23 - m13 * m21) - m01 * (m10 * m23 - m13 * m20) + m03 * (m10 * m21 - m11 * m20))), (m00 * (m11 * m22 - m12 * m21) - m01 * (m10 * m22 - m12 * m20) + m02 * (m10 * m21 - m11 * m20))) == det
  {
  }

  /** The same down the columns: the cofactors of column i times
      column j. */
  lemma CofactorColumnSums(m00: real, m01: real, m02: real, m03: real, m10: real, m11: real, m12: real, m13: real, m20: real, m21: real, m22: real, m23: real, m30: real, m31: real, m32: real, m33: real, det: real)
    requires det == DetPoly(m00, m01, m02, m03, m10, m11, m12, m13, m20, m21, m22, m23, m30, m31, m32, m33)
    ensures Dot((m11 * (m22 * m33 - m23 * m32) - m12 * (m21 * m33 - m23 * m31) + m13 * (m21 * m32 - m22 * m31)), (-1.0 * (m01 * (m22 * m33 - m23 * m32) - m02 * (m21 * m33 - m23 * m31) + m03 * (m21 * m32 - m22 * m31))), (m01 * (m12 * m33 - m13 * m32) - m02 * (m11 * m33 - m13 * m31) + m03 * (m11 * m32 - m12 * m31)), (-1.0 * (m01 * (m12 * m23 - m13 * m22) - m02 * (m11 * m23 - m13 * m21) + m03 * (m11 * m22 - m12 * m21))), m00, m10, m20, m30) == det
    ensures Dot((m11 * (m22 * m33 - m23 * m32) - m12 * (m21 * m33 - m23 * m31) + m13 * (m21 * m32 - m22 * m31)), (-1.0 * (m01 * (m22 * m33 - m23 * m32) - m02 * (m21 * m33 - m23 * m31) + m03 * (m21 * m32 - m22 * m31))), (m01 * (m12 * m33 - m13 * m32) - m02 * (m11 * m33 - m13 * m31) + m03 * (m11 * m32 - m12 * m31)), (-1.0 * (m01 * (m12 * m23 - m13 * m22) - m02 * (m11 * m23 - m13 * m21) + m03 * (m11 * m22 - m12 * m21))), m01, m11, m21, m31) == 0.0
    ensures Dot((m11 * (m22 * m33 - m23 * m32) - m12 * (m21 * m33 - m23 * m31) + m13 * (m21 * m32 - m22 * m31)), (-1.0 * (m01 * (m22 * m33 - m23 * m32) - m02 * (m21 * m33 - m23 * m31) + m03 * (m21 * m32 - m22 * m31))), (m01 * (m12 * m33 - m13 * m32) - m02 * (m11 * m33 - m13 * m31) + m03 * (m11 * m32 - m12 * m31)), (-1.0 * (m01 * (m12 * m23 - m13 * m22) - m02 * (m11 * m23 - m13 * m21) + m03 * (m11 * m22 - m12 * m21))), m02, m12, m22, m32) == 0.0
    ensures Dot((m11 * (m22 * m33 - m23 * m32) - m12 * (m21 * m33 - m23 * m31) + m13 * (m21 * m32 - m22 * m31)), (-1.0 * (m01 * (m22 * m33 - m23 * m32) - m02 * (m21 * m33 - m23 * m31) + m03 * (m21 * m32 - m22 * m31))), (m01 * (m12 * m33 - m13 * m32) - m02 * (m11 * m33 - m13 * m31) + m03 * (m11 * m32 - m12 * m31)), (-1.0 * (m01 * (m12 * m23 - m13 * m22) - m02 * (m11 * m23 - m13 * m21) + m03 * (m11 * m22 - m12 * m21))), m03, m13, m23, m33) == 0.0
    ensures Dot((-1.0 * (m10 * (m22 * m33 - m23 * m32) - m12 * (m20 * m33 - m23 * m30) + m13 * (m20 * m32 - m22 * m30))), (m00 * (m22 * m33 - m23 * m32) - m02 * (m20 * m33 - m23 * m30) + m03 * (m20 * m32 - m22 * m30)), (-1.0 * (m00 * (m12 * m33 - m13 * m32) - m02 * (m10 * m33 - m13 * m30) + m03 * (m10 * m32 - m12 * m30))), (m00 * (m12 * m23 - m13 * m22) - m02 * (m10 * m23 - m13 * m20) + m03 * (m10 * m22 - m12 * m20)), m00, m10, m20, m30) == 0.0
    ensures Dot((-1.0 * (m10 * (m22 * m33 - m23 * m32) - m12 * (m20 * m33 - m23 * m30) + m13 * (m20 * m32 - m22 * m30))), (m00 * (m22 * m33 - m23 * m32) - m02 * (m20 * m33 - m23 * m30) + m03 * (m20 * m32 - m22 * m30)), (-1.0 * (m00 * (m12 * m33 - m13 * m32) - m02 * (m10 * m33 - m13 * m30) + m03 * (m10 * m32 - m12 * m30))), (m00 * (m12 * m23 - m13 * m22) - m02 * (m10 * m23 - m13 * m20) + m03 * (m10 * m22 - m12 * m20)), m01, m11, m21, m31) == det
    ensures Dot((-1.0 * (m10 * (m22 * m33 - m23 * m32) - m12 * (m20 * m33 - m23 * m30) + m13 * (m20 * m32 - m22 * m30))), (m00 * (m22 * m33 - m23 * m32) - m02 * (m20 * m33 - m23 * m30) + m03 * (m20 * m32 - m22 * m30)), (-1.0 * (m00 * (m12 * m33 - m13 * m32) - m02 * (m10 * m33 - m13 * m30) + m03 * (m10 * m32 - m12 * m30))), (m00 * (m12 * m23 - m13 * m22) - m02 * (m10 * m23 - m13 * m20) + m03 * (m10 * m22 - m12 * m20)), m02, m12, m22, m32) == 0.0
    ensures Dot((-1.0 * (m10 * (m22 * m33 - m23 * m32) - m12 * (m20 * m33 - m23 * m30) + m13 * (m20 * m32 - m22 * m30))), (m00 * (m22 * m33 - m23 * m32) - m02 * (m20 * m33 - m23 * m30) + m03 * (m20 * m32 - m22 * m30)), (-1.0 * (m00 * (m12 * m33 - m13 * m32) - m02 * (m10 * m33 - m13 * m30) + m03 * (m10 * m32 - m12 * m30))), (m00 * (m12 * m23 - m13 * m22) - m02 * (m10 * m23 - m13 * m20) + m03 * (m10 * m22 - m12 * m20)), m03, m13, m23, m33) == 0.0
    ensures Dot((m10 * (m21 * m33 - m23 * m31) - m11 * (m20 * m33 - m23 * m30) + m13 * (m20 * m31 - m21 * m30)), (-1.0 * (m00 * (m21 * m33 - m23 * m31) - m01 * (m20 * m33 - m23 * m30) + m03 * (m20 * m31 - m21 * m30))), (m00 * (m11 * m33 - m13 * m31) - m01 * (m10 * m33 - m13 * m30) + m03 * (m10 * m31 - m11 * m30)), (-1.0 * (m00 * (m11 * m23 - m13 * m21) - m01 * (m10 * m23 - m13 * m20) + m03 * (m10 * m21 - m11 * m20))), m00, m10, m20, m30) == 0.0
    ensures Dot((m10 * (m21 * m33 - m23 * m31) - m11 * (m20 * m33 - m23 * m30) + m13 * (m20 * m31 - m21 * m30)), (-1.0 * (m00 * (m21 * m33 - m23 * m31) - m01 * (m20 * m33 - m23 * m30) + m03 * (m20 * m31 - m21 * m30))), (m00 * (m11 * m33 - m13 * m31) - m01 * (m10 * m33 - m13 * m30) + m03 * (m10 * m31 - m11 * m30)), (-1.0 * (m00 * (m11 * m23 - m13 * m21) - m01 * (m10 * m23 - m13 * m20) + m03 * (m10 * m21 - m11 * m20))), m01, m11, m21, m31) == 0.0
    ensures Dot((m10 * (m21 * m33 - m23 * m31) - m11 * (m20 * m33 - m23 * m30) + m13 * (m20 * m31 - m21 * m30)), (-1.0 * (m00 * (m21 * m33 - m23 * m31) - m01 * (m20 * m33 - m23 * m30) + m03 * (m20 * m31 - m21 * m30))), (m00 * (m11 * m33 - m13 * m31) - m01 * (m10 * m33 - m13 * m30) + m03 * (m10 * m31 - m11 * m30)), (-1.0 * (m00 * (m11 * m23 - m13 * m21) - m01 * (m10 * m23 - m13 * m20) + m03 * (m10 * m21 - m11 * m20))), m02, m12, m22, m32) == det
    ensures Dot((m10 * (m21 * m33 - m23 * m31) - m11 * (m20 * m33 - m23 * m30) + m13 * (m20 * m31 - m21 * m30)), (-1.0 * (m00 * (m21 * m33 - m23 * m31) - m01 * (m20 * m33 - m23 * m30) + m03 * (m20 * m31 - m21 * m30))), (m00 * (m11 * m33 - m13 * m31) - m01 * (m10 * m33 - m13 * m30) + m03 * (m10 * m31 - m11 * m30)), (-1.0 * (m00 * (m11 * m23 - m13 * m21) - m01 * (m10 * m23 - m13 * m20) + m03 * (m10 * m21 - m11 * m20))), m03, m13, m23, m33) == 0.0
    ensures Dot((-1.0 * (m10 * (m21 * m32 - m22 * m31) - m11 * (m20 * m32 - m22 * m30) + m12 * (m20 * m31 - m21 * m30))), (m00 * (m21 * m32 - m22 * m31) - m01 * (m20 * m32 - m22 * m30) + m02 * (m20 * m31 - m21 * m30)), (-1.0 * (m00 * (m11 * m32 - m12 * m31) - m01 * (m10 * m32 - m12 * m30) + m02 * (m10 * m31 - m11 * m30))), (m00 * (m11 * m22 - m12 * m21) - m01 * (m10 * m22 - m12 * m20) + m02 * (m10 * m21 - m11 * m20)), m00, m10, m20, m30) == 0.0
    ensures Dot((-1.0 * (m10 * (m21 * m32 - m22 * m31) - m11 * (m20 * m32 - m22 * m30) + m12 * (m20 * m31 - m21 * m30))), (m00 * (m21 * m32 - m22 * m31) - m01 * (m20 * m32 - m22 * m30) + m02 * (m20 * m31 - m21 * m30)), (-1.0 * (m00 * (m11 * m32 - m12 * m31) - m01 * (m10 * m32 - m12 * m30) + m02 * (m10 * m31 - m11 * m30))), (m00 * (m11 * m22 - m12 * m21) - m01 * (m10 * m22 - m12 * m20) + m02 * (m10 * m21 - m11 * m20)), m01, m11, m21, m31) == 0.0
    ensures Dot((-1.0 * (m10 * (m21 * m32 - m22 * m31) - m11 * (m20 * m32 - m22 * m30) + m12 * (m20 * m31 - m21 * m30))), (m00 * (m21 * m32 - m22 * m31) - m01 * (m20 * m32 - m22 * m30) + m02 * (m20 * m31 - m21 * m30)), (-1.0 * (m00 * (m11 * m32 - m12 * m31) - m01 * (m10 * m32 - m12 * m30) + m02 * (m10 * m31 - m11 * m30))), (m00 * (m11 * m22 - m12 * m21) - m01 * (m10 * m22 - m12 * m20) + m02 * (m10 * m21 - m11 * m20)), m02, m12, m22, m32) == 0.0
    ensures Dot((-1.0 * (m10 * (m21 * m32 - m22 * m31) - m11 * (m20 * m32 - m22 * m30) + m12 * (m20 * m31 - m21 * m30))), (m00 * (m21 * m32 - m22 * m31) - m01 * (m20 * m32 - m22 * m30) + m02 * (m20 * m31 - m21 * m30)), (-1.0 * (m00 * (m11 * m32 - m12 * m31) - m01 * (m10 * m32 - m12 * m30) + m02 * (m10 * m31 - m11 * m30))), (m00 * (m11 * m22 - m12 * m21) - m01 * (m10 * m22 - m12 * m20) + m02 * (m10 * m21 - m11 * m20)), m03, m13, m23, m33) == det
  {
  }

  /** The cells of m times adj(m), for cells a of adj(m) given by value. */
  lemma AdjugateRightSums(m00: real, m01: real, m02: real, m03: real, m10: real, m11: real, m12: real, m13: real, m20: real, m21: real, m22: real, m23: real, m30: real, m31: real, m32: real, m33: real,
                        a00: real, a01: real, a02: real, a03: real, a10: real, a11: real, a12: real, a13: real, a20: real, a21: real, a22: real, a23: real, a30: real, a31: real, a32: real, a33: real,
                        det: real)
    requires det == DetPoly(m00, m01, m02, m03, m10, m11, m12, m13, m20, m21, m22, m23, m30, m31, m32, m33)
    requires a00 == (m11 * (m22 * m33 - m23 * m32) - m12 * (m21 * m33 - m23 * m31) + m13 * (m21 * m32 - m22 * m31))
             && a01 == (-1.0 * (m01 * (m22 * m33 - m23 * m32) - m02 * (m21 * m33 - m23 * m31) + m03 * (m21 * m32 - m22 * m31)))
             && a02 == (m01 * (m12 * m33 - m13 * m32) - m02 * (m11 * m33 - m13 * m31) + m03 * (m11 * m32 - m12 * m31))
             && a03 == (-1.0 * (m01 * (m12 * m23 - m13 * m22) - m02 * (m11 * m23 - m13 * m21) + m03 * (m11 * m22 - m12 * m21)))
    requires a10 == (-1.0 * (m10 * (m22 * m33 - m23 * m32) - m12 * (m20 * m33 - m23 * m30) + m13 * (m20 * m32 - m22 * m30)))
             && a11 == (m00 * (m22 * m33 - m23 * m32) - m02 * (m20 * m33 - m23 * m30) + m03 * (m20 * m32 - m22 * m30))
             && a12 == (-1.0 * (m00 * (m12 * m33 - m13 * m32) - m02 * (m10 * m33 - m13 * m30) + m03 * (m10 * m32 - m12 * m30)))
             && a13 == (m00 * (m12 * m23 - m13 * m22) - m02 * (m10 * m23 - m13 * m20) + m03 * (m10 * m22 - m12 * m20))
    requires a20 == (m10 * (m21 * m33 - m23 * m31) - m11 * (m20 * m33 - m23 * m30) + m13 * (m20 * m31 - m21 * m30))
             && a21 == (-1.0 * (m00 * (m21 * m33 - m23 * m31) - m01 * (m20 * m33 - m23 * m30) + m03 * (m20 * m31 - m21 * m30)))
             && a22 == (m00 * (m11 * m33 - m13 * m31) - m01 * (m10 * m33 - m13 * m30) + m03 * (m10 * m31 - m11 * m30))
             && a23 == (-1.0 * (m00 * (m11 * m23 - m13 * m21) - m01 * (m10 * m23 - m13 * m20) + m03 * (m10 * m21 - m11 * m20)))
    requires a30 == (-1.0 * (m10 * (m21 * m32 - m22 * m31) - m11 * (m20 * m32 - m22 * m30) + m12 * (m20 * m31 - m21 * m30)))
             && a31 == (m00 * (m21 * m32 - m22 * m31) - m01 * (m20 * m32 - m22 * m30) + m02 * (m20 * m31 - m21 * m30))
             && a32 == (-1.0 * (m00 * (m11 * m32 - m12 * m31) - m01 * (m10 * m32 - m12 * m30) + m02 * (m10 * m31 - m11 * m30)))
             && a33 == (m00 * (m11 * m22 - m12 * m21) - m01 * (m10 * m22 - m12 * m20) + m02 * (m10 * m21 - m11 * m20))
    ensures Dot(m00, m01, m02, m03, a00, a10, a20, a30) == det
    ensures Dot(m00, m01, m02, m03, a01, a11, a21, a31) == 0.0
    ensures Dot(m00, m01, m02, m03, a02, a12, a22, a32) == 0.0
    ensures Dot(m00, m01, m02, m03, a03, a13, a23, a33) == 0.0
    ensures Dot(m10, m11, m12, m13, a00, a10, a20, a30) == 0.0
    ensures Dot(m10, m11, m12, m13, a01, a11, a21, a31) == det
    ensures Dot(m10, m11, m12, m13, a02, a12, a22, a32) == 0.0
    ensures Dot(m10, m11, m12, m13, a03, a13, a23, a33) == 0.0
    ensures Dot(m20, m21, m22, m23, a00, a10, a20, a30) == 0.0
    ensures Dot(m20, m21, m22, m23, a01, a11, a21, a31) == 0.0
    ensures Dot(m20, m21, m22, m23, a02, a12, a22, a32) == det
    ensures Dot(m20, m21, m22, m23, a03, a13, a23, a33) == 0.0
    ensures Dot(m30, m31, m32, m33, a00, a10, a20, a30) == 0.0
    ensures Dot(m30, m31, m32, m33, a01, a11, a21, a31) == 0.0
    ensures Dot(m30, m31, m32, m33, a02, a12, a22, a32) == 0.0
    ensures Dot(m30, m31, m32, m33, a03, a13, a23, a33) == det
  {
    CofactorRowSums(m00, m01, m02, m03, m10, m11, m12, m13, m20, m21, m22, m23, m30, m31, m32, m33, det);
  }

  /** The cells of adj(m) times m, for cells a of adj(m) given by value. */
  lemma AdjugateLeftSums(m00: real, m01: real, m02: real, m03: real, m10: real, m11: real, m12: real, m13: real, m20: real, m21: real, m22: real, m23: real, m30: real, m31: real, m32: real, m33: real,
                        a00: real, a01: real, a02: real, a03: real, a10: real, a11: real, a12: real, a13: real, a20: real, a21: real, a22: real, a23: real, a30: real, a31: real, a32: real, a33: real,
                        det: real)
    requires det == DetPoly(m00, m01, m02, m03, m10, m11, m12, m13, m20, m21, m22, m23, m30, m31, m32, m33)
    requires a00 == (m11 * (m22 * m33 - m23 * m32) - m12 * (m21 * m33 - m23 * m31) + m13 * (m21 * m32 - m22 * m31))
             && a01 == (-1.0 * (m01 * (m22 * m33 - m23 * m32) - m02 * (m21 * m33 - m23 * m31) + m03 * (m21 * m32 - m22 * m31)))
             && a02 == (m01 * (m12 * m33 - m13 * m32) - m02 * (m11 * m33 - m13 * m31) + m03 * (m11 * m32 - m12 * m31))
             && a03 == (-1.0 * (m01 * (m12 * m23 - m13 * m22) - m02 * (m11 * m23 - m13 * m21) + m03 * (m11 * m22 - m12 * m21)))
    requires a10 == (-1.0 * (m10 * (m22 * m33 - m23 * m32) - m12 * (m20 * m33 - m23 * m30) + m13 * (m20 * m32 - m22 * m30)))
             && a11 == (m00 * (m22 * m33 - m23 * m32) - m02 * (m20 * m33 - m23 * m30) + m03 * (m20 * m32 - m22 * m30))
             && a12 == (-1.0 * (m00 * (m12 * m33 - m13 * m32) - m02 * (m10 * m33 - m13 * m30) + m03 * (m10 * m32 - m12 * m30)))
             && a13 == (m00 * (m12 * m23 - m13 * m22) - m02 * (m10 * m23 - m13 * m20) + m03 * (m10 * m22 - m12 * m20))
    requires a20 == (m10 * (m21 * m33 - m23 * m31) - m11 * (m20 * m33 - m23 * m30) + m13 * (m20 * m31 - m21 * m30))
             && a21 == (-1.0 * (m00 * (m21 * m33 - m23 * m31) - m01 * (m20 * m33 - m23 * m30) + m03 * (m20 * m31 - m21 * m30)))
             && a22 == (m00 * (m11 * m33 - m13 * m31) - m01 * (m10 * m33 - m13 * m30) + m03 * (m10 * m31 - m11 * m30))
             && a23 == (-1.0 * (m00 * (m11 * m23 - m13 * m21) - m01 * (m10 * m23 - m13 * m20) + m03 * (m10 * m21 - m11 * m20)))
    requires a30 == (-1.0 * (m10 * (m21 * m32 - m22 * m31) - m11 * (m20 * m32 - m22 * m30) + m12 * (m20 * m31 - m21 * m30)))
             && a31 == (m00 * (m21 * m32 - m22 * m31) - m01 * (m20 * m32 - m22 * m30) + m02 * (m20 * m31 - m21 * m30))
             && a32 == (-1.0 * (m00 * (m11 * m32 - m12 * m31) - m01 * (m10 * m32 - m12 * m30) + m02 * (m10 * m31 - m11 * m30)))
             && a33 == (m00 * (m11 * m22 - m12 * m21) - m01 * (m10 * m22 - m12 * m20) + m02 * (m10 * m21 - m11 * m20))
    ensures Dot(a00, a01, a02, a03, m00, m10, m20, m30) == det
    ensures Dot(a00, a01, a02, a03, m01, m11, m21, m31) == 0.0
    ensures Dot(a00, a01, a02, a03, m02, m12, m22, m32) == 0.0
    ensures Dot(a00, a01, a02, a03, m03, m13, m23, m33) == 0.0
    ensures Dot(a10, a11, a12, a13, m00, m10, m20, m30) == 0.0
    ensures Dot(a10, a11, a12, a13, m01, m11, m21, m31) == det
    ensures Dot(a10, a11, a12, a13, m02, m12, m22, m32) == 0.0
    ensures Dot(a10, a11, a12, a13, m03, m13, m23, m33) == 0.0
    ensures Dot(a20, a21, a22, a23, m00, m10, m20, m30) == 0.0
    ensures Dot(a20, a21, a22, a23, m01, m11, m21, m31) == 0.0
    ensures Dot(a20, a21, a22, a23, m02, m12, m22, m32) == det
    ensures Dot(a20, a21, a22, a23, m03, m13, m23, m33) == 0.0
    ensures Dot(a30, a31, a32, a33, m00, m10, m20, m30) == 0.0
    ensures Dot(a30, a31, a32, a33, m01, m11, m21, m31) == 0.0
    ensures Dot(a30, a31, a32, a33, m02, m12, m22, m32) == 0.0
    ensures Dot(a30, a31, a32, a33, m03, m13, m23, m33) == det
  {
    CofactorColumnSums(m00, m01, m02, m03, m10, m11, m12, m13, m20, m21, m22, m23, m30, m31, m32, m33, det);
  }

  /** Cofactor (j, k) written out in the cells: the six-product
      determinant of the rows other than j and the columns other than k,
      with the sign (-1)^(j+k). */
  function CofactorPoly(m: Matrix.Mat4, j: nat, k: nat): real
    requires j < 4 && k < 4
  {
    Matrix.Sign(j + k) * (
      m[(if j == 0 then 1 else 0)][(if k == 0 then 1 else 0)] * (m[(if j <= 1 then 2 else 1)][(if k <= 1 then 2 else 1)] * m[(if j <= 2 then 3 else 2)][(if k <= 2 then 3 else 2)] - m[(if j <= 1 then 2 else 1)][(if k <= 2 then 3 else 2)] * m[(if j <= 2 then 3 else 2)][(if k <= 1 then 2 else 1)])
      - m[(if j == 0 then 1 else 0)][(if k <= 1 then 2 else 1)] * (m[(if j <= 1 then 2 else 1)][(if k == 0 then 1 else 0)] * m[(if j <= 2 then 3 else 2)][(if k <= 2 then 3 else 2)] - m[(if j <= 1 then 2 else 1)][(if k <= 2 then 3 else 2)] * m[(if j <= 2 then 3 else 2)][(if k == 0 then 1 else 0)])
      + m[(if j == 0 then 1 else 0)][(if k <= 2 then 3 else 2)] * (m[(if j <= 1 then 2 else 1)][(if k == 0 then 1 else 0)] * m[(if j <= 2 then 3 else 2)][(if k <= 1 then 2 else 1)] - m[(if j <= 1 then 2 else 1)][(if k <= 1 then 2 else 1)] * m[(if j <= 2 then 3 else 2)][(if k == 0 then 1 else 0)]))
  }

  /** It is the Laplace cofactor. */
  lemma CofactorExpanded(m: Matrix.Mat4, j: nat, k: nat)
    requires j < 4 && k < 4
    ensures Matrix.Cofactor(m, j, k) == CofactorPoly(m, j, k)
  {
    MinorDeterminantIsDet(m, j, k);
    Mat3f.DeterminantExpanded(MinorOf(m, j, k));
  }

  /** The transposed cofactors, written out. */
  function AdjugatePoly(m: Matrix.Mat4): Matrix.Mat4 {
    seq(4, i requires 0 <= i < 4 => seq(4, j requires 0 <= j < 4 => CofactorPoly(m, j, i)))
  }

  /** They are the adjugate, the transpose of the cofactor matrix. */
  lemma AdjugateIsPoly(m: Matrix.Mat4)
    ensures Matrix.Transpose(Matrix.Cofactors(m)) == AdjugatePoly(m)
  {
    forall i, j | 0 <= i < 4 && 0 <= j < 4
      ensures Matrix.Transpose(Matrix.Cofactors(m))[i][j] == AdjugatePoly(m)[i][j]
    {
      CofactorExpanded(m, j, i);
    }
    Matrix.Extensionality(Matrix.Transpose(Matrix.Cofactors(m)), AdjugatePoly(m));
  }

  /** m times a grid holding the transposed cofactors is det(m) * I. */
  lemma AdjugateRight(m: Matrix.Mat4, adj: Matrix.Mat4, d: real)
    requires d == DetPoly(m[0][0], m[0][1], m[0][2], m[0][3], m[1][0], m[1][1], m[1][2], m[1][3], m[2][0], m[2][1], m[2][2], m[2][3], m[3][0], m[3][1], m[3][2], m[3][3])
    requires adj[0][0] == (m[1][1] * (m[2][2] * m[3][3] - m[2][3] * m[3][2]) - m[1][2] * (m[2][1] * m[3][3] - m[2][3] * m[3][1]) + m[1][3] * (m[2][1] * m[3][2] - m[2][2] * m[3][1]))
             && adj[0][1] == (-1.0 * (m[0][1] * (m[2][2] * m[3][3] - m[2][3] * m[3][2]) - m[0][2] * (m[2][1] * m[3][3] - m[2][3] * m[3][1]) + m[0][3] * (m[2][1] * m[3][2] - m[2][2] * m[3][1])))
             && adj[0][2] == (m[0][1] * (m[1][2] * m[3][3] - m[1][3] * m[3][2]) - m[0][2] * (m[1][1] * m[3][3] - m[1][3] * m[3][1]) + m[0][3] * (m[1][1] * m[3][2] - m[1][2] * m[3][1]))
             && adj[0][3] == (-1.0 * (m[0][1] * (m[1][2] * m[2][3] - m[1][3] * m[2][2]) - m[0][2] * (m[1][1] * m[2][3] - m[1][3] * m[2][1]) + m[0][3] * (m[1][1] * m[2][2] - m[1][2] * m[2][1])))
    requires adj[1][0] == (-1.0 * (m[1][0] * (m[2][2] * m[3][3] - m[2][3] * m[3][2]) - m[1][2] * (m[2][0] * m[3][3] - m[2][3] * m[3][0]) + m[1][3] * (m[2][0] * m[3][2] - m[2][2] * m[3][0])))
             && adj[1][1] == (m[0][0] * (m[2][2] * m[3][3] - m[2][3] * m[3][2]) - m[0][2] * (m[2][0] * m[3][3] - m[2][3] * m[3][0]) + m[0][3] * (m[2][0] * m[3][2] - m[2][2] * m[3][0]))
             && adj[1][2] == (-1.0 * (m[0][0] * (m[1][2] * m[3][3] - m[1][3] * m[3][2]) - m[0][2] * (m[1][0] * m[3][3] - m[1][3] * m[3][0]) + m[0][3] * (m[1][0] * m[3][2] - m[1][2] * m[3][0])))
             && adj[1][3] == (m[0][0] * (m[1][2] * m[2][3] - m[1][3] * m[2][2]) - m[0][2] * (m[1][0] * m[2][3] - m[1][3] * m[2][0]) + m[0][3] * (m[1][0] * m[2][2] - m[1][2] * m[2][0]))
    requires adj[2][0] == (m[1][0] * (m[2][1] * m[3][3] - m[2][3] * m[3][1]) - m[1][1] * (m[2][0] * m[3][3] - m[2][3] * m[3][0]) + m[1][3] * (m[2][0] * m[3][1] - m[2][1] * m[3][0]))
             && adj[2][1] == (-1.0 * (m[0][0] * (m[2][1] * m[3][3] - m[2][3] * m[3][1]) - m[0][1] * (m[2][0] * m[3][3] - m[2][3] * m[3][0]) + m[0][3] * (m[2][0] * m[3][1] - m[2][1] * m[3][0])))
             && adj[2][2] == (m[0][0] * (m[1][1] * m[3][3] - m[1][3] * m[3][1]) - m[0][1] * (m[1][0] * m[3][3] - m[1][3] * m[3][0]) + m[0][3] * (m[1][0] * m[3][1] - m[1][1] * m[3][0]))
             && adj[2][3] == (-1.0 * (m[0][0] * (m[1][1] * m[2][3] - m[1][3] * m[2][1]) - m[0][1] * (m[1][0] * m[2][3] - m[1][3] * m[2][0]) + m[0][3] * (m[1][0] * m[2][1] - m[1][1] * m[2][0])))
    requires adj[3][0] == (-1.0 * (m[1][0] * (m[2][1] * m[3][2] - m[2][2] * m[3][1]) - m[1][1] * (m[2][0] * m[3][2] - m[2][2] * m[3][0]) + m[1][2] * (m[2][0] * m[3][1] - m[2][1] * m[3][0])))
             && adj[3][1] == (m[0][0] * (m[2][1] * m[3][2] - m[2][2] * m[3][1]) - m[0][1] * (m[2][0] * m[3][2] - m[2][2] * m[3][0]) + m[0][2] * (m[2][0] * m[3][1] - m[2][1] * m[3][0]))
             && adj[3][2] == (-1.0 * (m[0][0] * (m[1][1] * m[3][2] - m[1][2] * m[3][1]) - m[0][1] * (m[1][0] * m[3][2] - m[1][2] * m[3][0]) + m[0][2] * (m[1][0] * m[3][1] - m[1][1] * m[3][0])))
             && adj[3][3] == (m[0][0] * (m[1][1] * m[2][2] - m[1][2] * m[2][1]) - m[0][1] * (m[1][0] * m[2][2] - m[1][2] * m[2][0]) + m[0][2] * (m[1][0] * m[2][1] - m[1][1] * m[2][0]))
    ensures Matrix.Multiply(m, adj) == Matrix.Scale(Matrix.Identity(4), d)
  {
    AdjugateRightSums(m[0][0], m[0][1], m[0][2], m[0][3], m[1][0], m[1][1], m[1][2], m[1][3], m[2][0], m[2][1], m[2][2], m[2][3], m[3][0], m[3][1], m[3][2], m[3][3],
                      adj[0][0], adj[0][1], adj[0][2], adj[0][3], adj[1][0], adj[1][1], adj[1][2], adj[1][3], adj[2][0], adj[2][1], adj[2][2], adj[2][3], adj[3][0], adj[3][1], adj[3][2], adj[3][3], d);
    forall i, j | 0 <= i < 4 && 0 <= j < 4
      ensures Matrix.Multiply(m, adj)[i][j] == Dot(m[i][0], m[i][1], m[i][2], m[i][3], adj[0][j], adj[1][j], adj[2][j], adj[3][j])
    {
      ProductCell(m, adj, i, j);
    }
    Matrix.Equal4(Matrix.Multiply(m, adj), Matrix.Scale(Matrix.Identity(4), d));
  }

  /** A grid holding the transposed cofactors, times m, is det(m) * I. */
  lemma AdjugateLeft(m: Matrix.Mat4, adj: Matrix.Mat4, d: real)
    requires d == DetPoly(m[0][0], m[0][1], m[0][2], m[0][3], m[1][0], m[1][1], m[1][2], m[1][3], m[2][0], m[2][1], m[2][2], m[2][3], m[3][0], m[3][1], m[3][2], m[3][3])
    requires adj[0][0] == (m[1][1] * (m[2][2] * m[3][3] - m[2][3] * m[3][2]) - m[1][2] * (m[2][1] * m[3][3] - m[2][3] * m[3][1]) + m[1][3] * (m[2][1] * m[3][2] - m[2][2] * m[3][1]))
             && adj[0][1] == (-1.0 * (m[0][1] * (m[2][2] * m[3][3] - m[2][3] * m[3][2]) - m[0][2] * (m[2][1] * m[3][3] - m[2][3] * m[3][1]) + m[0][3] * (m[2][1] * m[3][2] - m[2][2] * m[3][1])))
             && adj[0][2] == (m[0][1] * (m[1][2] * m[3][3] - m[1][3] * m[3][2]) - m[0][2] * (m[1][1] * m[3][3] - m[1][3] * m[3][1]) + m[0][3] * (m[1][1] * m[3][2] - m[1][2] * m[3][1]))
             && adj[0][3] == (-1.0 * (m[0][1] * (m[1][2] * m[2][3] - m[1][3] * m[2][2]) - m[0][2] * (m[1][1] * m[2][3] - m[1][3] * m[2][1]) + m[0][3] * (m[1][1] * m[2][2] - m[1][2] * m[2][1])))
    requires adj[1][0] == (-1.0 * (m[1][0] * (m[2][2] * m[3][3] - m[2][3] * m[3][2]) - m[1][2] * (m[2][0] * m[3][3] - m[2][3] * m[3][0]) + m[1][3] * (m[2][0] * m[3][2] - m[2][2] * m[3][0])))
             && adj[1][1] == (m[0][0] * (m[2][2] * m[3][3] - m[2][3] * m[3][2]) - m[0][2] * (m[2][0] * m[3][3] - m[2][3] * m[3][0]) + m[0][3] * (m[2][0] * m[3][2] - m[2][2] * m[3][0]))
             && adj[1][2] == (-1.0 * (m[0][0] * (m[1][2] * m[3][3] - m[1][3] * m[3][2]) - m[0][2] * (m[1][0] * m[3][3] - m[1][3] * m[3][0]) + m[0][3] * (m[1][0] * m[3][2] - m[1][2] * m[3][0])))
             && adj[1][3] == (m[0][0] * (m[1][2] * m[2][3] - m[1][3] * m[2][2]) - m[0][2] * (m[1][0] * m[2][3] - m[1][3] * m[2][0]) + m[0][3] * (m[1][0] * m[2][2] - m[1][2] * m[2][0]))
    requires adj[2][0] == (m[1][0] * (m[2][1] * m[3][3] - m[2][3] * m[3][1]) - m[1][1] * (m[2][0] * m[3][3] - m[2][3] * m[3][0]) + m[1][3] * (m[2][0] * m[3][1] - m[2][1] * m[3][0]))
             && adj[2][1] == (-1.0 * (m[0][0] * (m[2][1] * m[3][3] - m[2][3] * m[3][1]) - m[0][1] * (m[2][0] * m[3][3] - m[2][3] * m[3][0]) + m[0][3] * (m[2][0] * m[3][1] - m[2][1] * m[3][0])))
             && adj[2][2] == (m[0][0] * (m[1][1] * m[3][3] - m[1][3] * m[3][1]) - m[0][1] * (m[1][0] * m[3][3] - m[1][3] * m[3][0]) + m[0][3] * (m[1][0] * m[3][1] - m[1][1] * m[3][0]))
             && adj[2][3] == (-1.0 * (m[0][0] * (m[1][1] * m[2][3] - m[1][3] * m[2][1]) - m[0][1] * (m[1][0] * m[2][3] - m[1][3] * m[2][0]) + m[0][3] * (m[1][0] * m[2][1] - m[1][1] * m[2][0])))
    requires adj[3][0] == (-1.0 * (m[1][0] * (m[2][1] * m[3][2] - m[2][2] * m[3][1]) - m[1][1] * (m[2][0] * m[3][2] - m[2][2] * m[3][0]) + m[1][2] * (m[2][0] * m[3][1] - m[2][1] * m[3][0])))
             && adj[3][1] == (m[0][0] * (m[2][1] * m[3][2] - m[2][2] * m[3][1]) - m[0][1] * (m[2][0] * m[3][2] - m[2][2] * m[3][0]) + m[0][2] * (m[2][0] * m[3][1] - m[2][1] * m[3][0]))
             && adj[3][2] == (-1.0 * (m[0][0] * (m[1][1] * m[3][2] - m[1][2] * m[3][1]) - m[0][1] * (m[1][0] * m[3][2] - m[1][2] * m[3][0]) + m[0][2] * (m[1][0] * m[3][1] - m[1][1] * m[3][0])))
             && adj[3][3] == (m[0][0] * (m[1][1] * m[2][2] - m[1][2] * m[2][1]) - m[0][1] * (m[1][0] * m[2][2] - m[1][2] * m[2][0]) + m[0][2] * (m[1][0] * m[2][1] - m[1][1] * m[2][0]))
    ensures Matrix.Multiply(adj, m) == Matrix.Scale(Matrix.Identity(4), d)
  {
    AdjugateLeftSums(m[0][0], m[0][1], m[0][2], m[0][3], m[1][0], m[1][1], m[1][2], m[1][3], m[2][0], m[2][1], m[2][2], m[2][3], m[3][0], m[3][1], m[3][2], m[3][3],
                     adj[0][0], adj[0][1], adj[0][2], adj[0][3], adj[1][0], adj[1][1], adj[1][2], adj[1][3], adj[2][0], adj[2][1], adj[2][2], adj[2][3], adj[3][0], adj[3][1], adj[3][2], adj[3][3], d);
    forall i, j | 0 <= i < 4 && 0 <= j < 4
      ensures Matrix.Multiply(adj, m)[i][j] == Dot(adj[i][0], adj[i][1], adj[i][2], adj[i][3], m[0][j], m[1][j], m[2][j], m[3][j])
    {
      ProductCell(adj, m, i, j);
    }
    Matrix.Equal4(Matrix.Multiply(adj, m), Matrix.Scale(Matrix.Identity(4), d));
  }

  /** Rows 0 and 1 of the written-out adjugate, cell by cell. */
  lemma AdjugatePolyUpper(m: Matrix.Mat4)
    ensures AdjugatePoly(m)[0][0] == (m[1][1] * (m[2][2] * m[3][3] - m[2][3] * m[3][2]) - m[1][2] * (m[2][1] * m[3][3] - m[2][3] * m[3][1]) + m[1][3] * (m[2][1] * m[3][2] - m[2][2] * m[3][1]))
            && AdjugatePoly(m)[0][1] == (-1.0 * (m[0][1] * (m[2][2] * m[3][3] - m[2][3] * m[3][2]) - m[0][2] * (m[2][1] * m[3][3] - m[2][3] * m[3][1]) + m[0][3] * (m[2][1] * m[3][2] - m[2][2] * m[3][1])))
            && AdjugatePoly(m)[0][2] == (m[0][1] * (m[1][2] * m[3][3] - m[1][3] * m[3][2]) - m[0][2] * (m[1][1] * m[3][3] - m[1][3] * m[3][1]) + m[0][3] * (m[1][1] * m[3][2] - m[1][2] * m[3][1]))
            && AdjugatePoly(m)[0][3] == (-1.0 * (m[0][1] * (m[1][2] * m[2][3] - m[1][3] * m[2][2]) - m[0][2] * (m[1][1] * m[2][3] - m[1][3] * m[2][1]) + m[0][3] * (m[1][1] * m[2][2] - m[1][2] * m[2][1])))
    ensures AdjugatePoly(m)[1][0] == (-1.0 * (m[1][0] * (m[2][2] * m[3][3] - m[2][3] * m[3][2]) - m[1][2] * (m[2][0] * m[3][3] - m[2][3] * m[3][0]) + m[1][3] * (m[2][0] * m[3][2] - m[2][2] * m[3][0])))
            && AdjugatePoly(m)[1][1] == (m[0][0] * (m[2][2] * m[3][3] - m[2][3] * m[3][2]) - m[0][2] * (m[2][0] * m[3][3] - m[2][3] * m[3][0]) + m[0][3] * (m[2][0] * m[3][2] - m[2][2] * m[3][0]))
            && AdjugatePoly(m)[1][2] == (-1.0 * (m[0][0] * (m[1][2] * m[3][3] - m[1][3] * m[3][2]) - m[0][2] * (m[1][0] * m[3][3] - m[1][3] * m[3][0]) + m[0][3] * (m[1][0] * m[3][2] - m[1][2] * m[3][0])))
            && AdjugatePoly(m)[1][3] == (m[0][0] * (m[1][2] * m[2][3] - m[1][3] * m[2][2]) - m[0][2] * (m[1][0] * m[2][3] - m[1][3] * m[2][0]) + m[0][3] * (m[1][0] * m[2][2] - m[1][2] * m[2][0]))
  {
  }

  /** Rows 2 and 3 of the written-out adjugate, cell by cell. */
  lemma AdjugatePolyLower(m: Matrix.Mat4)
    ensures AdjugatePoly(m)[2][0] == (m[1][0] * (m[2][1] * m[3][3] - m[2][3] * m[3][1]) - m[1][1] * (m[2][0] * m[3][3] - m[2][3] * m[3][0]) + m[1][3] * (m[2][0] * m[3][1] - m[2][1] * m[3][0]))
            && AdjugatePoly(m)[2][1] == (-1.0 * (m[0][0] * (m[2][1] * m[3][3] - m[2][3] * m[3][1]) - m[0][1] * (m[2][0] * m[3][3] - m[2][3] * m[3][0]) + m[0][3] * (m[2][0] * m[3][1] - m[2][1] * m[3][0])))
            && AdjugatePoly(m)[2][2] == (m[0][0] * (m[1][1] * m[3][3] - m[1][3] * m[3][1]) - m[0][1] * (m[1][0] * m[3][3] - m[1][3] * m[3][0]) + m[0][3] * (m[1][0] * m[3][1] - m[1][1] * m[3][0]))
            && AdjugatePoly(m)[2][3] == (-1.0 * (m[0][0] * (m[1][1] * m[2][3] - m[1][3] * m[2][1]) - m[0][1] * (m[1][0] * m[2][3] - m[1][3] * m[2][0]) + m[0][3] * (m[1][0] * m[2][1] - m[1][1] * m[2][0])))
    ensures AdjugatePoly(m)[3][0] == (-1.0 * (m[1][0] * (m[2][1] * m[3][2] - m[2][2] * m[3][1]) - m[1][1] * (m[2][0] * m[3][2] - m[2][2] * m[3][0]) + m[1][2] * (m[2][0] * m[3][1] - m[2][1] * m[3][0])))
            && AdjugatePoly(m)[3][1] == (m[0][0] * (m[2][1] * m[3][2] - m[2][2] * m[3][1]) - m[0][1] * (m[2][0] * m[3][2] - m[2][2] * m[3][0]) + m[0][2] * (m[2][0] * m[3][1] - m[2][1] * m[3][0]))
            && AdjugatePoly(m)[3][2] == (-1.0 * (m[0][0] * (m[1][1] * m[3][2] - m[1][2] * m[3][1]) - m[0][1] * (m[1][0] * m[3][2] - m[1][2] * m[3][0]) + m[0][2] * (m[1][0] * m[3][1] - m[1][1] * m[3][0])))
            && AdjugatePoly(m)[3][3] == (m[0][0] * (m[1][1] * m[2][2] - m[1][2] * m[2][1]) - m[0][1] * (m[1][0] * m[2][2] - m[1][2] * m[2][0]) + m[0][2] * (m[1][0] * m[2][1] - m[1][1] * m[2][0]))
  {
  }

  /** Both products of m with the written-out adjugate. */
  lemma AdjugatePolyProducts(m: Matrix.Mat4)
    ensures Matrix.Multiply(m, AdjugatePoly(m)) == Matrix.Scale(Matrix.Identity(4), DetPoly(m[0][0], m[0][1], m[0][2], m[0][3], m[1][0], m[1][1], m[1][2], m[1][3], m[2][0], m[2][1], m[2][2], m[2][3], m[3][0], m[3][1], m[3][2], m[3][3]))
    ensures Matrix.Multiply(AdjugatePoly(m), m) == Matrix.Scale(Matrix.Identity(4), DetPoly(m[0][0], m[0][1], m[0][2], m[0][3], m[1][0], m[1][1], m[1][2], m[1][3], m[2][0], m[2][1], m[2][2], m[2][3], m[3][0], m[3][1], m[3][2], m[3][3]))
  {
    AdjugatePolyUpper(m);
    AdjugatePolyLower(m);
    AdjugateRight(m, AdjugatePoly(m), DetPoly(m[0][0], m[0][1], m[0][2], m[0][3], m[1][0], m[1][1], m[1][2], m[1][3], m[2][0], m[2][1], m[2][2], m[2][3], m[3][0], m[3][1], m[3][2], m[3][3]));
    AdjugateLeft(m, AdjugatePoly(m), DetPoly(m[0][0], m[0][1], m[0][2], m[0][3], m[1][0], m[1][1], m[1][2], m[1][3], m[2][0], m[2][1], m[2][2], m[2][3], m[3][0], m[3][1], m[3][2], m[3][3]));
  }

  /** The adjugate identity: m * adj(m) == adj(m) * m == det(m) * I. */
  lemma Adjugate(m: Matrix.Mat4)
    ensures Matrix.Multiply(m, Matrix.Transpose(Matrix.Cofactors(m)))
            == Matrix.Scale(Matrix.Identity(4), Matrix.Det(m))
    ensures Matrix.Multiply(Matrix.Transpose(Matrix.Cofactors(m)), m)
            == Matrix.Scale(Matrix.Identity(4), Matrix.Det(m))
  {
    AdjugateIsPoly(m);
    DetIsDetPoly(m);
    AdjugatePolyProducts(m);
  }

  /** Hence the textbook inverse is a two-sided inverse. */
  lemma InverseInverts(m: Matrix.Mat4)
    requires Matrix.Det(m) != 0.0
    ensures Matrix.Multiply(m, Matrix.Inverse(m)) == Matrix.Identity(4)
    ensures Matrix.Multiply(Matrix.Inverse(m), m) == Matrix.Identity(4)
  {
    Adjugate(m);
    Matrix.InverseFromAdjugate(m);
    Matrix.InverseFromLeftAdjugate(m);
  }


  // ---------------------------------------------------------------------
  // Rows and columns

  /** mat4f_get_row: the guard `row > 0 && row < 4` admits rows 1 to 3. */
  method GetRow(mat: array2<real>, dest: array<real>, row: int)
    requires Matrix.HasShape(mat, 4) && dest.Length == 4
    modifies dest
    ensures 0 < row < 4 ==> dest[..] == Matrix.Grid(mat)[row]
    ensures !(0 < row < 4) ==> dest[..] == old(dest[..])
  {
    if row > 0 && row < 4 {
      dest[0] := mat[row, 0];
      dest[1] := mat[row, 1];
      dest[2] := mat[row, 2];
      dest[3] := mat[row, 3];
    }
  }

  /** mat4f_get_col: the guard `col > 0 && col < 4` admits columns 1 to 3. */
  method GetCol(mat: array2<real>, dest: array<real>, col: int)
    requires Matrix.HasShape(mat, 4) && dest.Length == 4
    modifies dest
    ensures 0 < col < 4 ==> dest[..] == Matrix.Column(Matrix.Grid(mat), col)
    ensures !(0 < col < 4) ==> dest[..] == old(dest[..])
  {
    if col > 0 && col < 4 {
      dest[0] := mat[0, col];
      dest[1] := mat[1, col];
      dest[2] := mat[2, col];
      dest[3] := mat[3, col];
    }
  }

  /** mat4f_set_row: overwrites row 1, 2 or 3 when asked for it, else
      nothing. */
  method SetRow(mat: array2<real>, src: array<real>, row: int)
    requires Matrix.HasShape(mat, 4) && src.Length == 4
    modifies mat
    ensures 0 < row < 4 ==> Matrix.Grid(mat) == Matrix.WithRow(old(Matrix.Grid(mat)), row, src[..])
    ensures !(0 < row < 4) ==> Matrix.Grid(mat) == old(Matrix.Grid(mat))
  {
    if row > 0 && row < 4 {
      forall j | 0 <= j < 4 {
        mat[row, j] := src[j];
      }
      Matrix.GridIs(mat, Matrix.WithRow(old(Matrix.Grid(mat)), row, src[..]));
    }
  }

  /** mat4f_set_col: overwrites column 1, 2 or 3 when asked for it, else
      nothing. */
  method SetCol(mat: array2<real>, src: array<real>, col: int)
    requires Matrix.HasShape(mat, 4) && src.Length == 4
    modifies mat
    ensures 0 < col < 4 ==> Matrix.Grid(mat) == Matrix.WithColumn(old(Matrix.Grid(mat)), col, src[..])
    ensures !(0 < col < 4) ==> Matrix.Grid(mat) == old(Matrix.Grid(mat))
  {
    if col > 0 && col < 4 {
      forall i | 0 <= i < 4 {
        mat[i, col] := src[i];
      }
      Matrix.GridIs(mat, Matrix.WithColumn(old(Matrix.Grid(mat)), col, src[..]));
    }
  }

  /** Witness for the guard `row > 0`: asked for row 0 of a matrix of
      ones, mat4f_get_row leaves a zeroed `dest` as it was, while the
      corrected accessor delivers the row. */
  method RowZeroIgnored() returns (got: seq<real>, fixed: seq<real>)
    ensures got == [0.0, 0.0, 0.0, 0.0]
    ensures fixed == [1.0, 1.0, 1.0, 1.0]
  {
    var mat := new real[4, 4]((i, j) => 1.0);
    var dest := new real[4](i => 0.0);
    GetRow(mat, dest, 0);
    got := dest[..];
    Matrix.GetRow(mat, dest, 0);
    fixed := dest[..];
    assert Matrix.Grid(mat)[0][0] == 1.0;
  }
}

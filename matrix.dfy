/** Reference definitions shared by the 2x2, 3x3 and 4x4 matrices.

    A matrix is a row-major grid `m[row][col]` of reals (the library's
    `float m[N][N]`, with exact arithmetic in place of IEEE-754).  The
    definitions here are the textbook ones, written once for every size:
    the per-size modules prove how the library's hand-unrolled routines
    relate to them.  The array helpers at the end model the `memcpy` of a
    local `tmp` into `dest` that every routine ends with. */
module Matrix {

  predicate IsSquare(m: seq<seq<real>>, n: nat) {
    |m| == n && forall i :: 0 <= i < n ==> |m[i]| == n
  }

  type Mat2 = m: seq<seq<real>> | IsSquare(m, 2) witness [[0.0, 0.0], [0.0, 0.0]]
  type Mat3 = m: seq<seq<real>> | IsSquare(m, 3)
    witness [[0.0, 0.0, 0.0], [0.0, 0.0, 0.0], [0.0, 0.0, 0.0]]
  type Mat4 = m: seq<seq<real>> | IsSquare(m, 4)
    witness [[0.0, 0.0, 0.0, 0.0], [0.0, 0.0, 0.0, 0.0], [0.0, 0.0, 0.0, 0.0], [0.0, 0.0, 0.0, 0.0]]

  // ---------------------------------------------------------------------
  // Construction and entrywise operations

  function Zero(n: nat): (r: seq<seq<real>>)
    ensures IsSquare(r, n)
    ensures forall i, j :: 0 <= i < n && 0 <= j < n ==> r[i][j] == 0.0
  {
    seq(n, i => seq(n, j => 0.0))
  }

  function Identity(n: nat): (r: seq<seq<real>>)
    ensures IsSquare(r, n)
    ensures forall i, j :: 0 <= i < n && 0 <= j < n ==> r[i][j] == if i == j then 1.0 else 0.0
  {
    seq(n, i => seq(n, j => if i == j then 1.0 else 0.0))
  }

  function Add(a: seq<seq<real>>, b: seq<seq<real>>): (r: seq<seq<real>>)
    requires IsSquare(a, |a|) && IsSquare(b, |a|)
    ensures IsSquare(r, |a|)
    ensures forall i, j :: 0 <= i < |a| && 0 <= j < |a| ==> r[i][j] == a[i][j] + b[i][j]
  {
    seq(|a|, i requires 0 <= i < |a| => seq(|a|, j requires 0 <= j < |a| => a[i][j] + b[i][j]))
  }

  function Scale(m: seq<seq<real>>, s: real): (r: seq<seq<real>>)
    requires IsSquare(m, |m|)
    ensures IsSquare(r, |m|)
    ensures forall i, j :: 0 <= i < |m| && 0 <= j < |m| ==> r[i][j] == m[i][j] * s
  {
    seq(|m|, i requires 0 <= i < |m| => seq(|m|, j requires 0 <= j < |m| => m[i][j] * s))
  }

  /** Two square grids of the same size with the same cells are equal. */
  lemma Extensionality(a: seq<seq<real>>, b: seq<seq<real>>)
    requires IsSquare(a, |a|) && IsSquare(b, |a|)
    requires forall i, j :: 0 <= i < |a| && 0 <= j < |a| ==> a[i][j] == b[i][j]
    ensures a == b
  {
    forall i | 0 <= i < |a| ensures a[i] == b[i] {
      assert |a[i]| == |b[i]|;
    }
  }

  /** Extensionality for 3x3 and 4x4 grids, cell by cell. */
  lemma Equal3(a: seq<seq<real>>, b: seq<seq<real>>)
    requires IsSquare(a, 3) && IsSquare(b, 3)
    requires a[0][0] == b[0][0] && a[0][1] == b[0][1] && a[0][2] == b[0][2]
    requires a[1][0] == b[1][0] && a[1][1] == b[1][1] && a[1][2] == b[1][2]
    requires a[2][0] == b[2][0] && a[2][1] == b[2][1] && a[2][2] == b[2][2]
    ensures a == b
  {
    Extensionality(a, b);
  }

  lemma Equal4(a: seq<seq<real>>, b: seq<seq<real>>)
    requires IsSquare(a, 4) && IsSquare(b, 4)
    requires a[0][0] == b[0][0] && a[0][1] == b[0][1] && a[0][2] == b[0][2] && a[0][3] == b[0][3]
    requires a[1][0] == b[1][0] && a[1][1] == b[1][1] && a[1][2] == b[1][2] && a[1][3] == b[1][3]
    requires a[2][0] == b[2][0] && a[2][1] == b[2][1] && a[2][2] == b[2][2] && a[2][3] == b[2][3]
    requires a[3][0] == b[3][0] && a[3][1] == b[3][1] && a[3][2] == b[3][2] && a[3][3] == b[3][3]
    ensures a == b
  {
    Extensionality(a, b);
  }

  lemma AddCommutes(a: seq<seq<real>>, b: seq<seq<real>>)
    requires IsSquare(a, |a|) && IsSquare(b, |a|)
    ensures Add(a, b) == Add(b, a)
  {
    Extensionality(Add(a, b), Add(b, a));
  }

  lemma AddZero(m: seq<seq<real>>)
    requires IsSquare(m, |m|)
    ensures Add(m, Zero(|m|)) == m
  {
    Extensionality(Add(m, Zero(|m|)), m);
  }

  lemma ScaleByOne(m: seq<seq<real>>)
    requires IsSquare(m, |m|)
    ensures Scale(m, 1.0) == m
  {
    Extensionality(Scale(m, 1.0), m);
  }

  lemma ScaleTwice(m: seq<seq<real>>, s: real, t: real)
    requires IsSquare(m, |m|)
    ensures Scale(Scale(m, s), t) == Scale(m, s * t)
  {
    forall i, j | 0 <= i < |m| && 0 <= j < |m|
      ensures Scale(Scale(m, s), t)[i][j] == Scale(m, s * t)[i][j]
    {
      assert m[i][j] * s * t == m[i][j] * (s * t);
    }
    Extensionality(Scale(Scale(m, s), t), Scale(m, s * t));
  }

  lemma ScaleDistributes(a: seq<seq<real>>, b: seq<seq<real>>, s: real)
    requires IsSquare(a, |a|) && IsSquare(b, |a|)
    ensures Scale(Add(a, b), s) == Add(Scale(a, s), Scale(b, s))
  {
    Extensionality(Scale(Add(a, b), s), Add(Scale(a, s), Scale(b, s)));
  }

  /** Scaling by a nonzero factor loses nothing. */
  lemma ScaleInjective(a: seq<seq<real>>, b: seq<seq<real>>, s: real)
    requires IsSquare(a, |a|) && IsSquare(b, |a|) && s != 0.0
    ensures Scale(a, s) == Scale(b, s) <==> a == b
  {
    if Scale(a, s) == Scale(b, s) {
      forall i, j | 0 <= i < |a| && 0 <= j < |a| ensures a[i][j] == b[i][j] {
        assert Scale(a, s)[i][j] == Scale(b, s)[i][j];
        assert a[i][j] * s / s == a[i][j];
        assert b[i][j] * s / s == b[i][j];
      }
      Extensionality(a, b);
    }
  }

  // ---------------------------------------------------------------------
  // Row-by-column product

  /** The partial sum a[i][0]*b[0][j] + ... + a[i][k-1]*b[k-1][j],
      accumulated left to right as the unrolled routines write it. */
  function RowCol(a: seq<seq<real>>, b: seq<seq<real>>, i: nat, j: nat, k: nat): real
    requires IsSquare(a, |a|) && IsSquare(b, |a|)
    requires i < |a| && j < |a| && k <= |a|
  {
    if k == 0 then 0.0 else RowCol(a, b, i, j, k - 1) + a[i][k - 1] * b[k - 1][j]
  }

  /** One step of the accumulation; stated apart so that callers unfold
      RowCol one term at a time. */
  lemma RowColStep(a: seq<seq<real>>, b: seq<seq<real>>, i: nat, j: nat, k: nat)
    requires IsSquare(a, |a|) && IsSquare(b, |a|)
    requires i < |a| && j < |a| && 0 < k <= |a|
    ensures RowCol(a, b, i, j, k) == RowCol(a, b, i, j, k - 1) + a[i][k - 1] * b[k - 1][j]
  {
  }

  function Multiply(a: seq<seq<real>>, b: seq<seq<real>>): (r: seq<seq<real>>)
    requires IsSquare(a, |a|) && IsSquare(b, |a|)
    ensures IsSquare(r, |a|)
    ensures forall i, j :: 0 <= i < |a| && 0 <= j < |a| ==> r[i][j] == RowCol(a, b, i, j, |a|)
  {
    seq(|a|, i requires 0 <= i < |a| => seq(|a|, j requires 0 <= j < |a| => RowCol(a, b, i, j, |a|)))
  }

  lemma {:induction false} RowColLeftIdentity(m: seq<seq<real>>, i: nat, j: nat, k: nat)
    requires IsSquare(m, |m|) && i < |m| && j < |m| && k <= |m|
    ensures RowCol(Identity(|m|), m, i, j, k) == if i < k then m[i][j] else 0.0
  {
    if k > 0 {
      RowColLeftIdentity(m, i, j, k - 1);
    }
  }

  lemma {:induction false} RowColRightIdentity(m: seq<seq<real>>, i: nat, j: nat, k: nat)
    requires IsSquare(m, |m|) && i < |m| && j < |m| && k <= |m|
    ensures RowCol(m, Identity(|m|), i, j, k) == if j < k then m[i][j] else 0.0
  {
    if k > 0 {
      RowColRightIdentity(m, i, j, k - 1);
    }
  }

  /** The identity is a left and a right unit of the product. */
  lemma MultiplyIdentity(m: seq<seq<real>>)
    requires IsSquare(m, |m|)
    ensures Multiply(Identity(|m|), m) == m
    ensures Multiply(m, Identity(|m|)) == m
  {
    forall i, j | 0 <= i < |m| && 0 <= j < |m|
      ensures Multiply(Identity(|m|), m)[i][j] == m[i][j]
      ensures Multiply(m, Identity(|m|))[i][j] == m[i][j]
    {
      RowColLeftIdentity(m, i, j, |m|);
      RowColRightIdentity(m, i, j, |m|);
    }
    Extensionality(Multiply(Identity(|m|), m), m);
    Extensionality(Multiply(m, Identity(|m|)), m);
  }

  lemma {:induction false} RowColScale(a: seq<seq<real>>, b: seq<seq<real>>, s: real, i: nat, j: nat, k: nat)
    requires IsSquare(a, |a|) && IsSquare(b, |a|)
    requires i < |a| && j < |a| && k <= |a|
    ensures RowCol(a, Scale(b, s), i, j, k) == RowCol(a, b, i, j, k) * s
  {
    if k > 0 {
      RowColScale(a, b, s, i, j, k - 1);
      assert a[i][k - 1] * (b[k - 1][j] * s) == (a[i][k - 1] * b[k - 1][j]) * s;
    }
  }

  /** A scalar factor on the right operand comes out of the product. */
  lemma MultiplyScale(a: seq<seq<real>>, b: seq<seq<real>>, s: real)
    requires IsSquare(a, |a|) && IsSquare(b, |a|)
    ensures Multiply(a, Scale(b, s)) == Scale(Multiply(a, b), s)
  {
    forall i, j | 0 <= i < |a| && 0 <= j < |a|
      ensures Multiply(a, Scale(b, s))[i][j] == Scale(Multiply(a, b), s)[i][j]
    {
      RowColScale(a, b, s, i, j, |a|);
    }
    Extensionality(Multiply(a, Scale(b, s)), Scale(Multiply(a, b), s));
  }

  lemma {:induction false} RowColScaleLeft(a: seq<seq<real>>, b: seq<seq<real>>, s: real, i: nat, j: nat, k: nat)
    requires IsSquare(a, |a|) && IsSquare(b, |a|)
    requires i < |a| && j < |a| && k <= |a|
    ensures RowCol(Scale(a, s), b, i, j, k) == RowCol(a, b, i, j, k) * s
  {
    if k > 0 {
      RowColScaleLeft(a, b, s, i, j, k - 1);
      assert (a[i][k - 1] * s) * b[k - 1][j] == (a[i][k - 1] * b[k - 1][j]) * s;
    }
  }

  /** A scalar factor on the left operand comes out of the product. */
  lemma ScaleMultiply(a: seq<seq<real>>, b: seq<seq<real>>, s: real)
    requires IsSquare(a, |a|) && IsSquare(b, |a|)
    ensures Multiply(Scale(a, s), b) == Scale(Multiply(a, b), s)
  {
    forall i, j | 0 <= i < |a| && 0 <= j < |a|
      ensures Multiply(Scale(a, s), b)[i][j] == Scale(Multiply(a, b), s)[i][j]
    {
      RowColScaleLeft(a, b, s, i, j, |a|);
    }
    Extensionality(Multiply(Scale(a, s), b), Scale(Multiply(a, b), s));
  }

  // ---------------------------------------------------------------------
  // Transposes

  function Transpose(m: seq<seq<real>>): (r: seq<seq<real>>)
    requires IsSquare(m, |m|)
    ensures IsSquare(r, |m|)
    ensures forall i, j :: 0 <= i < |m| && 0 <= j < |m| ==> r[i][j] == m[j][i]
  {
    seq(|m|, i requires 0 <= i < |m| => seq(|m|, j requires 0 <= j < |m| => m[j][i]))
  }

  /** What every one of the library's transpose routines does: cell
      [0][j] is exchanged with cell [j][0] for each j, and every cell
      outside row 0 and column 0 stays where it is. */
  function SwapRow0Col0(m: seq<seq<real>>): (r: seq<seq<real>>)
    requires IsSquare(m, |m|)
    ensures IsSquare(r, |m|)
    ensures forall j :: 0 <= j < |m| ==> r[0][j] == m[j][0] && r[j][0] == m[0][j]
    ensures forall i, j :: 0 < i < |m| && 0 < j < |m| ==> r[i][j] == m[i][j]
  {
    seq(|m|, i requires 0 <= i < |m| =>
      seq(|m|, j requires 0 <= j < |m| => if i == 0 || j == 0 then m[j][i] else m[i][j]))
  }

  lemma TransposeInvolution(m: seq<seq<real>>)
    requires IsSquare(m, |m|)
    ensures Transpose(Transpose(m)) == m
  {
    Extensionality(Transpose(Transpose(m)), m);
  }

  lemma SwapRow0Col0Involution(m: seq<seq<real>>)
    requires IsSquare(m, |m|)
    ensures SwapRow0Col0(SwapRow0Col0(m)) == m
  {
    var r := SwapRow0Col0(SwapRow0Col0(m));
    forall i, j | 0 <= i < |m| && 0 <= j < |m| ensures r[i][j] == m[i][j] {
    }
    Extensionality(r, m);
  }

  /** The partial swap is the transpose exactly when the block that it
      leaves in place (rows and columns 1..n-1) is symmetric. */
  lemma SwapRow0Col0IsTransposeIff(m: seq<seq<real>>)
    requires IsSquare(m, |m|)
    ensures SwapRow0Col0(m) == Transpose(m) <==>
            forall i, j :: 0 < i < |m| && 0 < j < |m| ==> m[i][j] == m[j][i]
  {
    if forall i, j :: 0 < i < |m| && 0 < j < |m| ==> m[i][j] == m[j][i] {
      Extensionality(SwapRow0Col0(m), Transpose(m));
    } else {
      var i, j :| 0 < i < |m| && 0 < j < |m| && m[i][j] != m[j][i];
      assert SwapRow0Col0(m)[i][j] != Transpose(m)[i][j];
    }
  }

  // ---------------------------------------------------------------------
  // Minors, Laplace determinant, cofactors, inverse

  /** The matrix left when row `row` and column `col` are deleted. */
  function Minor(m: seq<seq<real>>, row: nat, col: nat): (r: seq<seq<real>>)
    requires IsSquare(m, |m|) && row < |m| && col < |m|
    ensures IsSquare(r, |m| - 1)
    ensures forall i, j :: 0 <= i < |m| - 1 && 0 <= j < |m| - 1 ==>
              r[i][j] == m[if i < row then i else i + 1][if j < col then j else j + 1]
  {
    seq(|m| - 1, i requires 0 <= i < |m| - 1 =>
      seq(|m| - 1, j requires 0 <= j < |m| - 1 =>
        m[if i < row then i else i + 1][if j < col then j else j + 1]))
  }

  /** (-1)^k */
  function Sign(k: nat): real {
    if k % 2 == 0 then 1.0 else -1.0
  }

  /** The textbook determinant: Laplace expansion along row 0 with the
      alternating signs +, -, +, ... */
  function Det(m: seq<seq<real>>): real
    requires IsSquare(m, |m|)
    decreases |m|, 1
  {
    if |m| == 0 then 1.0 else ExpandRow0(m, |m|)
  }

  /** The first k terms of the expansion along row 0. */
  function ExpandRow0(m: seq<seq<real>>, k: nat): real
    requires IsSquare(m, |m|) && 0 < |m| && k <= |m|
    decreases |m|, 0, k
  {
    if k == 0 then 0.0 else ExpandRow0(m, k - 1) + RowTerm(m, k - 1)
  }

  /** Term j of the expansion along row 0: m[0][j] times the determinant
      of minor (0, j), added for even j and subtracted for odd j. */
  function RowTerm(m: seq<seq<real>>, j: nat): real
    requires IsSquare(m, |m|) && j < |m|
    decreases |m|, 0, j
  {
    if j % 2 == 0 then m[0][j] * Det(Minor(m, 0, j)) else -(m[0][j] * Det(Minor(m, 0, j)))
  }

  lemma Det1(m: seq<seq<real>>)
    requires IsSquare(m, 1)
    ensures Det(m) == m[0][0]
  {
    assert Det(Minor(m, 0, 0)) == 1.0;
    assert ExpandRow0(m, 1) == RowTerm(m, 0);
  }

  lemma Det2(m: seq<seq<real>>)
    requires IsSquare(m, 2)
    ensures Det(m) == m[0][0] * m[1][1] - m[0][1] * m[1][0]
  {
    Det1(Minor(m, 0, 0));
    Det1(Minor(m, 0, 1));
    assert ExpandRow0(m, 1) == RowTerm(m, 0);
    assert ExpandRow0(m, 2) == ExpandRow0(m, 1) + RowTerm(m, 1);
    assert RowTerm(m, 1) == -(m[0][1] * Det(Minor(m, 0, 1)));
  }

  /** The first three terms of the expansion along row 0. */
  lemma ExpandRow0Three(m: seq<seq<real>>)
    requires IsSquare(m, |m|) && 3 <= |m|
    ensures ExpandRow0(m, 3) == RowTerm(m, 0) + RowTerm(m, 1) + RowTerm(m, 2)
  {
    assert ExpandRow0(m, 1) == RowTerm(m, 0);
    assert ExpandRow0(m, 2) == ExpandRow0(m, 1) + RowTerm(m, 1);
  }

  /** Expansion of a 3x3 or 4x4 determinant into its row-0 terms. */
  lemma Det3Terms(m: seq<seq<real>>)
    requires IsSquare(m, 3)
    ensures Det(m) == m[0][0] * Det(Minor(m, 0, 0)) - m[0][1] * Det(Minor(m, 0, 1))
                      + m[0][2] * Det(Minor(m, 0, 2))
  {
    ExpandRow0Three(m);
    assert RowTerm(m, 1) == -(m[0][1] * Det(Minor(m, 0, 1)));
  }

  /** The 3x3 determinant as a polynomial in the cells, grouped by row 0. */
  lemma Det3Expanded(m: seq<seq<real>>)
    requires IsSquare(m, 3)
    ensures Det(m) == m[0][0] * (m[1][1] * m[2][2] - m[1][2] * m[2][1])
                      - m[0][1] * (m[1][0] * m[2][2] - m[1][2] * m[2][0])
                      + m[0][2] * (m[1][0] * m[2][1] - m[1][1] * m[2][0])
  {
    Det3Terms(m);
    Det2(Minor(m, 0, 0));
    Det2(Minor(m, 0, 1));
    Det2(Minor(m, 0, 2));
  }

  lemma Det4Terms(m: seq<seq<real>>)
    requires IsSquare(m, 4)
    ensures Det(m) == m[0][0] * Det(Minor(m, 0, 0)) - m[0][1] * Det(Minor(m, 0, 1))
                      + m[0][2] * Det(Minor(m, 0, 2)) - m[0][3] * Det(Minor(m, 0, 3))
  {
    ExpandRow0Three(m);
    assert Det(m) == ExpandRow0(m, 3) + RowTerm(m, 3);
    assert RowTerm(m, 1) == -(m[0][1] * Det(Minor(m, 0, 1)));
    assert RowTerm(m, 3) == -(m[0][3] * Det(Minor(m, 0, 3)));
  }

  /** Cofactor (i, j): the determinant of minor (i, j) with sign (-1)^(i+j). */
  function Cofactor(m: seq<seq<real>>, i: nat, j: nat): real
    requires IsSquare(m, |m|) && i < |m| && j < |m|
  {
    Sign(i + j) * Det(Minor(m, i, j))
  }

  function Cofactors(m: seq<seq<real>>): (r: seq<seq<real>>)
    requires IsSquare(m, |m|)
    ensures IsSquare(r, |m|)
    ensures forall i, j :: 0 <= i < |m| && 0 <= j < |m| ==> r[i][j] == Cofactor(m, i, j)
  {
    seq(|m|, i requires 0 <= i < |m| =>
      seq(|m|, j requires 0 <= j < |m| => Cofactor(m, i, j)))
  }

  /** The textbook inverse: the adjugate (transposed cofactors) over the
      determinant. */
  function Inverse(m: seq<seq<real>>): (r: seq<seq<real>>)
    requires IsSquare(m, |m|) && Det(m) != 0.0
    ensures IsSquare(r, |m|)
  {
    Scale(Transpose(Cofactors(m)), 1.0 / Det(m))
  }

  /** A matrix whose product with `m` is d times the identity, divided by
      d, is a right inverse of `m`. */
  lemma DividedRightInverse(m: seq<seq<real>>, adj: seq<seq<real>>, d: real)
    requires IsSquare(m, |m|) && IsSquare(adj, |m|) && d != 0.0
    requires Multiply(m, adj) == Scale(Identity(|m|), d)
    ensures Multiply(m, Scale(adj, 1.0 / d)) == Identity(|m|)
  {
    var id := Identity(|m|);
    MultiplyScale(m, adj, 1.0 / d);
    var inv := 1.0 / d;
    ScaleTwice(id, d, inv);
    var one := d * inv;
    assert Scale(Scale(id, d), inv) == Scale(id, one);
    assert one == 1.0;
    ScaleByOne(id);
    calc {
      Multiply(m, Scale(adj, 1.0 / d));
      Scale(Scale(id, d), 1.0 / d);
      Scale(id, one);
      id;
    }
  }

  /** The same on the left. */
  lemma DividedLeftInverse(m: seq<seq<real>>, adj: seq<seq<real>>, d: real)
    requires IsSquare(m, |m|) && IsSquare(adj, |m|) && d != 0.0
    requires Multiply(adj, m) == Scale(Identity(|m|), d)
    ensures Multiply(Scale(adj, 1.0 / d), m) == Identity(|m|)
  {
    var id := Identity(|m|);
    ScaleMultiply(adj, m, 1.0 / d);
    var inv := 1.0 / d;
    ScaleTwice(id, d, inv);
    var one := d * inv;
    assert Scale(Scale(id, d), inv) == Scale(id, one);
    assert one == 1.0;
    ScaleByOne(id);
  }

  /** Once the adjugate identity m * adj(m) == det(m) * I is known, the
      textbook inverse is a right inverse. */
  lemma InverseFromAdjugate(m: seq<seq<real>>)
    requires IsSquare(m, |m|) && Det(m) != 0.0
    requires Multiply(m, Transpose(Cofactors(m))) == Scale(Identity(|m|), Det(m))
    ensures Multiply(m, Inverse(m)) == Identity(|m|)
  {
    DividedRightInverse(m, Transpose(Cofactors(m)), Det(m));
  }

  /** Once adj(m) * m == det(m) * I is known, it is a left inverse too. */
  lemma InverseFromLeftAdjugate(m: seq<seq<real>>)
    requires IsSquare(m, |m|) && Det(m) != 0.0
    requires Multiply(Transpose(Cofactors(m)), m) == Scale(Identity(|m|), Det(m))
    ensures Multiply(Inverse(m), m) == Identity(|m|)
  {
    DividedLeftInverse(m, Transpose(Cofactors(m)), Det(m));
  }

  // ---------------------------------------------------------------------
  // Rows and columns

  function Column(m: seq<seq<real>>, col: nat): (v: seq<real>)
    requires IsSquare(m, |m|) && col < |m|
    ensures |v| == |m| && forall i :: 0 <= i < |m| ==> v[i] == m[i][col]
  {
    seq(|m|, i requires 0 <= i < |m| => m[i][col])
  }

  /** `m` with row `row` replaced by `v`. */
  function WithRow(m: seq<seq<real>>, row: nat, v: seq<real>): (r: seq<seq<real>>)
    requires IsSquare(m, |m|) && row < |m| && |v| == |m|
    ensures IsSquare(r, |m|)
  {
    m[row := v]
  }

  /** `m` with column `col` replaced by `v`. */
  function WithColumn(m: seq<seq<real>>, col: nat, v: seq<real>): (r: seq<seq<real>>)
    requires IsSquare(m, |m|) && col < |m| && |v| == |m|
    ensures IsSquare(r, |m|)
  {
    seq(|m|, i requires 0 <= i < |m| => m[i][col := v[i]])
  }

  /** Writing a row changes that row and no other cell, and reading it
      back gives what was written. */
  lemma WithRowCells(m: seq<seq<real>>, row: nat, v: seq<real>)
    requires IsSquare(m, |m|) && row < |m| && |v| == |m|
    ensures WithRow(m, row, v)[row] == v
    ensures forall i, j :: 0 <= i < |m| && 0 <= j < |m| && i != row ==>
              WithRow(m, row, v)[i][j] == m[i][j]
    ensures WithRow(m, row, m[row]) == m
  {
  }

  lemma {:induction false} WithColumnCells(m: seq<seq<real>>, col: nat, v: seq<real>)
    requires IsSquare(m, |m|) && col < |m| && |v| == |m|
    ensures Column(WithColumn(m, col, v), col) == v
    ensures forall i, j :: 0 <= i < |m| && 0 <= j < |m| && j != col ==>
              WithColumn(m, col, v)[i][j] == m[i][j]
    ensures WithColumn(m, col, Column(m, col)) == m
  {
    Extensionality(WithColumn(m, col, Column(m, col)), m);
  }

  // ---------------------------------------------------------------------
  // Matrices held in arrays

  /** The row and column accessors as evidently intended: the guard
      admits every index 0..n-1 of an n x n matrix, where the library's
      `> 0` turns index 0 away. */
  method GetRow(mat: array2<real>, dest: array<real>, row: int)
    requires HasShape(mat, dest.Length)
    modifies dest
    ensures 0 <= row < dest.Length ==> dest[..] == Grid(mat)[row]
    ensures !(0 <= row < dest.Length) ==> dest[..] == old(dest[..])
  {
    if 0 <= row < dest.Length {
      forall j | 0 <= j < dest.Length {
        dest[j] := mat[row, j];
      }
    }
  }

  method GetCol(mat: array2<real>, dest: array<real>, col: int)
    requires HasShape(mat, dest.Length)
    modifies dest
    ensures 0 <= col < dest.Length ==> dest[..] == Column(Grid(mat), col)
    ensures !(0 <= col < dest.Length) ==> dest[..] == old(dest[..])
  {
    if 0 <= col < dest.Length {
      forall i | 0 <= i < dest.Length {
        dest[i] := mat[i, col];
      }
    }
  }

  method SetRow(mat: array2<real>, src: array<real>, row: int)
    requires HasShape(mat, src.Length)
    modifies mat
    ensures 0 <= row < src.Length ==> Grid(mat) == WithRow(old(Grid(mat)), row, old(src[..]))
    ensures !(0 <= row < src.Length) ==> Grid(mat) == old(Grid(mat))
  {
    if 0 <= row < src.Length {
      forall j | 0 <= j < src.Length {
        mat[row, j] := src[j];
      }
      GridIs(mat, WithRow(old(Grid(mat)), row, old(src[..])));
    }
  }

  method SetCol(mat: array2<real>, src: array<real>, col: int)
    requires HasShape(mat, src.Length)
    modifies mat
    ensures 0 <= col < src.Length ==> Grid(mat) == WithColumn(old(Grid(mat)), col, old(src[..]))
    ensures !(0 <= col < src.Length) ==> Grid(mat) == old(Grid(mat))
  {
    if 0 <= col < src.Length {
      forall i | 0 <= i < src.Length {
        mat[i, col] := src[i];
      }
      GridIs(mat, WithColumn(old(Grid(mat)), col, old(src[..])));
    }
  }


  predicate HasShape(a: array2<real>, n: nat) {
    a.Length0 == n && a.Length1 == n
  }

  /** The contents of an array, as a grid of values. */
  function Grid(a: array2<real>): (g: seq<seq<real>>)
    reads a
    ensures |g| == a.Length0
    ensures forall i :: 0 <= i < a.Length0 ==> |g[i]| == a.Length1
    ensures forall i, j :: 0 <= i < a.Length0 && 0 <= j < a.Length1 ==> g[i][j] == a[i, j]
  {
    seq(a.Length0, i requires 0 <= i < a.Length0 reads a =>
      seq(a.Length1, j requires 0 <= j < a.Length1 reads a => a[i, j]))
  }

  lemma GridIs(a: array2<real>, g: seq<seq<real>>)
    requires HasShape(a, |g|) && IsSquare(g, |g|)
    requires forall i, j :: 0 <= i < |g| && 0 <= j < |g| ==> a[i, j] == g[i][j]
    ensures Grid(a) == g
  {
    Extensionality(Grid(a), g);
  }

  lemma GridIs2(a: array2<real>, g: seq<seq<real>>)
    requires HasShape(a, 2) && IsSquare(g, 2)
    requires a[0, 0] == g[0][0] && a[0, 1] == g[0][1]
    requires a[1, 0] == g[1][0] && a[1, 1] == g[1][1]
    ensures Grid(a) == g
  {
    GridIs(a, g);
  }

  lemma GridIs3(a: array2<real>, g: seq<seq<real>>)
    requires HasShape(a, 3) && IsSquare(g, 3)
    requires a[0, 0] == g[0][0] && a[0, 1] == g[0][1] && a[0, 2] == g[0][2]
    requires a[1, 0] == g[1][0] && a[1, 1] == g[1][1] && a[1, 2] == g[1][2]
    requires a[2, 0] == g[2][0] && a[2, 1] == g[2][1] && a[2, 2] == g[2][2]
    ensures Grid(a) == g
  {
    GridIs(a, g);
  }

  lemma GridIs4(a: array2<real>, g: seq<seq<real>>)
    requires HasShape(a, 4) && IsSquare(g, 4)
    requires a[0, 0] == g[0][0] && a[0, 1] == g[0][1] && a[0, 2] == g[0][2] && a[0, 3] == g[0][3]
    requires a[1, 0] == g[1][0] && a[1, 1] == g[1][1] && a[1, 2] == g[1][2] && a[1, 3] == g[1][3]
    requires a[2, 0] == g[2][0] && a[2, 1] == g[2][1] && a[2, 2] == g[2][2] && a[2, 3] == g[2][3]
    requires a[3, 0] == g[3][0] && a[3, 1] == g[3][1] && a[3, 2] == g[3][2] && a[3, 3] == g[3][3]
    ensures Grid(a) == g
  {
    GridIs(a, g);
  }

  /** The final `memcpy(dest->m, tmp.m, ...)` of every routine. */
  method CopyInto(src: array2<real>, dest: array2<real>)
    requires src.Length0 == dest.Length0 && src.Length1 == dest.Length1
    modifies dest
    ensures forall i, j :: 0 <= i < dest.Length0 && 0 <= j < dest.Length1 ==> dest[i, j] == old(src[i, j])
  {
    forall i, j | 0 <= i < dest.Length0 && 0 <= j < dest.Length1 {
      dest[i, j] := src[i, j];
    }
  }
}

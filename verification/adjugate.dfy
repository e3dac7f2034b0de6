/** Small dense matrices and their adjugates, as computed by the partial
    assembly setup kernels of the vector divergence integrator. `aRC` is
    the entry in row R, column C (1-based, as in the source's names). */
module Adjugate {

  datatype Mat2 = Mat2(a11: real, a12: real, a21: real, a22: real) {

    /** Row-major entry `k` (0..3): the order in which setup stores a block. */
    function Entry(k: nat): real
      requires k < 4
    {
      if k == 0 then a11 else if k == 1 then a12 else if k == 2 then a21 else a22
    }
  }

  datatype Mat3 = Mat3(a11: real, a12: real, a13: real,
                       a21: real, a22: real, a23: real,
                       a31: real, a32: real, a33: real) {

    /** Row-major entry `k` (0..8). */
    function Entry(k: nat): real
      requires k < 9
    {
      match k
      case 0 => a11 case 1 => a12 case 2 => a13
      case 3 => a21 case 4 => a22 case 5 => a23
      case 6 => a31 case 7 => a32 case _ => a33
    }
  }

  const Identity2 := Mat2(1.0, 0.0, 0.0, 1.0)
  const Identity3 := Mat3(1.0, 0.0, 0.0, 0.0, 1.0, 0.0, 0.0, 0.0, 1.0)

  function Det2(m: Mat2): real {
    m.a11 * m.a22 - m.a12 * m.a21
  }

  /** The determinant of the matrix with rows `(x11 x12 x13)`,
      `(x21 x22 x23)`, `(x31 x32 x33)`, expanded along its first row. */
  function Det(x11: real, x12: real, x13: real,
               x21: real, x22: real, x23: real,
               x31: real, x32: real, x33: real): real
  {
    x11 * (x22 * x33 - x23 * x32)
    - x12 * (x21 * x33 - x23 * x31)
    + x13 * (x21 * x32 - x22 * x31)
  }

  function Det3(m: Mat3): real {
    Det(m.a11, m.a12, m.a13, m.a21, m.a22, m.a23, m.a31, m.a32, m.a33)
  }

  function Scale2(c: real, m: Mat2): Mat2 {
    Mat2(c * m.a11, c * m.a12, c * m.a21, c * m.a22)
  }

  function Scale3(c: real, m: Mat3): Mat3 {
    Mat3(c * m.a11, c * m.a12, c * m.a13,
         c * m.a21, c * m.a22, c * m.a23,
         c * m.a31, c * m.a32, c * m.a33)
  }

  function Mul2(a: Mat2, b: Mat2): Mat2 {
    Mat2(a.a11 * b.a11 + a.a12 * b.a21, a.a11 * b.a12 + a.a12 * b.a22,
         a.a21 * b.a11 + a.a22 * b.a21, a.a21 * b.a12 + a.a22 * b.a22)
  }

  /** `a1*b1 + a2*b2 + a3*b3`: a row of one factor times a column of the other. */
  function Dot3(a1: real, a2: real, a3: real, b1: real, b2: real, b3: real): real {
    a1 * b1 + a2 * b2 + a3 * b3
  }

  function Mul3(a: Mat3, b: Mat3): Mat3 {
    Mat3(Dot3(a.a11, a.a12, a.a13, b.a11, b.a21, b.a31),
         Dot3(a.a11, a.a12, a.a13, b.a12, b.a22, b.a32),
         Dot3(a.a11, a.a12, a.a13, b.a13, b.a23, b.a33),
         Dot3(a.a21, a.a22, a.a23, b.a11, b.a21, b.a31),
         Dot3(a.a21, a.a22, a.a23, b.a12, b.a22, b.a32),
         Dot3(a.a21, a.a22, a.a23, b.a13, b.a23, b.a33),
         Dot3(a.a31, a.a32, a.a33, b.a11, b.a21, b.a31),
         Dot3(a.a31, a.a32, a.a33, b.a12, b.a22, b.a32),
         Dot3(a.a31, a.a32, a.a33, b.a13, b.a23, b.a33))
  }

  /** The 2x2 adjugate `(J22, -J12, -J21, J11)` written by the 2D setup. */
  function Adj2(j: Mat2): Mat2 {
    Mat2(j.a22, -j.a12, -j.a21, j.a11)
  }

  /** A signed 2x2 minor `p*q - r*s`, products in the order given. */
  function Cof(p: real, q: real, r: real, s: real): real {
    p * q - r * s
  }

  /** The nine cofactor expressions `A11..A33` of the 3D setup, with the
      products in the order the source writes them. */
  function Adj3(j: Mat3): Mat3 {
    Mat3(Cof(j.a22, j.a33, j.a23, j.a32),
         Cof(j.a32, j.a13, j.a12, j.a33),
         Cof(j.a12, j.a23, j.a22, j.a13),
         Cof(j.a31, j.a23, j.a21, j.a33),
         Cof(j.a11, j.a33, j.a13, j.a31),
         Cof(j.a21, j.a13, j.a11, j.a23),
         Cof(j.a21, j.a32, j.a31, j.a22),
         Cof(j.a31, j.a12, j.a11, j.a32),
         Cof(j.a11, j.a22, j.a12, j.a21))
  }

  /** The defining property of the adjugate: `adj(J)·J = J·adj(J) = det(J)·I`. */
  lemma Adj2IsAdjugate(j: Mat2)
    ensures Mul2(Adj2(j), j) == Scale2(Det2(j), Identity2)
    ensures Mul2(j, Adj2(j)) == Scale2(Det2(j), Identity2)
  {
  }

  lemma Adj3IsAdjugate(j: Mat3)
    ensures Mul3(Adj3(j), j) == Scale3(Det3(j), Identity3)
    ensures Mul3(j, Adj3(j)) == Scale3(Det3(j), Identity3)
  {
    Adj3IsLeftInverse(j);
    Adj3IsRightInverse(j);
  }

  /* Row r of `adj(J)·J` holds the cofactors of column r of J, so its
     product with column c of J is the expansion along column r of J with
     column r replaced by column c: det(J) when c == r, and a determinant
     with two equal columns, zero, otherwise. Symmetrically for `J·adj(J)`
     and rows. */
  lemma Adj3IsLeftInverse(j: Mat3)
    ensures Mul3(Adj3(j), j) == Scale3(Det3(j), Identity3)
  {
    var (j11, j12, j13, j21, j22, j23, j31, j32, j33) :=
      (j.a11, j.a12, j.a13, j.a21, j.a22, j.a23, j.a31, j.a32, j.a33);
    ExpandColumn1(j11, j12, j13, j21, j22, j23, j31, j32, j33);
    ExpandColumn1(j12, j12, j13, j22, j22, j23, j32, j32, j33);
    ExpandColumn1(j13, j12, j13, j23, j22, j23, j33, j32, j33);
    ExpandColumn2(j11, j11, j13, j21, j21, j23, j31, j31, j33);
    ExpandColumn2(j11, j12, j13, j21, j22, j23, j31, j32, j33);
    ExpandColumn2(j11, j13, j13, j21, j23, j23, j31, j33, j33);
    ExpandColumn3(j11, j12, j11, j21, j22, j21, j31, j32, j31);
    ExpandColumn3(j11, j12, j12, j21, j22, j22, j31, j32, j32);
    ExpandColumn3(j11, j12, j13, j21, j22, j23, j31, j32, j33);
    EqualColumns12(j12, j13, j22, j23, j32, j33);
    EqualColumns13(j13, j12, j23, j22, j33, j32);
    EqualColumns12(j11, j13, j21, j23, j31, j33);
    EqualColumns23(j11, j13, j21, j23, j31, j33);
    EqualColumns13(j11, j12, j21, j22, j31, j32);
    EqualColumns23(j11, j12, j21, j22, j31, j32);
    ScalarIdentity(Mul3(Adj3(j), j), Det3(j));
  }

  lemma Adj3IsRightInverse(j: Mat3)
    ensures Mul3(j, Adj3(j)) == Scale3(Det3(j), Identity3)
  {
    var (j11, j12, j13, j21, j22, j23, j31, j32, j33) :=
      (j.a11, j.a12, j.a13, j.a21, j.a22, j.a23, j.a31, j.a32, j.a33);
    ExpandRow1(j11, j12, j13, j21, j22, j23, j31, j32, j33);
    ExpandRow1(j21, j22, j23, j21, j22, j23, j31, j32, j33);
    ExpandRow1(j31, j32, j33, j21, j22, j23, j31, j32, j33);
    ExpandRow2(j11, j12, j13, j11, j12, j13, j31, j32, j33);
    ExpandRow2(j11, j12, j13, j21, j22, j23, j31, j32, j33);
    ExpandRow2(j11, j12, j13, j31, j32, j33, j31, j32, j33);
    ExpandRow3(j11, j12, j13, j21, j22, j23, j11, j12, j13);
    ExpandRow3(j11, j12, j13, j21, j22, j23, j21, j22, j23);
    ExpandRow3(j11, j12, j13, j21, j22, j23, j31, j32, j33);
    EqualRows12(j21, j22, j23, j31, j32, j33);
    EqualRows13(j31, j32, j33, j21, j22, j23);
    EqualRows12(j11, j12, j13, j31, j32, j33);
    EqualRows23(j11, j12, j13, j31, j32, j33);
    EqualRows13(j11, j12, j13, j21, j22, j23);
    EqualRows23(j11, j12, j13, j21, j22, j23);
    ScalarIdentity(Mul3(j, Adj3(j)), Det3(j));
  }

  /** A matrix with `d` on the diagonal and zeros elsewhere is `d·I`. */
  lemma ScalarIdentity(m: Mat3, d: real)
    requires m.a11 == d && m.a22 == d && m.a33 == d
    requires m.a12 == 0.0 && m.a13 == 0.0 && m.a21 == 0.0
    requires m.a23 == 0.0 && m.a31 == 0.0 && m.a32 == 0.0
    ensures m == Scale3(d, Identity3)
  {
  }

  // Cofactor expansions of the determinant along each column (paired with
  // the adjugate's rows) and along each row (paired with its columns).

  lemma ExpandColumn1(x11: real, x12: real, x13: real, x21: real, x22: real, x23: real,
                      x31: real, x32: real, x33: real)
    ensures Dot3(Cof(x22, x33, x23, x32), Cof(x32, x13, x12, x33), Cof(x12, x23, x22, x13), x11, x21, x31)
            == Det(x11, x12, x13, x21, x22, x23, x31, x32, x33)
  {
  }

  lemma ExpandColumn2(x11: real, x12: real, x13: real, x21: real, x22: real, x23: real,
                      x31: real, x32: real, x33: real)
    ensures Dot3(Cof(x31, x23, x21, x33), Cof(x11, x33, x13, x31), Cof(x21, x13, x11, x23), x12, x22, x32)
            == Det(x11, x12, x13, x21, x22, x23, x31, x32, x33)
  {
  }

  lemma ExpandColumn3(x11: real, x12: real, x13: real, x21: real, x22: real, x23: real,
                      x31: real, x32: real, x33: real)
    ensures Dot3(Cof(x21, x32, x31, x22), Cof(x31, x12, x11, x32), Cof(x11, x22, x12, x21), x13, x23, x33)
            == Det(x11, x12, x13, x21, x22, x23, x31, x32, x33)
  {
  }

  lemma ExpandRow1(x11: real, x12: real, x13: real, x21: real, x22: real, x23: real,
                   x31: real, x32: real, x33: real)
    ensures Dot3(x11, x12, x13, Cof(x22, x33, x23, x32), Cof(x31, x23, x21, x33), Cof(x21, x32, x31, x22))
            == Det(x11, x12, x13, x21, x22, x23, x31, x32, x33)
  {
  }

  lemma ExpandRow2(x11: real, x12: real, x13: real, x21: real, x22: real, x23: real,
                   x31: real, x32: real, x33: real)
    ensures Dot3(x21, x22, x23, Cof(x32, x13, x12, x33), Cof(x11, x33, x13, x31), Cof(x31, x12, x11, x32))
            == Det(x11, x12, x13, x21, x22, x23, x31, x32, x33)
  {
  }

  lemma ExpandRow3(x11: real, x12: real, x13: real, x21: real, x22: real, x23: real,
                   x31: real, x32: real, x33: real)
    ensures Dot3(x31, x32, x33, Cof(x12, x23, x22, x13), Cof(x21, x13, x11, x23), Cof(x11, x22, x12, x21))
            == Det(x11, x12, x13, x21, x22, x23, x31, x32, x33)
  {
  }

  // A determinant with two equal columns, or two equal rows, vanishes.

  lemma EqualColumns12(a1: real, c1: real, a2: real, c2: real, a3: real, c3: real)
    ensures Det(a1, a1, c1, a2, a2, c2, a3, a3, c3) == 0.0
  {
  }

  lemma EqualColumns13(a1: real, b1: real, a2: real, b2: real, a3: real, b3: real)
    ensures Det(a1, b1, a1, a2, b2, a2, a3, b3, a3) == 0.0
  {
  }

  lemma EqualColumns23(a1: real, b1: real, a2: real, b2: real, a3: real, b3: real)
    ensures Det(a1, b1, b1, a2, b2, b2, a3, b3, b3) == 0.0
  {
  }

  lemma EqualRows12(a1: real, a2: real, a3: real, c1: real, c2: real, c3: real)
    ensures Det(a1, a2, a3, a1, a2, a3, c1, c2, c3) == 0.0
  {
  }

  lemma EqualRows13(a1: real, a2: real, a3: real, b1: real, b2: real, b3: real)
    ensures Det(a1, a2, a3, b1, b2, b3, a1, a2, a3) == 0.0
  {
  }

  lemma EqualRows23(a1: real, a2: real, a3: real, b1: real, b2: real, b3: real)
    ensures Det(a1, a2, a3, b1, b2, b3, b1, b2, b3) == 0.0
  {
  }

  /** A scaled adjugate `c·adj(J)` is `c·det(J)` times a left inverse of `J`:
      the form in which the setup kernels store each quadrature point. */
  lemma ScaledAdj2IsScaledInverse(c: real, j: Mat2, m: Mat2)
    requires m == Scale2(c, Adj2(j))
    ensures Mul2(m, j) == Scale2(c * Det2(j), Identity2)
  {
    Adj2IsAdjugate(j);
  }

  /** The adjugate of the identity is the identity. */
  lemma Adj3OfIdentity()
    ensures Adj3(Identity3) == Identity3
  {
  }
}

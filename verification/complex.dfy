/** Complex numbers as pairs of reals, with the operations the PML code of
    examples/ex25.cpp uses on `std::complex<double>`: sums, products,
    products with a real, quotients and integer squares. */
module Complex {

  datatype Complex = Complex(re: real, im: real)

  const Zero := Complex(0.0, 0.0)
  const One := Complex(1.0, 0.0)
  /** The imaginary unit `zi`. */
  const I := Complex(0.0, 1.0)

  /** A `double` promoted to a complex number. */
  function FromReal(r: real): Complex {
    Complex(r, 0.0)
  }

  function Add(a: Complex, b: Complex): Complex {
    Complex(a.re + b.re, a.im + b.im)
  }

  function Mul(a: Complex, b: Complex): Complex {
    Complex(a.re * b.re - a.im * b.im, a.re * b.im + a.im * b.re)
  }

  /** `complex<double> * double`: both parts scaled, no complex product. */
  function Scale(z: Complex, r: real): Complex {
    Complex(z.re * r, z.im * r)
  }

  function Conj(z: Complex): Complex {
    Complex(z.re, -z.im)
  }

  /** The squared modulus `|z|^2`. */
  function NormSq(z: Complex): real {
    z.re * z.re + z.im * z.im
  }

  /** `pow(z, 2)`, the square. */
  function Sq(z: Complex): Complex {
    Mul(z, z)
  }

  /** A number with a nonzero modulus, the divisors `Div` accepts. */
  predicate Invertible(z: Complex) {
    NormSq(z) != 0.0
  }

  /** The quotient `a / b`. */
  function Div(a: Complex, b: Complex): Complex
    requires Invertible(b)
  {
    var n := NormSq(b);
    Complex((a.re * b.re + a.im * b.im) / n, (a.im * b.re - a.re * b.im) / n)
  }

  // ---- Algebra.

  /** Only zero has modulus zero. */
  lemma InvertibleNonzero(z: Complex)
    requires Invertible(z)
    ensures z != Zero
  {
  }

  /** A number with real part 1, such as a PML stretch factor, is invertible. */
  lemma UnitRealPartInvertible(z: Complex)
    requires z.re == 1.0
    ensures Invertible(z)
  {
    var t := z.im;
    assert t * t >= 0.0;
    assert NormSq(z) == 1.0 + t * t;
  }

  /** The modulus is multiplicative. */
  lemma NormSqMul(a: Complex, b: Complex)
    ensures NormSq(Mul(a, b)) == NormSq(a) * NormSq(b)
  {
  }

  lemma NonzeroProduct(x: real, y: real)
    requires x != 0.0 && y != 0.0
    ensures x * y != 0.0
  {
  }

  /** A product of invertible numbers is invertible. */
  lemma MulInvertible(a: Complex, b: Complex)
    requires Invertible(a) && Invertible(b)
    ensures Invertible(Mul(a, b))
  {
    NormSqMul(a, b);
    NonzeroProduct(NormSq(a), NormSq(b));
  }

  lemma MulCommutes(a: Complex, b: Complex)
    ensures Mul(a, b) == Mul(b, a)
  {
  }

  lemma MulAssociates(a: Complex, b: Complex, c: Complex)
    ensures Mul(Mul(a, b), c) == Mul(a, Mul(b, c))
  {
  }

  lemma MulOne(a: Complex)
    ensures Mul(a, One) == a && Mul(One, a) == a
  {
  }

  /** Division undoes multiplication: `(a / b) * b == a`. */
  lemma DivTimes(a: Complex, b: Complex)
    requires Invertible(b)
    ensures Mul(Div(a, b), b) == a
  {
    var n := NormSq(b);
    var p := a.re * b.re + a.im * b.im;
    var q := a.im * b.re - a.re * b.im;
    var d := Div(a, b);
    assert d.re * n == p;
    assert d.im * n == q;
    assert (d.re * b.re - d.im * b.im) * n == p * b.re - q * b.im;
    assert p * b.re - q * b.im == a.re * n;
    assert (d.re * b.im + d.im * b.re) * n == p * b.im + q * b.re;
    assert p * b.im + q * b.re == a.im * n;
  }

  /** Multiplication undoes division: `(c * b) / b == c`. */
  lemma TimesDiv(c: Complex, b: Complex)
    requires Invertible(b)
    ensures Div(Mul(c, b), b) == c
  {
    var n := NormSq(b);
    var a := Mul(c, b);
    assert a.re * b.re + a.im * b.im == c.re * n;
    assert a.im * b.re - a.re * b.im == c.im * n;
  }

  /** `(d e)(a b) == (d b)(e a)`. */
  lemma Rearrange(d: Complex, e: Complex, a: Complex, b: Complex)
    ensures Mul(Mul(d, e), Mul(a, b)) == Mul(Mul(d, b), Mul(e, a))
  {
    MulAssociates(d, e, Mul(a, b));
    MulAssociates(e, a, b);
    MulCommutes(Mul(e, a), b);
    MulAssociates(d, b, Mul(e, a));
  }

  /** `(a / b) * (b / a) == 1`. */
  lemma ReciprocalQuotients(a: Complex, b: Complex)
    requires Invertible(a) && Invertible(b)
    ensures Mul(Div(a, b), Div(b, a)) == One
  {
    var d, e := Div(a, b), Div(b, a);
    DivTimes(a, b);
    DivTimes(b, a);
    // (d e)(a b) == (d b)(e a) == a b, so d e is (a b) / (a b), as is 1.
    MulInvertible(a, b);
    Rearrange(d, e, a, b);
    TimesDiv(Mul(d, e), Mul(a, b));
    MulOne(Mul(a, b));
    TimesDiv(One, Mul(a, b));
  }
}

/**
 * Exact complex arithmetic over the reals, standing in for the numpy
 * `complex128` values of the transfer-matrix code.
 */
module ComplexNumbers {

  datatype Complex = Complex(re: real, im: real)

  const Zero := Complex(0.0, 0.0)
  const One := Complex(1.0, 0.0)
  /** `1j`. */
  const I := Complex(0.0, 1.0)

  /** A real number as a complex one. */
  function FromReal(x: real): Complex
  {
    Complex(x, 0.0)
  }

  function Add(x: Complex, y: Complex): Complex
  {
    Complex(x.re + y.re, x.im + y.im)
  }

  function Sub(x: Complex, y: Complex): Complex
  {
    Complex(x.re - y.re, x.im - y.im)
  }

  function Neg(x: Complex): Complex
  {
    Complex(-x.re, -x.im)
  }

  function Mul(x: Complex, y: Complex): Complex
  {
    Complex(x.re * y.re - x.im * y.im, x.re * y.im + x.im * y.re)
  }

  /**
   * The product of two reals, named so that sign facts about it can be
   * stated once and reused without re-deriving them from `*`.
   */
  function Product(a: real, b: real): real
  {
    a * b
  }

  lemma ProductPositive(a: real, b: real)
    requires a > 0.0 && b > 0.0
    ensures Product(a, b) > 0.0
  {
  }

  lemma SquarePositiveRight(x: real)
    requires x > 0.0
    ensures Product(x, x) > 0.0
  {
    ProductPositive(x, x);
  }

  lemma SquarePositiveLeft(x: real)
    requires x < 0.0
    ensures Product(x, x) > 0.0
  {
    ProductPositive(-x, -x);
    assert Product(-x, -x) == Product(x, x);
  }

  /** The square of a real is never negative, and it is zero only at zero. */
  lemma SquareSign(x: real)
    ensures Product(x, x) >= 0.0
    ensures x > 0.0 || x < 0.0 ==> Product(x, x) > 0.0
  {
    if x > 0.0 {
      SquarePositiveRight(x);
    } else if x < 0.0 {
      SquarePositiveLeft(x);
    }
  }

  /** `abs(z) ** 2`, the squared modulus. */
  function AbsSquared(z: Complex): (r: real)
    ensures r >= 0.0
    ensures z == Zero ==> r == 0.0
  {
    SquareSign(z.re);
    SquareSign(z.im);
    Product(z.re, z.re) + Product(z.im, z.im)
  }

  /** Every complex number but zero has a positive squared modulus. */
  lemma ModulusPositive(z: Complex)
    requires z != Zero
    ensures AbsSquared(z) > 0.0
  {
    SquareSign(z.re);
    SquareSign(z.im);
    if z.re > 0.0 || z.re < 0.0 {
    } else {
      assert z.im > 0.0 || z.im < 0.0;
    }
  }

  /** `1 / z`. */
  function Inv(z: Complex): (r: Complex)
    requires z != Zero
    ensures Mul(z, r) == One
  {
    ModulusPositive(z);
    InvRight(z, AbsSquared(z));
    Complex(z.re / AbsSquared(z), -z.im / AbsSquared(z))
  }

  lemma InvRight(z: Complex, n: real)
    requires n > 0.0 && n == Product(z.re, z.re) + Product(z.im, z.im)
    ensures z.re * (z.re / n) - z.im * (-z.im / n) == 1.0
    ensures z.re * (-z.im / n) + z.im * (z.re / n) == 0.0
  {
    assert z.re * (z.re / n) - z.im * (-z.im / n) == (Product(z.re, z.re) + Product(z.im, z.im)) / n;
  }

  /** `x / y`. */
  function Div(x: Complex, y: Complex): (r: Complex)
    requires y != Zero
    ensures Mul(r, y) == x
  {
    var q := Mul(x, Inv(y));
    MulAssoc(x, Inv(y), y);
    MulComm(Inv(y), y);
    MulOne(x);
    q
  }

  lemma MulOne(x: Complex)
    ensures Mul(x, One) == x && Mul(One, x) == x
  {
  }

  lemma MulZero(x: Complex)
    ensures Mul(x, Zero) == Zero && Mul(Zero, x) == Zero
  {
  }

  lemma MulComm(x: Complex, y: Complex)
    ensures Mul(x, y) == Mul(y, x)
  {
  }

  lemma MulAssoc(x: Complex, y: Complex, z: Complex)
    ensures Mul(Mul(x, y), z) == Mul(x, Mul(y, z))
  {
  }

  lemma DistribL(x: Complex, y: Complex, z: Complex)
    ensures Mul(x, Add(y, z)) == Add(Mul(x, y), Mul(x, z))
  {
  }

  lemma DistribR(x: Complex, y: Complex, z: Complex)
    ensures Mul(Add(x, y), z) == Add(Mul(x, z), Mul(y, z))
  {
  }

  lemma MulNeg(x: Complex, y: Complex)
    ensures Mul(Neg(x), y) == Neg(Mul(x, y))
    ensures Mul(x, Neg(y)) == Neg(Mul(x, y))
  {
  }

  /** A non-zero factor can be cancelled. */
  lemma Cancel(x: Complex, y: Complex, t: Complex)
    requires t != Zero && Mul(x, t) == Mul(y, t)
    ensures x == y
  {
    calc {
      x;
      { MulOne(x); }
      Mul(x, One);
      Mul(x, Mul(t, Inv(t)));
      { MulAssoc(x, t, Inv(t)); }
      Mul(Mul(y, t), Inv(t));
      { MulAssoc(y, t, Inv(t)); }
      Mul(y, Mul(t, Inv(t)));
      { MulOne(y); }
      y;
    }
  }

  /** Dividing zero gives zero. */
  lemma DivZero(y: Complex)
    requires y != Zero
    ensures Div(Zero, y) == Zero
  {
    MulZero(Inv(y));
  }

  /** A right inverse is the inverse. */
  lemma InvUnique(z: Complex, w: Complex)
    requires z != Zero && Mul(z, w) == One
    ensures w == Inv(z)
  {
    MulComm(z, w);
    MulComm(z, Inv(z));
    Cancel(w, Inv(z), z);
  }
}

/**
 * The transfer-matrix (TMM) model of a distributed Bragg reflector: the
 * propagation and interface matrices, the unit cell raised to the number of
 * periods, the two-mirror cavity, the conversion to scattering parameters
 * and the reflection sweep over wavelengths.
 *
 * `exp`, `sqrt`, pi and ln 10 are not computed: they are parameters
 * gathered in an `Analytic` value, and the lemmas assume only the laws
 * stated in `Lawful`.
 */
module Dbr {
  import opened ComplexNumbers
  import opened Matrices

  /** The transcendental functions and constants the module takes from numpy. */
  datatype Analytic = Analytic(exp: Complex -> Complex, sqrt: real -> real, pi: real, ln10: real)

  /** The laws of `exp` and `sqrt` the proofs rely on. */
  ghost predicate Lawful(an: Analytic)
  {
    && an.exp(Zero) == One
    && (forall z {:trigger an.exp(Neg(z))} :: Mul(an.exp(z), an.exp(Neg(z))) == One)
    && (forall x :: x > 0.0 ==> an.sqrt(x) > 0.0 && Product(an.sqrt(x), an.sqrt(x)) == x)
    && (forall x :: x > 0.0 ==> an.sqrt(Product(x, x)) == x)
  }

  /** Propagation loss in dB per cm. */
  const AlphaDbPerCm: real := 7.0

  /** Propagation loss per metre: `ln(10) * 7 / 10 * 100`. */
  function Alpha(an: Analytic): real
  {
    an.ln10 * AlphaDbPerCm / 10.0 * 100.0
  }

  /** Complex propagation constant `2 pi neff / wavelength - 1j alpha / 2`. */
  function Beta(an: Analytic, wavelength: real, neff: real): Complex
    requires wavelength != 0.0
  {
    Sub(FromReal(2.0 * an.pi * neff / wavelength), Mul(I, FromReal(Alpha(an) / 2.0)))
  }

  /** The phase exponent `1j * beta * length` of the forward wave. */
  function Phase(an: Analytic, wavelength: real, neff: real, length: real): Complex
    requires wavelength != 0.0
  {
    Mul(Mul(I, Beta(an, wavelength, neff)), FromReal(length))
  }

  /** `tmatrix_straight`: a straight section of the given index and length. */
  function TmatrixStraight(an: Analytic, wavelength: real, neff: real, length: real): Mat2
    requires wavelength != 0.0
  {
    var beta := Beta(an, wavelength, neff);
    Diag(an.exp(Mul(Mul(I, beta), FromReal(length))), an.exp(Mul(Mul(Neg(I), beta), FromReal(length))))
  }

  /** The backward exponent is the negated forward one. */
  lemma BackwardPhase(an: Analytic, wavelength: real, neff: real, length: real)
    requires wavelength != 0.0
    ensures Mul(Mul(Neg(I), Beta(an, wavelength, neff)), FromReal(length)) == Neg(Phase(an, wavelength, neff, length))
  {
    var beta := Beta(an, wavelength, neff);
    MulNeg(I, beta);
    MulNeg(Mul(I, beta), FromReal(length));
  }

  /** A straight section is `diag(exp(phase), exp(-phase))`. */
  lemma StraightEntries(an: Analytic, wavelength: real, neff: real, length: real)
    requires wavelength != 0.0
    ensures TmatrixStraight(an, wavelength, neff, length)
         == Diag(an.exp(Phase(an, wavelength, neff, length)), an.exp(Neg(Phase(an, wavelength, neff, length))))
  {
    BackwardPhase(an, wavelength, neff, length);
  }

  /** The two entries of a straight section multiply to 1, and so does its determinant. */
  lemma StraightUnimodular(an: Analytic, wavelength: real, neff: real, length: real)
    requires Lawful(an) && wavelength != 0.0
    ensures IsDiagonal(TmatrixStraight(an, wavelength, neff, length))
    ensures Mul(TmatrixStraight(an, wavelength, neff, length).a, TmatrixStraight(an, wavelength, neff, length).d) == One
    ensures Det(TmatrixStraight(an, wavelength, neff, length)) == One
  {
    StraightEntries(an, wavelength, neff, length);
    var u := Phase(an, wavelength, neff, length);
    DiagDet(an.exp(u), an.exp(Neg(u)));
  }

  /** A section of zero length is the identity. */
  lemma StraightZeroLength(an: Analytic, wavelength: real, neff: real)
    requires Lawful(an) && wavelength != 0.0
    ensures TmatrixStraight(an, wavelength, neff, 0.0) == Identity
  {
    var beta := Beta(an, wavelength, neff);
    MulZero(Mul(I, beta));
    MulZero(Mul(Neg(I), beta));
    assert FromReal(0.0) == Zero;
  }

  /** numpy's `2 * sqrt(neff1 * neff2)` is a usable denominator. */
  predicate BoundaryDefined(an: Analytic, neff1: real, neff2: real)
  {
    an.sqrt(Product(neff1, neff2)) != 0.0
  }

  /** `tmatrix_boundary`: the interface from index `neff1` to index `neff2`. */
  function TmatrixBoundary(an: Analytic, neff1: real, neff2: real): Mat2
    requires BoundaryDefined(an, neff1, neff2)
  {
    var s := an.sqrt(Product(neff1, neff2));
    var a := (neff1 + neff2) / (2.0 * s);
    var b := (neff1 - neff2) / (2.0 * s);
    Mat2(FromReal(a), FromReal(b), FromReal(b), FromReal(a))
  }

  lemma RealDet(a: real, b: real)
    ensures Det(Mat2(FromReal(a), FromReal(b), FromReal(b), FromReal(a))) == FromReal(Product(a, a) - Product(b, b))
  {
  }

  lemma QuotientSquare(x: real, d: real)
    requires d != 0.0 && Product(d, d) > 0.0
    ensures Product(x / d, x / d) == Product(x, x) / Product(d, d)
  {
  }

  lemma DiffSquares(n1: real, n2: real)
    ensures Product(n1 + n2, n1 + n2) - Product(n1 - n2, n1 - n2) == 4.0 * Product(n1, n2)
  {
  }

  lemma DoubleSquare(s: real)
    ensures Product(2.0 * s, 2.0 * s) == 4.0 * Product(s, s)
  {
  }

  lemma SubDiv(x: real, y: real, d: real)
    requires d != 0.0
    ensures x / d - y / d == (x - y) / d
  {
  }

  lemma SelfDiv(d: real)
    requires d > 0.0
    ensures d / d == 1.0
  {
  }

  lemma BoundaryRatio(n1: real, n2: real, s: real)
    requires s != 0.0 && Product(s, s) == Product(n1, n2)
    ensures Product((n1 + n2) / (2.0 * s), (n1 + n2) / (2.0 * s)) - Product((n1 - n2) / (2.0 * s), (n1 - n2) / (2.0 * s)) == 1.0
  {
    SquareSign(s);
    SquareSign(2.0 * s);
    QuotientSquare(n1 + n2, 2.0 * s);
    QuotientSquare(n1 - n2, 2.0 * s);
    DiffSquares(n1, n2);
    DoubleSquare(s);
    SubDiv(Product(n1 + n2, n1 + n2), Product(n1 - n2, n1 - n2), Product(2.0 * s, 2.0 * s));
    SelfDiv(Product(2.0 * s, 2.0 * s));
  }

  /** An interface between positive-product indices has determinant `a^2 - b^2 = 1`. */
  lemma BoundaryUnimodular(an: Analytic, neff1: real, neff2: real)
    requires Lawful(an) && Product(neff1, neff2) > 0.0
    ensures BoundaryDefined(an, neff1, neff2)
    ensures Det(TmatrixBoundary(an, neff1, neff2)) == One
  {
    var s := an.sqrt(Product(neff1, neff2));
    BoundaryRatio(neff1, neff2, s);
    RealDet((neff1 + neff2) / (2.0 * s), (neff1 - neff2) / (2.0 * s));
  }

  /** The interface between equal indices does not reflect. */
  lemma BoundaryUniform(an: Analytic, neff: real)
    requires BoundaryDefined(an, neff, neff)
    ensures IsDiagonal(TmatrixBoundary(an, neff, neff))
    ensures TmatrixBoundary(an, neff, neff).a == TmatrixBoundary(an, neff, neff).d
  {
    var s := an.sqrt(Product(neff, neff));
    assert (neff - neff) / (2.0 * s) == 0.0;
  }

  /** Between equal positive indices the interface is the identity. */
  lemma BoundaryIdentity(an: Analytic, neff: real)
    requires Lawful(an) && neff > 0.0
    ensures BoundaryDefined(an, neff, neff)
    ensures TmatrixBoundary(an, neff, neff) == Identity
  {
    SquarePositiveRight(neff);
    assert an.sqrt(Product(neff, neff)) == neff;
    SelfDiv(2.0 * neff);
    assert (neff + neff) / (2.0 * neff) == 1.0;
    assert (neff - neff) / (2.0 * neff) == 0.0;
  }

  lemma ProductComm(x: real, y: real)
    ensures Product(x, y) == Product(y, x)
  {
  }

  lemma NegDiv(x: real, d: real)
    requires d != 0.0
    ensures (-x) / d == -(x / d)
  {
  }

  lemma SymmetricProduct(a: real, b: real)
    ensures MatMul(Mat2(FromReal(a), FromReal(b), FromReal(b), FromReal(a)),
                   Mat2(FromReal(a), FromReal(-b), FromReal(-b), FromReal(a)))
         == Mat2(FromReal(Product(a, a) - Product(b, b)), Zero, Zero, FromReal(Product(a, a) - Product(b, b)))
  {
  }

  /** Crossing an interface and crossing back is the identity. */
  lemma BoundaryRoundTrip(an: Analytic, neff1: real, neff2: real)
    requires Lawful(an) && Product(neff1, neff2) > 0.0
    ensures BoundaryDefined(an, neff1, neff2) && BoundaryDefined(an, neff2, neff1)
    ensures MatMul(TmatrixBoundary(an, neff1, neff2), TmatrixBoundary(an, neff2, neff1)) == Identity
  {
    ProductComm(neff1, neff2);
    var s := an.sqrt(Product(neff1, neff2));
    var a := (neff1 + neff2) / (2.0 * s);
    var b := (neff1 - neff2) / (2.0 * s);
    assert neff2 - neff1 == -(neff1 - neff2);
    NegDiv(neff1 - neff2, 2.0 * s);
    assert TmatrixBoundary(an, neff2, neff1) == Mat2(FromReal(a), FromReal(-b), FromReal(-b), FromReal(a));
    BoundaryRatio(neff1, neff2, s);
    SymmetricProduct(a, b);
  }

  /** Everything the unit cell divides by is non-zero. */
  predicate CellDefined(an: Analytic, wavelength: real, n1: real, n2: real)
  {
    wavelength != 0.0 && BoundaryDefined(an, n1, n2) && BoundaryDefined(an, n2, n1)
  }

  /** `period / 2`, the length of each half of the unit cell. */
  function Half(period: real): real
  {
    period / 2.0
  }

  /** One grating period: half a period at `n1`, the interface, half a period at `n2`, the interface back. */
  function UnitCell(an: Analytic, wavelength: real, n1: real, n2: real, period: real): Mat2
    requires CellDefined(an, wavelength, n1, n2)
  {
    MatMul(MatMul(TmatrixStraight(an, wavelength, n1, Half(period)), TmatrixBoundary(an, n1, n2)),
           MatMul(TmatrixStraight(an, wavelength, n2, Half(period)), TmatrixBoundary(an, n2, n1)))
  }

  /** `tmatrix_dbr`: the unit cell raised to the number of periods. */
  function TmatrixDbr(an: Analytic, wavelength: real, n1: real, n2: real, period: real, nPeriods: nat): Mat2
    requires CellDefined(an, wavelength, n1, n2)
  {
    Power(UnitCell(an, wavelength, n1, n2, period), nPeriods)
  }

  /** No period is the identity, and periods stack: `T(n + k) == T(n) @ T(k)`. */
  lemma DbrPeriods(an: Analytic, wavelength: real, n1: real, n2: real, period: real, n: nat, k: nat)
    requires CellDefined(an, wavelength, n1, n2)
    ensures TmatrixDbr(an, wavelength, n1, n2, period, 0) == Identity
    ensures TmatrixDbr(an, wavelength, n1, n2, period, n + k)
         == MatMul(TmatrixDbr(an, wavelength, n1, n2, period, n), TmatrixDbr(an, wavelength, n1, n2, period, k))
  {
    PowerAdd(UnitCell(an, wavelength, n1, n2, period), n, k);
  }

  lemma FourUnimodular(p: Mat2, q: Mat2, r: Mat2, t: Mat2)
    requires Det(p) == One && Det(q) == One && Det(r) == One && Det(t) == One
    ensures Det(MatMul(MatMul(p, q), MatMul(r, t))) == One
  {
    DetMulOne(p, q);
    DetMulOne(r, t);
    DetMulOne(MatMul(p, q), MatMul(r, t));
  }

  lemma CellDetFromFactors(an: Analytic, wavelength: real, n1: real, n2: real, period: real)
    requires CellDefined(an, wavelength, n1, n2)
    requires Det(TmatrixStraight(an, wavelength, n1, Half(period))) == One
    requires Det(TmatrixStraight(an, wavelength, n2, Half(period))) == One
    requires Det(TmatrixBoundary(an, n1, n2)) == One && Det(TmatrixBoundary(an, n2, n1)) == One
    ensures Det(UnitCell(an, wavelength, n1, n2, period)) == One
  {
    FourUnimodular(TmatrixStraight(an, wavelength, n1, Half(period)), TmatrixBoundary(an, n1, n2),
                   TmatrixStraight(an, wavelength, n2, Half(period)), TmatrixBoundary(an, n2, n1));
  }

  /** The unit cell is unimodular, every factor being so. */
  lemma CellUnimodular(an: Analytic, wavelength: real, n1: real, n2: real, period: real)
    requires Lawful(an) && wavelength != 0.0 && Product(n1, n2) > 0.0
    ensures CellDefined(an, wavelength, n1, n2)
    ensures Det(UnitCell(an, wavelength, n1, n2, period)) == One
  {
    ProductComm(n1, n2);
    BoundaryUnimodular(an, n1, n2);
    BoundaryUnimodular(an, n2, n1);
    StraightUnimodular(an, wavelength, n1, Half(period));
    StraightUnimodular(an, wavelength, n2, Half(period));
    CellDetFromFactors(an, wavelength, n1, n2, period);
  }

  /** Every Bragg mirror matrix has determinant 1. */
  lemma DbrUnimodular(an: Analytic, wavelength: real, n1: real, n2: real, period: real, nPeriods: nat)
    requires Lawful(an) && wavelength != 0.0 && Product(n1, n2) > 0.0
    ensures CellDefined(an, wavelength, n1, n2)
    ensures Det(TmatrixDbr(an, wavelength, n1, n2, period, nPeriods)) == One
  {
    CellUnimodular(an, wavelength, n1, n2, period);
    PowerDet(UnitCell(an, wavelength, n1, n2, period), nPeriods);
  }

  /** Without index contrast the unit cell, and so the mirror, is diagonal. */
  lemma DbrUniform(an: Analytic, wavelength: real, neff: real, period: real, nPeriods: nat)
    requires CellDefined(an, wavelength, neff, neff)
    ensures IsDiagonal(TmatrixDbr(an, wavelength, neff, neff, period, nPeriods))
  {
    var hw := TmatrixStraight(an, wavelength, neff, Half(period));
    var iface := TmatrixBoundary(an, neff, neff);
    StraightEntries(an, wavelength, neff, Half(period));
    BoundaryUniform(an, neff);
    DiagonalMul(hw, iface);
    DiagonalMul(MatMul(hw, iface), MatMul(hw, iface));
    PowerDiagonal(UnitCell(an, wavelength, neff, neff, period), nPeriods);
  }

  /**
   * `tmatrix_dbr_cavity`: a left mirror, a straight cavity at index `n1`
   * and a right mirror, each mirror built from its own copy of the unit cell.
   */
  function TmatrixDbrCavity(an: Analytic, wavelength: real, n1: real, n2: real, period: real,
                            length: real, nLeft: nat, nRight: nat): Mat2
    requires CellDefined(an, wavelength, n1, n2)
  {
    var left := UnitCell(an, wavelength, n1, n2, period);
    var cavity := TmatrixStraight(an, wavelength, n1, length);
    var right := UnitCell(an, wavelength, n1, n2, period);
    MatMul(MatMul(Power(left, nLeft), cavity), Power(right, nRight))
  }

  /** The two mirrors of the cavity are the same Bragg mirror. */
  lemma CavityMirrors(an: Analytic, wavelength: real, n1: real, n2: real, period: real,
                      length: real, nLeft: nat, nRight: nat)
    requires CellDefined(an, wavelength, n1, n2)
    ensures TmatrixDbrCavity(an, wavelength, n1, n2, period, length, nLeft, nRight)
         == MatMul(MatMul(TmatrixDbr(an, wavelength, n1, n2, period, nLeft), TmatrixStraight(an, wavelength, n1, length)),
                   TmatrixDbr(an, wavelength, n1, n2, period, nRight))
  {
  }

  /** With no period on either side only the cavity section is left. */
  lemma CavityNoPeriods(an: Analytic, wavelength: real, n1: real, n2: real, period: real, length: real)
    requires CellDefined(an, wavelength, n1, n2)
    ensures TmatrixDbrCavity(an, wavelength, n1, n2, period, length, 0, 0) == TmatrixStraight(an, wavelength, n1, length)
  {
    var cell := UnitCell(an, wavelength, n1, n2, period);
    var cavity := TmatrixStraight(an, wavelength, n1, length);
    assert Power(cell, 0) == Identity;
    MulIdentity(cavity);
    assert TmatrixDbrCavity(an, wavelength, n1, n2, period, length, 0, 0) == MatMul(MatMul(Identity, cavity), Identity);
  }

  /** The cavity matrix has determinant 1. */
  lemma CavityUnimodular(an: Analytic, wavelength: real, n1: real, n2: real, period: real,
                         length: real, nLeft: nat, nRight: nat)
    requires Lawful(an) && wavelength != 0.0 && Product(n1, n2) > 0.0
    ensures CellDefined(an, wavelength, n1, n2)
    ensures Det(TmatrixDbrCavity(an, wavelength, n1, n2, period, length, nLeft, nRight)) == One
  {
    DbrUnimodular(an, wavelength, n1, n2, period, nLeft);
    DbrUnimodular(an, wavelength, n1, n2, period, nRight);
    StraightUnimodular(an, wavelength, n1, length);
    var left := TmatrixDbr(an, wavelength, n1, n2, period, nLeft);
    var cavity := TmatrixStraight(an, wavelength, n1, length);
    var right := TmatrixDbr(an, wavelength, n1, n2, period, nRight);
    DetMulOne(left, cavity);
    DetMulOne(MatMul(left, cavity), right);
  }

  lemma MulSub(x: Complex, y: Complex, z: Complex)
    ensures Mul(Sub(x, y), z) == Sub(Mul(x, z), Mul(y, z))
  {
  }

  /**
   * `smatrix`: the scattering matrix `[[s11, s12], [s21, s22]]` of a
   * transfer matrix `[[t11, t12], [t21, t22]]`, characterised by what each
   * entry gives when multiplied by `t11`.
   */
  function Smatrix(t: Mat2): (s: Mat2)
    requires t.a != Zero
    ensures Mul(s.a, t.a) == t.c
    ensures Mul(s.b, t.a) == Det(t)
    ensures Mul(s.c, t.a) == One
    ensures Mul(s.d, t.a) == Neg(t.b)
  {
    var s11 := Div(t.c, t.a);
    var q := Div(Mul(t.b, t.c), t.a);
    var s12 := Sub(t.d, q);
    var s21 := Div(One, t.a);
    var s22 := Div(Neg(t.b), t.a);
    MulSub(t.d, q, t.a);
    MulComm(t.d, t.a);
    Mat2(s11, s12, s21, s22)
  }

  /** A unimodular transfer matrix gives a reciprocal scattering matrix: `s12 == s21`. */
  lemma SmatrixReciprocal(t: Mat2)
    requires t.a != Zero && Det(t) == One
    ensures Smatrix(t).b == Smatrix(t).c
  {
    var s := Smatrix(t);
    Cancel(s.b, s.c, t.a);
  }

  /** So are the scattering matrices of the Bragg mirror and of the cavity. */
  lemma DbrReciprocal(an: Analytic, wavelength: real, n1: real, n2: real, period: real,
                      length: real, nLeft: nat, nRight: nat)
    requires Lawful(an) && wavelength != 0.0 && Product(n1, n2) > 0.0
    requires TmatrixDbr(an, wavelength, n1, n2, period, nLeft).a != Zero
    requires TmatrixDbrCavity(an, wavelength, n1, n2, period, length, nLeft, nRight).a != Zero
    ensures Smatrix(TmatrixDbr(an, wavelength, n1, n2, period, nLeft)).b
         == Smatrix(TmatrixDbr(an, wavelength, n1, n2, period, nLeft)).c
    ensures Smatrix(TmatrixDbrCavity(an, wavelength, n1, n2, period, length, nLeft, nRight)).b
         == Smatrix(TmatrixDbrCavity(an, wavelength, n1, n2, period, length, nLeft, nRight)).c
  {
    DbrUnimodular(an, wavelength, n1, n2, period, nLeft);
    CavityUnimodular(an, wavelength, n1, n2, period, length, nLeft, nRight);
    SmatrixReciprocal(TmatrixDbr(an, wavelength, n1, n2, period, nLeft));
    SmatrixReciprocal(TmatrixDbrCavity(an, wavelength, n1, n2, period, length, nLeft, nRight));
  }

  /**
   * `tmatrix_t_r`: transmission `|1 / t11|^2` and reflection
   * `|t21 / t11|^2`, which are `|s21|^2` and `|s11|^2`.
   */
  function TmatrixTR(m: Mat2): (tr: (real, real))
    requires m.a != Zero
    ensures tr.0 > 0.0 && tr.1 >= 0.0
    ensures tr.0 == AbsSquared(Smatrix(m).c) && tr.1 == AbsSquared(Smatrix(m).a)
    ensures m.c == Zero <==> tr.1 == 0.0
  {
    var t := Div(One, m.a);
    var r := Div(m.c, m.a);
    TransmissionPositive(m.a);
    ReflectionZero(m);
    (AbsSquared(t), AbsSquared(r))
  }

  lemma TransmissionPositive(x: Complex)
    requires x != Zero
    ensures AbsSquared(Div(One, x)) > 0.0
  {
    var t := Div(One, x);
    MulZero(x);
    assert Mul(t, x) == One;
    ModulusPositive(t);
  }

  lemma ReflectionZero(m: Mat2)
    requires m.a != Zero
    ensures m.c == Zero <==> AbsSquared(Div(m.c, m.a)) == 0.0
  {
    var r := Div(m.c, m.a);
    if m.c == Zero {
      DivZero(m.a);
    } else {
      MulZero(m.a);
      assert Mul(r, m.a) == m.c;
      ModulusPositive(r);
    }
  }

  /** Polynomial fit of the effective index of a 500 nm wide straight, in the wavelength in micrometres. */
  const N1Wg: real := 4.077182700600432
  const N2Wg: real := -0.982556173493906
  const N3Wg: real := -0.046366956781710

  /** The module's grating period, 317 nm, and its number of periods. */
  const Period: real := 0.000000317
  const NPeriods: nat := 200

  /** `neff0` at one wavelength (in metres). */
  function Neff0(wavelength: real): real
  {
    var um := wavelength * 1000000.0;
    N1Wg + N2Wg * um + N3Wg * Product(um, um)
  }

  /** The two indices of the grating, `neff0 -+ dn / 2`. */
  function Indices(wavelength: real, dn: real): (n: (real, real))
    ensures n.1 - n.0 == dn
    ensures n.0 + n.1 == 2.0 * Neff0(wavelength)
  {
    (Neff0(wavelength) - dn / 2.0, Neff0(wavelength) + dn / 2.0)
  }

  /** The mirror matrix at one sample of the sweep. */
  function SampleMatrix(an: Analytic, wavelength: real, dn: real, period: real): Mat2
    requires CellDefined(an, wavelength, Indices(wavelength, dn).0, Indices(wavelength, dn).1)
  {
    TmatrixDbr(an, wavelength, Indices(wavelength, dn).0, Indices(wavelength, dn).1, period, NPeriods)
  }

  /** numpy divides by nothing that is zero at this sample. */
  predicate SampleDefined(an: Analytic, wavelength: real, dn: real, period: real)
  {
    && CellDefined(an, wavelength, Indices(wavelength, dn).0, Indices(wavelength, dn).1)
    && SampleMatrix(an, wavelength, dn, period).a != Zero
  }

  /** The reflection `dbr_r` records at one wavelength, before the conversion to dB. */
  function Reflection(an: Analytic, wavelength: real, dn: real, period: real): real
    requires SampleDefined(an, wavelength, dn, period)
  {
    TmatrixTR(SampleMatrix(an, wavelength, dn, period)).1
  }

  /** Without index contrast nothing is reflected. */
  lemma ZeroContrastReflection(an: Analytic, wavelength: real, period: real)
    requires SampleDefined(an, wavelength, 0.0, period)
    ensures Reflection(an, wavelength, 0.0, period) == 0.0
  {
    var n := Indices(wavelength, 0.0);
    assert n.0 == n.1;
    DbrUniform(an, wavelength, n.0, period, NPeriods);
  }

  /**
   * `dbr_r` without the final `tmax_dB + 10 * log10(...)`: one reflection
   * per wavelength, in input order, the transmissions being collected and
   * dropped as the source does.
   */
  method DbrR(an: Analytic, wavelengths: seq<real>, dn: real, period: real) returns (reflections: seq<real>)
    requires forall i :: 0 <= i < |wavelengths| ==> SampleDefined(an, wavelengths[i], dn, period)
    ensures |reflections| == |wavelengths|
    ensures forall i :: 0 <= i < |wavelengths| ==>
      reflections[i] == Reflection(an, wavelengths[i], dn, period) && reflections[i] >= 0.0
    ensures dn == 0.0 ==> forall i :: 0 <= i < |reflections| ==> reflections[i] == 0.0
  {
    var rs: seq<real> := [];
    var ts: seq<real> := [];
    var i := 0;
    while i < |wavelengths|
      invariant 0 <= i <= |wavelengths|
      invariant |rs| == i && |ts| == i
      invariant forall j :: 0 <= j < i ==> rs[j] == Reflection(an, wavelengths[j], dn, period) && rs[j] >= 0.0
      invariant dn == 0.0 ==> forall j :: 0 <= j < i ==> rs[j] == 0.0
    {
      var wavelength := wavelengths[i];
      var n := Indices(wavelength, dn);
      var m := TmatrixDbr(an, wavelength, n.0, n.1, period, NPeriods);
      var tr := TmatrixTR(m);
      if dn == 0.0 {
        ZeroContrastReflection(an, wavelength, period);
      }
      rs := rs + [tr.1];
      ts := ts + [tr.0];
      i := i + 1;
    }
    reflections := rs;
  }
}

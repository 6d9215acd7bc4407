/**
 * 2x2 complex matrices: the `np.matmul`, `np.diag` and
 * `np.linalg.matrix_power` operations of the transfer-matrix code.
 */
module Matrices {
  import opened ComplexNumbers

  /** The matrix `[[a, b], [c, d]]`. */
  datatype Mat2 = Mat2(a: Complex, b: Complex, c: Complex, d: Complex)

  const Identity := Mat2(One, Zero, Zero, One)

  /** `np.diag([x, y])`. */
  function Diag(x: Complex, y: Complex): Mat2
  {
    Mat2(x, Zero, Zero, y)
  }

  predicate IsDiagonal(m: Mat2)
  {
    m.b == Zero && m.c == Zero
  }

  /** `np.matmul(p, q)`. */
  function MatMul(p: Mat2, q: Mat2): Mat2
  {
    Mat2(Add(Mul(p.a, q.a), Mul(p.b, q.c)), Add(Mul(p.a, q.b), Mul(p.b, q.d)),
         Add(Mul(p.c, q.a), Mul(p.d, q.c)), Add(Mul(p.c, q.b), Mul(p.d, q.d)))
  }

  function Det(m: Mat2): Complex
  {
    Sub(Mul(m.a, m.d), Mul(m.b, m.c))
  }

  /** `np.linalg.matrix_power(m, n)` for a non-negative exponent. */
  function Power(m: Mat2, n: nat): Mat2
  {
    if n == 0 then Identity else MatMul(m, Power(m, n - 1))
  }

  lemma MulIdentity(m: Mat2)
    ensures MatMul(m, Identity) == m && MatMul(Identity, m) == m
  {
    MulOne(m.a); MulOne(m.b); MulOne(m.c); MulOne(m.d);
    MulZero(m.a); MulZero(m.b); MulZero(m.c); MulZero(m.d);
  }

  lemma Entry(a: Complex, b: Complex, c: Complex, d: Complex, e: Complex, f: Complex, g: Complex, h: Complex)
    ensures Add(Mul(Add(Mul(a, b), Mul(c, d)), e), Mul(Add(Mul(a, f), Mul(c, g)), h))
         == Add(Mul(a, Add(Mul(b, e), Mul(f, h))), Mul(c, Add(Mul(d, e), Mul(g, h))))
  {
    DistribR(Mul(a, b), Mul(c, d), e);
    DistribR(Mul(a, f), Mul(c, g), h);
    DistribL(a, Mul(b, e), Mul(f, h));
    DistribL(c, Mul(d, e), Mul(g, h));
    MulAssoc(a, b, e); MulAssoc(c, d, e); MulAssoc(a, f, h); MulAssoc(c, g, h);
  }

  /** Matrix multiplication is associative. */
  lemma MatMulAssoc(p: Mat2, q: Mat2, r: Mat2)
    ensures MatMul(MatMul(p, q), r) == MatMul(p, MatMul(q, r))
  {
    Entry(p.a, q.a, p.b, q.c, r.a, q.b, q.d, r.c);
    Entry(p.a, q.a, p.b, q.c, r.b, q.b, q.d, r.d);
    Entry(p.c, q.a, p.d, q.c, r.a, q.b, q.d, r.c);
    Entry(p.c, q.a, p.d, q.c, r.b, q.b, q.d, r.d);
  }

  lemma Swap4(a: Complex, b: Complex, c: Complex, d: Complex)
    ensures Mul(Mul(a, b), Mul(c, d)) == Mul(Mul(a, c), Mul(b, d))
  {
    MulAssoc(a, b, Mul(c, d));
    MulAssoc(b, c, d);
    MulComm(b, c);
    MulAssoc(c, b, d);
    MulAssoc(a, c, Mul(b, d));
  }

  lemma Expand(a: Complex, b: Complex, c: Complex, d: Complex)
    ensures Mul(Add(a, b), Add(c, d)) == Add(Add(Mul(a, c), Mul(a, d)), Add(Mul(b, c), Mul(b, d)))
  {
    DistribR(a, b, Add(c, d));
    DistribL(a, c, d);
    DistribL(b, c, d);
  }

  /** The determinant of a product is the product of the determinants. */
  lemma DetMul(p: Mat2, q: Mat2)
    ensures Det(MatMul(p, q)) == Mul(Det(p), Det(q))
  {
    Expand(Mul(p.a, q.a), Mul(p.b, q.c), Mul(p.c, q.b), Mul(p.d, q.d));
    Expand(Mul(p.a, q.b), Mul(p.b, q.d), Mul(p.c, q.a), Mul(p.d, q.c));
    Swap4(p.a, q.a, p.c, q.b); Swap4(p.a, q.a, p.d, q.d); Swap4(p.b, q.c, p.c, q.b); Swap4(p.b, q.c, p.d, q.d);
    Swap4(p.a, q.b, p.c, q.a); Swap4(p.a, q.b, p.d, q.c); Swap4(p.b, q.d, p.c, q.a); Swap4(p.b, q.d, p.d, q.c);
    MulComm(q.a, q.b); MulComm(q.c, q.b); MulComm(q.d, q.a); MulComm(q.d, q.c);
    MulComm(p.b, p.c);
  }

  lemma DetIdentity()
    ensures Det(Identity) == One
  {
  }

  /** A diagonal matrix has the product of its entries as determinant. */
  lemma DiagDet(x: Complex, y: Complex)
    ensures Det(Diag(x, y)) == Mul(x, y)
  {
    MulZero(Zero);
    assert Mul(Zero, Zero) == Zero;
  }

  /** A product of unimodular matrices is unimodular. */
  lemma DetMulOne(p: Mat2, q: Mat2)
    requires Det(p) == One && Det(q) == One
    ensures Det(MatMul(p, q)) == One
  {
    DetMul(p, q);
    MulOne(One);
  }

  /** A product of diagonal matrices is diagonal, entry by entry. */
  lemma DiagonalMul(p: Mat2, q: Mat2)
    requires IsDiagonal(p) && IsDiagonal(q)
    ensures MatMul(p, q) == Diag(Mul(p.a, q.a), Mul(p.d, q.d))
  {
    MulZero(p.a); MulZero(p.d); MulZero(q.a); MulZero(q.d);
  }

  /** `m ** (n + k) == m ** n @ m ** k`. */
  lemma {:induction false} PowerAdd(m: Mat2, n: nat, k: nat)
    ensures Power(m, n + k) == MatMul(Power(m, n), Power(m, k))
  {
    if n == 0 {
      MulIdentity(Power(m, k));
    } else {
      PowerAdd(m, n - 1, k);
      MatMulAssoc(m, Power(m, n - 1), Power(m, k));
    }
  }

  /** Powers of a unimodular matrix are unimodular. */
  lemma {:induction false} PowerDet(m: Mat2, n: nat)
    requires Det(m) == One
    ensures Det(Power(m, n)) == One
  {
    if n == 0 {
      DetIdentity();
    } else {
      var rest := Power(m, n - 1);
      PowerDet(m, n - 1);
      DetMulOne(m, rest);
      assert Power(m, n) == MatMul(m, rest);
    }
  }

  /** Powers of a diagonal matrix are diagonal. */
  lemma {:induction false} PowerDiagonal(m: Mat2, n: nat)
    requires IsDiagonal(m)
    ensures IsDiagonal(Power(m, n))
  {
    if n > 0 {
      PowerDiagonal(m, n - 1);
      DiagonalMul(m, Power(m, n - 1));
    }
  }
}

/** Complex numbers over exact reals, and finite sums of them. */
module ComplexSums {

  datatype Complex = Complex(re: real, im: real)

  const ZERO := Complex(0.0, 0.0)
  const ONE := Complex(1.0, 0.0)

  function Add(a: Complex, b: Complex): Complex { Complex(a.re + b.re, a.im + b.im) }

  function Sub(a: Complex, b: Complex): Complex { Complex(a.re - b.re, a.im - b.im) }

  function Mul(a: Complex, b: Complex): Complex {
    Complex(a.re * b.re - a.im * b.im, a.re * b.im + a.im * b.re)
  }

  function Conj(a: Complex): Complex { Complex(a.re, 0.0 - a.im) }

  function Neg(a: Complex): Complex { Complex(0.0 - a.re, 0.0 - a.im) }

  function Scale(r: real, a: Complex): Complex { Complex(r * a.re, r * a.im) }

  lemma MulComm(a: Complex, b: Complex)
    ensures Mul(a, b) == Mul(b, a)
  {
  }

  lemma MulAssoc(a: Complex, b: Complex, c: Complex)
    ensures Mul(Mul(a, b), c) == Mul(a, Mul(b, c))
  {
    var x, y := Mul(Mul(a, b), c), Mul(a, Mul(b, c));
    assert x.re == a.re * b.re * c.re - a.im * b.im * c.re - a.re * b.im * c.im - a.im * b.re * c.im;
    assert y.re == a.re * b.re * c.re - a.re * b.im * c.im - a.im * b.re * c.im - a.im * b.im * c.re;
    assert x.im == a.re * b.re * c.im - a.im * b.im * c.im + a.re * b.im * c.re + a.im * b.re * c.re;
    assert y.im == a.re * b.re * c.im + a.re * b.im * c.re + a.im * b.re * c.re - a.im * b.im * c.im;
  }

  lemma MulUnits(a: Complex)
    ensures Mul(a, ONE) == a && Mul(ONE, a) == a
    ensures Mul(a, ZERO) == ZERO && Mul(ZERO, a) == ZERO
    ensures Mul(a, Neg(ONE)) == Neg(a)
  {
  }

  lemma ConjMul(a: Complex, b: Complex)
    ensures Conj(Mul(a, b)) == Mul(Conj(a), Conj(b))
    ensures Conj(Conj(a)) == a
  {
  }

  /** `f(0) + ... + f(n - 1)`. */
  function Sum(f: nat -> Complex, n: nat): Complex
  {
    if n == 0 then ZERO else Add(Sum(f, n - 1), f(n - 1))
  }

  lemma {:induction false} SumSame(f: nat -> Complex, g: nat -> Complex, n: nat)
    requires forall k: nat :: k < n ==> f(k) == g(k)
    ensures Sum(f, n) == Sum(g, n)
  {
    if n > 0 {
      SumSame(f, g, n - 1);
    }
  }

  lemma {:induction false} SumAdd(f: nat -> Complex, g: nat -> Complex, h: nat -> Complex, n: nat)
    requires forall k: nat :: k < n ==> h(k) == Add(f(k), g(k))
    ensures Sum(h, n) == Add(Sum(f, n), Sum(g, n))
  {
    if n > 0 {
      SumAdd(f, g, h, n - 1);
    }
  }

  lemma {:induction false} SumMul(c: Complex, f: nat -> Complex, h: nat -> Complex, n: nat)
    requires forall k: nat :: k < n ==> h(k) == Mul(c, f(k))
    ensures Sum(h, n) == Mul(c, Sum(f, n))
  {
    if n == 0 {
      MulUnits(c);
    } else {
      SumMul(c, f, h, n - 1);
    }
  }

  lemma {:induction false} SumConj(f: nat -> Complex, h: nat -> Complex, n: nat)
    requires forall k: nat :: k < n ==> h(k) == Conj(f(k))
    ensures Sum(h, n) == Conj(Sum(f, n))
  {
    if n > 0 {
      SumConj(f, h, n - 1);
    }
  }

  lemma {:induction false} SumZero(f: nat -> Complex, n: nat)
    requires forall k: nat :: k < n ==> f(k) == ZERO
    ensures Sum(f, n) == ZERO
  {
    if n > 0 {
      SumZero(f, n - 1);
    }
  }

  /** A sum with a single term that is not zero. */
  lemma {:induction false} SumSingle(f: nat -> Complex, n: nat, j: nat)
    requires j < n && forall k: nat :: k < n && k != j ==> f(k) == ZERO
    ensures Sum(f, n) == f(j)
  {
    if j == n - 1 {
      SumZero(f, n - 1);
    } else {
      SumSingle(f, n - 1, j);
    }
  }

  function RowOf(f: (nat, nat) -> Complex, j: nat): nat -> Complex { (k: nat) => f(j, k) }

  function ColumnOf(f: (nat, nat) -> Complex, k: nat): nat -> Complex { (j: nat) => f(j, k) }

  function RowSums(f: (nat, nat) -> Complex, m: nat): nat -> Complex { (j: nat) => Sum(RowOf(f, j), m) }

  function ColumnSums(f: (nat, nat) -> Complex, n: nat): nat -> Complex { (k: nat) => Sum(ColumnOf(f, k), n) }

  /** Exchanging two summations. */
  lemma {:induction false} SumSwap(f: (nat, nat) -> Complex, n: nat, m: nat)
    ensures Sum(RowSums(f, m), n) == Sum(ColumnSums(f, n), m)
  {
    if n == 0 {
      SumZero(ColumnSums(f, 0), m);
    } else {
      SumSwap(f, n - 1, m);
      SumAdd(ColumnSums(f, n - 1), RowOf(f, n - 1), ColumnSums(f, n), m);
    }
  }

  /** The second half of a sum by itself. */
  lemma {:induction false} SumHalves(f: nat -> Complex, g: nat -> Complex, m: nat, n: nat)
    requires forall k: nat :: k < n ==> g(k) == f(m + k)
    ensures Sum(f, m + n) == Add(Sum(f, m), Sum(g, n))
  {
    if n > 0 {
      SumHalves(f, g, m, n - 1);
    }
  }

  /** Even and odd positions apart. */
  lemma {:induction false} SumEvenOdd(f: nat -> Complex, even: nat -> Complex, odd: nat -> Complex, m: nat)
    requires forall k: nat :: k < m ==> even(k) == f(2 * k) && odd(k) == f(2 * k + 1)
    ensures Sum(f, 2 * m) == Add(Sum(even, m), Sum(odd, m))
  {
    if m > 0 {
      SumEvenOdd(f, even, odd, m - 1);
      assert even(m - 1) == f(2 * m - 2) && odd(m - 1) == f(2 * m - 1);
    }
  }

}

/** The in-place Cooley-Tukey transform and its inverse.

    The factors `polar(1, -2 pi k / N)` are a parameter `w(k, N)`; `Twiddles` states the
    laws of those points of the unit circle that the proofs use. */
module Fft {
  import opened ComplexSums
  import opened Division

  type Factors = (nat, nat) -> Complex

  predicate ProductLaw(w: Factors, j: nat, k: nat, n: nat) { w(j + k, n) == Mul(w(j, n), w(k, n)) }

  predicate DoubleLaw(w: Factors, k: nat, n: nat) { w(2 * k, 2 * n) == w(k, n) }

  predicate CircleLaw(w: Factors, k: nat, n: nat) { Mul(w(k, n), Conj(w(k, n))) == ONE }

  predicate AxisLaw(w: Factors, n: nat) { w(0, n) == ONE && w(n, 2 * n) == Neg(ONE) }

  ghost predicate Twiddles(w: Factors) {
    && (forall n: nat :: n > 0 ==> AxisLaw(w, n))
    && (forall j: nat, k: nat, n: nat :: n > 0 ==> ProductLaw(w, j, k, n))
    && (forall k: nat, n: nat :: n > 0 ==> DoubleLaw(w, k, n))
    && (forall k: nat, n: nat :: n > 0 ==> CircleLaw(w, k, n))
  }

  // ----- the program -----

  /** Every second element from `first` on, half the length in number. */
  function Slice(x: seq<Complex>, first: nat): (r: seq<Complex>)
    requires first <= 1
    ensures |r| == |x| / 2
  {
    seq(|x| / 2, k requires 0 <= k < |x| / 2 => x[first + 2 * k])
  }

  /** What the butterfly loop leaves at position `k`; an odd last element stays. */
  function Butterfly(w: Factors, x: seq<Complex>, even: seq<Complex>, odd: seq<Complex>, k: nat): Complex
    requires |even| == |odd| == |x| / 2 && k < |x|
  {
    var h := |x| / 2;
    if k < h then Add(even[k], Mul(w(k, |x|), odd[k]))
    else if k < 2 * h then Sub(even[k - h], Mul(w(k - h, |x|), odd[k - h]))
    else x[k]
  }

  function Transform(w: Factors, x: seq<Complex>): (r: seq<Complex>)
    ensures |r| == |x|
    decreases |x|
  {
    if |x| <= 1 then x
    else
      var even, odd := Transform(w, Slice(x, 0)), Transform(w, Slice(x, 1));
      seq(|x|, k requires 0 <= k < |x| => Butterfly(w, x, even, odd, k))
  }

  /** A new array holding a slice. */
  method CopySlice(x: array<Complex>, first: nat) returns (r: array<Complex>)
    requires first <= 1
    ensures fresh(r) && r[..] == Slice(x[..], first)
  {
    r := new Complex[x.Length / 2](k requires 0 <= k < x.Length / 2 reads x => x[first + 2 * k]);
  }

  /** The butterfly loop. */
  method Combine(w: Factors, x: array<Complex>, even: array<Complex>, odd: array<Complex>)
    requires even != x && odd != x && even.Length == odd.Length == x.Length / 2
    modifies x
    ensures forall i :: 0 <= i < x.Length ==> x[i] == Butterfly(w, old(x[..]), even[..], odd[..], i)
  {
    var n := x.Length;
    ghost var before, e, o := x[..], even[..], odd[..];
    for k := 0 to n / 2
      invariant forall i :: 0 <= i < k ==> x[i] == Butterfly(w, before, e, o, i)
      invariant forall i :: n / 2 <= i < n / 2 + k ==> x[i] == Butterfly(w, before, e, o, i)
      invariant forall i :: 0 <= i < n && !(0 <= i < k) && !(n / 2 <= i < n / 2 + k) ==> x[i] == before[i]
    {
      hide Mul, Add, Sub;
      var t := Mul(w(k, n), odd[k]);
      x[k] := Add(even[k], t);
      x[k + n / 2] := Sub(even[k], t);
      assert before[k + n / 2] == before[k + n / 2];
    }
  }

  method FftInPlace(w: Factors, x: array<Complex>)
    modifies x
    ensures x[..] == Transform(w, old(x[..]))
    decreases x.Length
  {
    hide Butterfly, Slice;
    if x.Length <= 1 {
      return;
    }
    var even := CopySlice(x, 0);
    var odd := CopySlice(x, 1);
    FftInPlace(w, even);
    FftInPlace(w, odd);
    Combine(w, x, even, odd);
  }

  function ConjAll(x: seq<Complex>): (r: seq<Complex>)
    ensures |r| == |x|
  {
    seq(|x|, k requires 0 <= k < |x| => Conj(x[k]))
  }

  function Inverse(w: Factors, x: seq<Complex>): (r: seq<Complex>)
    ensures |r| == |x|
  {
    var y := ConjAll(Transform(w, ConjAll(x)));
    seq(|x|, k requires 0 <= k < |x| => Scale(1.0 / |x| as real, y[k]))
  }

  method ConjInPlace(x: array<Complex>)
    modifies x
    ensures x[..] == ConjAll(old(x[..]))
  {
    for k := 0 to x.Length
      invariant forall i :: 0 <= i < k ==> x[i] == Conj(old(x[i]))
      invariant forall i :: k <= i < x.Length ==> x[i] == old(x[i])
    {
      x[k] := Conj(x[k]);
    }
  }

  method IfftInPlace(w: Factors, x: array<Complex>)
    modifies x
    ensures x[..] == Inverse(w, old(x[..]))
  {
    ConjInPlace(x);
    FftInPlace(w, x);
    ConjInPlace(x);
    ghost var y := x[..];
    for k := 0 to x.Length
      invariant forall i :: 0 <= i < k ==> x[i] == Scale(1.0 / x.Length as real, y[i])
      invariant forall i :: k <= i < x.Length ==> x[i] == y[i]
    {
      x[k] := Scale(1.0 / x.Length as real, x[k]);
    }
  }

  // ----- the transform is the discrete Fourier transform -----

  function Term(w: Factors, x: seq<Complex>, k: nat, n: nat): nat -> Complex
  {
    j => if 0 <= j < |x| then Mul(x[j], w(j * k, n)) else ZERO
  }

  /** Coefficient `k`: the sum of `x[j] * w(jk, n)`. */
  function Coefficient(w: Factors, x: seq<Complex>, k: nat): Complex
  {
    Sum(Term(w, x, k, |x|), |x|)
  }

  function Dft(w: Factors, x: seq<Complex>): seq<Complex>
  {
    seq(|x|, k requires 0 <= k < |x| => Coefficient(w, x, k))
  }

  predicate PowerOfTwo(n: nat) { n == 1 || (n > 0 && n % 2 == 0 && PowerOfTwo(n / 2)) }

  lemma EvenFactor(w: Factors, j: nat, k: nat, h: nat)
    requires Twiddles(w) && h > 0
    ensures w(2 * j * k, 2 * h) == w(j * k, h)
    ensures w((2 * j + 1) * k, 2 * h) == Mul(w(k, 2 * h), w(j * k, h))
  {
    var p := j * k;
    assert 2 * j * k == 2 * p && (2 * j + 1) * k == k + 2 * p;
    assert DoubleLaw(w, p, h) && ProductLaw(w, k, 2 * p, 2 * h);
  }

  /** Splitting a coefficient by even and odd positions. */
  lemma Split(w: Factors, x: seq<Complex>, k: nat)
    requires Twiddles(w) && |x| % 2 == 0 && |x| > 0
    ensures Coefficient(w, x, k) ==
            Add(Coefficient(w, Slice(x, 0), k), Mul(w(k, |x|), Coefficient(w, Slice(x, 1), k)))
  {
    hide Twiddles, Mul, Add;
    var h := |x| / 2;
    var even, odd := Slice(x, 0), Slice(x, 1);
    var f := Term(w, x, k, |x|);
    var e := Term(w, even, k, h);
    var o := Term(w, odd, k, h);
    var shifted := (j: nat) => Mul(w(k, |x|), o(j));
    forall j: nat | j < h
      ensures e(j) == f(2 * j) && shifted(j) == f(2 * j + 1)
    {
      EvenFactor(w, j, k, h);
      OddTerm(x[2 * j + 1], w(k, |x|), w(j * k, h));
    }
    SumEvenOdd(f, e, shifted, h);
    SumMul(w(k, |x|), o, shifted, h);
  }

  lemma OddTerm(x: Complex, a: Complex, b: Complex)
    ensures Mul(x, Mul(a, b)) == Mul(a, Mul(x, b))
  {
    MulAssoc(x, a, b);
    MulAssoc(a, x, b);
    MulComm(x, a);
  }

  lemma OneTurn(w: Factors, n: nat)
    requires Twiddles(w) && n > 0
    ensures w(n, n) == ONE
  {
    assert DoubleLaw(w, n, n) && ProductLaw(w, n, n, 2 * n) && AxisLaw(w, n);
    assert n + n == 2 * n;
  }

  lemma NextTurn(w: Factors, p: nat, n: nat)
    requires Twiddles(w) && n > 0 && w(p, n) == ONE
    ensures w(p + n, n) == ONE
  {
    OneTurn(w, n);
    assert ProductLaw(w, p, n, n);
  }

  /** Whole turns are one. */
  lemma {:induction false} FullTurn(w: Factors, j: nat, n: nat)
    requires Twiddles(w) && n > 0
    ensures w(j * n, n) == ONE
  {
    if j == 0 {
      assert AxisLaw(w, n);
    } else {
      hide Twiddles;
      FullTurn(w, j - 1, n);
      NextTurn(w, (j - 1) * n, n);
      assert (j - 1) * n + n == j * n;
    }
  }

  lemma TurnedTerm(w: Factors, x: Complex, j: nat, k: nat, n: nat)
    requires Twiddles(w) && n > 0
    ensures Mul(x, w(j * (k + n), n)) == Mul(x, w(j * k, n))
  {
    var p, q := j * k, j * n;
    assert j * (k + n) == p + q;
    FullTurn(w, j, n);
    assert ProductLaw(w, p, q, n);
    MulUnits(w(p, n));
  }

  /** Coefficients repeat with the length. */
  lemma Periodic(w: Factors, x: seq<Complex>, k: nat)
    requires Twiddles(w) && |x| > 0
    ensures Coefficient(w, x, k + |x|) == Coefficient(w, x, k)
  {
    hide Twiddles, Mul;
    var n := |x|;
    forall j: nat | j < n
      ensures Term(w, x, k + n, n)(j) == Term(w, x, k, n)(j)
    {
      TurnedTerm(w, x[j], j, k, n);
    }
    SumSame(Term(w, x, k + n, n), Term(w, x, k, n), n);
  }

  /** The factor changes sign half way. */
  lemma HalfTurn(w: Factors, k: nat, n: nat)
    requires Twiddles(w) && n > 0
    ensures w(k + n, 2 * n) == Neg(w(k, 2 * n))
  {
    assert ProductLaw(w, k, n, 2 * n) && AxisLaw(w, n);
    MulUnits(w(k, 2 * n));
  }

  lemma SubIsAddNeg(a: Complex, t: Complex, b: Complex)
    ensures Add(a, Mul(Neg(t), b)) == Sub(a, Mul(t, b))
  {
  }

  /** One position, from the coefficients of the two halves. */
  lemma ButterflyIsCoefficient(w: Factors, x: seq<Complex>, k: nat)
    requires Twiddles(w) && |x| % 2 == 0 && k < |x|
    ensures Butterfly(w, x, Dft(w, Slice(x, 0)), Dft(w, Slice(x, 1)), k) == Coefficient(w, x, k)
  {
    hide Twiddles, Mul, Add, Sub, Slice, Sum, Term, Coefficient;
    var h := |x| / 2;
    var even, odd := Slice(x, 0), Slice(x, 1);
    Split(w, x, k);
    if k >= h {
      Periodic(w, even, k - h);
      Periodic(w, odd, k - h);
      HalfTurn(w, k - h, h);
      assert k - h + h == k && 2 * h == |x|;
      SubIsAddNeg(Coefficient(w, even, k - h), w(k - h, |x|), Coefficient(w, odd, k - h));
    }
  }

  lemma FactorZero(w: Factors, n: nat)
    requires Twiddles(w) && n > 0
    ensures w(0, n) == ONE
  {
    assert AxisLaw(w, n);
  }

  lemma SingleCoefficient(w: Factors, x: seq<Complex>)
    requires Twiddles(w) && |x| == 1
    ensures Dft(w, x) == x
  {
    hide Mul, Twiddles, Sum;
    FactorZero(w, 1);
    MulUnits(x[0]);
    assert Term(w, x, 0, 1)(0) == x[0] by { assert 0 * 0 == 0; }
    SumSingle(Term(w, x, 0, 1), 1, 0);
    assert Dft(w, x)[0] == x[0];
  }

  /** For every power-of-two length, the program leaves the coefficient sums. */
  lemma {:induction false} TransformIsDft(w: Factors, x: seq<Complex>)
    requires Twiddles(w) && PowerOfTwo(|x|)
    ensures Transform(w, x) == Dft(w, x)
    decreases |x|
  {
    hide Twiddles, Butterfly, Coefficient;
    if |x| == 1 {
      SingleCoefficient(w, x);
    } else {
      TransformIsDft(w, Slice(x, 0));
      TransformIsDft(w, Slice(x, 1));
      forall k | 0 <= k < |x|
        ensures Transform(w, x)[k] == Dft(w, x)[k]
      {
        ButterflyIsCoefficient(w, x, k);
      }
    }
  }

  // ----- and only for powers of two -----

  function Unit(n: nat, j: nat): seq<Complex>
  {
    seq(n, i => if i == j then ONE else ZERO)
  }

  function Zeros(n: nat): seq<Complex> { seq(n, _ => ZERO) }

  lemma FirstPosition(w: Factors, x: seq<Complex>)
    requires |x| > 1
    ensures Transform(w, x)[0] ==
            Add(Transform(w, Slice(x, 0))[0], Mul(w(0, |x|), Transform(w, Slice(x, 1))[0]))
  {
  }

  lemma AddZeros(c: Complex)
    ensures Add(ZERO, Mul(c, ZERO)) == ZERO
  {
  }

  lemma {:induction false} TransformZeros(w: Factors, n: nat)
    requires n > 0
    ensures Transform(w, Zeros(n))[0] == ZERO
  {
    hide Add, Mul, Transform;
    if n > 1 {
      assert Slice(Zeros(n), 0) == Zeros(n / 2) && Slice(Zeros(n), 1) == Zeros(n / 2);
      TransformZeros(w, n / 2);
      FirstPosition(w, Zeros(n));
      AddZeros(w(0, n));
    } else {
      TransformOne(w, Zeros(n));
    }
  }

  lemma TransformOne(w: Factors, x: seq<Complex>)
    requires |x| == 1
    ensures Transform(w, x) == x
  {
  }

  /** Some input position never reaches coefficient zero. */
  lemma {:induction false} LostPosition(w: Factors, n: nat) returns (j: nat)
    requires n > 0 && !PowerOfTwo(n)
    ensures j < n && Transform(w, Unit(n, j))[0] == ZERO
    decreases n
  {
    hide Add, Mul, Transform;
    var h := n / 2;
    TransformZeros(w, h);
    if n % 2 == 1 {
      j := n - 1;
      assert Slice(Unit(n, j), 0) == Zeros(h) && Slice(Unit(n, j), 1) == Zeros(h);
    } else {
      var j' := LostPosition(w, h);
      j := 2 * j';
      assert Slice(Unit(n, j), 0) == Unit(h, j') && Slice(Unit(n, j), 1) == Zeros(h);
    }
    FirstPosition(w, Unit(n, j));
    AddZeros(w(0, n));
  }

  lemma UnitCoefficient(w: Factors, n: nat, j: nat)
    requires Twiddles(w) && j < n
    ensures Coefficient(w, Unit(n, j), 0) == ONE
  {
    assert AxisLaw(w, n);
    hide Twiddles, Mul;
    var f := Term(w, Unit(n, j), 0, n);
    forall k: nat | k < n
      ensures f(k) == if k == j then ONE else ZERO
    {
      assert k * 0 == 0;
      MulUnits(w(0, n));
    }
    SumSingle(f, n, j);
  }

  /** The program computes the discrete Fourier transform of every input of a given
      length exactly when the length is a power of two. */
  lemma TransformIsDftExactly(w: Factors, n: nat)
    requires Twiddles(w) && n > 0
    ensures (forall x: seq<Complex> :: |x| == n ==> Transform(w, x) == Dft(w, x)) <==> PowerOfTwo(n)
  {
    hide Twiddles, Transform;
    if PowerOfTwo(n) {
      forall x: seq<Complex> | |x| == n
        ensures Transform(w, x) == Dft(w, x)
      {
        TransformIsDft(w, x);
      }
    } else {
      var j := LostPosition(w, n);
      var x := Unit(n, j);
      UnitCoefficient(w, n, j);
      assert Dft(w, x)[0] == ONE;
      assert Transform(w, x) != Dft(w, x);
    }
  }

  // ----- the inverse -----

  function Turns(w: Factors, m: nat, n: nat): nat -> Complex
  {
    k => if 0 <= k then w(m * k, n) else ZERO
  }

  /** Both halves of an even frequency's row are the row of half the length. */
  lemma EvenFrequency(w: Factors, m: nat, h: nat)
    requires Twiddles(w) && h > 0
    ensures Sum(Turns(w, 2 * m, 2 * h), 2 * h) == Add(Sum(Turns(w, m, h), h), Sum(Turns(w, m, h), h))
  {
    var f, g := Turns(w, 2 * m, 2 * h), Turns(w, m, h);
    forall k: nat | k < h
      ensures f(k) == g(k) && f(h + k) == g(k)
    {
      var p, q := m * k, m * h;
      assert 2 * m * k == 2 * p && 2 * m * (h + k) == 2 * (p + q);
      assert DoubleLaw(w, p, h) && DoubleLaw(w, p + q, h) && ProductLaw(w, p, q, h);
      FullTurn(w, m, h);
      MulUnits(w(p, h));
    }
    SumSame(f, g, h);
    SumHalves(f, g, h, h);
  }

  lemma CancelNeg(a: Complex)
    ensures Add(a, Mul(Neg(ONE), a)) == ZERO
  {
  }

  /** The halves of an odd frequency's row cancel. */
  lemma OddFrequency(w: Factors, m: nat, h: nat)
    requires Twiddles(w) && h > 0
    ensures Sum(Turns(w, 2 * m + 1, 2 * h), 2 * h) == ZERO
  {
    var f := Turns(w, 2 * m + 1, 2 * h);
    var g := (k: nat) => Mul(Neg(ONE), f(k));
    forall k: nat | k < h
      ensures g(k) == f(h + k)
    {
      var p, q := (2 * m + 1) * k, m * h;
      assert (2 * m + 1) * (h + k) == (p + h) + 2 * q;
      assert ProductLaw(w, p + h, 2 * q, 2 * h) && DoubleLaw(w, q, h) && ProductLaw(w, p, h, 2 * h) && AxisLaw(w, h);
      FullTurn(w, m, h);
      MulUnits(w(p + h, 2 * h));
      MulComm(w(p, 2 * h), Neg(ONE));
    }
    SumMul(Neg(ONE), f, g, h);
    SumHalves(f, g, h, h);
    CancelNeg(Sum(f, h));
  }

  function Count(n: nat): Complex { Complex(n as real, 0.0) }

  /** Orthogonality: a row of turns sums to the length or to zero. */
  lemma {:induction false} RowSum(w: Factors, m: nat, n: nat)
    requires Twiddles(w) && PowerOfTwo(n)
    ensures Sum(Turns(w, m, n), n) == if m % n == 0 then Count(n) else ZERO
    decreases n
  {
    if n == 1 {
      assert AxisLaw(w, 1) && m * 0 == 0;
      SumSingle(Turns(w, m, 1), 1, 0);
    } else {
      hide Twiddles, Turns, Sum, Add, Count;
      var h, q := n / 2, m / 2;
      assert n == 2 * h;
      if m % 2 == 0 {
        assert m == 2 * q;
        EvenFrequency(w, q, h);
        RowSum(w, q, h);
        HalfMod(q, h);
      } else {
        assert m == 2 * q + 1;
        OddFrequency(w, q, h);
        OddMod(q, h);
      }
    }
  }

  lemma HalfMod(q: nat, h: nat)
    requires h > 0
    ensures 2 * q % (2 * h) == 0 <==> q % h == 0
  {
    var d, r := q / h, q % h;
    assert q == d * h + r;
    assert 2 * q == d * (2 * h) + 2 * r;
    DivMod(2 * q, 2 * h, d, 2 * r);
  }

  lemma OddMod(q: nat, h: nat)
    requires h > 0
    ensures (2 * q + 1) % (2 * h) != 0
  {
    var d, r := q / h, q % h;
    assert q == d * h + r;
    assert 2 * q + 1 == d * (2 * h) + (2 * r + 1);
    DivMod(2 * q + 1, 2 * h, d, 2 * r + 1);
  }

  /** A product with a conjugate is one turn by the difference. */
  lemma Difference(w: Factors, j: nat, l: nat, k: nat, n: nat)
    requires Twiddles(w) && n > 0
    ensures l <= j ==> Mul(w(j * k, n), Conj(w(l * k, n))) == w((j - l) * k, n)
    ensures j <= l ==> Mul(w(j * k, n), Conj(w(l * k, n))) == Conj(w((l - j) * k, n))
  {
    hide Mul, Conj;
    var a, b := w(j * k, n), w(l * k, n);
    if l <= j {
      var d := w((j - l) * k, n);
      assert j * k == (j - l) * k + l * k;
      assert ProductLaw(w, (j - l) * k, l * k, n) && CircleLaw(w, l * k, n);
      MulAssoc(d, b, Conj(b));
      MulUnits(d);
    }
    if j <= l {
      var d := w((l - j) * k, n);
      assert l * k == (l - j) * k + j * k;
      assert ProductLaw(w, (l - j) * k, j * k, n) && CircleLaw(w, j * k, n);
      ConjMul(d, a);
      MulComm(Conj(d), Conj(a));
      MulAssoc(a, Conj(a), Conj(d));
      MulUnits(Conj(d));
    }
  }

  /** The product of two rows, one of them conjugate. */
  function Cross(w: Factors, j: nat, l: nat, n: nat): nat -> Complex
  {
    k => if 0 <= k then Mul(w(j * k, n), Conj(w(l * k, n))) else ZERO
  }

  lemma CrossSum(w: Factors, j: nat, l: nat, n: nat)
    requires Twiddles(w) && PowerOfTwo(n) && j < n && l < n
    ensures Sum(Cross(w, j, l, n), n) == if j == l then Count(n) else ZERO
  {
    hide Twiddles, Mul;
    forall k: nat | k < n
      ensures l <= j ==> Cross(w, j, l, n)(k) == Turns(w, j - l, n)(k)
      ensures j <= l ==> Cross(w, j, l, n)(k) == Conj(Turns(w, l - j, n)(k))
    {
      Difference(w, j, l, k, n);
    }
    if l <= j {
      SumSame(Cross(w, j, l, n), Turns(w, j - l, n), n);
      RowSum(w, j - l, n);
      DivMod(j - l, n, 0, j - l);
    } else {
      SumConj(Turns(w, l - j, n), Cross(w, j, l, n), n);
      RowSum(w, l - j, n);
      DivMod(l - j, n, 0, l - j);
    }
  }

  lemma ScaleBack(n: nat, x: Complex)
    requires n > 0
    ensures Scale(1.0 / n as real, Mul(x, Count(n))) == x
  {
    var r := n as real;
    assert 1.0 / r * (x.re * r) == x.re && 1.0 / r * (x.im * r) == x.im;
  }

  /** The terms of the way there and back: input position `j`, frequency `k`. */
  function Table(w: Factors, x: seq<Complex>, l: nat): (nat, nat) -> Complex
  {
    (j: nat, k: nat) => if j < |x| then Mul(x[j], Cross(w, j, l, |x|)(k)) else ZERO
  }

  /** The columns are the conjugate terms of the way back. */
  lemma ColumnSumsAre(w: Factors, x: seq<Complex>, l: nat, k: nat)
    requires k < |x|
    ensures ColumnSums(Table(w, x, l), |x|)(k) == Conj(Term(w, ConjAll(Dft(w, x)), l, |x|)(k))
  {
    hide Mul, Conj, Cross;
    ColumnIsTerm(w, x, l, k, ColumnOf(Table(w, x, l), k));
  }

  /** The rows vanish but for row `l`. */
  lemma RowSumsAre(w: Factors, x: seq<Complex>, l: nat, j: nat)
    requires Twiddles(w) && PowerOfTwo(|x|) && l < |x| && j < |x|
    ensures RowSums(Table(w, x, l), |x|)(j) == if j == l then Mul(x[l], Count(|x|)) else ZERO
  {
    hide Twiddles, Mul, Conj, Count, Cross, PowerOfTwo;
    SumMul(x[j], Cross(w, j, l, |x|), RowOf(Table(w, x, l), j), |x|);
    CrossSum(w, j, l, |x|);
    MulUnits(x[j]);
  }

  /** The conjugate coefficient of the conjugates, as a double sum over the input. */
  lemma BackCoefficient(w: Factors, x: seq<Complex>, l: nat)
    requires Twiddles(w) && PowerOfTwo(|x|) && l < |x|
    ensures Conj(Coefficient(w, ConjAll(Dft(w, x)), l)) == Mul(x[l], Count(|x|))
  {
    hide Twiddles, Mul, Conj, Count, Sum, RowSums, ColumnSums, Table, Term, ConjAll, PowerOfTwo;
    var n := |x|;
    var back := Term(w, ConjAll(Dft(w, x)), l, n);
    forall k: nat | k < n
      ensures ColumnSums(Table(w, x, l), |x|)(k) == Conj(back(k))
    {
      ColumnSumsAre(w, x, l, k);
    }
    SumConj(back, ColumnSums(Table(w, x, l), |x|), n);
    forall j: nat | j < n
      ensures RowSums(Table(w, x, l), |x|)(j) == if j == l then Mul(x[l], Count(n)) else ZERO
    {
      RowSumsAre(w, x, l, j);
    }
    SumSingle(RowSums(Table(w, x, l), |x|), n, l);
    SumSwap(Table(w, x, l), n, n);
    assert Coefficient(w, ConjAll(Dft(w, x)), l) == Sum(back, n) by { SameLength(w, x); }
  }

  lemma SameLength(w: Factors, x: seq<Complex>)
    ensures |ConjAll(Dft(w, x))| == |x|
  {
  }

  lemma ConjTerm(a: Complex, t: Complex)
    ensures Conj(Mul(Conj(a), t)) == Mul(Conj(t), a)
  {
    ConjMul(Conj(a), t);
    ConjMul(a, a);
    MulComm(a, Conj(t));
  }

  lemma MoveFactor(x: Complex, a: Complex, c: Complex)
    ensures Mul(x, Mul(a, c)) == Mul(c, Mul(x, a))
  {
    MulAssoc(x, a, c);
    MulComm(Mul(x, a), c);
  }

  /** One column: the coefficient times a conjugate factor. */
  lemma ColumnIsTerm(w: Factors, x: seq<Complex>, l: nat, k: nat, column: nat -> Complex)
    requires k < |x|
    requires forall j: nat :: j < |x| ==> column(j) == Mul(x[j], Cross(w, j, l, |x|)(k))
    ensures Sum(column, |x|) == Conj(Term(w, ConjAll(Dft(w, x)), l, |x|)(k))
  {
    hide Mul, Conj, Sum, ConjAll, Dft;
    var n := |x|;
    var c := Conj(w(l * k, n));
    var terms := Term(w, x, k, n);
    forall j: nat | j < n
      ensures column(j) == Mul(c, terms(j))
    {
      MoveFactor(x[j], w(j * k, n), c);
    }
    SumMul(c, terms, column, n);
    ConjTerm(Coefficient(w, x, k), w(l * k, n));
    BackTerm(w, x, l, k);
  }

  lemma BackTerm(w: Factors, x: seq<Complex>, l: nat, k: nat)
    requires k < |x|
    ensures Term(w, ConjAll(Dft(w, x)), l, |x|)(k) == Mul(Conj(Coefficient(w, x, k)), w(l * k, |x|))
  {
    hide Mul, Conj, Sum;
    assert l * k == k * l;
  }

  /** The inverse round trip, for every power-of-two length. */
  lemma InverseUndoesTransform(w: Factors, x: seq<Complex>)
    requires Twiddles(w) && PowerOfTwo(|x|)
    ensures Inverse(w, Transform(w, x)) == x
  {
    hide Twiddles, Transform, Mul, Conj, Scale, Count, Coefficient;
    TransformIsDft(w, x);
    TransformIsDft(w, ConjAll(Dft(w, x)));
    forall l | 0 <= l < |x|
      ensures Inverse(w, Transform(w, x))[l] == x[l]
    {
      BackCoefficient(w, x, l);
      ScaleBack(|x|, x[l]);
    }
  }

  /** The two programs one after the other restore the array. */
  method ThereAndBack(w: Factors, x: array<Complex>)
    requires Twiddles(w) && PowerOfTwo(x.Length)
    modifies x
    ensures x[..] == old(x[..])
  {
    InverseUndoesTransform(w, x[..]);
    FftInPlace(w, x);
    IfftInPlace(w, x);
  }
}

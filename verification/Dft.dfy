/** Sums of complex numbers, roots of unity, and the discrete Fourier transform as it is defined. */
module Dft {
  import opened BitReversal
  import opened Butterflies
  import opened FirstStage

  const ONE := Complex(1.0, 0.0)

  const MINUS_I := Complex(0.0, -1.0)

  function Mul(a: Complex, b: Complex): Complex { Complex(a.re * b.re - a.im * b.im, a.re * b.im + a.im * b.re) }

  function Conj(a: Complex): Complex { Complex(a.re, -a.im) }

  function Neg(a: Complex): Complex { Complex(-a.re, -a.im) }

  lemma MulThree(a: real, b: real, c: real)
    ensures a * (b * c) == (a * b) * c
  {}

  lemma MulAssociates(a: Complex, b: Complex, c: Complex)
    ensures Mul(a, Mul(b, c)) == Mul(Mul(a, b), c)
  {
    RealAssociates(a.re, b.re, c.re, b.im, c.im);
    RealAssociates(a.im, b.re, c.im, b.im, c.re);
    RealAssociates(a.re, b.re, c.im, b.im, c.re);
    RealAssociates(a.im, b.re, c.re, b.im, c.im);
    RealDistributes(c.re, a.re * b.re, a.im * b.im);
    RealDistributes(c.im, a.re * b.re, a.im * b.im);
    RealDistributes(c.re, a.re * b.im, a.im * b.re);
    RealDistributes(c.im, a.re * b.im, a.im * b.re);
  }

  lemma RealAssociates(a: real, b: real, c: real, d: real, e: real)
    ensures a * (b * c - d * e) == (a * b) * c - (a * d) * e
    ensures a * (b * c + d * e) == (a * b) * c + (a * d) * e
  {
    MulThree(a, b, c);
    MulThree(a, d, e);
    RealDistributes(a, b * c, d * e);
  }

  lemma RealDistributes(c: real, a: real, b: real)
    ensures c * (a - b) == c * a - c * b && c * (a + b) == c * a + c * b
    ensures (a - b) * c == a * c - b * c && (a + b) * c == a * c + b * c
  {}

  lemma MulCommutes(a: Complex, b: Complex)
    ensures Mul(a, b) == Mul(b, a)
  {}

  lemma MulOne(a: Complex)
    ensures Mul(ONE, a) == a && Mul(a, ONE) == a
  {}

  lemma MulZero(a: Complex)
    ensures Mul(a, ZERO) == ZERO && Mul(ZERO, a) == ZERO
  {}

  lemma MulNeg(a: Complex, b: Complex)
    ensures Mul(Neg(a), b) == Neg(Mul(a, b)) && Mul(a, Neg(b)) == Neg(Mul(a, b))
  {
    NegProduct(a.re, b.re);
    NegProduct(a.re, b.im);
    NegProduct(a.im, b.re);
    NegProduct(a.im, b.im);
  }

  lemma NegProduct(a: real, b: real)
    ensures -a * b == -(a * b) && a * -b == -(a * b)
  {}

  lemma MulDistributes(a: Complex, b: Complex, c: Complex)
    ensures Mul(a, Plus(b, c)) == Plus(Mul(a, b), Mul(a, c))
    ensures Mul(Plus(b, c), a) == Plus(Mul(b, a), Mul(c, a))
  {
    RealDistributes(a.re, b.re, c.re);
    RealDistributes(a.re, b.im, c.im);
    RealDistributes(a.im, b.re, c.re);
    RealDistributes(a.im, b.im, c.im);
  }

  lemma ConjMul(a: Complex, b: Complex)
    ensures Conj(Mul(a, b)) == Mul(Conj(a), Conj(b))
  {
    NegProduct(a.re, b.im);
    NegProduct(a.im, b.re);
    NegProduct(a.im, b.im);
    NegProduct(-a.im, b.im);
  }

  // ----- sums

  /** The sum of the first `n` terms. */
  function Sum(n: nat, f: int -> Complex): Complex {
    if n == 0 then ZERO else Plus(Sum(n - 1, f), f(n - 1))
  }

  lemma {:induction false} SumSame(n: nat, f: int -> Complex, g: int -> Complex)
    requires forall k :: 0 <= k < n ==> f(k) == g(k)
    ensures Sum(n, f) == Sum(n, g)
  {
    if n > 0 { SumSame(n - 1, f, g); }
  }

  lemma {:induction false} SumPlus(n: nat, f: int -> Complex, g: int -> Complex, h: int -> Complex)
    requires forall k :: 0 <= k < n ==> h(k) == Plus(f(k), g(k))
    ensures Sum(n, h) == Plus(Sum(n, f), Sum(n, g))
  {
    if n > 0 { SumPlus(n - 1, f, g, h); }
  }

  lemma {:induction false} SumTimes(n: nat, c: Complex, f: int -> Complex, h: int -> Complex)
    requires forall k :: 0 <= k < n ==> h(k) == Mul(c, f(k))
    ensures Sum(n, h) == Mul(c, Sum(n, f))
  {
    if n == 0 {
      MulZero(c);
    } else {
      SumTimes(n - 1, c, f, h);
      MulDistributes(c, Sum(n - 1, f), f(n - 1));
    }
  }

  /** Even and odd terms apart. */
  lemma {:induction false} SumParity(n: nat, f: int -> Complex, g: int -> Complex, h: int -> Complex)
    requires forall k :: 0 <= k < n ==> g(k) == f(2 * k) && h(k) == f(2 * k + 1)
    ensures Sum(2 * n, f) == Plus(Sum(n, g), Sum(n, h))
  {
    if n > 0 {
      var m := n - 1;
      SumParity(m, f, g, h);
      SumParityStep(m, f, g, h);
    } else {
      NoTerms(2 * n, f);
      NoTerms(n, g);
      NoTerms(n, h);
    }
  }

  lemma NoTerms(n: nat, f: int -> Complex)
    requires n == 0
    ensures Sum(n, f) == Complex(0.0, 0.0)
  {}

  lemma SumParityStep(n: nat, f: int -> Complex, g: int -> Complex, h: int -> Complex)
    requires g(n) == f(2 * n) && h(n) == f(2 * n + 1)
    requires Sum(2 * n, f) == Plus(Sum(n, g), Sum(n, h))
    ensures Sum(2 * (n + 1), f) == Plus(Sum(n + 1, g), Sum(n + 1, h))
  {
    TwoMore(2 * n, f);
    PlusFour(Sum(n, g), Sum(n, h), g(n), h(n));
  }

  lemma TwoMore(n: nat, f: int -> Complex)
    ensures Sum(n + 2, f) == Plus(Plus(Sum(n, f), f(n)), f(n + 1))
  {
    assert Sum(n + 1, f) == Plus(Sum(n, f), f(n));
  }

  lemma PlusFour(a: Complex, b: Complex, c: Complex, d: Complex)
    ensures Plus(Plus(Plus(a, b), c), d) == Plus(Plus(a, c), Plus(b, d))
  {}

  lemma {:induction false} SumConj(n: nat, f: int -> Complex, h: int -> Complex)
    requires forall k :: 0 <= k < n ==> h(k) == Conj(f(k))
    ensures Sum(n, h) == Conj(Sum(n, f))
  {
    if n > 0 { SumConj(n - 1, f, h); }
  }

  // ----- roots of unity

  /** `W(k)` is the power `k` of a root of unity of order `2^M`, the one that a quarter turn clockwise belongs to. */
  ghost predicate IsRoot(W: int -> Complex, M: nat) {
    && 2 <= M && W(0) == ONE && W(Pow2(M - 2)) == MINUS_I
    && forall a, b {:trigger AddsUp(W, a, b)} :: AddsUp(W, a, b)
  }

  ghost predicate AddsUp(W: int -> Complex, a: int, b: int) {
    W(a + b) == Mul(W(a), W(b))
  }

  /** The discrete Fourier transform of `2^M` elements, as it is defined: element `j` of the result. */
  function Transformed(W: int -> Complex, M: nat, x: int -> Complex, j: int): Complex {
    Sum(Pow2(M), k => Mul(W(j * k), x(k)))
  }

  /** Powers of the root of order `2^e`. */
  function Root(W: int -> Complex, M: nat, e: nat, j: int): Complex
    decreases M - e
  {
    if e >= M then W(j) else Root(W, M, e + 1, 2 * j)
  }

  lemma {:induction false} RootAdd(W: int -> Complex, M: nat, e: nat, a: int, b: int)
    requires IsRoot(W, M)
    ensures Root(W, M, e, a + b) == Mul(Root(W, M, e, a), Root(W, M, e, b))
    decreases M - e
  {
    if e < M {
      RootAdd(W, M, e + 1, 2 * a, 2 * b);
    } else {
      assert AddsUp(W, a, b);
    }
  }

  lemma {:induction false} RootZero(W: int -> Complex, M: nat, e: nat)
    requires IsRoot(W, M)
    ensures Root(W, M, e, 0) == ONE
    decreases M - e
  {
    if e < M { RootZero(W, M, e + 1); }
  }

  /** A quarter of a turn. */
  lemma {:induction false} RootQuarter(W: int -> Complex, M: nat, e: nat)
    requires IsRoot(W, M) && e + 2 <= M
    ensures Root(W, M, e + 2, Pow2(e)) == MINUS_I
    decreases M - e
  {
    if e + 2 < M { RootQuarter(W, M, e + 1); }
  }

  lemma {:induction false} RootHalf(W: int -> Complex, M: nat, e: nat)
    requires IsRoot(W, M) && e + 1 <= M
    ensures Root(W, M, e + 1, Pow2(e)) == Neg(ONE)
    decreases M - e
  {
    if e + 1 < M {
      RootHalf(W, M, e + 1);
    } else {
      RootQuarter(W, M, M - 2);
      RootAdd(W, M, M, Pow2(M - 2), Pow2(M - 2));
    }
  }

  lemma {:induction false} RootWhole(W: int -> Complex, M: nat, e: nat)
    requires IsRoot(W, M) && e <= M
    ensures Root(W, M, e, Pow2(e)) == ONE
    decreases M - e
  {
    if e < M {
      RootWhole(W, M, e + 1);
    } else {
      RootFull(W, M);
    }
  }

  lemma RootFull(W: int -> Complex, M: nat)
    requires IsRoot(W, M)
    ensures Root(W, M, M, Pow2(M)) == ONE
  {
    var a := Pow2(M - 1);
    RootHalf(W, M, M - 1);
    assert Pow2(M) == a + a;
    HalfTwice(W, M, a);
  }

  lemma HalfTwice(W: int -> Complex, M: nat, a: int)
    requires IsRoot(W, M) && Root(W, M, M, a) == Neg(ONE)
    ensures Root(W, M, M, a + a) == ONE
  {
    NegOneTwice();
    RootSum(W, M, M, a, a, Neg(ONE), Neg(ONE), ONE);
  }

  lemma NegOneTwice()
    ensures Mul(Neg(ONE), Neg(ONE)) == ONE
  {}

  lemma RootSum(W: int -> Complex, M: nat, e: nat, a: int, b: int, u: Complex, v: Complex, w: Complex)
    requires IsRoot(W, M) && Root(W, M, e, a) == u && Root(W, M, e, b) == v && w == Mul(u, v)
    ensures Root(W, M, e, a + b) == w
  {
    RootAdd(W, M, e, a, b);
  }

  /** Whole turns do not matter. */
  lemma {:induction false} RootTurns(W: int -> Complex, M: nat, e: nat, j: int, k: nat)
    requires IsRoot(W, M) && e <= M
    ensures Root(W, M, e, (j + Pow2(e)) * k) == Root(W, M, e, j * k)
    decreases k
  {
    if k > 0 {
      var n := Pow2(e);
      RootTurns(W, M, e, j, k - 1);
      Onward(j + n, k - 1);
      Onward(j, k - 1);
      RootAdd(W, M, e, (j + n) * (k - 1), j + n);
      RootAdd(W, M, e, j, n);
      RootAdd(W, M, e, j * (k - 1), j);
      RootWhole(W, M, e);
      MulOne(Root(W, M, e, j));
    }
  }

  lemma Onward(j: int, k: int)
    ensures j * (k + 1) == j * k + j
  {}

  lemma {:induction false} RootIs(W: int -> Complex, M: nat, e: nat, j: nat)
    requires e <= M
    ensures Root(W, M, e, j) == W(Times(j, Pow2(M - e)))
    decreases M - e
  {
    if e < M {
      RootIs(W, M, e + 1, 2 * j);
      TimesIs(2 * j, Pow2(M - e - 1));
      TimesIs(j, Pow2(M - e));
      Doubled(j, 0, Pow2(M - e - 1));
    } else {
      TimesIs(j, 1);
    }
  }

  // ----- the sum, halved again and again

  /** Which element of the row is term `k` of the sum of block `b` after `e` halvings. */
  function Src(M: nat, e: nat, b: nat, k: int): nat {
    if e == 0 then Rev(M, b) else Src(M, e - 1, 2 * b + k % 2, k / 2)
  }

  /** Element `j` of block `b` of size `2^e`: two elements of the blocks it is made of, the second one turned. */
  function Part(W: int -> Complex, M: nat, x: int -> Complex, e: nat, b: nat, j: int): Complex {
    if e == 0 then x(Rev(M, b))
    else
      var n := Pow2(e - 1);
      if j < n then Plus(Part(W, M, x, e - 1, 2 * b, j), Mul(Root(W, M, e, j), Part(W, M, x, e - 1, 2 * b + 1, j)))
      else Minus(Part(W, M, x, e - 1, 2 * b, j - n), Mul(Root(W, M, e, j - n), Part(W, M, x, e - 1, 2 * b + 1, j - n)))
  }

  function Term(W: int -> Complex, M: nat, x: int -> Complex, e: nat, b: nat, j: int): int -> Complex {
    k => Mul(Root(W, M, e, j * k), x(Src(M, e, b, k)))
  }

  lemma RootHalves(W: int -> Complex, M: nat, e: nat, j: int, i: int, k: nat)
    requires IsRoot(W, M) && e < M && (i == j || i + Pow2(e) == j)
    ensures Root(W, M, e + 1, j * (2 * k)) == Root(W, M, e, i * k)
    ensures Root(W, M, e + 1, j * (2 * k + 1)) == Mul(Root(W, M, e + 1, j), Root(W, M, e, i * k))
  {
    if i != j { RootTurns(W, M, e, i, k); }
    EvenProduct(j, k);
    RootAdd(W, M, e + 1, j, j * (2 * k));
  }

  lemma SrcHalves(M: nat, e: nat, b: nat, k: nat)
    ensures Src(M, e + 1, b, 2 * k) == Src(M, e, 2 * b, k) && Src(M, e + 1, b, 2 * k + 1) == Src(M, e, 2 * b + 1, k)
  {
    HalvesOf(k);
  }

  /** Term `2 * k` of a sum is term `k` of one half of it, and term `2 * k + 1` is term `k` of the other half,
      turned. */
  lemma TermHalves(W: int -> Complex, M: nat, x: int -> Complex, e: nat, b: nat, j: int, i: int, k: nat)
    requires IsRoot(W, M) && e < M && (i == j || i + Pow2(e) == j)
    ensures Term(W, M, x, e + 1, b, j)(2 * k) == Term(W, M, x, e, 2 * b, i)(k)
    ensures Term(W, M, x, e + 1, b, j)(2 * k + 1) == Mul(Root(W, M, e + 1, j), Term(W, M, x, e, 2 * b + 1, i)(k))
  {
    RootHalves(W, M, e, j, i, k);
    SrcHalves(M, e, b, k);
    MulAssociates(Root(W, M, e + 1, j), Root(W, M, e, i * k), x(Src(M, e, 2 * b + 1, k)));
  }

  lemma EvenProduct(j: int, k: int)
    ensures j * (2 * k) == 2 * (j * k) && j * (2 * k + 1) == j * (2 * k) + j
  {}

  lemma HalvesOf(k: int)
    ensures 2 * k % 2 == 0 && 2 * k / 2 == k && (2 * k + 1) % 2 == 1 && (2 * k + 1) / 2 == k
  {}

  lemma SumHalves(W: int -> Complex, M: nat, x: int -> Complex, e: nat, b: nat, j: int, i: int)
    requires IsRoot(W, M) && e < M && (i == j || i + Pow2(e) == j)
    ensures Sum(Pow2(e + 1), Term(W, M, x, e + 1, b, j))
      == Plus(Sum(Pow2(e), Term(W, M, x, e, 2 * b, i)),
        Mul(Root(W, M, e + 1, j), Sum(Pow2(e), Term(W, M, x, e, 2 * b + 1, i))))
  {
    var n := Pow2(e);
    var f, g, h := Term(W, M, x, e + 1, b, j), Term(W, M, x, e, 2 * b, i), Term(W, M, x, e, 2 * b + 1, i);
    var c := Root(W, M, e + 1, j);
    var odd := k => f(2 * k + 1);
    forall k | 0 <= k < n ensures g(k) == f(2 * k) && odd(k) == f(2 * k + 1) && odd(k) == Mul(c, h(k)) {
      TermHalves(W, M, x, e, b, j, i, k);
    }
    SumParity(n, f, g, odd);
    SumTimes(n, c, h, odd);
  }

  lemma PartHalves(W: int -> Complex, M: nat, x: int -> Complex, e: nat, b: nat, j: int, i: int)
    requires IsRoot(W, M) && e < M && i == if j < Pow2(e) then j else j - Pow2(e)
    ensures Part(W, M, x, e + 1, b, j) == Plus(Part(W, M, x, e, 2 * b, i),
      Mul(Root(W, M, e + 1, j), Part(W, M, x, e, 2 * b + 1, i)))
  {
    if i != j { TurnedAround(W, M, e + 1, i, Part(W, M, x, e, 2 * b, i), Part(W, M, x, e, 2 * b + 1, i)); }
  }

  lemma NoHalving(W: int -> Complex, M: nat, x: int -> Complex, b: nat)
    requires IsRoot(W, M)
    ensures Part(W, M, x, 0, b, 0) == Sum(1, Term(W, M, x, 0, b, 0))
  {
    var f := Term(W, M, x, 0, b, 0);
    OneTerm(f);
    RootZero(W, M, 0);
    MulOne(x(Rev(M, b)));
    assert f(0) == Mul(Root(W, M, 0, 0), x(Src(M, 0, b, 0)));
  }

  ghost predicate PartOk(W: int -> Complex, M: nat, x: int -> Complex, e: nat, b: nat, j: int) {
    Part(W, M, x, e, b, j) == Sum(Pow2(e), Term(W, M, x, e, b, j))
  }

  lemma PartFromHalves(W: int -> Complex, M: nat, x: int -> Complex, e: nat, b: nat, j: int, i: int)
    requires IsRoot(W, M) && e < M && i == if j < Pow2(e) then j else j - Pow2(e)
    requires PartOk(W, M, x, e, 2 * b, i) && PartOk(W, M, x, e, 2 * b + 1, i)
    ensures PartOk(W, M, x, e + 1, b, j)
  {
    SumHalves(W, M, x, e, b, j, i);
    PartHalves(W, M, x, e, b, j, i);
  }

  /** Every element of a block is a sum of its own. */
  lemma {:induction false} PartIsSum(W: int -> Complex, M: nat, x: int -> Complex, e: nat, b: nat, j: int)
    requires IsRoot(W, M) && e <= M && 0 <= j < Pow2(e)
    ensures PartOk(W, M, x, e, b, j)
    decreases e
  {
    if e == 0 {
      NoHalving(W, M, x, b);
    } else {
      var i := if j < Pow2(e - 1) then j else j - Pow2(e - 1);
      PartIsSum(W, M, x, e - 1, 2 * b, i);
      PartIsSum(W, M, x, e - 1, 2 * b + 1, i);
      PartFromHalves(W, M, x, e - 1, b, j, i);
    }
  }

  lemma OneTerm(f: int -> Complex)
    ensures Sum(1, f) == f(0)
  {
    assert Sum(1, f) == Plus(Sum(0, f), f(0));
  }

  lemma TurnedAround(W: int -> Complex, M: nat, e: nat, i: int, u: Complex, v: Complex)
    requires IsRoot(W, M) && 1 <= e <= M
    ensures Plus(u, Mul(Root(W, M, e, i + Pow2(e - 1)), v)) == Minus(u, Mul(Root(W, M, e, i), v))
  {
    RootHalf(W, M, e - 1);
    RootAdd(W, M, e, i, Pow2(e - 1));
    var r := Root(W, M, e, i);
    MulNeg(r, ONE);
    MulOne(r);
    MulNeg(r, v);
  }

  lemma {:induction false} SrcIs(M: nat, e: nat, b: nat, k: nat)
    requires k < Pow2(e)
    ensures Src(M, e, b, k) == Rev(M, Times(b, Pow2(e)) + Rev(e, k))
  {
    if e == 0 {
      TimesIs(b, 1);
    } else {
      SrcIs(M, e - 1, 2 * b + k % 2, k / 2);
      TimesIs(2 * b + k % 2, Pow2(e - 1));
      TimesIs(b, Pow2(e));
      Doubled(b, k % 2, Pow2(e - 1));
    }
  }

  lemma Doubled(b: nat, l: nat, n: nat)
    requires l < 2
    ensures (2 * b + l) * n == b * (2 * n) + (if l == 1 then n else 0)
  {}

  lemma LastTerm(W: int -> Complex, M: nat, x: int -> Complex, j: int, k: nat)
    requires k < Pow2(M)
    ensures Term(W, M, x, M, 0, j)(k) == Mul(W(j * k), x(k))
  {
    SrcIs(M, M, 0, k);
    RevTwice(M, k);
    assert Root(W, M, M, j * k) == W(j * k);
  }

  /** The last block is the transform. */
  lemma LastPart(W: int -> Complex, M: nat, x: int -> Complex, j: int)
    requires IsRoot(W, M) && 0 <= j < Pow2(M)
    ensures Part(W, M, x, M, 0, j) == Transformed(W, M, x, j)
  {
    PartIsSum(W, M, x, M, 0, j);
    var f := k => Mul(W(j * k), x(k));
    forall k | 0 <= k < Pow2(M) ensures Term(W, M, x, M, 0, j)(k) == f(k) { LastTerm(W, M, x, j, k); }
    SumSame(Pow2(M), Term(W, M, x, M, 0, j), f);
  }
}

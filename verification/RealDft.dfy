/** What `rffts` leaves in a row is the discrete Fourier transform of the real numbers that were in it. */
module RealDft {
  import opened BitReversal
  import opened Butterflies
  import opened FirstStage
  import opened FftPasses
  import opened FftLoops
  import opened Dft
  import opened FftIsDft
  import opened FftInverse
  import opened RealTransform
  import R = RealFft

  const I := Complex(0.0, 1.0)

  function Real(x: real): Complex { Complex(x, 0.0) }

  /** The real numbers in a row, two in each complex slot. */
  function Reals(row: seq<Complex>): int -> Complex {
    i => Real(if i % 2 == 0 then At(row, i / 2).re else At(row, i / 2).im)
  }

  function Evens(row: seq<Complex>): int -> Complex { j => Real(At(row, j).re) }

  function Odds(row: seq<Complex>): int -> Complex { j => Real(At(row, j).im) }

  /** The terms of a transform. */
  function TermsOf(W: int -> Complex, x: int -> Complex, k: int): int -> Complex { j => Mul(W(k * j), x(j)) }

  lemma TransformedIs(W: int -> Complex, M: nat, x: int -> Complex, k: int)
    ensures Transformed(W, M, x, k) == Sum(Pow2(M), TermsOf(W, x, k))
  {
    SumSame(Pow2(M), j => Mul(W(k * j), x(j)), TermsOf(W, x, k));
  }

  /** The transform of the real numbers, from those of the even and of the odd ones. */
  lemma FromHalves(W: int -> Complex, M: nat, row: seq<Complex>, k: int)
    requires IsRoot(W, M + 1)
    ensures Transformed(W, M + 1, Reals(row), k)
      == Plus(Transformed(Second(W), M, Evens(row), k), Mul(W(k), Transformed(Second(W), M, Odds(row), k)))
  {
    var n := Pow2(M);
    var f, g, h := TermsOf(W, Reals(row), k), TermsOf(Second(W), Evens(row), k), TermsOf(Second(W), Odds(row), k);
    var odd := j => f(2 * j + 1);
    forall j | 0 <= j < n ensures g(j) == f(2 * j) && odd(j) == f(2 * j + 1)
      && odd(j) == Mul(W(k), h(j)) { OneOfTwo(W, M, row, k, j); }
    SumParity(n, f, g, odd);
    SumTimes(n, W(k), h, odd);
    TransformedIs(W, M + 1, Reals(row), k);
    TransformedIs(Second(W), M, Evens(row), k);
    TransformedIs(Second(W), M, Odds(row), k);
  }

  lemma OneOfTwo(W: int -> Complex, M: nat, row: seq<Complex>, k: int, j: int)
    requires IsRoot(W, M + 1)
    ensures TermsOf(W, Reals(row), k)(2 * j) == TermsOf(Second(W), Evens(row), k)(j)
    ensures TermsOf(W, Reals(row), k)(2 * j + 1) == Mul(W(k), TermsOf(Second(W), Odds(row), k)(j))
  {
    HalvesOf(j);
    EvenProduct(k, j);
    assert AddsUp(W, k, k * (2 * j));
    MulAssociates(W(k), W(k * (2 * j)), Odds(row)(j));
  }

  /** The transform of the slots, from those of their real and of their imaginary parts. */
  lemma FromParts(W: int -> Complex, M: nat, row: seq<Complex>, k: int)
    ensures Transformed(W, M, Terms(row), k)
      == Plus(Transformed(W, M, Evens(row), k), Mul(I, Transformed(W, M, Odds(row), k)))
  {
    var n := Pow2(M);
    var f, g, h := TermsOf(W, Terms(row), k), TermsOf(W, Evens(row), k), TermsOf(W, Odds(row), k);
    var turned := j => Mul(I, h(j));
    forall j | 0 <= j < n ensures f(j) == Plus(g(j), turned(j)) { PartsOf(W(k * j), At(row, j)); }
    SumPlus(n, g, turned, f);
    SumTimes(n, I, h, turned);
    TransformedIs(W, M, Terms(row), k);
    TransformedIs(W, M, Evens(row), k);
    TransformedIs(W, M, Odds(row), k);
  }

  lemma PartsOf(w: Complex, z: Complex)
    ensures Mul(w, z) == Plus(Mul(w, Real(z.re)), Mul(I, Mul(w, Real(z.im))))
  {}

  /** The transform of real numbers at mirrored places. */
  lemma Mirrored(W: int -> Complex, M: nat, T: Table, x: int -> Complex, k: int)
    requires IsRoot(W, M) && TableOk(W, M, T) && forall j :: 0 <= j < Pow2(M) ==> x(j).im == 0.0
    ensures Transformed(W, M, x, Pow2(M) - k) == Conj(Transformed(W, M, x, k))
  {
    var n := Pow2(M);
    var f, h := TermsOf(W, x, k), TermsOf(W, x, n - k);
    forall j | 0 <= j < n ensures h(j) == Conj(f(j)) { MirroredTerm(W, M, T, x, k, j); }
    SumConj(n, f, h);
    TransformedIs(W, M, x, k);
    TransformedIs(W, M, x, n - k);
  }

  lemma MirroredTerm(W: int -> Complex, M: nat, T: Table, x: int -> Complex, k: int, j: nat)
    requires IsRoot(W, M) && TableOk(W, M, T) && x(j).im == 0.0
    ensures TermsOf(W, x, Pow2(M) - k)(j) == Conj(TermsOf(W, x, k)(j))
  {
    MirroredRoot(W, M, T, k, j);
    ConjReal(W(k * j), x(j));
  }

  lemma MirroredRoot(W: int -> Complex, M: nat, T: Table, k: int, j: nat)
    requires IsRoot(W, M) && TableOk(W, M, T)
    ensures W((Pow2(M) - k) * j) == Conj(W(k * j))
  {
    var i := -k;
    RootTurns(W, M, M, i, j);
    Opposite(k, j);
    ConjRoot(W, M, T, k * j);
    assert i + Pow2(M) == Pow2(M) - k;
  }

  lemma ConjReal(w: Complex, x: Complex)
    requires x.im == 0.0
    ensures Mul(Conj(w), x) == Conj(Mul(w, x))
  {
    ConjMul(w, x);
    assert Conj(x) == x;
  }

  lemma Opposite(k: int, j: int)
    ensures -k * j == -(k * j)
  {}

  // ----- the last pass

  /** `Finish RFFT` on halves of mirrored slots: `e` and `o` are the transforms of the even and of the odd numbers. */
  lemma FinishedPair(e: Complex, o: Complex, ur: real, ui: real)
    ensures var z, m := FftLoops.Scaled(0.5, Plus(e, Mul(I, o))), FftLoops.Scaled(0.5, Plus(Conj(e), Mul(I, Conj(o))));
      var w := Complex(ur, -ui);
      R.FinishPair(z, m, ur, ui) == (Plus(e, Mul(w, o)), Conj(Minus(e, Mul(w, o))))
  {
    var z, m := FftLoops.Scaled(0.5, Plus(e, Mul(I, o))), FftLoops.Scaled(0.5, Plus(Conj(e), Mul(I, Conj(o))));
    TurnedByI(e, o);
    assert z.re + m.re == e.re && z.im - m.im == e.im && z.im + m.im == o.re && m.re - z.re == o.im;
    var a, b := ur * o.re + ui * o.im, ur * o.im - ui * o.re;
    R.FinishedIs(e.re, e.im, o.re, o.im, ur, ui, a, b);
    TurnedBack(ur, ui, o);
  }

  lemma TurnedByI(e: Complex, o: Complex)
    ensures Plus(e, Mul(I, o)) == Complex(e.re - o.im, e.im + o.re)
    ensures Plus(Conj(e), Mul(I, Conj(o))) == Complex(e.re + o.im, o.re - e.im)
  {}

  lemma TurnedBack(ur: real, ui: real, o: Complex)
    ensures Mul(Complex(ur, -ui), o) == Complex(ur * o.re + ui * o.im, ur * o.im - ui * o.re)
  {
    NegProduct(ui, o.re);
    NegProduct(ui, o.im);
  }

  /** `W` is the root of order `2^(M+1)`, and the table is its table. */
  ghost predicate RealOk(W: int -> Complex, M: nat, T: Table) {
    3 <= M && IsRoot(W, M + 1) && TableOk(W, M + 1, T)
  }

  /** The transforms of the even and of the odd numbers, in the row before the last pass. */
  ghost predicate SlotHas(n: int, e: int -> Complex, o: int -> Complex, x: seq<Complex>, k: int) {
    0 <= k < n == |x| ==> x[k] == FftLoops.Scaled(0.5, Plus(e(k), Mul(I, o(k))))
  }

  /** These transforms and that of all numbers, at `k` and at its mirror image. */
  ghost predicate SumsTo(W: int -> Complex, n: int, e: int -> Complex, o: int -> Complex, t: int -> Complex, k: int) {
    0 <= k <= n ==> t(k) == Plus(e(k), Mul(W(k), o(k))) && e(n - k) == Conj(e(k)) && o(n - k) == Conj(o(k))
  }

  ghost predicate SplitAt(W: int -> Complex, n: int, e: int -> Complex, o: int -> Complex, t: int -> Complex,
                          x: seq<Complex>, k: int) {
    SlotHas(n, e, o, x, k) && SumsTo(W, n, e, o, t, k)
  }

  ghost predicate Split(W: int -> Complex, n: int, e: int -> Complex, o: int -> Complex, t: int -> Complex,
                        x: seq<Complex>) {
    && |x| == n && e(n) == e(0) && o(n) == o(0)
    && forall k {:trigger SplitAt(W, n, e, o, t, x, k)} :: SplitAt(W, n, e, o, t, x, k)
  }

  /** What slot `k` of a row holds after `rffts`, when `t` is the transform. */
  ghost predicate SlotIs(t: int -> Complex, n: int, k: int, z: Complex) {
    if k == 0 then t(0) == Real(z.re) && t(n) == Real(z.im) else z == t(k)
  }

  lemma MinusOne(z: Complex)
    ensures Mul(Neg(ONE), z) == Neg(z)
  {
    MulNeg(ONE, z);
    MulOne(z);
  }

  lemma HalfTurn(W: int -> Complex, M: nat, a: int, b: int)
    requires IsRoot(W, M + 1) && b == Pow2(M) + a
    ensures W(b) == Neg(W(a))
  {
    RootHalf(W, M + 1, M);
    assert AddsUp(W, Pow2(M), a);
    MinusOne(W(a));
  }

  lemma HalfTurnFrom(W: int -> Complex, M: nat, k: int)
    requires IsRoot(W, M + 1)
    ensures W(Pow2(M) - k) == Neg(W(-k))
  {
    HalfTurn(W, M, -k, Pow2(M) - k);
  }

  lemma ConjTurn(W: int -> Complex, M: nat, T: Table, k: int)
    requires RealOk(W, M, T)
    ensures W(-k) == Conj(W(k))
  {
    ConjRoot(W, M + 1, T, k);
  }

  lemma HalfTurnBack(W: int -> Complex, M: nat, T: Table, k: int)
    requires RealOk(W, M, T)
    ensures W(Pow2(M) - k) == Neg(Conj(W(k)))
  {
    HalfTurnFrom(W, M, k);
    ConjTurn(W, M, T, k);
  }

  /** Half a turn less: the sign changes. */
  lemma MirroredTurn(w: Complex, e: Complex, o: Complex)
    ensures Plus(Conj(e), Mul(Neg(Conj(w)), Conj(o))) == Conj(Minus(e, Mul(w, o)))
  {
    MulNeg(Conj(w), Conj(o));
    ConjMul(w, o);
    SumOfConj(e, Mul(w, o));
  }

  lemma SumOfConj(e: Complex, z: Complex)
    ensures Plus(Conj(e), Neg(Conj(z))) == Conj(Minus(e, z))
  {}

  lemma PairFrom(e: Complex, o: Complex, e': Complex, o': Complex, w: Complex, w': Complex, z: Complex, m: Complex,
                 x: Complex, x': Complex, ur: real, ui: real)
    requires z == FftLoops.Scaled(0.5, Plus(e, Mul(I, o))) && m == FftLoops.Scaled(0.5, Plus(e', Mul(I, o')))
    requires w == Complex(ur, -ui) && w' == Neg(Conj(w)) && e' == Conj(e) && o' == Conj(o)
    requires x == Plus(e, Mul(w, o)) && x' == Plus(e', Mul(w', o'))
    ensures R.FinishPair(z, m, ur, ui) == (x, x')
  {
    FinishedPair(e, o, ur, ui);
    MirroredTurn(w, e, o);
  }

  lemma EntryAt(W: int -> Complex, M: nat, T: Table, k: nat)
    requires RealOk(W, M, T) && k <= Pow2(M - 1)
    ensures W(k) == Complex(Tab(T, k), -Tab(T, Pow2(M - 1) - k))
  {
    assert EntryOk(W, M + 1, T, k);
  }

  /** A slot and its mirror image. */
  lemma PairSlots(W: int -> Complex, M: nat, T: Table, e: int -> Complex, o: int -> Complex, t: int -> Complex,
                  x: seq<Complex>,
                  k: int, n: int)
    requires RealOk(W, M, T) && n == Pow2(M) && Split(W, n, e, o, t, x) && 0 < k < Pow2(M - 1) < n
    ensures R.FinishPair(x[k], x[n - k], Tab(T, k), Tab(T, Pow2(M - 1) - k)) == (t(k), t(n - k))
  {
    var l := n - k;
    assert SplitAt(W, n, e, o, t, x, k) && SplitAt(W, n, e, o, t, x, l);
    HalfTurnBack(W, M, T, k);
    EntryAt(W, M, T, k);
    PairFrom(e(k), o(k), e(l), o(l), W(k), W(l), x[k], x[l], t(k), t(l), Tab(T, k), Tab(T, Pow2(M - 1) - k));
  }

  lemma RealParts(e: real, o: real)
    ensures Plus(Real(e), Mul(I, Real(o))) == Complex(e, o)
    ensures Plus(Real(e), Mul(MINUS_I, Real(o))) == Complex(e, -o)
  {}

  lemma IsOwnConjugate(z: Complex)
    requires z == Conj(z)
    ensures z == Real(z.re)
  {}

  /** The slots without mirror image: the first, and the one in the middle. */
  lemma FirstSlot(W: int -> Complex, M: nat, e: int -> Complex, o: int -> Complex, t: int -> Complex, x: seq<Complex>,
                  n: int)
    requires IsRoot(W, M + 1) && n == Pow2(M) && Split(W, n, e, o, t, x)
    ensures SlotIs(t, n, 0, R.FinishEnds(x[0]))
  {
    assert SplitAt(W, n, e, o, t, x, 0) && SplitAt(W, n, e, o, t, x, n);
    IsOwnConjugate(e(0));
    IsOwnConjugate(o(0));
    RealParts(e(0).re, o(0).re);
    RootHalf(W, M + 1, M);
    MinusOne(o(0));
    MulOne(o(0));
  }

  lemma MiddleSlot(W: int -> Complex, M: nat, e: int -> Complex, o: int -> Complex, t: int -> Complex, x: seq<Complex>,
                   n: int, q: int)
    requires IsRoot(W, M + 1) && n == Pow2(M) && Split(W, n, e, o, t, x) && 1 <= M && q == Pow2(M - 1) && n == 2 * q
    ensures R.FinishMiddle(x[q]) == t(q)
  {
    assert SplitAt(W, n, e, o, t, x, q);
    IsOwnConjugate(e(q));
    IsOwnConjugate(o(q));
    RealParts(e(q).re, o(q).re);
    assert W(q) == MINUS_I;
  }

  /** `Finish RFFT` turns the split transform into the transform. */
  lemma FinishIs(W: int -> Complex, M: nat, T: Table, e: int -> Complex, o: int -> Complex, t: int -> Complex,
                 x: seq<Complex>, k: nat)
    requires RealOk(W, M, T) && Split(W, Pow2(M), e, o, t, x) && k < |x|
    requires Pow2(M - 1) < |T.cos| && Pow2(M) == 2 * Pow2(M - 1)
    ensures SlotIs(t, Pow2(M), k, R.Passed(R.Finish(), T.cos, Pow2(M - 1), x)[k])
  {
    var n, q := Pow2(M), Pow2(M - 1);
    if k == 0 {
      FirstSlot(W, M, e, o, t, x, n);
    } else if k == q {
      MiddleSlot(W, M, e, o, t, x, n, q);
    } else {
      PairSlots(W, M, T, e, o, t, x, if k < q then k else n - k, n);
    }
  }

  // ----- the row before the last pass

  lemma Periodic(W: int -> Complex, M: nat, x: int -> Complex)
    requires IsRoot(W, M)
    ensures Transformed(W, M, x, Pow2(M)) == Transformed(W, M, x, 0)
  {
    var f, h := TermsOf(W, x, 0), TermsOf(W, x, Pow2(M));
    forall j | 0 <= j < Pow2(M) ensures h(j) == f(j) {
      RootTurns(W, M, M, 0, j);
      assert Root(W, M, M, (0 + Pow2(M)) * j) == W(Pow2(M) * j);
    }
    SumSame(Pow2(M), h, f);
    TransformedIs(W, M, x, 0);
    TransformedIs(W, M, x, Pow2(M));
  }

  function TransformOf(W: int -> Complex, M: nat, x: int -> Complex): int -> Complex { k => Transformed(W, M, x, k) }

  lemma HalvesSum(W: int -> Complex, M: nat, row: seq<Complex>, k: int)
    requires IsRoot(W, M + 1)
    ensures TransformOf(W, M + 1, Reals(row))(k)
      == Plus(TransformOf(Second(W), M, Evens(row))(k), Mul(W(k), TransformOf(Second(W), M, Odds(row))(k)))
  {
    FromHalves(W, M, row, k);
  }

  lemma PartsMirrored(W: int -> Complex, M: nat, T: Table, row: seq<Complex>, k: int)
    requires RealOk(W, M, T)
    ensures TransformOf(Second(W), M, Evens(row))(Pow2(M) - k) == Conj(TransformOf(Second(W), M, Evens(row))(k))
    ensures TransformOf(Second(W), M, Odds(row))(Pow2(M) - k) == Conj(TransformOf(Second(W), M, Odds(row))(k))
  {
    ThinOk(W, M, T);
    Mirrored(Second(W), M, Thin(T, M), Evens(row), k);
    Mirrored(Second(W), M, Thin(T, M), Odds(row), k);
  }

  lemma TransformsSum(W: int -> Complex, M: nat, T: Table, row: seq<Complex>, k: int)
    requires RealOk(W, M, T)
    ensures SumsTo(W, Pow2(M), TransformOf(Second(W), M, Evens(row)), TransformOf(Second(W), M, Odds(row)),
      TransformOf(W, M + 1, Reals(row)), k)
  {
    PartsMirrored(W, M, T, row, k);
    HalvesSum(W, M, row, k);
  }

  lemma SlotFromParts(W: int -> Complex, M: nat, row: seq<Complex>, y: seq<Complex>, k: int)
    requires |y| == Pow2(M) && (0 <= k < Pow2(M) ==> y[k] == Transformed(W, M, Terms(row), k))
    ensures SlotHas(Pow2(M), TransformOf(W, M, Evens(row)), TransformOf(W, M, Odds(row)), MapAll(Scaling(0.5), y), k)
  {
    FromParts(W, M, row, k);
  }

  lemma ForwardSlot(W: int -> Complex, M: nat, T: Table, row: seq<Complex>, k: int)
    requires RealOk(W, M, T) && |row| == Pow2(M) && 0 <= k < Pow2(M)
    ensures RowTransform(Forward, Thin(T, M), M, row)[k] == Transformed(Second(W), M, Terms(row), k)
  {
    ThinOk(W, M, T);
    ForwardIsDft(Second(W), M, Thin(T, M), row, k);
  }

  lemma RowSplits(W: int -> Complex, M: nat, T: Table, row: seq<Complex>, y: seq<Complex>)
    requires RealOk(W, M, T) && |y| == Pow2(M)
    requires forall k :: 0 <= k < Pow2(M) ==> y[k] == Transformed(Second(W), M, Terms(row), k)
    ensures Split(W, Pow2(M), TransformOf(Second(W), M, Evens(row)), TransformOf(Second(W), M, Odds(row)),
      TransformOf(W, M + 1, Reals(row)), MapAll(Scaling(0.5), y))
  {
    var V, n := Second(W), Pow2(M);
    var e, o, t, x := TransformOf(V, M, Evens(row)), TransformOf(V, M, Odds(row)), TransformOf(W, M + 1, Reals(row)),
      MapAll(Scaling(0.5), y);
    forall k ensures SplitAt(W, n, e, o, t, x, k) {
      TransformsSum(W, M, T, row, k);
      SlotFromParts(V, M, row, y, k);
    }
    ThinOk(W, M, T);
    Periodic(V, M, Evens(row));
    Periodic(V, M, Odds(row));
  }

  // ----- the whole row

  lemma RealLong(W: int -> Complex, M: nat, T: Table)
    requires RealOk(W, M, T)
    ensures Pow2(M - 1) < |T.cos| && Pow2(M) == 2 * Pow2(M - 1) && TableFits(RealForward, T, M)
  {}

  lemma Finished(W: int -> Complex, M: nat, T: Table, row: seq<Complex>, y: seq<Complex>, k: nat)
    requires RealOk(W, M, T) && |y| == Pow2(M) && k < Pow2(M) && Pow2(M - 1) < |T.cos| && Pow2(M) == 2 * Pow2(M - 1)
    requires forall k :: 0 <= k < Pow2(M) ==> y[k] == Transformed(Second(W), M, Terms(row), k)
    ensures SlotIs(TransformOf(W, M + 1, Reals(row)), Pow2(M), k,
      R.Passed(R.Finish(), T.cos, Pow2(M - 1), MapAll(Scaling(0.5), y))[k])
  {
    RowSplits(W, M, T, row, y);
    FinishIs(W, M, T, TransformOf(Second(W), M, Evens(row)), TransformOf(Second(W), M, Odds(row)),
      TransformOf(W, M + 1, Reals(row)),
      MapAll(Scaling(0.5), y), k);
  }

  /** Slot `k` after `rffts` is element `k` of the discrete Fourier transform of the real numbers in the row; slot 0
      holds two elements that are real, the first and the one half way. */
  lemma RealIsDft(W: int -> Complex, M: nat, T: Table, row: seq<Complex>, k: nat)
    requires RealOk(W, M, T) && |row| == Pow2(M) && k < Pow2(M)
    ensures TableFits(RealForward, T, M)
    ensures SlotIs(TransformOf(W, M + 1, Reals(row)), Pow2(M), k, RowTransform(RealForward, T, M, row)[k])
  {
    RealLong(W, M, T);
    var y := RowTransform(Forward, Thin(T, M), M, row);
    forall k | 0 <= k < Pow2(M) ensures y[k]
      == Transformed(Second(W), M, Terms(row), k) { ForwardSlot(W, M, T, row, k); }
    Finished(W, M, T, row, y, k);
    HalfForward(T, M, row);
  }

  /** The elements past half way are the conjugates of those before: the slots hold the whole transform. */
  lemma RestMirrored(W: int -> Complex, M: nat, T: Table, row: seq<Complex>, k: int)
    requires RealOk(W, M, T)
    ensures Transformed(W, M + 1, Reals(row), Pow2(M + 1) - k) == Conj(Transformed(W, M + 1, Reals(row), k))
  {
    Mirrored(W, M + 1, T, Reals(row), k);
  }
}

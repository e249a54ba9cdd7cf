/** The loops of `ffts` compute the discrete Fourier transform. */
module FftIsDft {
  import opened BitReversal
  import opened Butterflies
  import opened FirstStage
  import opened FftPasses
  import opened FftCells
  import opened FftLoops
  import opened Dft
  import B = BitrevStage

  // ----- butterflies as steps of the halved sum

  /** The first step on eight elements: neighbours in pairs, the second one turned. */
  function Step1(f: Eight, t: Complex): Eight {
    var a, b, c, d := Mul(t, f.e1), Mul(t, f.e3), Mul(t, f.e5), Mul(t, f.e7);
    Eight(Plus(f.e0, a), Minus(f.e0, a), Plus(f.e2, b), Minus(f.e2, b), Plus(f.e4, c), Minus(f.e4, c), Plus(f.e6, d),
      Minus(f.e6, d))
  }

  /** The second step: blocks of two in pairs. */
  function Step2(f: Eight, t: Complex, t': Complex): Eight {
    var a, a', b, b' := Mul(t, f.e2), Mul(t', f.e3), Mul(t, f.e6), Mul(t', f.e7);
    Eight(Plus(f.e0, a), Plus(f.e1, a'), Minus(f.e0, a), Minus(f.e1, a'), Plus(f.e4, b), Plus(f.e5, b'), Minus(f.e4, b),
      Minus(f.e5, b'))
  }

  /** The third step: the two blocks of four. */
  function Step3(f: Eight, t0: Complex, t1: Complex, t2: Complex, t3: Complex): Eight {
    var a, b, c, d := Mul(t0, f.e4), Mul(t1, f.e5), Mul(t2, f.e6), Mul(t3, f.e7);
    Eight(Plus(f.e0, a), Plus(f.e1, b), Plus(f.e2, c), Plus(f.e3, d), Minus(f.e0, a), Minus(f.e1, b), Minus(f.e2, c),
      Minus(f.e3, d))
  }

  function Back(u: Complex): Complex { Mul(MINUS_I, u) }

  lemma TurnedIs(f: Complex, u: Complex, g: Complex)
    ensures ForwardTurned(f, u, g) == Minus(f, Mul(Conj(u), g))
    ensures ForwardTurnedAdd(f, u, g) == Minus(f, Mul(Back(Conj(u)), g))
    ensures ForwardTurnedSub(f, u, g) == Plus(f, Mul(Back(Conj(u)), g))
  {
    NegProduct(u.im, g.re);
    NegProduct(u.im, g.im);
    NegProduct(u.re, g.re);
    NegProduct(u.re, g.im);
    BackConj(u);
    assert Mul(Conj(u), g) == Complex(u.re * g.re + u.im * g.im, u.re * g.im - u.im * g.re);
    assert Mul(Complex(-u.im, -u.re), g) == Complex(u.re * g.im - u.im * g.re, -(u.im * g.im) - u.re * g.re);
  }

  lemma BackConj(u: Complex)
    ensures Back(Conj(u)) == Complex(-u.im, -u.re)
  {}

  lemma OtherIs(f: Complex, g: Complex)
    ensures Other(f, Minus(f, g)) == Plus(f, g) && Other(f, Plus(f, g)) == Minus(f, g)
  {}

  lemma QuarterIs(f: Complex, g: Complex)
    ensures PlusI(f, g) == Minus(f, Mul(MINUS_I, g)) && MinusI(f, g) == Plus(f, Mul(MINUS_I, g))
  {}

  lemma HalfIs(f: Complex, g: Complex)
    ensures Plus(f, g) == Plus(f, Mul(ONE, g)) && Minus(f, g) == Minus(f, Mul(ONE, g))
  {
    MulOne(g);
  }

  /** The radix-8 butterfly is three steps. */
  lemma Fly8Is(u: Turns, f: Eight)
    ensures var w0, w1, w2, w3 := Conj(u.u0), Conj(u.u1), Conj(u.u2), Conj(u.u3);
      Fly8(ForwardOps(), u, f) == Step3(Step2(Step1(f, w0), w1, Back(w1)), w2, w3, Back(w2), Back(w3))
  {
    var w0, w1, w2, w3 := Conj(u.u0), Conj(u.u1), Conj(u.u2), Conj(u.u3);
    var g := Step1(f, w0);
    TurnedIs(f.e0, u.u0, f.e1);
    TurnedIs(f.e2, u.u0, f.e3);
    TurnedIs(f.e4, u.u0, f.e5);
    TurnedIs(f.e6, u.u0, f.e7);
    OtherIs(f.e0, Mul(w0, f.e1));
    OtherIs(f.e2, Mul(w0, f.e3));
    OtherIs(f.e4, Mul(w0, f.e5));
    OtherIs(f.e6, Mul(w0, f.e7));
    var h := Step2(g, w1, Back(w1));
    TurnedIs(g.e0, u.u1, g.e2);
    TurnedIs(g.e1, u.u1, g.e3);
    TurnedIs(g.e4, u.u1, g.e6);
    TurnedIs(g.e5, u.u1, g.e7);
    OtherIs(g.e0, Mul(w1, g.e2));
    OtherIs(g.e1, Mul(Back(w1), g.e3));
    OtherIs(g.e4, Mul(w1, g.e6));
    OtherIs(g.e5, Mul(Back(w1), g.e7));
    TurnedIs(h.e0, u.u2, h.e4);
    TurnedIs(h.e2, u.u2, h.e6);
    TurnedIs(h.e1, u.u3, h.e5);
    TurnedIs(h.e3, u.u3, h.e7);
    OtherIs(h.e0, Mul(w2, h.e4));
    OtherIs(h.e2, Mul(Back(w2), h.e6));
    OtherIs(h.e1, Mul(w3, h.e5));
    OtherIs(h.e3, Mul(Back(w3), h.e7));
  }

  lemma Fly2Is(f: Eight)
    ensures Fly2(ForwardOps(), f) == Step2(f, ONE, MINUS_I)
  {
    HalfIs(f.e0, f.e2);
    HalfIs(f.e4, f.e6);
    QuarterIs(f.e1, f.e3);
    QuarterIs(f.e5, f.e7);
  }

  lemma Fly4Is(u: Complex, f: Eight)
    ensures Fly4(ForwardOps(), u, f) == Step3(Step2(f, ONE, MINUS_I), ONE, Conj(u), MINUS_I, Back(Conj(u)))
  {
    Fly2Is(f);
    var h := Step2(f, ONE, MINUS_I);
    HalfIs(h.e0, h.e4);
    QuarterIs(h.e2, h.e6);
    TurnedIs(h.e1, u, h.e5);
    TurnedIs(h.e3, u, h.e7);
    OtherIs(h.e1, Mul(Conj(u), h.e5));
    OtherIs(h.e3, Mul(Back(Conj(u)), h.e7));
  }

  // ----- the steps on blocks of the halved sum

  /** Element `j` of block `b` of size `2^e`. */
  type Blocks = (nat, nat, int) -> Complex

  /** The power `j` of the root of order `2^e`. */
  type Roots = (nat, int) -> Complex

  function BlocksOf(W: int -> Complex, M: nat,
                    x: int -> Complex): Blocks { (e: nat, b: nat, j: int) => Part(W, M, x, e, b, j) }

  function RootsOf(W: int -> Complex, M: nat): Roots { (e: nat, j: int) => Root(W, M, e, j) }

  /** Two elements of a block come from two elements of its halves. */
  ghost predicate PairOk(p: Blocks, w: Roots, e: nat, b: nat, j: int, n: int) {
    0 <= j < n == Pow2(e) ==>
      && p(e + 1, b, j) == Plus(p(e, 2 * b, j), Mul(w(e + 1, j), p(e, 2 * b + 1, j)))
      && p(e + 1, b, j + n) == Minus(p(e, 2 * b, j), Mul(w(e + 1, j), p(e, 2 * b + 1, j)))
  }

  /** A quarter of a turn further on. */
  ghost predicate QuarterOk(w: Roots, M: nat, e: nat, j: int, n: int) {
    n == Pow2(e) && e + 2 <= M ==> w(e + 2, j + n) == Back(w(e + 2, j))
  }

  ghost predicate Halving(p: Blocks, w: Roots, M: nat) {
    && (forall e: nat, b: nat, j: int, n: int {:trigger PairOk(p, w, e, b, j, n)} :: PairOk(p, w, e, b, j, n))
    && (forall e: nat, j: int, n: int {:trigger QuarterOk(w, M, e, j, n)} :: QuarterOk(w, M, e, j, n))
    && (forall e: nat :: w(e, 0) == ONE)
  }

  lemma PartsHalve(W: int -> Complex, M: nat, x: int -> Complex)
    requires IsRoot(W, M)
    ensures Halving(BlocksOf(W, M, x), RootsOf(W, M), M)
  {
    var p, w := BlocksOf(W, M, x), RootsOf(W, M);
    forall e: nat, b: nat, j: int, n: int ensures PairOk(p, w, e, b, j, n) {}
    forall e: nat, j: int, n: int ensures QuarterOk(w, M, e, j, n) {
      if n == Pow2(e) && e + 2 <= M {
        RootQuarter(W, M, e);
        RootAdd(W, M, e + 2, n, j);
      }
    }
    forall e: nat ensures w(e, 0) == ONE { RootZero(W, M, e); }
  }

  /** What eight elements at distances of `n` hold before the steps, and after each of them. */
  function Parts0(p: Blocks, e: nat, g: nat, o: int): Eight {
    Eight(p(e, 8 * g, o), p(e, 8 * g + 1, o), p(e, 8 * g + 2, o), p(e, 8 * g + 3, o),
      p(e, 8 * g + 4, o), p(e, 8 * g + 5, o), p(e, 8 * g + 6, o), p(e, 8 * g + 7, o))
  }

  function Parts1(p: Blocks, e: nat, g: nat, o: int, n: int): Eight {
    Eight(p(e + 1, 4 * g, o), p(e + 1, 4 * g, o + n), p(e + 1, 4 * g + 1, o), p(e + 1, 4 * g + 1, o + n),
      p(e + 1, 4 * g + 2, o), p(e + 1, 4 * g + 2, o + n), p(e + 1, 4 * g + 3, o), p(e + 1, 4 * g + 3, o + n))
  }

  function Parts2(p: Blocks, e: nat, g: nat, o: int, n: int): Eight {
    Eight(p(e + 2, 2 * g, o), p(e + 2, 2 * g, o + n), p(e + 2, 2 * g, o + 2 * n), p(e + 2, 2 * g, o + 3 * n),
      p(e + 2, 2 * g + 1, o), p(e + 2, 2 * g + 1, o + n), p(e + 2, 2 * g + 1, o + 2 * n),
        p(e + 2, 2 * g + 1, o + 3 * n))
  }

  function Parts3(p: Blocks, e: nat, g: nat, o: int, n: int): Eight {
    Eight(p(e + 3, g, o), p(e + 3, g, o + n), p(e + 3, g, o + 2 * n), p(e + 3, g, o + 3 * n),
      p(e + 3, g, o + 4 * n), p(e + 3, g, o + 5 * n), p(e + 3, g, o + 6 * n), p(e + 3, g, o + 7 * n))
  }

  lemma Step1Is(p: Blocks, w: Roots, M: nat, e: nat, g: nat, o: int, n: int)
    requires Halving(p, w, M) && 0 <= o < n == Pow2(e)
    ensures Step1(Parts0(p, e, g, o), w(e + 1, o)) == Parts1(p, e, g, o, n)
  {
    assert PairOk(p, w, e, 4 * g, o, n) && PairOk(p, w, e, 4 * g + 1, o, n);
    assert PairOk(p, w, e, 4 * g + 2, o, n) && PairOk(p, w, e, 4 * g + 3, o, n);
  }

  lemma Step2Is(p: Blocks, w: Roots, M: nat, e: nat, g: nat, o: int, n: int)
    requires Halving(p, w, M) && 0 <= o < n == Pow2(e)
    ensures Step2(Parts1(p, e, g, o, n), w(e + 2, o), w(e + 2, o + n)) == Parts2(p, e, g, o, n)
  {
    var m := 2 * n;
    assert PairOk(p, w, e + 1, 2 * g, o, m) && PairOk(p, w, e + 1, 2 * g, o + n, m);
    assert PairOk(p, w, e + 1, 2 * g + 1, o, m) && PairOk(p, w, e + 1, 2 * g + 1, o + n, m);
  }

  lemma Step3Is(p: Blocks, w: Roots, M: nat, e: nat, g: nat, o: int, n: int)
    requires Halving(p, w, M) && 0 <= o < n == Pow2(e)
    ensures Step3(Parts2(p, e, g, o, n), w(e + 3, o), w(e + 3, o + n), w(e + 3, o + 2 * n), w(e + 3, o + 3 * n))
      == Parts3(p, e, g, o, n)
  {
    var m := 4 * n;
    assert Pow2(e + 2) == 2 * Pow2(e + 1);
    assert PairOk(p, w, e + 2, g, o, m) && PairOk(p, w, e + 2, g, o + n, m);
    assert PairOk(p, w, e + 2, g, o + 2 * n, m) && PairOk(p, w, e + 2, g, o + 3 * n, m);
  }

  /** The table entries are those of the radix-8 butterfly at offset `o`. */
  ghost predicate RightTurns(w: Roots, e: nat, o: int, n: int, u: Turns) {
    && Conj(u.u0) == w(e + 1, o) && Conj(u.u1) == w(e + 2, o)
    && Conj(u.u2) == w(e + 3, o) && Conj(u.u3) == w(e + 3, o + n)
  }

  lemma ThreeSteps(w: Roots, M: nat, e: nat, o: int, n: int, u: Turns, f0: Eight, f1: Eight, f2: Eight, f3: Eight)
    requires RightTurns(w, e, o, n, u) && f1 == Step1(f0, w(e + 1, o))
      && f2 == Step2(f1, w(e + 2, o), Back(w(e + 2, o)))
    requires f3 == Step3(f2, w(e + 3, o), w(e + 3, o + n), Back(w(e + 3, o)), Back(w(e + 3, o + n)))
    ensures Fly8(ForwardOps(), u, f0) == f3
  {
    Fly8Is(u, f0);
  }

  lemma StepByStep(p: Blocks, w: Roots, M: nat, e: nat, g: nat, o: int, n: int, f0: Eight, f3: Eight)
      returns (f1: Eight, f2: Eight)
    requires Halving(p, w, M) && e + 3 <= M && 0 <= o < n == Pow2(e) && f0 == Parts0(p, e, g, o)
      && f3 == Parts3(p, e, g, o, n)
    ensures f1 == Step1(f0, w(e + 1, o)) && f2 == Step2(f1, w(e + 2, o), Back(w(e + 2, o)))
    ensures f3 == Step3(f2, w(e + 3, o), w(e + 3, o + n), Back(w(e + 3, o)), Back(w(e + 3, o + n)))
  {
    var m := 2 * n;
    assert QuarterOk(w, M, e, o, n) && QuarterOk(w, M, e + 1, o, m) && QuarterOk(w, M, e + 1, o + n, m);
    f1, f2 := Parts1(p, e, g, o, n), Parts2(p, e, g, o, n);
    Step1Is(p, w, M, e, g, o, n);
    Step2Is(p, w, M, e, g, o, n);
    Step3Is(p, w, M, e, g, o, n);
  }

  /** The radix-8 butterfly with the right table entries makes three steps. */
  lemma Fly8Steps(p: Blocks, w: Roots, M: nat, e: nat, g: nat, o: int, n: int, u: Turns, f0: Eight, f3: Eight)
    requires Halving(p, w, M) && e + 3 <= M && 0 <= o < n == Pow2(e) && RightTurns(w, e, o, n, u)
    requires f0 == Parts0(p, e, g, o) && f3 == Parts3(p, e, g, o, n)
    ensures Fly8(ForwardOps(), u, f0) == f3
  {
    var f1, f2 := StepByStep(p, w, M, e, g, o, n, f0, f3);
    ThreeSteps(w, M, e, o, n, u, f0, f1, f2, f3);
  }

  lemma Fly2Steps(p: Blocks, w: Roots, M: nat, g: nat)
    requires Halving(p, w, M) && 2 <= M
    ensures Fly2(ForwardOps(), Parts1(p, 0, g, 0, 1)) == Parts2(p, 0, g, 0, 1)
  {
    Fly2Is(Parts1(p, 0, g, 0, 1));
    var e, o, n := 0, 0, Pow2(0);
    assert QuarterOk(w, M, e, o, n) && Back(ONE) == MINUS_I;
    Step2Is(p, w, M, e, g, o, n);
  }

  lemma Fly4Steps(p: Blocks, w: Roots, M: nat, g: nat, u: Complex)
    requires Halving(p, w, M) && 3 <= M && Conj(u) == w(3, 1)
    ensures Fly4(ForwardOps(), u, Parts1(p, 0, g, 0, 1)) == Parts3(p, 0, g, 0, 1)
  {
    Fly4Is(u, Parts1(p, 0, g, 0, 1));
    Fly2Is(Parts1(p, 0, g, 0, 1));
    Fly2Steps(p, w, M, g);
    var e, o, n, m := 0, 0, Pow2(0), Pow2(1);
    assert QuarterOk(w, M, e + 1, o, m) && QuarterOk(w, M, e + 1, o + n, m) && Back(ONE) == MINUS_I;
    Step3Is(p, w, M, e, g, o, n);
  }

  // ----- the table

  /** The table holds the cosines of the first quarter of the turn that `W` makes. */
  ghost predicate TableOk(W: int -> Complex, M: nat, T: Table) {
    3 <= M && TableLong(T, Pow2(M - 2), Pow2(M - 3)) && AllEntries(W, M, T, Pow2(M - 2))
  }

  predicate TableLong(T: Table, quarter: nat, eighth: nat) {
    quarter < |T.cos| && eighth < |T.cos| && T.sqrtHalf == T.cos[eighth]
  }

  ghost predicate AllEntries(W: int -> Complex, M: nat, T: Table, quarter: nat) {
    2 <= M && forall i {:trigger EntryOk(W, M, T, i)} :: 0 <= i <= quarter ==> EntryOk(W, M, T, i)
  }

  ghost predicate EntryOk(W: int -> Complex, M: nat, T: Table, i: int)
    requires 2 <= M
  {
    W(i) == Complex(Tab(T, i), -Tab(T, Pow2(M - 2) - i))
  }

  /** In the second quarter the cosines count negative, and the table is read backwards. */
  lemma SecondQuarter(W: int -> Complex, M: nat, T: Table, i: int)
    requires IsRoot(W, M) && TableOk(W, M, T) && 0 <= i <= Pow2(M - 2)
    ensures W(Pow2(M - 2) + i) == Complex(-Tab(T, Pow2(M - 2) - i), -Tab(T, i))
  {
    assert EntryOk(W, M, T, i) && AddsUp(W, Pow2(M - 2), i);
  }

  /** Where the first pair of pointers stands at offset `o`: it goes up a quarter of the turn and comes back. */
  function FirstPointer(M: nat, e: nat, o: nat): nat
    requires 1 <= e && e + 3 <= M
  {
    Times(if o <= Pow2(e - 1) then o else if o <= Pow2(e) then Pow2(e) - o else 0, Pow2(M - 1 - e))
  }

  function PointersFrom(T: Table, r0: int, r1: int, r2: int, quarter: int, eighth: int, negate: bool): Pointers {
    Pointers(r0, quarter - r0, r1, quarter - r1, r2, quarter - r2,
      TurnsAt(T, r0, quarter - r0, r1, quarter - r1, r2, quarter - r2, eighth, negate))
  }

  function PointersVia(T: Table, st: Steps, quarter: int, o: nat, r0: int, negate: bool): Pointers
    requires st.n2 >= 0 && st.n1 >= 0
  {
    PointersFrom(T, r0, Times(o, st.n2), Times(o, st.n1), quarter, st.eighth, negate)
  }

  /** The pointers into the table at offset `o` of a stage. */
  function PointersAt(T: Table, M: nat, e: nat, o: nat): Pointers
    requires 1 <= e && e + 3 <= M
  {
    PointersVia(T, StepsAt(M, e), Pow2(M - 2), o, FirstPointer(M, e, o), o > Pow2(e - 1))
  }

  lemma OneFurther(T: Table, st: Steps, quarter: int, o: nat, r0: int, r0': int, b: bool, negate: bool)
    requires st.n2 >= 0 && st.n1 >= 0 && r0' == if negate then r0 - st.n4 else r0 + st.n4
    ensures Advancing(T, st, negate)(PointersVia(T, st, quarter, o, r0, b))
      == PointersVia(T, st, quarter, o + 1, r0', negate)
  {}

  lemma FirstPointerNext(M: nat, e: nat, o: nat)
    requires 1 <= e && e + 3 <= M && o < Pow2(e)
    ensures o < Pow2(e - 1) ==> FirstPointer(M, e, o + 1) == FirstPointer(M, e, o) + Pow2(M - 1 - e)
    ensures o >= Pow2(e - 1) ==> FirstPointer(M, e, o + 1) == FirstPointer(M, e, o) - Pow2(M - 1 - e)
  {
    var left := Pow2(e) - o;
    assert Times(left, Pow2(M - 1 - e)) == Times(left - 1, Pow2(M - 1 - e)) + Pow2(M - 1 - e);
  }

  lemma PointersUp(T: Table, M: nat, e: nat, o: nat)
    requires 1 <= e && e + 3 <= M && o < Pow2(e - 1)
    ensures PointersAt(T, M, e, o + 1) == Advancing(T, StepsAt(M, e), false)(PointersAt(T, M, e, o))
  {
    FirstPointerNext(M, e, o);
    OneFurther(T, StepsAt(M, e), Pow2(M - 2), o, FirstPointer(M, e, o), FirstPointer(M, e, o + 1), false, false);
  }

  lemma PointersDown(T: Table, M: nat, e: nat, o: nat)
    requires 1 <= e && e + 3 <= M && Pow2(e - 1) <= o < Pow2(e)
    ensures PointersAt(T, M, e, o + 1) == Advancing(T, StepsAt(M, e), true)(PointersAt(T, M, e, o))
  {
    FirstPointerNext(M, e, o);
    OneFurther(T, StepsAt(M, e), Pow2(M - 2), o, FirstPointer(M, e, o), FirstPointer(M, e, o + 1), o > Pow2(e - 1),
      true);
  }

  lemma Powers(m: nat, n: nat, j: nat, k: nat)
    requires j <= Pow2(m) && m + n == k
    ensures Times(j, Pow2(n)) <= Pow2(k)
    ensures Times(Pow2(m) - j, Pow2(n)) == Pow2(k) - Times(j, Pow2(n))
  {
    Pow2Add(m, n);
    TimesIs(j, Pow2(n));
    TimesIs(Pow2(m) - j, Pow2(n));
    TimesIs(Pow2(m), Pow2(n));
    TimesMonotone(j, Pow2(m), Pow2(n));
    LessOf(Pow2(m), j, Pow2(n));
  }

  lemma LessOf(a: int, b: int, c: int)
    ensures (a - b) * c == a * c - b * c
  {}

  lemma FirstAngle(M: nat, e: nat, o: nat)
    requires 1 <= e && e + 3 <= M && o < Pow2(e)
    ensures FirstPointer(M, e, o) <= Pow2(M - 2)
    ensures Times(o, Pow2(M - 1 - e)) == if o <= Pow2(e - 1) then FirstPointer(M, e,
      o) else 2 * Pow2(M - 2) - FirstPointer(M, e, o)
  {
    if o <= Pow2(e - 1) {
      Powers(e - 1, M - 1 - e, o, M - 2);
    } else {
      Powers(e, M - 1 - e, o, M - 1);
      Powers(e - 1, M - 1 - e, Pow2(e) - o, M - 2);
    }
  }

  lemma FirstTurn(W: int -> Complex, M: nat, T: Table, e: nat, o: nat, u: Turns)
    requires IsRoot(W, M) && TableOk(W, M, T) && 1 <= e && e + 3 <= M && o < Pow2(e)
    requires u == PointersAt(T, M, e, o).turns
    ensures Conj(u.u0) == Root(W, M, e + 1, o)
  {
    var q, r := Pow2(M - 2), FirstPointer(M, e, o);
    RootIs(W, M, e + 1, o);
    FirstAngle(M, e, o);
    if o <= Pow2(e - 1) {
      assert EntryOk(W, M, T, r);
    } else {
      SecondQuarter(W, M, T, q - r);
      assert 2 * q - r == q + (q - r);
    }
  }

  lemma EighthFurther(M: nat, e: nat, o: nat)
    requires e + 3 <= M && o < Pow2(e)
    ensures Times(o, Pow2(M - 2 - e)) <= Pow2(M - 2) && Times(o, Pow2(M - 3 - e)) <= Pow2(M - 3)
    ensures Times(o + Pow2(e), Pow2(M - 3 - e)) == Times(o, Pow2(M - 3 - e)) + Pow2(M - 3)
  {
    var n := Pow2(M - 3 - e);
    Powers(e, M - 2 - e, o, M - 2);
    Powers(e, M - 3 - e, o, M - 3);
    Pow2Add(e, M - 3 - e);
    TimesIs(o, n);
    TimesIs(o + Pow2(e), n);
    LessOf(o + Pow2(e), Pow2(e), n);
  }

  lemma OtherTurns(W: int -> Complex, M: nat, T: Table, e: nat, o: nat, u: Turns)
    requires IsRoot(W, M) && TableOk(W, M, T) && 1 <= e && e + 3 <= M && o < Pow2(e)
    requires u == PointersAt(T, M, e, o).turns
    ensures Conj(u.u1) == Root(W, M, e + 2, o) && Conj(u.u2) == Root(W, M, e + 3, o)
      && Conj(u.u3) == Root(W, M, e + 3, o + Pow2(e))
  {
    var b, c := Times(o, Pow2(M - 2 - e)), Times(o, Pow2(M - 3 - e));
    var d := c + Pow2(M - 3);
    EighthFurther(M, e, o);
    RootIs(W, M, e + 2, o);
    RootIs(W, M, e + 3, o);
    RootIs(W, M, e + 3, o + Pow2(e));
    EntriesFit(W, M, T, FirstPointer(M, e, o), b, c, d, o > Pow2(e - 1));
  }

  lemma EntriesFit(W: int -> Complex, M: nat, T: Table, a: int, b: int, c: int, d: int, negate: bool)
    requires TableOk(W, M, T) && 0 <= b <= Pow2(M - 2) && 0 <= c && d == c + Pow2(M - 3) <= Pow2(M - 2)
    ensures var u := PointersFrom(T, a, b, c, Pow2(M - 2), Pow2(M - 3), negate).turns;
      Conj(u.u1) == W(b) && Conj(u.u2) == W(c) && Conj(u.u3) == W(d)
  {
    assert EntryOk(W, M, T, b) && EntryOk(W, M, T, c) && EntryOk(W, M, T, d);
  }

  /** The loops read the right table entries. */
  lemma TurnsAreRight(W: int -> Complex, M: nat, T: Table, e: nat, o: nat)
    requires IsRoot(W, M) && TableOk(W, M, T) && 1 <= e && e + 3 <= M && o < Pow2(e)
    ensures RightTurns(RootsOf(W, M), e, o, Pow2(e), PointersAt(T, M, e, o).turns)
  {
    var u := PointersAt(T, M, e, o).turns;
    FirstTurn(W, M, T, e, o, u);
    OtherTurns(W, M, T, e, o, u);
    assert Conj(u.u0) == Root(W, M, e + 1, o);
    assert Conj(u.u1) == Root(W, M, e + 2, o);
    assert Conj(u.u2) == Root(W, M, e + 3, o);
    assert Conj(u.u3) == Root(W, M, e + 3, o + Pow2(e));
    RightTurnsOf(W, M, e, o, Pow2(e), u, Conj(u.u0), Conj(u.u1), Conj(u.u2), Conj(u.u3));
  }

  lemma RightTurnsOf(W: int -> Complex, M: nat, e: nat, o: nat, n: int, u: Turns, c0: Complex, c1: Complex, c2: Complex,
                     c3: Complex)
    requires c0 == Root(W, M, e + 1, o) && c1 == Root(W, M, e + 2, o)
    requires c2 == Root(W, M, e + 3, o) && c3 == Root(W, M, e + 3, o + n)
    requires c0 == Conj(u.u0) && c1 == Conj(u.u1) && c2 == Conj(u.u2) && c3 == Conj(u.u3)
    ensures RightTurns(RootsOf(W, M), e, o, n, u)
  {}

  // ----- levels: the row holds the blocks of one size

  ghost predicate Level(p: Blocks, M: nat, e: nat, x: seq<Complex>) {
    && e <= M && |x| == Pow2(M)
    && forall b: nat, j: int {:trigger BlockHeld(p, e, x, b, j)} :: b < Pow2(M - e) && 0 <= j < Pow2(e) ==>
      BlockHeld(p, e, x, b, j)
  }

  ghost predicate BlockHeld(p: Blocks, e: nat, x: seq<Complex>, b: nat, j: int) {
    At(x, Times(b, Pow2(e)) + j) == p(e, b, j)
  }

  lemma TimesEight(e: nat)
    ensures Pow2(e + 3) == 8 * Pow2(e)
  {
    assert Pow2(e + 3) == 2 * Pow2(e + 2) && Pow2(e + 2) == 2 * Pow2(e + 1);
  }

  lemma Sections(M: nat, e: nat)
    requires e + 3 <= M
    ensures Times(Pow2(M - 3 - e), 8 * Pow2(e)) == Pow2(M) && Pow2(M - e) == 8 * Pow2(M - 3 - e)
  {
    var m := M - 3 - e;
    Pow2Add(m, e + 3);
    TimesEight(e);
    TimesIs(Pow2(m), 8 * Pow2(e));
    TimesEight(m);
  }

  lemma EightBlocks(n: nat, g: nat, k: nat)
    requires k < 8
    ensures Times(8 * g + k, n) == Times(g, 8 * n) + Kth(n, k)
  {
    TimesIs(8 * g + k, n);
    TimesIs(g, 8 * n);
    EightBlocksOf(n, g, k);
  }

  lemma EightBlocksOf(n: int, g: int, k: int)
    requires 0 <= k < 8
    ensures (8 * g + k) * n == g * (8 * n) + Kth(n, k)
  {
    assert (8 * g + k) * n == 8 * g * n + k * n;
  }

  /** Element `k` of a group, before the steps and after all three. */
  lemma GroupBefore(p: Blocks, M: nat, e: nat, x: seq<Complex>, g: nat, o: int)
    requires Level(p, M, e, x) && e + 3 <= M && Fits(Pow2(e), Pow2(M - 3 - e), g, 0, o)
    ensures GroupAt(x, Pow2(e), g, o) == Parts0(p, e, g, o)
  {
    var n := Pow2(e);
    Sections(M, e);
    forall k: int {:trigger Ith(GroupAt(x, n, g, o), k)} | 0 <= k < 8
      ensures Ith(GroupAt(x, n, g, o), k) == Ith(Parts0(p, e, g, o), k)
    {
      GroupPlaces(x, n, g, k, o);
      EightBlocks(n, g, k);
      assert BlockHeld(p, e, x, 8 * g + k, o);
    }
    SameEight(GroupAt(x, n, g, o), Parts0(p, e, g, o));
  }

  lemma WhichOfEight(n: nat, j: int) returns (k: int, o: int)
    requires 0 <= j < 8 * n
    ensures 0 <= k < 8 && 0 <= o < n && j == Kth(n, k) + o
  {
    k, o := 0, j;
    if o >= n { k, o := 1, o - n; }
    if o >= n { k, o := 2, o - n; }
    if o >= n { k, o := 3, o - n; }
    if o >= n { k, o := 4, o - n; }
    if o >= n { k, o := 5, o - n; }
    if o >= n { k, o := 6, o - n; }
    if o >= n { k, o := 7, o - n; }
  }

  lemma PartsInBlock(p: Blocks, e: nat, g: nat, o: int, n: int, k: int)
    requires 0 <= k < 8
    ensures Ith(Parts3(p, e, g, o, n), k) == p(e + 3, g, o + Kth(n, k))
  {}

  lemma LevelAfter(p: Blocks, M: nat, e: nat, y: seq<Complex>)
    requires e + 3 <= M && |y| == Pow2(M)
    requires forall g: nat, o: int :: Fits(Pow2(e), Pow2(M - 3 - e), g, 0, o) ==>
      GroupAt(y, Pow2(e), g, o) == Parts3(p, e, g, o, Pow2(e))
    ensures Level(p, M, e + 3, y)
  {
    var n := Pow2(e);
    TimesEight(e);
    forall b: nat, j: int {:trigger BlockHeld(p, e + 3, y, b, j)} | b < Pow2(M - (e + 3)) && 0 <= j < Pow2(e + 3)
      ensures BlockHeld(p, e + 3, y, b, j) {
      var k, o := WhichOfEight(n, j);
      assert Fits(n, Pow2(M - 3 - e), b, 0, o);
      GroupPlaces(y, n, b, k, o);
      PartsInBlock(p, e, b, o, n, k);
    }
  }

  // ----- a radix-8 stage

  function PointersBy(T: Table, M: nat, e: nat): int -> Pointers
    requires 1 <= e && e + 3 <= M
  {
    q => PointersAt(T, M, e, if 0 <= q then q else 0)
  }

  lemma PointersStart(T: Table, M: nat, e: nat)
    requires 1 <= e && e + 3 <= M
    ensures PointersBy(T, M, e)(0) == Started(T, Pow2(M - 2), StepsAt(M, e).eighth)
  {
    StartsAt(T, M, e, 0);
    assert PointersVia(T, StepsAt(M, e), Pow2(M - 2), 0, 0, false) == Started(T, Pow2(M - 2), StepsAt(M, e).eighth);
  }

  lemma StartsAt(T: Table, M: nat, e: nat, o: nat)
    requires 1 <= e && e + 3 <= M && o == 0
    ensures PointersBy(T, M, e)(0) == PointersVia(T, StepsAt(M, e), Pow2(M - 2), 0, 0, false)
  {
    assert FirstPointer(M, e, o) == Times(o, Pow2(M - 1 - e)) == 0;
    assert PointersBy(T, M, e)(o) == PointersAt(T, M, e, o);
  }

  lemma PointersGo(T: Table, M: nat, e: nat)
    requires 1 <= e && e + 3 <= M
    ensures var pts, st := PointersBy(T, M, e), StepsAt(M, e);
      && (forall q :: 0 <= q < Pow2(e - 1) ==> pts(q + 1) == Advancing(T, st, false)(pts(q)))
      && (forall q :: Pow2(e - 1) <= q < Pow2(e) ==> pts(q + 1) == Advancing(T, st, true)(pts(q)))
  {
    var pts, st := PointersBy(T, M, e), StepsAt(M, e);
    forall q | 0 <= q < Pow2(e - 1) ensures pts(q + 1) == Advancing(T, st, false)(pts(q)) { PointersUp(T, M, e, q); }
    forall q | Pow2(e - 1) <= q < Pow2(e) ensures pts(q + 1)
      == Advancing(T, st, true)(pts(q)) { PointersDown(T, M, e, q); }
  }

  lemma StageGroup(T: Table, M: nat, x: seq<Complex>, e: nat, g: nat, o: int)
    requires 1 <= e && e + 3 <= M && |x| == Pow2(M) && Fits(Pow2(e), Pow2(M - 3 - e), g, 0, o)
    ensures var y := Stage(ForwardOps(), T, M, x, e);
      |y| == |x| && GroupAt(y, Pow2(e), g, o) == Fly8(ForwardOps(), PointersAt(T, M, e, o).turns,
        GroupAt(x, Pow2(e), g, o))
  {
    var st, pts, flies := StepsAt(M, e), PointersBy(T, M, e), FliesOf(ForwardOps());
    var n, groups, half := Pow2(e), Pow2(M - 3 - e), Pow2(e - 1);
    Sections(M, e);
    PointersStart(T, M, e);
    PointersGo(T, M, e);
    SweepsGroups(flies, Advancing(T, st, false), Advancing(T, st, true), pts, x, n, groups, half, g, o);
    var a := Sweep(GroupsBy(flies, n), Advancing(T, st, false), x, 0, 8 * n, groups, pts(0), half);
    var b := Sweep(GroupsBy(flies, n), Advancing(T, st, true), a.x, half, 8 * n, groups, a.pt, half);
    assert Stage(ForwardOps(), T, M, x, e) == b.x;
    assert pts(o) == PointersAt(T, M, e, o);
    assert flies(Radix8(pts(o).turns))(GroupAt(x, n, g, o)) == Fly8(ForwardOps(), pts(o).turns, GroupAt(x, n, g, o));
  }

  /** A radix-8 stage takes the row three levels up. */
  lemma StageRises(W: int -> Complex, M: nat, T: Table, p: Blocks, x: seq<Complex>, e: nat)
    requires IsRoot(W, M) && TableOk(W, M, T) && 1 <= e && e + 3 <= M && Halving(p, RootsOf(W, M), M)
      && Level(p, M, e, x)
    ensures Level(p, M, e + 3, Stage(ForwardOps(), T, M, x, e))
  {
    var n := Pow2(e);
    var y := Stage(ForwardOps(), T, M, x, e);
    forall g: nat, o: int | Fits(n, Pow2(M - 3 - e), g, 0, o) ensures GroupAt(y, n, g, o) == Parts3(p, e, g, o, n) {
      StageGroup(T, M, x, e, g, o);
      GroupBefore(p, M, e, x, g, o);
      TurnsAreRight(W, M, T, e, o);
      Fly8Steps(p, RootsOf(W, M), M, e, g, o, n, PointersAt(T, M, e, o).turns, GroupAt(x, n, g, o),
        Parts3(p, e, g, o, n));
    }
    StageGroup(T, M, x, e, 0, 0);
    LevelAfter(p, M, e, y);
  }

  // ----- the stages before and after

  function Terms(row: seq<Complex>): int -> Complex { i => At(row, i) }

  /** The first stage: pairs from bit-reversed places. */
  lemma FirstRowRises(W: int -> Complex, M: nat, row: seq<Complex>)
    requires IsRoot(W, M) && |row| == Pow2(M)
    ensures Level(BlocksOf(W, M, Terms(row)), M, 1, FirstRow(PairingOf(Forward, M), M, row))
  {
    var p, y := BlocksOf(W, M, Terms(row)), FirstRow(PairingOf(Forward, M), M, row);
    forall b: nat, j: int | b < Pow2(M - 1) && 0 <= j < Pow2(1) ensures BlockHeld(p, 1, y, b, j) {
      FirstPair(W, M, row, b, j);
    }
  }

  lemma FirstPair(W: int -> Complex, M: nat, row: seq<Complex>, b: nat, j: int)
    requires IsRoot(W, M) && |row| == Pow2(M) && b < Pow2(M - 1) && 0 <= j < 2
    ensures BlockHeld(BlocksOf(W, M, Terms(row)), 1, FirstRow(PairingOf(Forward, M), M, row), b, j)
  {
    var e := 1;
    FirstPart(W, M, Terms(row), b, j);
    FirstSum(M, row, b, j);
    Held(BlocksOf(W, M, Terms(row)), e, FirstRow(PairingOf(Forward, M), M, row), b, j, Part(W, M, Terms(row), 1, b, j));
  }

  lemma Held(p: Blocks, e: nat, x: seq<Complex>, b: nat, j: int, z: Complex)
    requires e == 1 && At(x, 2 * b + j) == z == p(1, b, j)
    ensures BlockHeld(p, e, x, b, j)
  {
    TimesIs(b, Pow2(e));
  }

  lemma FirstPart(W: int -> Complex, M: nat, x: int -> Complex, b: nat, j: int)
    requires IsRoot(W, M) && 0 <= j < 2
    ensures var u, v := x(Rev(M, 2 * b)), x(Rev(M, 2 * b + 1));
      Part(W, M, x, 1, b, j) == if j == 0 then Plus(u, v) else Minus(u, v)
  {
    RootZero(W, M, 1);
    MulOne(x(Rev(M, 2 * b + 1)));
    PairOfParts(W, M, x, 0, b);
  }

  lemma PairOfParts(W: int -> Complex, M: nat, x: int -> Complex, e: nat, b: nat)
    requires e == 0
    ensures var u, v, t := x(Rev(M, 2 * b)), x(Rev(M, 2 * b + 1)), Root(W, M, 1, 0);
      Part(W, M, x, 1, b, 0) == Plus(u, Mul(t, v)) && Part(W, M, x, 1, b, 1) == Minus(u, Mul(t, v))
  {
    assert Part(W, M, x, e, 2 * b, 0) == x(Rev(M, 2 * b)) && Part(W, M, x, e, 2 * b + 1, 0) == x(Rev(M, 2 * b + 1));
  }

  lemma FirstSum(M: nat, row: seq<Complex>, b: nat, j: int)
    requires |row| == Pow2(M) && 1 <= M && b < Pow2(M - 1) && 0 <= j < 2
    ensures var u, v := At(row, Rev(M, 2 * b)), At(row, Rev(M, 2 * b + 1));
      At(FirstRow(PairingOf(Forward, M), M, row), 2 * b + j) == if j == 0 then Plus(u, v) else Minus(u, v)
  {
    RevBound(M, 2 * b);
    RevBound(M, 2 * b + 1);
    assert B.Staged(PairingOf(Forward, M), M, 0, row, 2 * b + j)
      == B.Combined(PairingOf(Forward, M), row[Rev(M, 2 * b)], row[Rev(M, 2 * b + 1)], j);
  }

  /** Eight neighbours at the first level. */
  lemma GroupOfPairs(p: Blocks, M: nat, x: seq<Complex>, g: nat)
    requires Level(p, M, 1, x) && 3 <= M && g < Pow2(M - 3)
    ensures GroupAt(x, 1, g, 0) == Parts1(p, 0, g, 0, 1)
  {
    Sections(M, 0);
    TimesIs(g, 8);
    assert Pow2(M - 1) == 2 * Pow2(M - 2) && Pow2(M - 2) == 2 * Pow2(M - 3);
    TimesIs(4 * g, 2);
    TimesIs(4 * g + 1, 2);
    TimesIs(4 * g + 2, 2);
    TimesIs(4 * g + 3, 2);
    assert BlockHeld(p, 1, x, 4 * g, 0) && BlockHeld(p, 1, x, 4 * g, 1);
    assert BlockHeld(p, 1, x, 4 * g + 1, 0) && BlockHeld(p, 1, x, 4 * g + 1, 1);
    assert BlockHeld(p, 1, x, 4 * g + 2, 0) && BlockHeld(p, 1, x, 4 * g + 2, 1);
    assert BlockHeld(p, 1, x, 4 * g + 3, 0) && BlockHeld(p, 1, x, 4 * g + 3, 1);
  }

  lemma LevelTwo(p: Blocks, M: nat, y: seq<Complex>)
    requires 3 <= M && |y| == Pow2(M)
    requires forall g: nat :: g < Pow2(M - 3) ==> GroupAt(y, 1, g, 0) == Parts2(p, 0, g, 0, 1)
    ensures Level(p, M, 2, y)
  {
    assert Pow2(M - 2) == 2 * Pow2(M - 3) && Pow2(2) == 2 * Pow2(1) == 4;
    forall b: nat, j: int | b < Pow2(M - 2) && 0 <= j < Pow2(2) ensures BlockHeld(p, 2, y, b, j) {
      var g := b / 2;
      assert GroupAt(y, 1, g, 0) == Parts2(p, 0, g, 0, 1);
      GroupPlaces(y, 1, g, 4 * (b % 2) + j, 0);
      TimesIs(g, 8);
      TimesIs(b, 4);
    }
  }

  function LevelBefore(M: nat): nat
    requires 3 <= M
  {
    1 + (M - 1) % 3
  }

  lemma GroupsRise(p: Blocks, M: nat, k: Kernel, x: seq<Complex>, g: nat)
    requires 3 <= M && Level(p, M, 1, x) && g < Pow2(M - 3)
    ensures var y := Groups(ForwardOps(), k, x, 0, 1, Pow2(M - 3));
      |y| == |x| && GroupAt(y, 1, g, 0) == Fly(ForwardOps(), k, Parts1(p, 0, g, 0, 1))
  {
    Sections(M, 0);
    AlongGroups(FlyOf(ForwardOps(), k), x, 1, Pow2(M - 3), 0, g, 0);
    GroupOfPairs(p, M, x, g);
  }

  lemma BeforeTwo(p: Blocks, w: Roots, M: nat, x: seq<Complex>)
    requires Halving(p, w, M) && 3 <= M && Level(p, M, 1, x)
    ensures Level(p, M, 2, Groups(ForwardOps(), Radix2, x, 0, 1, Pow2(M - 3)))
  {
    var y := Groups(ForwardOps(), Radix2, x, 0, 1, Pow2(M - 3));
    GroupsRise(p, M, Radix2, x, 0);
    forall g: nat | g < Pow2(M - 3) ensures GroupAt(y, 1, g, 0) == Parts2(p, 0, g, 0, 1) {
      GroupsRise(p, M, Radix2, x, g);
      Fly2Steps(p, w, M, g);
    }
    LevelTwo(p, M, y);
  }

  lemma FourGroup(p: Blocks, w: Roots, M: nat, u: Complex, x: seq<Complex>, g: nat)
    requires Halving(p, w, M) && 3 <= M && Level(p, M, 1, x) && Conj(u) == w(3, 1) && g < Pow2(M - 3)
    ensures var y := Groups(ForwardOps(), Radix4(u), x, 0, 1, Pow2(M - 3));
      |y| == |x| && GroupAt(y, 1, g, 0) == Parts3(p, 0, g, 0, 1)
  {
    GroupsRise(p, M, Radix4(u), x, g);
    Fly4Steps(p, w, M, g, u);
  }

  lemma BeforeFour(p: Blocks, w: Roots, M: nat, u: Complex, x: seq<Complex>)
    requires Halving(p, w, M) && 3 <= M && Level(p, M, 1, x) && Conj(u) == w(3, 1)
    ensures Level(p, M, 3, Groups(ForwardOps(), Radix4(u), x, 0, 1, Pow2(M - 3)))
  {
    var y, n := Groups(ForwardOps(), Radix4(u), x, 0, 1, Pow2(M - 3)), Pow2(0);
    FourGroup(p, w, M, u, x, 0);
    forall g: nat, o: int | Fits(n, Pow2(M - 3 - 0), g, 0, o) ensures GroupAt(y, n, g, o) == Parts3(p, 0, g, o, n) {
      FourGroup(p, w, M, u, x, g);
    }
    LevelAfter(p, M, 0, y);
  }

  /** The stage that makes up for sizes that radix 8 does not divide. */
  lemma BeforeRises(W: int -> Complex, M: nat, T: Table, p: Blocks, x: seq<Complex>)
    requires IsRoot(W, M) && TableOk(W, M, T) && Halving(p, RootsOf(W, M), M) && Level(p, M, 1, x)
    ensures Level(p, M, LevelBefore(M), Before(ForwardOps(), T, M, x))
  {
    if (M - 1) % 3 == 1 {
      BeforeTwo(p, RootsOf(W, M), M, x);
    } else if (M - 1) % 3 == 2 {
      EighthTurn(W, M, T);
      BeforeFour(p, RootsOf(W, M), M, Complex(T.sqrtHalf, T.sqrtHalf), x);
    }
  }

  lemma EighthTurn(W: int -> Complex, M: nat, T: Table)
    requires IsRoot(W, M) && TableOk(W, M, T)
    ensures Conj(Complex(T.sqrtHalf, T.sqrtHalf)) == Root(W, M, 3, 1)
  {
    var e := Pow2(M - 3);
    RootIs(W, M, 3, 1);
    TimesIs(1, e);
    assert EntryOk(W, M, T, e) && Pow2(M - 2) == 2 * e;
  }

  lemma {:induction false} StagesRise(W: int -> Complex, M: nat, T: Table, p: Blocks, x: seq<Complex>, e: nat)
    requires IsRoot(W, M) && TableOk(W, M, T) && 1 <= e <= M && (M - e) % 3 == 0
    requires Halving(p, RootsOf(W, M), M) && Level(p, M, e, x)
    ensures Level(p, M, M, Stages(StageOf(ForwardOps(), T, M), M, x, e))
    decreases M - e
  {
    if e < M {
      StageRises(W, M, T, p, x, e);
      StagesRise(W, M, T, p, Stage(ForwardOps(), T, M, x, e), e + 3);
    }
  }

  lemma PassesRise(W: int -> Complex, M: nat, T: Table, p: Blocks, x: seq<Complex>)
    requires IsRoot(W, M) && TableOk(W, M, T) && Halving(p, RootsOf(W, M), M) && Level(p, M, 1, x)
    ensures Level(p, M, M, Passes(ForwardOps(), T, M, x))
  {
    BeforeRises(W, M, T, p, x);
    StagesRise(W, M, T, p, Before(ForwardOps(), T, M, x), LevelBefore(M));
  }

  lemma LastLevel(W: int -> Complex, M: nat, x: int -> Complex, y: seq<Complex>, j: nat)
    requires IsRoot(W, M) && Level(BlocksOf(W, M, x), M, M, y) && j < Pow2(M)
    ensures |y| == Pow2(M) && y[j] == Transformed(W, M, x, j)
  {
    assert BlockHeld(BlocksOf(W, M, x), M, y, 0, j);
    LastPart(W, M, x, j);
  }

  /** What `ffts` makes of a row is its discrete Fourier transform, for every table that holds the cosines of a turn. */
  lemma ForwardIsDft(W: int -> Complex, M: nat, T: Table, row: seq<Complex>, j: nat)
    requires IsRoot(W, M) && TableOk(W, M, T) && |row| == Pow2(M) && j < Pow2(M)
    ensures RowTransform(Forward, T, M, row)[j] == Transformed(W, M, Terms(row), j)
  {
    var x := Terms(row);
    PartsHalve(W, M, x);
    FirstRowRises(W, M, row);
    PassesRise(W, M, T, BlocksOf(W, M, x), FirstRow(PairingOf(Forward, M), M, row));
    LastLevel(W, M, x, RowTransform(Forward, T, M, row), j);
  }
}

/** `rffts` computes the discrete Fourier transform of real numbers, and `riffts` undoes it. A row of `2^M` complex
    numbers holds `2^(M+1)` real ones; `W` is the root of that order. */
module RealTransform {
  import opened BitReversal
  import opened Butterflies
  import opened FirstStage
  import opened FftPasses
  import opened FftLoops
  import opened Dft
  import opened FftIsDft
  import opened FftInverse
  import E = MirrorExchange
  import B = BitrevStage
  import R = RealFft

  // ----- the stages in the middle are linear

  function Scaling(c: real): Complex -> Complex { z => FftLoops.Scaled(c, z) }

  lemma SumsScaled(c: real, f: Complex, g: Complex)
    ensures Plus(FftLoops.Scaled(c, f), FftLoops.Scaled(c, g)) == FftLoops.Scaled(c, Plus(f, g))
    ensures Minus(FftLoops.Scaled(c, f), FftLoops.Scaled(c, g)) == FftLoops.Scaled(c, Minus(f, g))
    ensures PlusI(FftLoops.Scaled(c, f), FftLoops.Scaled(c, g)) == FftLoops.Scaled(c, PlusI(f, g))
    ensures MinusI(FftLoops.Scaled(c, f), FftLoops.Scaled(c, g)) == FftLoops.Scaled(c, MinusI(f, g))
  {
    RealDistributes(c, f.re, g.re);
    RealDistributes(c, f.im, g.im);
    RealDistributes(c, f.re, g.im);
    RealDistributes(c, f.im, g.re);
  }

  lemma OtherScaled(c: real, f: Complex, g: Complex)
    ensures Other(FftLoops.Scaled(c, f), FftLoops.Scaled(c, g)) == FftLoops.Scaled(c, Other(f, g))
  {
    Butterflies.Distributed(c, f.re, f.re, g.re);
    Butterflies.Distributed(c, f.im, f.im, g.im);
  }

  lemma ForwardTurnedScaled(c: real, f: Complex, u: Complex, g: Complex)
    ensures ForwardTurned(FftLoops.Scaled(c, f), u, FftLoops.Scaled(c, g)) == FftLoops.Scaled(c, ForwardTurned(f, u, g))
  {
    Component(c, f.re, u.re, g.re, u.im, g.im);
    Component(c, f.im, u.im, g.re, u.re, g.im);
  }

  lemma ForwardTurnedAddScaled(c: real, f: Complex, u: Complex, g: Complex)
    ensures ForwardTurnedAdd(FftLoops.Scaled(c, f), u, FftLoops.Scaled(c, g))
      == FftLoops.Scaled(c, ForwardTurnedAdd(f, u, g))
  {
    Component(c, f.re, u.im, g.re, u.re, g.im);
    Component(c, f.im, u.re, g.re, u.im, g.im);
  }

  lemma ForwardTurnedSubScaled(c: real, f: Complex, u: Complex, g: Complex)
    ensures ForwardTurnedSub(FftLoops.Scaled(c, f), u, FftLoops.Scaled(c, g))
      == FftLoops.Scaled(c, ForwardTurnedSub(f, u, g))
  {
    Component(c, f.re, u.im, g.re, u.re, g.im);
    Component(c, f.im, u.re, g.re, u.im, g.im);
  }

  lemma InverseTurnedScaled(c: real, f: Complex, u: Complex, g: Complex)
    ensures InverseTurned(FftLoops.Scaled(c, f), u, FftLoops.Scaled(c, g)) == FftLoops.Scaled(c, InverseTurned(f, u, g))
  {
    Component(c, f.re, u.re, g.re, u.im, g.im);
    Component(c, f.im, u.im, g.re, u.re, g.im);
  }

  lemma InverseTurnedAddScaled(c: real, f: Complex, u: Complex, g: Complex)
    ensures InverseTurnedAdd(FftLoops.Scaled(c, f), u, FftLoops.Scaled(c, g))
      == FftLoops.Scaled(c, InverseTurnedAdd(f, u, g))
  {
    Component(c, f.re, u.im, g.re, u.re, g.im);
    Component(c, f.im, u.re, g.re, u.im, g.im);
  }

  lemma InverseTurnedSubScaled(c: real, f: Complex, u: Complex, g: Complex)
    ensures InverseTurnedSub(FftLoops.Scaled(c, f), u, FftLoops.Scaled(c, g))
      == FftLoops.Scaled(c, InverseTurnedSub(f, u, g))
  {
    Component(c, f.re, u.im, g.re, u.re, g.im);
    Component(c, f.im, u.re, g.re, u.im, g.im);
  }

  lemma ScalingCarries(c: real, ops: Ops)
    requires ops == ForwardOps() || ops == InverseOps()
    ensures Carries(Scaling(c), ops, ops) && Scaling(c)(ZERO) == ZERO
  {
    var h := Scaling(c);
    forall f: Complex, g: Complex ensures ops.plus(h(f), h(g)) == h(ops.plus(f, g))
      && ops.minus(h(f), h(g)) == h(ops.minus(f, g)) {
      SumsScaled(c, f, g);
    }
    forall f: Complex, g: Complex
      ensures ops.quarter(h(f), h(g)) == h(ops.quarter(f, g)) && ops.unquarter(h(f), h(g)) == h(ops.unquarter(f, g))
    {
      SumsScaled(c, f, g);
    }
    forall f: Complex, u: Complex, g: Complex ensures ops.turned(h(f), u, h(g)) == h(ops.turned(f, u, g)) {
      ForwardTurnedScaled(c, f, u, g);
      InverseTurnedScaled(c, f, u, g);
    }
    forall f: Complex, u: Complex, g: Complex ensures ops.turnedAdd(h(f), u, h(g)) == h(ops.turnedAdd(f, u, g)) {
      ForwardTurnedAddScaled(c, f, u, g);
      InverseTurnedAddScaled(c, f, u, g);
    }
    forall f: Complex, u: Complex, g: Complex ensures ops.turnedSub(h(f), u, h(g)) == h(ops.turnedSub(f, u, g)) {
      ForwardTurnedSubScaled(c, f, u, g);
      InverseTurnedSubScaled(c, f, u, g);
    }
    forall f: Complex, g: Complex ensures ops.other(h(f), h(g)) == h(ops.other(f, g)) { OtherScaled(c, f, g); }
  }

  lemma PassesScaled(c: real, ops: Ops, T: Table, M: nat, x: seq<Complex>)
    requires 3 <= M && (ops == ForwardOps() || ops == InverseOps())
    ensures Passes(ops, T, M, MapAll(Scaling(c), x)) == MapAll(Scaling(c), Passes(ops, T, M, x))
  {
    ScalingCarries(c, ops);
    MappingCarries(Scaling(c), ops, ops);
    PassesCarried(Mapping(Scaling(c)), ops, ops, T, M, x);
  }

  /** One pairing does to scaled elements what another one does, scaled. */
  ghost predicate PairingScaled(c: real, d: real, a: E.Pairing, b: E.Pairing) {
    forall f: Complex, g: Complex {:trigger PairScaled(c, d, a, b, f, g)} :: PairScaled(c, d, a, b, f, g)
  }

  ghost predicate PairScaled(c: real, d: real, a: E.Pairing, b: E.Pairing, f: Complex, g: Complex) {
    && b.sum(FftLoops.Scaled(d, f), FftLoops.Scaled(d, g)) == FftLoops.Scaled(c, a.sum(f, g))
    && b.difference(FftLoops.Scaled(d, f), FftLoops.Scaled(d, g)) == FftLoops.Scaled(c, a.difference(f, g))
  }

  lemma ElementScaled(c: real, d: real, a: E.Pairing, b: E.Pairing, M: nat, row: seq<Complex>, j: nat)
    requires |row| == Pow2(M) && PairingScaled(c, d, a, b) && j < Pow2(M)
    ensures B.Staged(b, M, 0, MapAll(Scaling(d), row), j) == FftLoops.Scaled(c, B.Staged(a, M, 0, row, j))
  {
    var e := j - j % 2;
    RevBound(M, e);
    RevBound(M, e + 1);
    CombinedScaled(c, d, a, b, row[Rev(M, e)], row[Rev(M, e + 1)], j % 2);
  }

  lemma CombinedScaled(c: real, d: real, a: E.Pairing, b: E.Pairing, f: Complex, g: Complex, l: nat)
    requires PairingScaled(c, d, a, b)
    ensures B.Combined(b, FftLoops.Scaled(d, f), FftLoops.Scaled(d, g), l) == FftLoops.Scaled(c, B.Combined(a, f, g, l))
  {
    assert PairScaled(c, d, a, b, f, g);
  }

  lemma FirstRowScaled(c: real, d: real, a: E.Pairing, b: E.Pairing, M: nat, row: seq<Complex>)
    requires |row| == Pow2(M) && PairingScaled(c, d, a, b)
    ensures FirstRow(b, M, MapAll(Scaling(d), row)) == MapAll(Scaling(c), FirstRow(a, M, row))
  {
    var x, y := FirstRow(a, M, row), FirstRow(b, M, MapAll(Scaling(d), row));
    forall j | 0 <= j < Pow2(M) ensures y[j] == FftLoops.Scaled(c, x[j]) {
      ElementScaled(c, d, a, b, M, row, j);
    }
  }

  /** A middle part is another one, scaled. */
  lemma MiddleScaled(c: real, d: real, f: Direction, g: Direction, T: Table, T': Table, M: nat, row: seq<Complex>)
    requires 3 <= M && |row| == Pow2(M) && OpsOf(f) == OpsOf(g) && TableOf(f, T, M) == TableOf(g, T', M)
    requires PairingScaled(c, d, PairingOf(f, M), PairingOf(g, M))
    ensures Middle(g, T', M, MapAll(Scaling(d), row)) == MapAll(Scaling(c), Middle(f, T, M, row))
  {
    FirstRowScaled(c, d, PairingOf(f, M), PairingOf(g, M), M, row);
    PassesScaled(c, OpsOf(f), TableOf(f, T, M), M, FirstRow(PairingOf(f, M), M, row));
  }

  lemma Unscaled(row: seq<Complex>)
    ensures MapAll(Scaling(1.0), row) == row
  {
    forall i | 0 <= i < |row| ensures MapAll(Scaling(1.0), row)[i] == row[i] {
      assert 1.0 * row[i].re == row[i].re && 1.0 * row[i].im == row[i].im;
    }
  }

  /** The middle of `rffts` is half of `ffts` with the thin table. */
  lemma HalfForward(T: Table, M: nat, row: seq<Complex>)
    requires 3 <= M && |row| == Pow2(M)
    ensures Middle(RealForward, T, M, row) == MapAll(Scaling(0.5), RowTransform(Forward, Thin(T, M), M, row))
  {
    var a, b := PairingOf(Forward, M), PairingOf(RealForward, M);
    forall f: Complex, g: Complex ensures PairScaled(0.5, 1.0, a, b, f, g) { SumsScaled(1.0, f, g); }
    MiddleScaled(0.5, 1.0, Forward, RealForward, Thin(T, M), T, M, row);
    Unscaled(row);
  }

  /** The middle of `riffts`, on a row multiplied by two, is `iffts` with the thin table. */
  lemma TwiceInverse(T: Table, M: nat, row: seq<Complex>)
    requires 3 <= M && |row| == Pow2(M)
    ensures Middle(RealInverse, T, M, MapAll(Scaling(2.0), row)) == RowTransform(Inverse, Thin(T, M), M, row)
  {
    var a, b := PairingOf(Inverse, M), PairingOf(RealInverse, M);
    forall f: Complex, g: Complex ensures PairScaled(1.0, 2.0, a, b, f, g) {
      SumsScaled(2.0, f, g);
      HalfAgain(M, Plus(f, g));
      HalfAgain(M, Minus(f, g));
    }
    MiddleScaled(1.0, 2.0, Inverse, RealInverse, Thin(T, M), T, M, row);
    Unscaled(RowTransform(Inverse, Thin(T, M), M, row));
  }

  lemma HalfAgain(M: nat, z: Complex)
    ensures FftLoops.Scaled(Reciprocal(M + 1), FftLoops.Scaled(2.0, z))
      == FftLoops.Scaled(1.0, FftLoops.Scaled(Reciprocal(M), z))
  {
    assert 2.0 * Reciprocal(M + 1) == Reciprocal(M);
    MulThree(Reciprocal(M + 1), 2.0, z.re);
    MulThree(Reciprocal(M + 1), 2.0, z.im);
  }

  // ----- the thin table

  /** Every second power of the root. */
  function Second(W: int -> Complex): int -> Complex { a => W(2 * a) }

  /** The root of the transform of half the size, and its table. */
  lemma ThinOk(W: int -> Complex, M: nat, T: Table)
    requires 3 <= M && IsRoot(W, M + 1) && TableOk(W, M + 1, T)
    ensures IsRoot(Second(W), M) && TableOk(Second(W), M, Thin(T, M))
  {
    var V, q := Second(W), Pow2(M - 2);
    assert Pow2(M - 1) == 2 * q && q == 2 * Pow2(M - 3);
    forall a, b ensures AddsUp(V, a, b) { assert AddsUp(W, 2 * a, 2 * b); }
    forall i | 0 <= i <= q ensures EntryOk(V, M, Thin(T, M), i) { assert EntryOk(W, M + 1, T, 2 * i); }
  }

  /** Entries that mirror each other are the cosine and the sine of one angle. */
  lemma TableOnCircle(W: int -> Complex, M: nat, T: Table)
    requires IsRoot(W, M) && TableOk(W, M, T)
    ensures R.OnCircle(T.cos, Pow2(M - 2))
  {
    var q := Pow2(M - 2);
    forall i, j | 0 < i < q && j == q - i ensures T.cos[i] * T.cos[i] + T.cos[j] * T.cos[j] == 1.0 {
      assert EntryOk(W, M, T, i) && EntryOk(W, M, T, j) && AddsUp(W, i, j);
      UnitOf(Tab(T, i), Tab(T, j));
      CircleOf(T.cos[i], T.cos[j]);
    }
  }

  lemma CircleOf(a: real, b: real)
    requires Mul(Complex(a, -b), Complex(a, b)) == ONE
    ensures a * a + b * b == 1.0
  {
    NegProduct(b, b);
  }

  // ----- there and back

  lemma FoursHalves(x: seq<Complex>)
    ensures R.Fours(MapAll(Scaling(0.5), x)) == MapAll(Scaling(2.0), x)
  {
    forall i | 0 <= i < |x| ensures R.Fours(MapAll(Scaling(0.5), x))[i] == FftLoops.Scaled(2.0, x[i]) {
      assert 4.0 * (0.5 * x[i].re) == 2.0 * x[i].re && 4.0 * (0.5 * x[i].im) == 2.0 * x[i].im;
    }
  }

  lemma StartAfterFinish(W: int -> Complex, M: nat, T: Table, row: seq<Complex>, x: seq<Complex>)
    requires 3 <= M && IsRoot(W, M + 1) && TableOk(W, M + 1, T) && |row| == |x| == Pow2(M)
    requires Middle(RealForward, T, M, row) == MapAll(Scaling(0.5), x)
    ensures R.Passed(R.Start(), T.cos, Pow2(M - 1), RowTransform(RealForward, T, M, row)) == MapAll(Scaling(2.0), x)
  {
    TableOnCircle(W, M + 1, T);
    PassesOnHalves(T.cos, Pow2(M - 1), x);
  }

  lemma PassesOnHalves(T: seq<real>, q: nat, x: seq<Complex>)
    requires 0 < q && R.OnCircle(T, q) && |x| == 2 * q
    ensures R.Passed(R.Start(), T, q, R.Passed(R.Finish(), T, q, MapAll(Scaling(0.5), x))) == MapAll(Scaling(2.0), x)
  {
    R.AllFour(T, q, MapAll(Scaling(0.5), x));
    FoursHalves(x);
  }

  lemma Doubled(W: int -> Complex, M: nat, T: Table, row: seq<Complex>) returns (x: seq<Complex>)
    requires 3 <= M && IsRoot(W, M + 1) && TableOk(W, M + 1, T) && |row| == Pow2(M)
    ensures |x| == Pow2(M) && RowTransform(Inverse, Thin(T, M), M, x) == row
    ensures R.Passed(R.Start(), T.cos, Pow2(M - 1), RowTransform(RealForward, T, M, row)) == MapAll(Scaling(2.0), x)
  {
    x := RowTransform(Forward, Thin(T, M), M, row);
    HalfForward(T, M, row);
    StartAfterFinish(W, M, T, row, x);
    ThinOk(W, M, T);
    InverseUndoes(Second(W), M, Thin(T, M), row);
  }

  /** `riffts` gives back the row that `rffts` transformed. */
  lemma RealUndoes(W: int -> Complex, M: nat, T: Table, row: seq<Complex>)
    requires 3 <= M && IsRoot(W, M + 1) && TableOk(W, M + 1, T) && |row| == Pow2(M)
    ensures RowTransform(RealInverse, T, M, RowTransform(RealForward, T, M, row)) == row
  {
    var x := Doubled(W, M, T, row);
    TwiceInverse(T, M, x);
  }

  /** `rffts` and then `riffts`, in place: the array is what it was. */
  method RealThereAndBack(io: array<Complex>, M: nat, Rows: nat, T: Table, ghost W: int -> Complex)
    requires 3 <= M <= 19 && Times(Rows, Pow2(M)) <= io.Length && IsRoot(W, M + 1) && TableOk(W, M + 1, T)
    modifies io
    ensures io[..] == old(io[..])
  {
    assert Pow2(M - 1) == 2 * Pow2(M - 2);
    forall row: seq<Complex> ensures RowReturns(RealForward, RealInverse, T, M, row) {
      if |row| == Pow2(M) { RealUndoes(W, M, T, row); }
    }
    ghost var y := AllReturn(RealForward, RealInverse, T, M, io[..], Rows);
    Transform(io, M, Rows, T, RealForward);
    Transform(io, M, Rows, T, RealInverse);
  }
}

/** `iffts` undoes `ffts`: roots of unity add up to nothing, except over whole turns. */
module FftInverse {
  import opened BitReversal
  import opened Butterflies
  import opened FirstStage
  import opened FftPasses
  import opened FftLoops
  import opened Dft
  import opened FftIsDft

  // ----- sums of sums

  function RowOf(g: (int, int) -> Complex, k: int): int -> Complex { i => g(k, i) }

  function ColumnOf(g: (int, int) -> Complex, i: int): int -> Complex { k => g(k, i) }

  function RowSums(g: (int, int) -> Complex, m: nat): int -> Complex { k => Sum(m, RowOf(g, k)) }

  function ColumnSums(g: (int, int) -> Complex, n: nat): int -> Complex { i => Sum(n, ColumnOf(g, i)) }

  lemma {:induction false} SumZero(n: nat, f: int -> Complex)
    requires forall k :: 0 <= k < n ==> f(k) == ZERO
    ensures Sum(n, f) == ZERO
  {
    if n > 0 { SumZero(n - 1, f); }
  }

  /** Rows first or columns first. */
  lemma {:induction false} SumSwap(g: (int, int) -> Complex, n: nat, m: nat)
    ensures Sum(n, RowSums(g, m)) == Sum(m, ColumnSums(g, n))
  {
    if n == 0 {
      SumZero(m, ColumnSums(g, 0));
    } else {
      SumSwap(g, n - 1, m);
      forall i | 0 <= i < m ensures ColumnSums(g, n)(i) == Plus(ColumnSums(g, n - 1)(i), RowOf(g, n - 1)(i)) {
        assert Sum(n, ColumnOf(g, i)) == Plus(Sum(n - 1, ColumnOf(g, i)), ColumnOf(g, i)(n - 1));
      }
      SumPlus(m, ColumnSums(g, n - 1), RowOf(g, n - 1), ColumnSums(g, n));
    }
  }

  /** A sum with one term that counts. */
  lemma {:induction false} SumOne(n: nat, f: int -> Complex, m: nat)
    requires m < n && forall k :: 0 <= k < n && k != m ==> f(k) == ZERO
    ensures Sum(n, f) == f(m)
  {
    if m == n - 1 {
      SumZero(n - 1, f);
    } else {
      SumOne(n - 1, f, m);
    }
  }

  // ----- sums of roots

  function RootsAlong(W: int -> Complex, M: nat, e: nat, d: int): int -> Complex { k => Root(W, M, e, d * k) }

  lemma RootsHalve(W: int -> Complex, M: nat, e: nat, d: int, i: int)
    requires IsRoot(W, M) && e < M && (i == d || i + Pow2(e) == d)
    ensures var s := Sum(Pow2(e), RootsAlong(W, M, e, i));
      Sum(Pow2(e + 1), RootsAlong(W, M, e + 1, d)) == Plus(s, Mul(Root(W, M, e + 1, d), s))
  {
    var f, g, c := RootsAlong(W, M, e + 1, d), RootsAlong(W, M, e, i), Root(W, M, e + 1, d);
    var odd := k => f(2 * k + 1);
    forall k | 0 <= k < Pow2(e) ensures g(k) == f(2 * k) && odd(k) == f(2 * k + 1) && odd(k) == Mul(c, g(k)) {
      RootHalves(W, M, e, d, i, k);
    }
    SumParity(Pow2(e), f, g, odd);
    SumTimes(Pow2(e), c, g, odd);
  }

  lemma HalfCancels(W: int -> Complex, M: nat, e: nat)
    requires IsRoot(W, M) && e < M
    ensures Sum(Pow2(e + 1), RootsAlong(W, M, e + 1, Pow2(e))) == ZERO
  {
    var s := Sum(Pow2(e), RootsAlong(W, M, e, Pow2(e)));
    RootsHalve(W, M, e, Pow2(e), Pow2(e));
    RootHalf(W, M, e);
    MulNeg(ONE, s);
    MulOne(s);
  }

  lemma OthersCancel(W: int -> Complex, M: nat, e: nat, d: int, i: int)
    requires IsRoot(W, M) && e < M && (i == d || i + Pow2(e) == d) && Sum(Pow2(e), RootsAlong(W, M, e, i)) == ZERO
    ensures Sum(Pow2(e + 1), RootsAlong(W, M, e + 1, d)) == ZERO
  {
    RootsHalve(W, M, e, d, i);
    MulZero(Root(W, M, e + 1, d));
  }

  /** The powers of a root of order `2^e` add up to nothing. */
  lemma {:induction false} RootsCancel(W: int -> Complex, M: nat, e: nat, d: int)
    requires IsRoot(W, M) && e <= M && 0 < d < Pow2(e)
    ensures Sum(Pow2(e), RootsAlong(W, M, e, d)) == ZERO
    decreases e
  {
    var half := Pow2(e - 1);
    if d == half {
      HalfCancels(W, M, e - 1);
    } else {
      var i := if d < half then d else d - half;
      RootsCancel(W, M, e - 1, i);
      OthersCancel(W, M, e - 1, d, i);
    }
  }

  function Whole(n: nat): Complex { Complex(n as real, 0.0) }

  lemma {:induction false} SumOnes(n: nat, f: int -> Complex)
    requires forall k :: 0 <= k < n ==> f(k) == ONE
    ensures Sum(n, f) == Whole(n)
  {
    if n > 0 { SumOnes(n - 1, f); }
  }

  /** Over all powers of the root: the number of terms for whole turns, and nothing otherwise. */
  lemma Orthogonal(W: int -> Complex, M: nat, d: int)
    requires IsRoot(W, M) && 0 < d + Pow2(M) && d < Pow2(M)
    ensures Sum(Pow2(M), RootsAlong(W, M, M, d)) == if d == 0 then Whole(Pow2(M)) else ZERO
  {
    if d == 0 {
      SumOnes(Pow2(M), RootsAlong(W, M, M, 0));
    } else if d > 0 {
      RootsCancel(W, M, M, d);
    } else {
      RootsCancel(W, M, M, d + Pow2(M));
      forall k | 0 <= k < Pow2(M) ensures RootsAlong(W, M, M, d)(k) == RootsAlong(W, M, M, d + Pow2(M))(k) {
        RootTurns(W, M, M, d, k);
      }
      SumSame(Pow2(M), RootsAlong(W, M, M, d), RootsAlong(W, M, M, d + Pow2(M)));
    }
  }

  // ----- conjugates of roots

  lemma UnitFirst(W: int -> Complex, M: nat, T: Table)
    requires IsRoot(W, M) && TableOk(W, M, T)
    ensures Mul(W(1), Conj(W(1))) == ONE
  {
    var q := Pow2(M - 2);
    assert EntryOk(W, M, T, 1) && EntryOk(W, M, T, q - 1) && AddsUp(W, 1, q - 1);
    UnitOf(Tab(T, 1), Tab(T, q - 1));
  }

  lemma UnitOf(a: real, b: real)
    requires Mul(Complex(a, -b), Complex(b, -a)) == MINUS_I
    ensures Mul(Complex(a, -b), Complex(a, b)) == ONE
  {
    NegProduct(a, a);
    NegProduct(b, b);
    NegProduct(b, a);
    NegProduct(b, -a);
  }

  lemma {:induction false} UnitAll(W: int -> Complex, M: nat, T: Table, a: nat)
    requires IsRoot(W, M) && TableOk(W, M, T)
    ensures Mul(W(a), Conj(W(a))) == ONE
  {
    if a > 0 {
      UnitAll(W, M, T, a - 1);
      UnitFirst(W, M, T);
      assert AddsUp(W, a - 1, 1);
      UnitProduct(W(a - 1), W(1));
    }
  }

  lemma UnitProduct(u: Complex, v: Complex)
    requires Mul(u, Conj(u)) == ONE && Mul(v, Conj(v)) == ONE
    ensures Mul(Mul(u, v), Conj(Mul(u, v))) == ONE
  {
    ConjMul(u, v);
    var a, b := Conj(u), Conj(v);
    MulAssociates(u, v, Mul(a, b));
    MulCommutes(a, b);
    MulAssociates(v, b, a);
    MulOne(a);
  }

  /** The conjugate of a root is its inverse. */
  lemma ConjRoot(W: int -> Complex, M: nat, T: Table, a: int)
    requires IsRoot(W, M) && TableOk(W, M, T)
    ensures Conj(W(a)) == W(-a)
  {
    if a >= 0 {
      ConjOf(W, M, T, a);
    } else {
      ConjOf(W, M, T, -a);
    }
  }

  lemma ConjOf(W: int -> Complex, M: nat, T: Table, a: int)
    requires IsRoot(W, M) && TableOk(W, M, T) && 0 <= a
    ensures Conj(W(a)) == W(-a) && Conj(W(-a)) == W(a)
  {
    UnitAll(W, M, T, a);
    assert AddsUp(W, -a, a);
    MulAssociates(W(-a), W(a), Conj(W(a)));
    MulOne(W(-a));
    MulOne(Conj(W(a)));
  }

  // ----- there and back

  /** The terms of the double sum that the transform of the conjugate of a transform is. */
  function BackTerm(W: int -> Complex, m: int, x: int -> Complex): (int, int) -> Complex {
    (k, i) => Mul(W(m * k), Mul(W(-(k * i)), Conj(x(i))))
  }

  lemma ConjTransformed(W: int -> Complex, M: nat, T: Table, x: int -> Complex, m: int, k: int)
    requires IsRoot(W, M) && TableOk(W, M, T)
    ensures Mul(W(m * k), Conj(Transformed(W, M, x, k))) == Sum(Pow2(M), RowOf(BackTerm(W, m, x), k))
  {
    var n := Pow2(M);
    var f: int -> Complex := i => Mul(W(k * i), x(i));
    var h: int -> Complex := i => Conj(f(i));
    SumConj(n, f, h);
    assert Transformed(W, M, x, k) == Sum(n, f);
    var row := RowOf(BackTerm(W, m, x), k);
    forall i | 0 <= i < n ensures row(i) == Mul(W(m * k), h(i)) {
      ConjMul(W(k * i), x(i));
      ConjRoot(W, M, T, k * i);
    }
    SumTimes(n, W(m * k), h, row);
  }

  lemma Collected(W: int -> Complex, M: nat, m: int, x: int -> Complex, k: int, i: int)
    requires IsRoot(W, M)
    ensures BackTerm(W, m, x)(k, i) == Mul(Conj(x(i)), RootsAlong(W, M, M, m - i)(k))
  {
    var u, v, y := W(m * k), W(-(k * i)), Conj(x(i));
    MulAssociates(u, v, y);
    assert AddsUp(W, m * k, -(k * i));
    Differences(m, i, k);
    MulCommutes(Mul(u, v), y);
  }

  lemma Differences(m: int, i: int, k: int)
    ensures (m - i) * k == m * k + -(k * i)
  {}

  lemma ColumnIs(W: int -> Complex, M: nat, m: nat, x: int -> Complex, i: int)
    requires IsRoot(W, M) && m < Pow2(M) && 0 <= i < Pow2(M)
    ensures ColumnSums(BackTerm(W, m, x), Pow2(M))(i) == if i == m then Mul(Conj(x(m)), Whole(Pow2(M))) else ZERO
  {
    var n := Pow2(M);
    var column := ColumnOf(BackTerm(W, m, x), i);
    forall k | 0 <= k < n ensures column(k) == Mul(Conj(x(i)),
      RootsAlong(W, M, M, m - i)(k)) { Collected(W, M, m, x, k, i); }
    SumTimes(n, Conj(x(i)), RootsAlong(W, M, M, m - i), column);
    Orthogonal(W, M, m - i);
    MulZero(Conj(x(i)));
  }

  /** Transforming the conjugates of the transform gives the conjugates of the terms, times their number. */
  lemma Returned(W: int -> Complex, M: nat, T: Table, x: int -> Complex, y: int -> Complex, m: nat)
    requires IsRoot(W, M) && TableOk(W, M, T) && m < Pow2(M)
    requires forall k :: 0 <= k < Pow2(M) ==> y(k) == Conj(Transformed(W, M, x, k))
    ensures Transformed(W, M, y, m) == Mul(Conj(x(m)), Whole(Pow2(M)))
  {
    var n := Pow2(M);
    var g := BackTerm(W, m, x);
    var f: int -> Complex := k => Mul(W(m * k), y(k));
    forall k | 0 <= k < n ensures f(k) == RowSums(g, n)(k) { ConjTransformed(W, M, T, x, m, k); }
    SumSame(n, f, RowSums(g, n));
    SumSwap(g, n, n);
    forall i | 0 <= i < n ensures ColumnSums(g, n)(i)
      == if i == m then Mul(Conj(x(m)), Whole(n)) else ZERO { ColumnIs(W, M, m, x, i); }
    SumOne(n, ColumnSums(g, n), m);
  }

  lemma Conjugated(y: seq<Complex>, x: seq<Complex>, k: int)
    requires y == MapAll(Conjugation(1.0), x) && 0 <= k < |x|
    ensures Terms(y)(k) == Conj(Terms(x)(k))
  {
    assert 1.0 * x[k].re == x[k].re && 1.0 * x[k].im == x[k].im;
  }

  lemma Divided(M: nat, z: Complex)
    ensures ScaledConjugate(Reciprocal(M), Mul(Conj(z), Whole(Pow2(M)))) == z
  {
    assert Pow2(M) as real * Reciprocal(M) == 1.0;
    DividedParts(Pow2(M) as real, Reciprocal(M), z);
  }

  lemma DividedParts(n: real, r: real, z: Complex)
    requires n * r == 1.0
    ensures ScaledConjugate(r, Mul(Conj(z), Complex(n, 0.0))) == z
  {
    DividedOf(z.re, n, r);
    DividedOf(z.im, n, r);
    NegProduct(z.im, n);
    NegProduct(r, z.im * n);
    assert Mul(Conj(z), Complex(n, 0.0)) == Complex(z.re * n, -(z.im * n));
  }

  lemma DividedOf(a: real, n: real, r: real)
    requires n * r == 1.0
    ensures r * (a * n) == a
  {
    MulThree(a, n, r);
  }

  lemma ElementReturns(W: int -> Complex, M: nat, T: Table, row: seq<Complex>, y: seq<Complex>, m: nat)
    requires IsRoot(W, M) && TableOk(W, M, T) && |row| == Pow2(M) && m < Pow2(M)
    requires y == MapAll(Conjugation(1.0), RowTransform(Forward, T, M, row)) && |y| == Pow2(M)
    ensures ScaledConjugate(Reciprocal(M), RowTransform(Forward, T, M, y)[m]) == row[m]
  {
    forall k | 0 <= k < Pow2(M) ensures Terms(y)(k) == Conj(Transformed(W, M, Terms(row), k)) {
      ForwardIsDft(W, M, T, row, k);
      Conjugated(y, RowTransform(Forward, T, M, row), k);
    }
    Returned(W, M, T, Terms(row), Terms(y), m);
    ForwardIsDft(W, M, T, y, m);
    Divided(M, row[m]);
  }

  /** `iffts` gives back the row that `ffts` transformed. */
  lemma InverseUndoes(W: int -> Complex, M: nat, T: Table, row: seq<Complex>)
    requires IsRoot(W, M) && TableOk(W, M, T) && |row| == Pow2(M)
    ensures RowTransform(Inverse, T, M, RowTransform(Forward, T, M, row)) == row
  {
    var x := RowTransform(Forward, T, M, row);
    var y := MapAll(Conjugation(1.0), x);
    InverseIs(T, M, x);
    var z := MapAll(Conjugation(Reciprocal(M)), RowTransform(Forward, T, M, y));
    forall m | 0 <= m < Pow2(M) ensures z[m] == row[m] { ElementReturns(W, M, T, row, y, m); }
  }

  // ----- all rows of an array

  lemma RowsJoined(dir: Direction, T: Table, M: nat, a: seq<Complex>, b: seq<Complex>, rows: nat)
    requires TableFits(dir, T, M) && |a| == Pow2(M) && Times(rows, Pow2(M)) <= |b|
    ensures AllRows(dir, T, M, a + b, rows + 1) == RowTransform(dir, T, M, a) + AllRows(dir, T, M, b, rows)
  {
    assert (a + b)[..Pow2(M)] == a && (a + b)[Pow2(M)..] == b;
  }

  /** One procedure turns `x` into `y`, the other turns `y` back into `x`. */
  ghost predicate Returns(f: Direction, g: Direction, T: Table, M: nat, x: seq<Complex>, y: seq<Complex>, rows: nat) {
    && TableFits(f, T, M) && TableFits(g, T, M) && Times(rows, Pow2(M)) <= |x| == |y|
    && AllRows(f, T, M, x, rows) == y && AllRows(g, T, M, y, rows) == x
  }

  /** One procedure undoes the other on a row. */
  ghost predicate RowReturns(f: Direction, g: Direction, T: Table, M: nat, row: seq<Complex>) {
    TableFits(f, T, M) && TableFits(g, T, M) && |row| == Pow2(M) ==>
      RowTransform(g, T, M, RowTransform(f, T, M, row)) == row
  }

  ghost predicate EachReturns(f: Direction, g: Direction, T: Table, M: nat) {
    && TableFits(f, T, M) && TableFits(g, T, M)
    && forall row: seq<Complex> {:trigger RowReturns(f, g, T, M, row)} :: RowReturns(f, g, T, M, row)
  }

  lemma NoRows(f: Direction, g: Direction, T: Table, M: nat, x: seq<Complex>, rows: nat)
    requires EachReturns(f, g, T, M) && rows == 0
    ensures Returns(f, g, T, M, x, x, rows)
  {}

  lemma JoinedReturn(f: Direction, g: Direction, T: Table, M: nat, a: seq<Complex>, b: seq<Complex>, rb: seq<Complex>,
                     left: nat, x: seq<Complex>, rows: nat) returns (y: seq<Complex>)
    requires EachReturns(f, g, T, M) && |a| == Pow2(M) && Returns(f, g, T, M, b, rb, left)
    requires x == a + b && rows == left + 1
    ensures Returns(f, g, T, M, x, y, rows)
  {
    assert RowReturns(f, g, T, M, a);
    var ra := RowTransform(f, T, M, a);
    RowsJoined(f, T, M, a, b, left);
    RowsJoined(g, T, M, ra, rb, left);
    y := ra + rb;
  }

  /** What holds for every row holds for all rows of an array. */
  lemma {:induction false} AllReturn(f: Direction, g: Direction, T: Table, M: nat, x: seq<Complex>, rows: nat)
      returns (y: seq<Complex>)
    requires EachReturns(f, g, T, M) && Times(rows, Pow2(M)) <= |x|
    ensures Returns(f, g, T, M, x, y, rows)
    decreases rows
  {
    if rows == 0 {
      y := x;
      NoRows(f, g, T, M, x, rows);
    } else {
      var left := rows - 1;
      SplitRest([], x, Pow2(M));
      var rb := AllReturn(f, g, T, M, x[Pow2(M)..], left);
      assert x == x[..Pow2(M)] + x[Pow2(M)..];
      y := JoinedReturn(f, g, T, M, x[..Pow2(M)], x[Pow2(M)..], rb, left, x, rows);
    }
  }

  /** `ffts` and then `iffts`, in place: the array is what it was. */
  method ThereAndBack(io: array<Complex>, M: nat, Rows: nat, T: Table, ghost W: int -> Complex)
    requires 3 <= M <= 19 && Times(Rows, Pow2(M)) <= io.Length && IsRoot(W, M) && TableOk(W, M, T)
    modifies io
    ensures io[..] == old(io[..])
  {
    forall row: seq<Complex> ensures RowReturns(Forward, Inverse, T, M, row) {
      if |row| == Pow2(M) { InverseUndoes(W, M, T, row); }
    }
    ghost var y := AllReturn(Forward, Inverse, T, M, io[..], Rows);
    Transform(io, M, Rows, T, Forward);
    Transform(io, M, Rows, T, Inverse);
  }

  function Backward(W: int -> Complex): int -> Complex { a => W(-a) }

  lemma ConjugatesTransformed(W: int -> Complex, M: nat, T: Table, row: seq<Complex>, y: seq<Complex>, j: nat)
    requires IsRoot(W, M) && TableOk(W, M, T) && |row| == Pow2(M) && y == MapAll(Conjugation(1.0), row)
    ensures Transformed(W, M, Terms(y), j) == Conj(Transformed(Backward(W), M, Terms(row), j))
  {
    var f: int -> Complex := k => Mul(Backward(W)(j * k), Terms(row)(k));
    var h: int -> Complex := k => Mul(W(j * k), Terms(y)(k));
    forall k | 0 <= k < Pow2(M) ensures h(k) == Conj(f(k)) {
      Conjugated(y, row, k);
      ConjMul(W(-(j * k)), Terms(row)(k));
      ConjRoot(W, M, T, -(j * k));
    }
    SumConj(Pow2(M), f, h);
  }

  lemma ScaledBack(c: real, z: Complex)
    ensures ScaledConjugate(c, Conj(z)) == FftLoops.Scaled(c, z)
  {
    NegProduct(c, z.im);
  }

  /** `iffts` is the inverse transform as it is defined: the powers of the root go the other way, and the sum is
      divided. */
  lemma InverseIsDft(W: int -> Complex, M: nat, T: Table, row: seq<Complex>, j: nat)
    requires IsRoot(W, M) && TableOk(W, M, T) && |row| == Pow2(M) && j < Pow2(M)
    ensures RowTransform(Inverse, T, M, row)[j]
      == FftLoops.Scaled(Reciprocal(M), Transformed(Backward(W), M, Terms(row), j))
  {
    var y := MapAll(Conjugation(1.0), row);
    InverseIs(T, M, row);
    ForwardIsDft(W, M, T, y, j);
    ConjugatesTransformed(W, M, T, row, y, j);
    ScaledBack(Reciprocal(M), Transformed(Backward(W), M, Terms(row), j));
  }
}

/** The procedures `ffts`, `iffts`, `rffts` and `riffts` (fftlib.c): their loops over rows, stages, table entries and
    groups, in place. */
module FftLoops {
  import opened BitReversal
  import opened Butterflies
  import opened FirstStage
  import opened FftPasses
  import E = MirrorExchange
  import B = BitrevStage
  import R = RealFft

  /** The four procedures. */
  datatype Direction = Forward | Inverse | RealForward | RealInverse

  predicate IsReal(dir: Direction) { dir.RealForward? || dir.RealInverse? }

  function OpsOf(dir: Direction): Ops { if dir.Forward? || dir.RealForward? then ForwardOps() else InverseOps() }

  function Scaled(c: real, z: Complex): Complex { Complex(c * z.re, c * z.im) }

  function Reciprocal(M: nat): real { 1.0 / Pow2(M) as real }

  function ScaledPairing(c: real): E.Pairing {
    E.Pairing((f, g) => Scaled(c, Plus(f, g)), (f, g) => Scaled(c, Minus(f, g)))
  }

  /** The first stage adds and subtracts; in the inverse it also divides by the size. The procedures for real numbers
      have scales of their own. */
  function PairingOf(dir: Direction, M: nat): E.Pairing {
    match dir
    case Forward => E.Pairing(Plus, Minus)
    case Inverse => ScaledPairing(Reciprocal(M))
    case RealForward => ScaledPairing(0.5)
    case RealInverse => ScaledPairing(Reciprocal(M + 1))
  }

  /** The table that a transform of half the size finds in a table: every second entry. */
  function Thin(T: Table, M: nat): Table
    requires 2 <= M
  {
    Table(seq(Pow2(M - 2) + 1, i requires 0 <= i <= Pow2(M - 2) => Tab(T, 2 * i)), T.sqrtHalf)
  }

  function TableOf(dir: Direction, T: Table, M: nat): Table
    requires 2 <= M
  {
    if IsReal(dir) then Thin(T, M) else T
  }

  function FirstRow(fly: E.Pairing, M: nat, row: seq<Complex>): (r: seq<Complex>)
    requires |row| == Pow2(M)
    ensures |r| == |row|
  {
    seq(Pow2(M), j requires 0 <= j < Pow2(M) => B.Staged(fly, M, 0, row, j))
  }

  /** The stages that all four procedures have. */
  function Middle(dir: Direction, T: Table, M: nat, row: seq<Complex>): (r: seq<Complex>)
    requires 3 <= M && |row| == Pow2(M)
    ensures |r| == |row|
  {
    PassesLength(OpsOf(dir), TableOf(dir, T, M), M, FirstRow(PairingOf(dir, M), M, row));
    Passes(OpsOf(dir), TableOf(dir, T, M), M, FirstRow(PairingOf(dir, M), M, row))
  }

  /** `Utbl` is long enough: a row of real numbers fills half as many complex ones. */
  predicate TableFits(dir: Direction, T: Table, M: nat) {
    3 <= M && (IsReal(dir) ==> Pow2(M - 1) < |T.cos|)
  }

  /** What the procedures make of one row. */
  function RowTransform(dir: Direction, T: Table, M: nat, row: seq<Complex>): (r: seq<Complex>)
    requires TableFits(dir, T, M) && |row| == Pow2(M)
    ensures |r| == |row|
  {
    match dir
    case Forward => Middle(dir, T, M, row)
    case Inverse => Middle(dir, T, M, row)
    case RealForward => R.Passed(R.Finish(), T.cos, Pow2(M - 1), Middle(dir, T, M, row))
    case RealInverse => Middle(dir, T, M, R.Passed(R.Start(), T.cos, Pow2(M - 1), row))
  }

  // ----- the inverse by conjugation

  lemma PairCarried(c: real, f: Complex, g: Complex)
    ensures Scaled(c, Plus(ScaledConjugate(1.0, f), ScaledConjugate(1.0, g))) == ScaledConjugate(c, Plus(f, g))
    ensures Scaled(c, Minus(ScaledConjugate(1.0, f), ScaledConjugate(1.0, g))) == ScaledConjugate(c, Minus(f, g))
  {
    Negation(c, f.im + g.im);
    Negation(c, f.im - g.im);
  }

  lemma Negation(c: real, x: real)
    ensures c * -x == -(c * x)
  {}

  lemma FirstRowCarried(M: nat, row: seq<Complex>)
    requires |row| == Pow2(M)
    ensures FirstRow(PairingOf(Inverse, M), M, MapAll(Conjugation(1.0), row))
      == MapAll(Conjugation(Reciprocal(M)), FirstRow(PairingOf(Forward, M), M, row))
  {
    var a := FirstRow(PairingOf(Forward, M), M, row);
    var b := FirstRow(PairingOf(Inverse, M), M, MapAll(Conjugation(1.0), row));
    forall j | 0 <= j < Pow2(M) ensures b[j] == ScaledConjugate(Reciprocal(M), a[j]) {
      ElementCarried(M, row, j);
    }
  }

  lemma ElementCarried(M: nat, row: seq<Complex>, j: nat)
    requires |row| == Pow2(M) && j < Pow2(M)
    ensures B.Staged(PairingOf(Inverse, M), M, 0, MapAll(Conjugation(1.0), row), j)
      == ScaledConjugate(Reciprocal(M), B.Staged(PairingOf(Forward, M), M, 0, row, j))
  {
    var e := j - j % 2;
    RevBound(M, e);
    RevBound(M, e + 1);
    PairCarried(Reciprocal(M), row[Rev(M, e)], row[Rev(M, e + 1)]);
  }

  /** `iffts` of the conjugates is the conjugate of `ffts`, divided by the size: whatever the row and the table hold. */
  lemma InverseByConjugation(T: Table, M: nat, row: seq<Complex>)
    requires 3 <= M && |row| == Pow2(M)
    ensures RowTransform(Inverse, T, M, MapAll(Conjugation(1.0), row))
      == MapAll(Conjugation(Reciprocal(M)), RowTransform(Forward, T, M, row))
  {
    var h := Conjugation(Reciprocal(M));
    ConjugationCarries(Reciprocal(M));
    ZeroStays(Reciprocal(M));
    MappingCarries(h, ForwardOps(), InverseOps());
    FirstRowCarried(M, row);
    PassesCarried(Mapping(h), ForwardOps(), InverseOps(), T, M, FirstRow(PairingOf(Forward, M), M, row));
  }

  lemma ZeroStays(c: real)
    ensures Conjugation(c)(ZERO) == ZERO
  {}

  /** `iffts` is conjugation, `ffts`, conjugation and division by the size. */
  lemma InverseIs(T: Table, M: nat, row: seq<Complex>)
    requires 3 <= M && |row| == Pow2(M)
    ensures RowTransform(Inverse, T, M, row)
      == MapAll(Conjugation(Reciprocal(M)), RowTransform(Forward, T, M, MapAll(Conjugation(1.0), row)))
  {
    var c := MapAll(Conjugation(1.0), row);
    forall i | 0 <= i < |row| ensures ScaledConjugate(1.0, ScaledConjugate(1.0, row[i])) == row[i] {}
    assert MapAll(Conjugation(1.0), c) == row;
    InverseByConjugation(T, M, c);
  }

  // ----- the loops, in place

  /** An array holds a row between what comes before and after it. */
  ghost predicate Holds(y: seq<Complex>, a: seq<Complex>, row: seq<Complex>, b: seq<Complex>) {
    y == a + row + b
  }

  lemma PutFramed(a: seq<Complex>, row: seq<Complex>, b: seq<Complex>, p: int, inc: int, e: Eight)
    requires 0 <= p && 0 < inc && p + 7 * inc < |row|
    ensures Put8(a + row + b, |a| + p, inc, e) == a + Put8(row, p, inc, e) + b
    ensures Get8(a + row + b, |a| + p, inc) == Get8(row, p, inc)
  {
    var x, y, z := a + row + b, Put8(a + row + b, |a| + p, inc, e), a + Put8(row, p, inc, e) + b;
    forall i | 0 <= i < |y| ensures y[i] == z[i] {
      if |a| <= i < |a| + |row| {
        ChosenMoves(row[i - |a|], p, inc, e, i - |a|, |a|);
      } else {
        ChosenOutside(x[i], |a| + p, inc, e, i);
      }
    }
  }

  lemma ChosenMoves(z: Complex, p: int, inc: int, e: Eight, i: int, d: int)
    ensures Chosen(z, d + p, inc, e, d + i) == Chosen(z, p, inc, e, i)
  {}

  lemma ChosenOutside(z: Complex, p: int, inc: int, e: Eight, i: int)
    requires 0 < inc && (i < p || p + 7 * inc < i)
    ensures Chosen(z, p, inc, e, i) == z
  {}

  /** One group of eight elements goes through a butterfly. */
  method FlyGroup(io: array<Complex>, p: int, inc: int, fly: Eight -> Eight)
    requires 0 <= p && 0 < inc && p + 7 * inc < io.Length
    modifies io
    ensures io[..] == Put8(old(io[..]), p, inc, fly(Get8(old(io[..]), p, inc)))
  {
    var e := Eight(io[p], io[p + inc], io[p + 2 * inc], io[p + 3 * inc], io[p + 4 * inc], io[p + 5 * inc],
      io[p + 6 * inc], io[p + 7 * inc]);
    assert e == Get8(io[..], p, inc);
    var f := fly(e);
    io[p], io[p + inc], io[p + 2 * inc], io[p + 3 * inc] := f.e0, f.e1, f.e2, f.e3;
    io[p + 4 * inc], io[p + 5 * inc], io[p + 6 * inc], io[p + 7 * inc] := f.e4, f.e5, f.e6, f.e7;
    ghost var y := Put8(old(io[..]), p, inc, f);
    forall i | 0 <= i < io.Length ensures io[i] == y[i] {}
  }

  /** `n` groups from `p` on lie in a row of `len` elements. */
  predicate Within(p: int, inc: int, n: nat, len: int)
    decreases n
  {
    n == 0 || (0 <= p && 0 < inc && p + 7 * inc < len && Within(p + 8 * inc, inc, n - 1, len))
  }

  method GroupInRow(io: array<Complex>, o: nat, fly0: int, inc: int, fly: Eight -> Eight, ghost p: int,
                    ghost a: seq<Complex>, ghost row: seq<Complex>, ghost b: seq<Complex>)
                        returns (ghost r: seq<Complex>)
    requires Holds(io[..], a, row, b) && |a| == o && fly0 == o + p && 0 <= p && 0 < inc && p + 7 * inc < |row|
    modifies io
    ensures r == GroupOf(fly, inc)(row, p) && Holds(io[..], a, r, b) && |r| == |row|
  {
    PutFramed(a, row, b, p, inc, fly(Get8(row, p, inc)));
    FlyGroup(io, fly0, inc, fly);
    r := GroupOf(fly, inc)(row, p);
  }

  /** The loop over groups. */
  method FlyGroups(io: array<Complex>, o: nat, p: int, inc: int, n: nat, fly: Eight -> Eight, ghost a: seq<Complex>,
                   ghost row: seq<Complex>, ghost b: seq<Complex>)
      returns (ghost r: seq<Complex>)
    requires Holds(io[..], a, row, b) && |a| == o && Within(p, inc, n, |row|)
    modifies io
    ensures r == Along(GroupOf(fly, inc), row, p, 8 * inc, n) && Holds(io[..], a, r, b) && |r| == |row|
  {
    var fly0 := o + p;
    var LoopCnt := n;
    ghost var q := p;
    r := row;
    while LoopCnt > 0
      invariant 0 <= LoopCnt && fly0 == o + q && |r| == |row| && Within(q, inc, LoopCnt, |row|)
        && Holds(io[..], a, r, b)
      invariant Along(GroupOf(fly, inc), r, q, 8 * inc, LoopCnt) == Along(GroupOf(fly, inc), row, p, 8 * inc, n)
    {
      r := GroupInRow(io, o, fly0, inc, fly, q, a, r, b);
      fly0 := fly0 + 8 * inc;
      q := q + 8 * inc;
      LoopCnt := LoopCnt - 1;
    }
  }

  // ----- the table of cosines is not overrun

  ghost predicate InTable(T: Table, pt: Pointers, eighth: int) {
    && 0 <= pt.r0 < |T.cos| && 0 <= pt.i0 < |T.cos| && 0 <= pt.r1 < |T.cos| && 0 <= pt.i1 < |T.cos|
    && 0 <= pt.r2 && 0 <= pt.r2 + eighth < |T.cos| && pt.i2 < |T.cos| && 0 <= pt.i2 - eighth
  }

  /** Reads the entries the pointers stand at. */
  method ReadTurns(T: Table, pt: Pointers, eighth: nat, negate: bool) returns (turns: Turns)
    requires InTable(T, pt, eighth)
    ensures turns == TurnsAt(T, pt.r0, pt.i0, pt.r1, pt.i1, pt.r2, pt.i2, eighth, negate)
  {
    var u0r := T.cos[pt.r0];
    if negate { u0r := -u0r; }
    turns := Turns(Complex(u0r, T.cos[pt.i0]), Complex(T.cos[pt.r1], T.cos[pt.i1]), Complex(T.cos[pt.r2], T.cos[pt.i2]),
      Complex(T.cos[pt.r2 + eighth], T.cos[pt.i2 - eighth]));
  }

  /** `next` takes the pointers one step on through the table. */
  ghost predicate Goes(T: Table, st: Steps, next: Pointers -> Pointers, negate: bool) {
    forall pt: Pointers {:trigger GoesOn(T, st, next, negate, pt)} :: GoesOn(T, st, next, negate, pt)
  }

  ghost predicate GoesOn(T: Table, st: Steps, next: Pointers -> Pointers, negate: bool, pt: Pointers) {
    next(pt) == Advanced(T, pt, if negate then -st.n4 else st.n4, st.n2, st.n1, st.eighth, negate)
  }

  lemma AdvancingGoes(T: Table, st: Steps, negate: bool)
    ensures Goes(T, st, Advancing(T, st, negate), negate)
  {}

  /** The pointers stay in the table through `cnt` steps. */
  ghost predicate TableHolds(T: Table, next: Pointers -> Pointers, pt: Pointers, eighth: int, cnt: nat)
    decreases cnt
  {
    cnt == 0 || (InTable(T, next(pt), eighth) && TableHolds(T, next, next(pt), eighth, cnt - 1))
  }

  method Advance(T: Table, pt: Pointers, n4: int, n2: nat, n1: nat, eighth: nat, negate: bool) returns (r: Pointers)
    requires InTable(T, Advanced(T, pt, n4, n2, n1, eighth, negate), eighth)
    ensures r == Advanced(T, pt, n4, n2, n1, eighth, negate)
  {
    var i0, r0 := pt.i0 - n4, pt.r0 + n4;
    var r1, i1 := pt.r1 + n2, pt.i1 - n2;
    var r2, i2 := pt.r2 + n1, pt.i2 - n1;
    r := Pointers(r0, i0, r1, i1, r2, i2, pt.turns);
    var turns := ReadTurns(T, r, eighth, negate);
    r := r.(turns := turns);
  }

  /** The groups of `cnt` offsets from `p` on lie in a row of `len` elements. */
  predicate AllWithin(p: int, inc: int, n: nat, cnt: nat, len: int)
    decreases cnt
  {
    cnt == 0 || (Within(p, inc, n, len) && AllWithin(p + 1, inc, n, cnt - 1, len))
  }

  /** One offset: a pass over the groups, then on through the table. */
  method SweepOffset(io: array<Complex>, o: nat, T: Table, p: int, st: Steps, n4: int, negate: bool,
                     flies: Kernel -> Eight -> Eight, pt0: Pointers,
                     ghost change: Change, ghost next: Pointers -> Pointers, ghost a: seq<Complex>,
                     ghost row: seq<Complex>, ghost b: seq<Complex>)
      returns (pt: Pointers, ghost r: seq<Complex>)
    requires Holds(io[..], a, row, b) && |a| == o && Within(p, st.inc, st.n, |row|) && InTable(T, next(pt0), st.eighth)
    requires st.n2 >= 0 && st.n1 >= 0 && st.eighth >= 0
    requires GoesOn(T, st, next, negate, pt0) && n4 == if negate then -st.n4 else st.n4
    requires change == GroupOf(flies(Radix8(pt0.turns)), st.inc)
    modifies io
    ensures pt == next(pt0) && r == Along(change, row, p, 8 * st.inc, st.n)
    ensures Holds(io[..], a, r, b) && |r| == |row|
  {
    r := FlyGroups(io, o, p, st.inc, st.n, flies(Radix8(pt0.turns)), a, row, b);
    pt := Advance(T, pt0, n4, st.n2, st.n1, st.eighth, negate);
  }

  lemma SweepNext(group: Kernel -> Change, next: Pointers -> Pointers, x: seq<Complex>, p: int, d: int, n: nat,
                  pt: Pointers, cnt: nat)
    requires 0 < cnt
    ensures Sweep(group, next, x, p, d, n, pt, cnt)
      == Sweep(group, next, Along(group(Radix8(pt.turns)), x, p, d, n), p + 1, d, n, next(pt), cnt - 1)
  {}

  /** The loop over offsets. */
  method SweepRow(io: array<Complex>, o: nat, T: Table, p: int, st: Steps, n4: int, negate: bool,
                  flies: Kernel -> Eight -> Eight, pt0: Pointers, cnt: nat,
                  ghost group: Kernel -> Change, ghost next: Pointers -> Pointers, ghost a: seq<Complex>,
                  ghost row: seq<Complex>, ghost b: seq<Complex>)
      returns (pt: Pointers, ghost r: seq<Complex>)
    requires Holds(io[..], a, row, b) && |a| == o && AllWithin(p, st.inc, st.n, cnt, |row|)
      && TableHolds(T, next, pt0, st.eighth, cnt)
    requires st.n2 >= 0 && st.n1 >= 0 && st.eighth >= 0
    requires Goes(T, st, next, negate) && n4 == if negate then -st.n4 else st.n4
    requires forall k {:trigger group(k)} :: group(k) == GroupOf(flies(k), st.inc)
    modifies io
    ensures Swept(r, pt) == Sweep(group, next, row, p, 8 * st.inc, st.n, pt0, cnt)
    ensures Holds(io[..], a, r, b) && |r| == |row|
  {
    var IOP := p;
    var diffUcnt := cnt;
    pt := pt0;
    r := row;
    while diffUcnt > 0
      invariant 0 <= diffUcnt && |r| == |row| && Holds(io[..], a, r, b)
      invariant AllWithin(IOP, st.inc, st.n, diffUcnt, |row|) && TableHolds(T, next, pt, st.eighth, diffUcnt)
      invariant Sweep(group, next, r, IOP, 8 * st.inc, st.n, pt, diffUcnt)
        == Sweep(group, next, row, p, 8 * st.inc, st.n, pt0, cnt)
    {
      SweepNext(group, next, r, IOP, 8 * st.inc, st.n, pt, diffUcnt);
      assert GoesOn(T, st, next, negate, pt);
      ghost var change := group(Radix8(pt.turns));
      pt, r := SweepOffset(io, o, T, IOP, st, n4, negate, flies, pt, change, next, a, r, b);
      IOP := IOP + 1;
      diffUcnt := diffUcnt - 1;
    }
  }

  // ----- sizes

  lemma {:induction false} WithinIs(p: int, off: int, inc: int, n: nat, len: int)
    requires 0 <= off < inc && 0 <= p - off && p - off + Times(n, 8 * inc) <= len
    ensures Within(p, inc, n, len)
    decreases n
  {
    if n > 0 { WithinIs(p + 8 * inc, off, inc, n - 1, len); }
  }

  /** The groups of any offset below the distance fill the row. */
  lemma RowHolds(M: nat, off: int, e: nat)
    requires e + 3 <= M && 0 <= off < Pow2(e)
    ensures Within(off, Pow2(e), Pow2(M - 3 - e), Pow2(M))
  {
    Pow2Add(M - 3 - e, e + 3);
    assert Pow2(e + 3) == 2 * Pow2(e + 2) && Pow2(e + 2) == 2 * Pow2(e + 1);
    TimesIs(Pow2(M - 3 - e), 8 * Pow2(e));
    WithinIs(off, off, Pow2(e), Pow2(M - 3 - e), Pow2(M));
  }

  lemma {:induction false} RowHoldsAll(M: nat, off: int, e: nat, cnt: nat)
    requires e + 3 <= M && 0 <= off && off + cnt <= Pow2(e)
    ensures AllWithin(off, Pow2(e), Pow2(M - 3 - e), cnt, Pow2(M))
    decreases cnt
  {
    if cnt > 0 {
      RowHolds(M, off, e);
      RowHoldsAll(M, off + 1, e, cnt - 1);
    }
  }

  /** Half as many steps as there are offsets take the pointers through the table, an eighth or a sixteenth of the
      circle. */
  lemma TableSteps(M: nat, e: nat)
    requires 1 <= e && e + 3 <= M
    ensures var st, half := StepsAt(M, e), Pow2(e - 1);
      Times(half, st.n4) == Pow2(M - 2) && Times(half, st.n2) == Pow2(M - 3) && Times(half, st.n1) == Pow2(M - 4)
  {
    var half := Pow2(e - 1);
    Pow2Add(e - 1, M - 1 - e);
    Pow2Add(e - 1, M - 2 - e);
    Pow2Add(e - 1, M - 3 - e);
    TimesIs(half, Pow2(M - 1 - e));
    TimesIs(half, Pow2(M - 2 - e));
    TimesIs(half, Pow2(M - 3 - e));
  }

  /** Where the pointers are after `k` steps up the table; `q` is a sixteenth of the circle. */
  ghost predicate Up(pt: Pointers, st: Steps, k: nat, q: int)
    requires st.n4 >= 0 && st.n2 >= 0 && st.n1 >= 0
  {
    && pt.r0 == Times(k, st.n4) && pt.i0 == 4 * q - Times(k, st.n4)
    && pt.r1 == Times(k, st.n2) && pt.i1 == 4 * q - Times(k, st.n2)
    && pt.r2 == Times(k, st.n1) && pt.i2 == 4 * q - Times(k, st.n1)
  }

  /** And after `k` steps of the second half. */
  ghost predicate Down(pt: Pointers, st: Steps, k: nat, q: int)
    requires st.n4 >= 0 && st.n2 >= 0 && st.n1 >= 0
  {
    && pt.r0 == 4 * q - Times(k, st.n4) && pt.i0 == Times(k, st.n4)
    && pt.r1 == 2 * q + Times(k, st.n2) && pt.i1 == 2 * q - Times(k, st.n2)
    && pt.r2 == q + Times(k, st.n1) && pt.i2 == 3 * q - Times(k, st.n1)
  }

  /** `half` steps make up the whole way. */
  ghost predicate Stepwise(T: Table, st: Steps, half: nat, q: int) {
    && st.n4 >= 0 && st.n2 >= 0 && st.n1 >= 0 && st.eighth == 2 * q && 0 <= q && 4 * q < |T.cos|
    && Times(half, st.n4) == 4 * q && Times(half, st.n2) == 2 * q && Times(half, st.n1) == q
  }

  lemma OneMore(k: nat, half: nat, n: nat)
    requires k < half
    ensures Times(k + 1, n) == Times(k, n) + n <= Times(half, n)
  {
    TimesMonotone(k + 1, half, n);
  }

  lemma UpStep(T: Table, st: Steps, half: nat, q: int, next: Pointers -> Pointers, pt: Pointers, k: nat)
    requires Stepwise(T, st, half, q) && Goes(T, st, next, false) && Up(pt, st, k, q) && k < half
    ensures Up(next(pt), st, k + 1, q) && InTable(T, next(pt), st.eighth)
  {
    OneMore(k, half, st.n4);
    OneMore(k, half, st.n2);
    OneMore(k, half, st.n1);
    assert GoesOn(T, st, next, false, pt);
  }

  lemma {:induction false} UpHolds(T: Table, st: Steps, half: nat, q: int, next: Pointers -> Pointers, pt: Pointers,
                                   k: nat, cnt: nat)
    requires Stepwise(T, st, half, q) && Goes(T, st, next, false) && Up(pt, st, k, q) && k + cnt == half
    ensures TableHolds(T, next, pt, st.eighth, cnt)
    decreases cnt
  {
    if cnt > 0 {
      UpStep(T, st, half, q, next, pt, k);
      UpHolds(T, st, half, q, next, next(pt), k + 1, cnt - 1);
    }
  }

  lemma DownStep(T: Table, st: Steps, half: nat, q: int, next: Pointers -> Pointers, pt: Pointers, k: nat)
    requires Stepwise(T, st, half, q) && Goes(T, st, next, true) && Down(pt, st, k, q) && k < half
    ensures Down(next(pt), st, k + 1, q) && InTable(T, next(pt), st.eighth)
  {
    OneMore(k, half, st.n4);
    OneMore(k, half, st.n2);
    OneMore(k, half, st.n1);
    assert GoesOn(T, st, next, true, pt);
  }

  lemma {:induction false} DownHolds(T: Table, st: Steps, half: nat, q: int, next: Pointers -> Pointers, pt: Pointers,
                                   k: nat, cnt: nat)
    requires Stepwise(T, st, half, q) && Goes(T, st, next, true) && Down(pt, st, k, q) && k + cnt == half
    ensures TableHolds(T, next, pt, st.eighth, cnt)
    decreases cnt
  {
    if cnt > 0 {
      DownStep(T, st, half, q, next, pt, k);
      DownHolds(T, st, half, q, next, next(pt), k + 1, cnt - 1);
    }
  }

  /** Where the first half leaves the pointers. */
  lemma {:induction false} UpEnds(group: Kernel -> Change, T: Table, st: Steps, q: int, x: seq<Complex>, p: int, d: int,
                                  n: nat, pt: Pointers, k: nat, cnt: nat)
    requires st.n4 >= 0 && st.n2 >= 0 && st.n1 >= 0 && Up(pt, st, k, q)
    ensures Up(Sweep(group, Advancing(T, st, false), x, p, d, n, pt, cnt).pt, st, k + cnt, q)
    decreases cnt
  {
    if cnt > 0 {
      UpEnds(group, T, st, q, Along(group(Radix8(pt.turns)), x, p, d, n), p + 1, d, n, Advancing(T, st, false)(pt),
        k + 1, cnt - 1);
    }
  }

  // ----- stages and rows

  lemma StageFits(T: Table, M: nat, e: nat)
    requires 1 <= e && e + 3 <= M && Pow2(M - 2) < |T.cos|
    ensures var st, half, q := StepsAt(M, e), Pow2(e - 1), Pow2(M - 4);
      && Stepwise(T, st, half, q) && st.inc == 2 * half && st.inc / 2 == half && Pow2(M - 2) == 4 * q
      && AllWithin(0, st.inc, st.n, half, Pow2(M)) && AllWithin(half, st.inc, st.n, half, Pow2(M))
      && Up(Started(T, Pow2(M - 2), st.eighth), st, 0, q) && InTable(T, Started(T, Pow2(M - 2), st.eighth), st.eighth)
  {
    TableSteps(M, e);
    assert Pow2(M - 2) == 2 * Pow2(M - 3) && Pow2(M - 3) == 2 * Pow2(M - 4);
    RowHoldsAll(M, 0, e, Pow2(e - 1));
    RowHoldsAll(M, Pow2(e - 1), e, Pow2(e - 1));
  }

  /** The first half of a radix-8 stage. */
  method FirstHalf(io: array<Complex>, o: nat, T: Table, quarter: nat, st: Steps, half: nat, ops: Ops, ghost q: int,
                   ghost a: seq<Complex>, ghost row: seq<Complex>, ghost b: seq<Complex>)
      returns (pt: Pointers, ghost r: seq<Complex>)
    requires Holds(io[..], a, row, b) && |a| == o && Stepwise(T, st, half, q) && AllWithin(0, st.inc, st.n, half, |row|)
    requires Up(Started(T, quarter, st.eighth), st, 0, q) && InTable(T, Started(T, quarter, st.eighth), st.eighth)
    modifies io
    ensures Swept(r, pt) == Sweep(GroupsBy(FliesOf(ops), st.inc), Advancing(T, st, false), row, 0, 8 * st.inc, st.n,
      Started(T, quarter, st.eighth), half)
    ensures Holds(io[..], a, r, b) && |r| == |row| && Down(pt, st, 0, q)
  {
    var pt0 := Begin(T, quarter, st.eighth);
    AdvancingGoes(T, st, false);
    UpHolds(T, st, half, q, Advancing(T, st, false), pt0, 0, half);
    UpEnds(GroupsBy(FliesOf(ops), st.inc), T, st, q, row, 0, 8 * st.inc, st.n, pt0, 0, half);
    pt, r := SweepRow(io, o, T, 0, st, st.n4, false, FliesOf(ops), pt0, half, GroupsBy(FliesOf(ops), st.inc),
      Advancing(T, st, false), a, row, b);
  }

  /** The second half. */
  method SecondHalf(io: array<Complex>, o: nat, T: Table, st: Steps, half: nat, ops: Ops, pt0: Pointers, ghost q: int,
                    ghost a: seq<Complex>, ghost row: seq<Complex>, ghost b: seq<Complex>)
      returns (ghost r: seq<Complex>)
    requires Holds(io[..], a, row, b) && |a| == o && Stepwise(T, st, half, q)
      && AllWithin(half, st.inc, st.n, half, |row|) && Down(pt0, st, 0, q)
    modifies io
    ensures r == Sweep(GroupsBy(FliesOf(ops), st.inc), Advancing(T, st, true), row, half, 8 * st.inc, st.n, pt0, half).x
    ensures Holds(io[..], a, r, b) && |r| == |row|
  {
    var pt;
    AdvancingGoes(T, st, true);
    DownHolds(T, st, half, q, Advancing(T, st, true), pt0, 0, half);
    pt, r := SweepRow(io, o, T, half, st, -st.n4, true, FliesOf(ops), pt0, half, GroupsBy(FliesOf(ops), st.inc),
      Advancing(T, st, true), a, row, b);
  }

  /** Both halves of one radix-8 stage. */
  method StageRow(io: array<Complex>, o: nat, T: Table, M: nat, st: Steps, ops: Ops, ghost e: nat,
                  ghost a: seq<Complex>, ghost row: seq<Complex>, ghost b: seq<Complex>)
      returns (ghost r: seq<Complex>)
    requires Holds(io[..], a, row, b) && |a| == o && |row| == Pow2(M)
    requires 1 <= e && e + 3 <= M && st == StepsAt(M, e) && Pow2(M - 2) < |T.cos|
    modifies io
    ensures r == Stage(ops, T, M, row, e) && Holds(io[..], a, r, b) && |r| == |row|
  {
    ghost var q := Pow2(M - 4);
    var half := st.inc / 2;
    StageFits(T, M, e);
    var pt;
    ghost var r1;
    pt, r1 := FirstHalf(io, o, T, Pow2(M - 2), st, half, ops, q, a, row, b);
    r := SecondHalf(io, o, T, st, half, ops, pt, q, a, r1, b);
  }

  /** The pointers at the beginning of a stage. */
  method Begin(T: Table, quarter: nat, eighth: nat) returns (pt: Pointers)
    requires InTable(T, Started(T, quarter, eighth), eighth)
    ensures pt == Started(T, quarter, eighth)
  {
    var z := Complex(0.0, 0.0);
    pt := Pointers(0, quarter, 0, quarter, 0, quarter, Turns(z, z, z, z));
    var turns := ReadTurns(T, pt, eighth, false);
    pt := pt.(turns := turns);
  }

  /** Distances are eight times as large at the next stage, and steps through the table an eighth. */
  function NextSteps(st: Steps): Steps {
    Steps(8 * st.inc, st.n / 8, st.n4 / 8, st.n2 / 8, st.n1 / 8, st.eighth)
  }

  lemma StepsNext(M: nat, e: nat)
    requires e + 6 <= M
    ensures StepsAt(M, e + 3) == NextSteps(StepsAt(M, e))
  {
    EightTimes(e);
    EightTimes(M - 6 - e);
    EightTimes(M - 4 - e);
    EightTimes(M - 5 - e);
  }

  lemma EightTimes(n: nat)
    ensures Pow2(n + 3) == 8 * Pow2(n)
  {
    assert Pow2(n + 3) == 2 * Pow2(n + 2) && Pow2(n + 2) == 2 * Pow2(n + 1);
  }

  /** The steps for the stage after the one at `e`, if any is left. */
  method StepOn(st: Steps, ghost M: nat, ghost e: nat, ghost left: nat) returns (st': Steps)
    requires e + 3 * left == M && 0 < left && st == StepsAt(M, e)
    ensures left > 1 ==> st' == StepsAt(M, e + 3)
  {
    st' := NextSteps(st);
    if left > 1 { StepsNext(M, e); }
  }

  lemma StagesNext(stage: Change, M: nat, x: seq<Complex>, e: nat)
    requires e + 3 <= M
    ensures Stages(stage, M, x, e) == Stages(stage, M, stage(x, e), e + 3)
  {}

  /** All radix-8 stages; distances grow and steps through the table shrink by eight from one to the next. */
  method StagesRow(io: array<Complex>, o: nat, T: Table, M: nat, st0: Steps, count: nat, ops: Ops, ghost stage: Change,
                   ghost e0: nat,
                   ghost a: seq<Complex>, ghost row: seq<Complex>, ghost b: seq<Complex>)
                       returns (ghost r: seq<Complex>)
    requires Holds(io[..], a, row, b) && |a| == o && |row| == Pow2(M) && 2 <= M && Pow2(M - 2) < |T.cos|
    requires 1 <= e0 && e0 + 3 * count == M && (count > 0 ==> st0 == StepsAt(M, e0))
    requires forall x: seq<Complex>, e: nat {:trigger stage(x, e)} :: 1 <= e && e + 3 <= M ==>
      stage(x, e) == Stage(ops, T, M, x, e)
    modifies io
    ensures r == Stages(stage, M, row, e0) && Holds(io[..], a, r, b) && |r| == |row|
  {
    var st := st0;
    var left := count;
    ghost var e := e0;
    r := row;
    while left > 0
      invariant 0 <= left && 1 <= e && e + 3 * left == M && (left > 0 ==> st == StepsAt(M, e))
      invariant Holds(io[..], a, r, b) && |r| == |row|
      invariant Stages(stage, M, r, e) == Stages(stage, M, row, e0)
    {
      StagesNext(stage, M, r, e);
      r := StageRow(io, o, T, M, st, ops, e, a, r, b);
      st := StepOn(st, M, e, left);
      e := e + 3;
      left := left - 1;
    }
  }

  /** The stage before the radix-8 stages, if the size needs one. */
  method BeforeRow(io: array<Complex>, o: nat, T: Table, M: nat, ops: Ops, ghost a: seq<Complex>,
                   ghost row: seq<Complex>, ghost b: seq<Complex>) returns (ghost r: seq<Complex>)
    requires Holds(io[..], a, row, b) && |a| == o && 3 <= M && |row| == Pow2(M)
    modifies io
    ensures r == Before(ops, T, M, row) && Holds(io[..], a, r, b) && |r| == |row|
  {
    r := row;
    RowHolds(M, 0, 0);
    if (M - 1) % 3 != 0 {
      r := FlyGroups(io, o, 0, 1, Pow2(M - 3), FlyOf(ops, KernelBefore(T, M)), a, row, b);
    }
  }

  /** Everything after the first stage, on one row. */
  method PassesRow(io: array<Complex>, o: nat, T: Table, M: nat, ops: Ops, ghost a: seq<Complex>,
                   ghost row: seq<Complex>, ghost b: seq<Complex>) returns (ghost r: seq<Complex>)
    requires Holds(io[..], a, row, b) && |a| == o && 3 <= M && |row| == Pow2(M) && Pow2(M - 2) < |T.cos|
    modifies io
    ensures r == Passes(ops, T, M, row) && Holds(io[..], a, r, b) && |r| == |row|
  {
    ghost var r1 := BeforeRow(io, o, T, M, ops, a, row, b);
    var st := FirstSteps(M);
    r := StagesRow(io, o, T, M, st, (M - 1) / 3, ops, StageOf(ops, T, M), 1 + (M - 1) % 3, a, r1, b);
  }

  /** The numbers of the first radix-8 stage, if there is one. */
  method FirstSteps(M: nat) returns (st: Steps)
    requires 3 <= M
    ensures M > 3 ==> (M - 1) / 3 > 0 && 1 + (M - 1) % 3 + 3 <= M && st == StepsAt(M, 1 + (M - 1) % 3)
  {
    var rest := (M - 1) % 3;
    if rest + 4 <= M {
      st := StepsAt(M, 1 + rest);
    } else {
      st := Steps(8, 0, 0, 0, 0, 0);
    }
  }

  lemma FirstRowHolds(fly: E.Pairing, M: nat, o: nat, x: seq<Complex>, y: seq<Complex>, a: seq<Complex>,
                      row: seq<Complex>, b: seq<Complex>)
    requires B.BitReversed(fly, M, o, x, y) && x == a + row + b && |a| == o && |row| == Pow2(M)
    ensures Holds(y, a, FirstRow(fly, M, row), b)
  {
    var z := a + FirstRow(fly, M, row) + b;
    forall i | 0 <= i < |y| ensures y[i] == z[i] {
      if o <= i < o + Pow2(M) { SameStaged(fly, M, o, x, row, i - o, a, b); }
    }
  }

  lemma SameStaged(fly: E.Pairing, M: nat, o: nat, x: seq<Complex>, row: seq<Complex>, j: nat, a: seq<Complex>,
                   b: seq<Complex>)
    requires x == a + row + b && |a| == o && |row| == Pow2(M) && j < Pow2(M)
    ensures B.Staged(fly, M, o, x, j) == B.Staged(fly, M, 0, row, j)
  {
    var e := j - j % 2;
    RevBound(M, e);
    RevBound(M, e + 1);
    assert x[o + Rev(M, e)] == row[Rev(M, e)] && x[o + Rev(M, e + 1)] == row[Rev(M, e + 1)];
  }

  /** The rows of an array, one after the other, each transformed. */
  function AllRows(dir: Direction, T: Table, M: nat, x: seq<Complex>, rows: nat): seq<Complex>
    requires TableFits(dir, T, M) && Times(rows, Pow2(M)) <= |x|
    decreases rows
  {
    if rows == 0 then x
    else RowTransform(dir, T, M, x[..Pow2(M)]) + AllRows(dir, T, M, x[Pow2(M)..], rows - 1)
  }

  /** Row `r` of an array. */
  function RowOf(x: seq<Complex>, M: nat, r: nat): (row: seq<Complex>)
    requires Times(r, Pow2(M)) + Pow2(M) <= |x|
    ensures |row| == Pow2(M)
  {
    x[Times(r, Pow2(M))..Times(r, Pow2(M)) + Pow2(M)]
  }

  /** Row `r` of an array is transformed for itself. */
  ghost predicate RowDoneAt(dir: Direction, T: Table, M: nat, x: seq<Complex>, y: seq<Complex>, r: nat)
    requires TableFits(dir, T, M)
  {
    Times(r, Pow2(M)) + Pow2(M) <= |x| == |y| && RowOf(y, M, r) == RowTransform(dir, T, M, RowOf(x, M, r))
  }

  lemma {:induction false} RowsAre(dir: Direction, T: Table, M: nat, x: seq<Complex>, rows: nat)
    requires TableFits(dir, T, M) && Times(rows, Pow2(M)) <= |x|
    ensures var y, n := AllRows(dir, T, M, x, rows), Times(rows, Pow2(M)); |y| == |x| && y[n..] == x[n..]
    ensures forall r: nat :: r < rows ==> RowDoneAt(dir, T, M, x, AllRows(dir, T, M, x, rows), r)
    decreases rows
  {
    if rows > 0 {
      var n := Pow2(M);
      var row, rest := x[..n], x[n..];
      RowsAre(dir, T, M, rest, rows - 1);
      var a, y' := RowTransform(dir, T, M, row), AllRows(dir, T, M, rest, rows - 1);
      assert AllRows(dir, T, M, x, rows) == a + y';
      RestBehind(x, rest, a, y', n, Times(rows - 1, n));
      forall r: nat | r < rows ensures RowDoneAt(dir, T, M, x, a + y', r) {
        if r == 0 { FirstRowDone(dir, T, M, x, row, a, y'); } else { NextRowDone(dir, T, M, x, rest, a, y', r); }
      }
    }
  }

  lemma RestBehind(x: seq<Complex>, rest: seq<Complex>, a: seq<Complex>, y': seq<Complex>, n: nat, m: nat)
    requires n <= |x| && rest == x[n..] && |a| == n && |y'| == |rest| && m <= |rest| && y'[m..] == rest[m..]
    ensures |a + y'| == |x| && (a + y')[m + n..] == x[m + n..]
  {
    assert (a + y')[m + n..] == y'[m..] && x[m + n..] == rest[m..];
  }

  lemma FirstRowDone(dir: Direction, T: Table, M: nat, x: seq<Complex>, row: seq<Complex>, a: seq<Complex>,
                     y': seq<Complex>)
    requires TableFits(dir, T, M) && Pow2(M) <= |x| == |a + y'| && |a| == Pow2(M) && row == x[..Pow2(M)]
    requires a == RowTransform(dir, T, M, row)
    ensures RowDoneAt(dir, T, M, x, a + y', 0)
  {
    SplitBehind(a, y');
    FirstRowOf(x, M, row);
    FirstRowOf(a + y', M, a);
  }

  lemma FirstRowOf(x: seq<Complex>, M: nat, row: seq<Complex>)
    requires |row| == Pow2(M) <= |x| && row == x[..Pow2(M)]
    ensures RowOf(x, M, 0) == row
  {
    assert Times(0, Pow2(M)) == 0;
  }

  lemma NextRowOf(x: seq<Complex>, M: nat, rest: seq<Complex>, r: nat)
    requires Pow2(M) <= |x| && rest == x[Pow2(M)..] && 0 < r && Times(r - 1, Pow2(M)) + Pow2(M) <= |rest|
    ensures Times(r, Pow2(M)) + Pow2(M) <= |x| && RowOf(x, M, r) == RowOf(rest, M, r - 1)
  {
    var n, o := Pow2(M), Times(r - 1, Pow2(M));
    assert Times(r, n) == o + n;
    assert x[o + n..o + n + n] == rest[o..o + n];
  }

  lemma NextRowDone(dir: Direction, T: Table, M: nat, x: seq<Complex>, rest: seq<Complex>, a: seq<Complex>,
                    y': seq<Complex>, r: nat)
    requires TableFits(dir, T, M) && Pow2(M) <= |x| == |a + y'| && |a| == Pow2(M) && 0 < r && rest == x[Pow2(M)..]
    requires RowDoneAt(dir, T, M, rest, y', r - 1)
    ensures RowDoneAt(dir, T, M, x, a + y', r)
  {
    SplitBehind(a, y');
    NextRowOf(x, M, rest, r);
    NextRowOf(a + y', M, y', r);
  }

  lemma SplitBehind(a: seq<Complex>, b: seq<Complex>)
    ensures (a + b)[|a|..] == b && (a + b)[..|a|] == a
  {}

  /** One row goes through the stages that all four procedures have. */
  method MiddleRow(io: array<Complex>, o: nat, T: Table, M: nat, dir: Direction, ghost a: seq<Complex>,
                   ghost row: seq<Complex>,
                   ghost b: seq<Complex>)
    requires Holds(io[..], a, row, b) && |a| == o && 3 <= M <= 19 && |row| == Pow2(M) && Pow2(M - 2) < |T.cos|
    modifies io
    ensures Holds(io[..], a, Middle(dir, T, M, row), b)
  {
    var fly := PairingOf(dir, M);
    ghost var x := io[..];
    B.BitrevR2(io, o, M, fly);
    FirstRowHolds(fly, M, o, x, io[..], a, row, b);
    ghost var r := PassesRow(io, o, TableOf(dir, T, M), M, OpsOf(dir), a, FirstRow(fly, M, row), b);
  }

  /** One row goes through the pass that turns transforms of pairs into transforms of real numbers, or back. */
  method RealPass(io: array<Complex>, o: nat, T: Table, M: nat, pass: R.Pass, ghost a: seq<Complex>,
                  ghost row: seq<Complex>,
                  ghost b: seq<Complex>)
    requires Holds(io[..], a, row, b) && |a| == o && 2 <= M && |row| == Pow2(M) && Pow2(M - 1) < |T.cos|
    modifies io
    ensures Holds(io[..], a, R.Passed(pass, T.cos, Pow2(M - 1), row), b)
  {
    R.Parts(io[..], a, row, b);
    assert Pow2(M) == 2 * Pow2(M - 1) == 4 * Pow2(M - 2);
    assert io[..o] == io[..][..o] && io[o..o + Pow2(M)] == io[..][o..o + Pow2(M)]
      && io[o + Pow2(M)..] == io[..][o + Pow2(M)..];
    R.PassRow(io, o, Pow2(M - 2), T.cos, pass);
  }

  /** One row goes through all stages. */
  method TransformRow(io: array<Complex>, o: nat, T: Table, M: nat, dir: Direction, ghost a: seq<Complex>,
                      ghost row: seq<Complex>,
                      ghost b: seq<Complex>)
    requires Holds(io[..], a, row, b) && |a| == o && TableFits(dir, T, M) && M <= 19 && |row| == Pow2(M)
      && Pow2(M - 2) < |T.cos|
    modifies io
    ensures Holds(io[..], a, RowTransform(dir, T, M, row), b)
  {
    ghost var r := row;
    if dir.RealInverse? {
      RealPass(io, o, T, M, R.Start(), a, row, b);
      r := R.Passed(R.Start(), T.cos, Pow2(M - 1), row);
    }
    MiddleRow(io, o, T, M, dir, a, r, b);
    if dir.RealForward? {
      RealPass(io, o, T, M, R.Finish(), a, Middle(dir, T, M, row), b);
    }
  }

  lemma MapSplit(h: Complex -> Complex, x: seq<Complex>, n: nat)
    requires n <= |x|
    ensures MapAll(h, x)[..n] == MapAll(h, x[..n]) && MapAll(h, x)[n..] == MapAll(h, x[n..])
  {}

  lemma MapAppend(h: Complex -> Complex, a: seq<Complex>, b: seq<Complex>)
    ensures MapAll(h, a + b) == MapAll(h, a) + MapAll(h, b)
  {}

  /** The same for all rows of an array: `iffts` is conjugation, `ffts`, conjugation and division by the size. */
  lemma {:induction false} InverseOfAll(T: Table, M: nat, x: seq<Complex>, rows: nat)
    requires 3 <= M && Times(rows, Pow2(M)) == |x|
    ensures AllRows(Inverse, T, M, x, rows)
      == MapAll(Conjugation(Reciprocal(M)), AllRows(Forward, T, M, MapAll(Conjugation(1.0), x), rows))
    decreases rows
  {
    if rows == 0 {
      assert x == [];
    } else {
      var n := Pow2(M);
      var row, rest := x[..n], x[n..];
      InverseIs(T, M, row);
      InverseOfAll(T, M, rest, rows - 1);
      MapSplit(Conjugation(1.0), x, n);
      MapAppend(Conjugation(Reciprocal(M)), RowTransform(Forward, T, M, MapAll(Conjugation(1.0), row)),
        AllRows(Forward, T, M, MapAll(Conjugation(1.0), rest), rows - 1));
    }
  }

  lemma RowDone(dir: Direction, T: Table, M: nat, done: seq<Complex>, rest: seq<Complex>, left: nat)
    requires TableFits(dir, T, M) && 0 < left && Times(left, Pow2(M)) <= |rest|
    ensures Pow2(M) <= |rest| && Times(left - 1, Pow2(M)) <= |rest[Pow2(M)..]|
    ensures done + rest == done + rest[..Pow2(M)] + rest[Pow2(M)..]
    ensures done + AllRows(dir, T, M, rest, left)
      == (done + RowTransform(dir, T, M, rest[..Pow2(M)])) + AllRows(dir, T, M, rest[Pow2(M)..], left - 1)
  {
    var n := Pow2(M);
    assert Times(left, n) == Times(left - 1, n) + n;
    SplitRest(done, rest, n);
    var t := AllRows(dir, T, M, rest[n..], left - 1);
    Regrouped(done, RowTransform(dir, T, M, rest[..n]), t);
  }

  lemma SplitRest(done: seq<Complex>, rest: seq<Complex>, n: nat)
    requires n <= |rest|
    ensures done + rest == done + rest[..n] + rest[n..] && |rest[n..]| == |rest| - n
  {}

  lemma Regrouped(a: seq<Complex>, b: seq<Complex>, c: seq<Complex>)
    ensures a + (b + c) == (a + b) + c
  {}

  /** The rows from `o` on that are still to be transformed lead to `result`. */
  ghost predicate ToDo(dir: Direction, T: Table, M: nat, done: seq<Complex>, rest: seq<Complex>, left: nat,
                       result: seq<Complex>) {
    TableFits(dir, T, M) && Times(left, Pow2(M)) <= |rest| && done + AllRows(dir, T, M, rest, left) == result
  }

  lemma RowsBegin(dir: Direction, T: Table, M: nat, x: seq<Complex>, rows: nat) returns (result: seq<Complex>)
    requires TableFits(dir, T, M) && Times(rows, Pow2(M)) <= |x|
    ensures result == AllRows(dir, T, M, x, rows) && ToDo(dir, T, M, [], x, rows, result) && [] + x == x
  {
    result := AllRows(dir, T, M, x, rows);
    assert [] + result == result;
  }

  lemma RowsEnd(dir: Direction, T: Table, M: nat, done: seq<Complex>, rest: seq<Complex>, left: nat,
                result: seq<Complex>)
    requires ToDo(dir, T, M, done, rest, left, result) && left == 0
    ensures done + rest == result
  {}

  lemma NextIs(dir: Direction, T: Table, M: nat, done: seq<Complex>, rest: seq<Complex>, left: nat,
               result: seq<Complex>)
      returns (row: seq<Complex>, r: seq<Complex>, done': seq<Complex>, rest': seq<Complex>, left': nat)
    requires 0 < left && ToDo(dir, T, M, done, rest, left, result)
    ensures |row| == Pow2(M) && Holds(done + rest, done, row, rest') && RowTransform(dir, T, M, row) == r
      && |r| == |row|
    ensures done' == done + r && left' == left - 1 && ToDo(dir, T, M, done', rest', left', result)
  {
    RowDone(dir, T, M, done, rest, left);
    row, rest' := rest[..Pow2(M)], rest[Pow2(M)..];
    r := RowTransform(dir, T, M, row);
    done', left' := done + r, left - 1;
  }

  /** One more row. */
  method NextRow(io: array<Complex>, o: nat, T: Table, M: nat, dir: Direction, ghost done: seq<Complex>,
                 ghost rest: seq<Complex>, ghost left: nat, ghost result: seq<Complex>)
      returns (ghost done': seq<Complex>, ghost rest': seq<Complex>, ghost left': nat)
    requires io[..] == done + rest && |done| == o && TableFits(dir, T, M) && M <= 19 && Pow2(M - 2) < |T.cos|
    requires 0 < left && ToDo(dir, T, M, done, rest, left, result)
    modifies io
    ensures io[..] == done' + rest' && |done'| == o + Pow2(M) && left' == left - 1
    ensures ToDo(dir, T, M, done', rest', left', result)
  {
    ghost var row, r;
    row, r, done', rest', left' := NextIs(dir, T, M, done, rest, left, result);
    TransformRow(io, o, T, M, dir, done, row, rest');
  }

  /** The loop over the rows. */
  method TransformRows(io: array<Complex>, M: nat, Rows: nat, T: Table, dir: Direction, ghost result: seq<Complex>)
    requires TableFits(dir, T, M) && M <= 19 && Pow2(M - 2) < |T.cos| && ToDo(dir, T, M, [], io[..], Rows, result)
    modifies io
    ensures io[..] == result
  {
    var ioptr := 0;
    var left := Rows;
    ghost var done, rest, todo := [], io[..], Rows;
    while left > 0
      invariant left == todo && io[..] == done + rest && |done| == ioptr
      invariant ToDo(dir, T, M, done, rest, todo, result)
    {
      done, rest, todo := NextRow(io, ioptr, T, M, dir, done, rest, todo, result);
      ioptr := ioptr + Pow2(M);
      left := left - 1;
    }
    RowsEnd(dir, T, M, done, rest, todo, result);
  }

  /** `ffts`, `iffts`, `rffts` and `riffts`: every row of the array is transformed in place; what lies behind the rows
      stays. */
  method Transform(io: array<Complex>, M: nat, Rows: nat, T: Table, dir: Direction)
    requires TableFits(dir, T, M) && M <= 19 && Times(Rows, Pow2(M)) <= io.Length && Pow2(M - 2) < |T.cos|
    modifies io
    ensures io[..] == AllRows(dir, T, M, old(io[..]), Rows)
    ensures forall r: nat :: r < Rows ==> RowDoneAt(dir, T, M, old(io[..]), io[..], r)
    ensures io[Times(Rows, Pow2(M))..] == old(io[Times(Rows, Pow2(M))..])
  {
    ghost var result := RowsBegin(dir, T, M, io[..], Rows);
    RowsAre(dir, T, M, io[..], Rows);
    TransformRows(io, M, Rows, T, dir, result);
  }

  /** Every element goes through `h`. */
  method MapInPlace(io: array<Complex>, h: Complex -> Complex)
    modifies io
    ensures io[..] == MapAll(h, old(io[..]))
  {
    var i := 0;
    while i < io.Length
      invariant 0 <= i <= io.Length && io[i..] == old(io[i..])
      invariant forall j :: 0 <= j < i ==> io[j] == h(old(io[j]))
    {
      io[i] := h(io[i]);
      i := i + 1;
    }
  }

  /** `iffts` by way of `ffts`: conjugate, transform, conjugate and divide. The array ends as `Transform` leaves it
      in the other direction. */
  method InverseByForward(io: array<Complex>, M: nat, Rows: nat, T: Table)
    requires 3 <= M <= 19 && Times(Rows, Pow2(M)) == io.Length && Pow2(M - 2) < |T.cos|
    modifies io
    ensures io[..] == AllRows(Inverse, T, M, old(io[..]), Rows)
  {
    InverseOfAll(T, M, io[..], Rows);
    MapInPlace(io, Conjugation(1.0));
    Transform(io, M, Rows, T, Forward);
    MapInPlace(io, Conjugation(Reciprocal(M)));
  }
}

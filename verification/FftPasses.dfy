/** The passes of `ffts` and `iffts` after the first stage: groups of eight elements, each put through one butterfly. */
module FftPasses {
  import opened BitReversal
  import opened Butterflies
  import opened FirstStage

  /** Eight elements at equal distances. */
  datatype Eight = Eight(e0: Complex, e1: Complex, e2: Complex, e3: Complex, e4: Complex, e5: Complex, e6: Complex,
    e7: Complex)

  function At(x: seq<Complex>, i: int): Complex { if 0 <= i < |x| then x[i] else ZERO }

  function Get8(x: seq<Complex>, p: int, inc: int): Eight {
    Eight(At(x, p), At(x, p + inc), At(x, p + 2 * inc), At(x, p + 3 * inc),
      At(x, p + 4 * inc), At(x, p + 5 * inc), At(x, p + 6 * inc), At(x, p + 7 * inc))
  }

  function Put8(x: seq<Complex>, p: int, inc: int, e: Eight): (r: seq<Complex>)
    ensures |r| == |x|
  {
    if 0 <= p && 0 < inc && p + 7 * inc < |x| then seq(|x|, i requires 0 <= i < |x| => Chosen(x[i], p, inc, e, i))
    else x
  }

  function Chosen(z: Complex, p: int, inc: int, e: Eight, i: int): Complex {
    if i == p then e.e0 else if i == p + inc then e.e1 else if i == p + 2 * inc then e.e2
    else if i == p + 3 * inc then e.e3
    else if i == p + 4 * inc then e.e4 else if i == p + 5 * inc then e.e5 else if i == p + 6 * inc then e.e6
    else if i == p + 7 * inc then e.e7
    else z
  }

  /** The table entries of one radix-8 butterfly. */
  datatype Turns = Turns(u0: Complex, u1: Complex, u2: Complex, u3: Complex)

  /** The radix-8 butterfly (lines 557-640 of fftlib.c, and 1294-1377 for the inverse). */
  function Fly8(ops: Ops, u: Turns, f: Eight): Eight {
    var t1 := ops.turned(f.e0, u.u0, f.e1);
    var t0 := ops.other(f.e0, t1);
    var f1 := ops.turned(f.e2, u.u0, f.e3);
    var f2 := ops.other(f.e2, f1);
    var f0 := ops.turned(f.e4, u.u0, f.e5);
    var f4 := ops.other(f.e4, f0);
    var f3 := ops.turned(f.e6, u.u0, f.e7);
    var f6 := ops.other(f.e6, f3);

    var g5 := ops.turned(t0, u.u1, f2);
    var s0 := ops.other(t0, g5);
    var g7 := ops.turnedAdd(t1, u.u1, f1);
    var s1 := ops.other(t1, g7);
    var g2 := ops.turned(f4, u.u1, f6);
    var g4 := ops.other(f4, g2);
    var g1 := ops.turnedAdd(f0, u.u1, f3);
    var g0 := ops.other(f0, g1);

    var h6 := ops.turned(s0, u.u2, g4);
    var r0 := ops.other(s0, h6);
    var h3 := ops.turnedSub(g5, u.u2, g2);
    var h2 := ops.other(g5, h3);
    var h4 := ops.turned(s1, u.u3, g0);
    var r1 := ops.other(s1, h4);
    var h5 := ops.turnedAdd(g7, u.u3, g1);
    var h7 := ops.other(g7, h5);

    Eight(r0, r1, h3, h7, h6, h4, h2, h5)
  }

  /** The radix-2 butterflies of the stage before, four at a time (lines 300-359 of fftlib.c). */
  function Fly2(ops: Ops, f: Eight): Eight {
    var f5 := ops.minus(f.e0, f.e2);
    var t0 := ops.plus(f.e0, f.e2);
    var f7 := ops.quarter(f.e1, f.e3);
    var t1 := ops.unquarter(f.e1, f.e3);
    var f2 := ops.minus(f.e4, f.e6);
    var f4 := ops.plus(f.e4, f.e6);
    var f1 := ops.quarter(f.e5, f.e7);
    var f0 := ops.unquarter(f.e5, f.e7);
    Eight(t0, t1, f5, f7, f4, f0, f2, f1)
  }

  /** The radix-4 butterflies of the stage before, two at a time (lines 389-474 of fftlib.c). */
  function Fly4(ops: Ops, u3: Complex, f: Eight): Eight {
    var f5 := ops.minus(f.e0, f.e2);
    var t0 := ops.plus(f.e0, f.e2);
    var f7 := ops.quarter(f.e1, f.e3);
    var t1 := ops.unquarter(f.e1, f.e3);
    var f2 := ops.minus(f.e4, f.e6);
    var f4 := ops.plus(f.e4, f.e6);
    var f1 := ops.quarter(f.e5, f.e7);
    var f0 := ops.unquarter(f.e5, f.e7);

    var g6 := ops.minus(t0, f4);
    var s0 := ops.plus(t0, f4);
    var g3 := ops.quarter(f5, f2);
    var g5 := ops.unquarter(f5, f2);
    var g4 := ops.turned(t1, u3, f0);
    var s1 := ops.other(t1, g4);
    var g2 := ops.turnedAdd(f7, u3, f1);
    var g7 := ops.other(f7, g2);
    Eight(s0, s1, g5, g7, g6, g4, g3, g2)
  }

  /** The kinds of butterflies. */
  datatype Kernel = Radix2 | Radix4(u3: Complex) | Radix8(turns: Turns)

  function Fly(ops: Ops, k: Kernel, f: Eight): Eight {
    match k
    case Radix2 => Fly2(ops, f)
    case Radix4(u3) => Fly4(ops, u3, f)
    case Radix8(turns) => Fly8(ops, turns, f)
  }

  function Map8(h: Complex -> Complex, f: Eight): Eight {
    Eight(h(f.e0), h(f.e1), h(f.e2), h(f.e3), h(f.e4), h(f.e5), h(f.e6), h(f.e7))
  }

  lemma Fly8Carried(h: Complex -> Complex, F: Ops, I: Ops, u: Turns, f: Eight)
    requires Carries(h, F, I)
    ensures Fly8(I, u, Map8(h, f)) == Map8(h, Fly8(F, u, f))
  {}

  lemma Fly4Carried(h: Complex -> Complex, F: Ops, I: Ops, u3: Complex, f: Eight)
    requires Carries(h, F, I)
    ensures Fly4(I, u3, Map8(h, f)) == Map8(h, Fly4(F, u3, f))
  {}

  lemma Fly2Carried(h: Complex -> Complex, F: Ops, I: Ops, f: Eight)
    requires Carries(h, F, I)
    ensures Fly2(I, Map8(h, f)) == Map8(h, Fly2(F, f))
  {}

  /** The butterflies of the two procedures correspond. */
  lemma FlyCarried(h: Complex -> Complex, F: Ops, I: Ops, k: Kernel, f: Eight)
    requires Carries(h, F, I)
    ensures Fly(I, k, Map8(h, f)) == Map8(h, Fly(F, k, f))
  {
    match k
    case Radix2 => Fly2Carried(h, F, I, f);
    case Radix4(u3) => Fly4Carried(h, F, I, u3, f);
    case Radix8(turns) => Fly8Carried(h, F, I, turns, f);
  }

  // ----- passes over a row

  /** A change of a row at a place. */
  type Change = (seq<Complex>, int) -> seq<Complex>

  /** One group of eight elements put through a butterfly. */
  function GroupOf(fly: Eight -> Eight, inc: int): Change {
    (x, p) => Put8(x, p, inc, fly(Get8(x, p, inc)))
  }

  function FlyOf(ops: Ops, k: Kernel): Eight -> Eight { f => Fly(ops, k, f) }

  /** A change at `n` places from `p` on, `d` apart. */
  function Along(c: Change, x: seq<Complex>, p: int, d: int, n: nat): seq<Complex>
    decreases n
  {
    if n == 0 then x else Along(c, c(x, p), p + d, d, n - 1)
  }

  /** `n` groups from `p` on. */
  function Groups(ops: Ops, k: Kernel, x: seq<Complex>, p: int, inc: int, n: nat): seq<Complex> {
    Along(GroupOf(FlyOf(ops, k), inc), x, p, 8 * inc, n)
  }

  /** The table of cosines (`Utbl`), and the square root of one half that the code has as a literal. */
  datatype Table = Table(cos: seq<real>, sqrtHalf: real)

  function Tab(T: Table, i: int): real { if 0 <= i < |T.cos| then T.cos[i] else 0.0 }

  /** The pointers into the table of cosines and the entries read through them. */
  datatype Pointers = Pointers(r0: int, i0: int, r1: int, i1: int, r2: int, i2: int, turns: Turns)

  function TurnsAt(T: Table, r0: int, i0: int, r1: int, i1: int, r2: int, i2: int, eighth: int, negate: bool): Turns {
    Turns(Complex(if negate then -Tab(T, r0) else Tab(T, r0), Tab(T, i0)), Complex(Tab(T, r1), Tab(T, i1)),
      Complex(Tab(T, r2), Tab(T, i2)), Complex(Tab(T, r2 + eighth), Tab(T, i2 - eighth)))
  }

  function Started(T: Table, quarter: int, eighth: int): Pointers {
    Pointers(0, quarter, 0, quarter, 0, quarter, TurnsAt(T, 0, quarter, 0, quarter, 0, quarter, eighth, false))
  }

  function Advanced(T: Table, pt: Pointers, n4: int, n2: int, n1: int, eighth: int, negate: bool): Pointers {
    Pointers(pt.r0 + n4, pt.i0 - n4, pt.r1 + n2, pt.i1 - n2, pt.r2 + n1, pt.i2 - n1,
      TurnsAt(T, pt.r0 + n4, pt.i0 - n4, pt.r1 + n2, pt.i1 - n2, pt.r2 + n1, pt.i2 - n1, eighth, negate))
  }

  datatype Swept = Swept(x: seq<Complex>, pt: Pointers)

  /** The numbers a radix-8 stage works with: distance of elements, number of groups, steps through the table. */
  datatype Steps = Steps(inc: int, n: nat, n4: int, n2: int, n1: int, eighth: int)

  function GroupsBy(flies: Kernel -> Eight -> Eight, inc: int): Kernel -> Change { k => GroupOf(flies(k), inc) }

  function FliesOf(ops: Ops): Kernel -> Eight -> Eight { k => FlyOf(ops, k) }

  function Advancing(T: Table, st: Steps, negate: bool): Pointers -> Pointers {
    pt => Advanced(T, pt, if negate then -st.n4 else st.n4, st.n2, st.n1, st.eighth, negate)
  }

  /** The loop over `cnt` offsets from `p` on: each has its own table entries and `n` groups. */
  function Sweep(group: Kernel -> Change, next: Pointers -> Pointers, x: seq<Complex>, p: int, d: int, n: nat,
                 pt: Pointers, cnt: nat): Swept
    decreases cnt
  {
    if cnt == 0 then Swept(x, pt) else Sweep(group, next, Along(group(Radix8(pt.turns)), x, p, d, n), p + 1, d, n,
      next(pt), cnt - 1)
  }

  function StepsAt(M: nat, e: nat): Steps
    requires e + 3 <= M
  {
    Steps(Pow2(e), Pow2(M - 3 - e), Pow2(M - 1 - e), Pow2(M - 2 - e), Pow2(M - 3 - e), Pow2(M - 3))
  }

  /** One radix-8 stage in two halves: the first pair of pointers goes up the table and comes back. */
  function Stage(ops: Ops, T: Table, M: nat, x: seq<Complex>, e: nat): seq<Complex>
    requires 1 <= e && e + 3 <= M
  {
    var st, half := StepsAt(M, e), Pow2(e - 1);
    var a := Sweep(GroupsBy(FliesOf(ops), st.inc), Advancing(T, st, false), x, 0, 8 * st.inc, st.n,
      Started(T, Pow2(M - 2), st.eighth), half);
    Sweep(GroupsBy(FliesOf(ops), st.inc), Advancing(T, st, true), a.x, half, 8 * st.inc, st.n, a.pt, half).x
  }

  function StageOf(ops: Ops, T: Table, M: nat): Change {
    (x, e) => if 1 <= e && e + 3 <= M then Stage(ops, T, M, x, e) else x
  }

  function Stages(stage: Change, M: nat, x: seq<Complex>, e: nat): seq<Complex>
    decreases M - e
  {
    if e + 3 > M then x else Stages(stage, M, stage(x, e), e + 3)
  }

  function KernelBefore(T: Table, M: nat): Kernel
    requires 3 <= M
  {
    if (M - 1) % 3 == 1 then Radix2 else Radix4(Complex(T.sqrtHalf, T.sqrtHalf))
  }

  /** The stage that makes up for sizes that radix 8 does not divide. */
  function Before(ops: Ops, T: Table, M: nat, x: seq<Complex>): seq<Complex>
    requires 3 <= M
  {
    if (M - 1) % 3 == 0 then x else Groups(ops, KernelBefore(T, M), x, 0, 1, Pow2(M - 3))
  }

  /** Everything after the first stage on one row. */
  function Passes(ops: Ops, T: Table, M: nat, x: seq<Complex>): seq<Complex>
    requires 3 <= M
  {
    Stages(StageOf(ops, T, M), M, Before(ops, T, M, x), 1 + (M - 1) % 3)
  }

  ghost predicate KeepsLength(c: Change) {
    forall x: seq<Complex>, p: int {:trigger c(x, p)} :: |c(x, p)| == |x|
  }

  lemma GroupKeeps(fly: Eight -> Eight, inc: int)
    ensures KeepsLength(GroupOf(fly, inc))
  {
    var c := GroupOf(fly, inc);
    forall x: seq<Complex>, p: int ensures |c(x, p)| == |x| {
      assert c(x, p) == Put8(x, p, inc, fly(Get8(x, p, inc)));
    }
  }

  lemma {:induction false} AlongLength(c: Change, x: seq<Complex>, p: int, d: int, n: nat)
    requires KeepsLength(c)
    ensures |Along(c, x, p, d, n)| == |x|
    decreases n
  {
    if n > 0 { AlongLength(c, c(x, p), p + d, d, n - 1); }
  }

  lemma {:induction false} SweepLength(flies: Kernel -> Eight -> Eight, inc: int, next: Pointers -> Pointers,
                                       x: seq<Complex>, p: int, d: int, n: nat, pt: Pointers, cnt: nat)
    ensures |Sweep(GroupsBy(flies, inc), next, x, p, d, n, pt, cnt).x| == |x|
    decreases cnt
  {
    if cnt > 0 {
      var c := GroupOf(flies(Radix8(pt.turns)), inc);
      GroupKeeps(flies(Radix8(pt.turns)), inc);
      AlongLength(c, x, p, d, n);
      SweepLength(flies, inc, next, Along(c, x, p, d, n), p + 1, d, n, next(pt), cnt - 1);
    }
  }

  lemma StageLength(ops: Ops, T: Table, M: nat, x: seq<Complex>, e: nat)
    requires 1 <= e && e + 3 <= M
    ensures |Stage(ops, T, M, x, e)| == |x|
  {
    var st, half := StepsAt(M, e), Pow2(e - 1);
    var pt := Started(T, Pow2(M - 2), st.eighth);
    SweepLength(FliesOf(ops), st.inc, Advancing(T, st, false), x, 0, 8 * st.inc, st.n, pt, half);
    var a := Sweep(GroupsBy(FliesOf(ops), st.inc), Advancing(T, st, false), x, 0, 8 * st.inc, st.n, pt, half);
    SweepLength(FliesOf(ops), st.inc, Advancing(T, st, true), a.x, half, 8 * st.inc, st.n, a.pt, half);
  }

  lemma StageKeeps(ops: Ops, T: Table, M: nat)
    ensures KeepsLength(StageOf(ops, T, M))
  {
    forall x: seq<Complex>, e: int ensures |StageOf(ops, T, M)(x, e)| == |x| {
      if 1 <= e && e + 3 <= M { StageLength(ops, T, M, x, e); }
    }
  }

  lemma {:induction false} StagesLength(stage: Change, M: nat, x: seq<Complex>, e: nat)
    requires KeepsLength(stage)
    ensures |Stages(stage, M, x, e)| == |x|
    decreases M - e
  {
    if e + 3 <= M { StagesLength(stage, M, stage(x, e), e + 3); }
  }

  lemma BeforeLength(ops: Ops, T: Table, M: nat, x: seq<Complex>)
    requires 3 <= M
    ensures |Before(ops, T, M, x)| == |x|
  {
    if (M - 1) % 3 != 0 {
      GroupKeeps(FlyOf(ops, KernelBefore(T, M)), 1);
      AlongLength(GroupOf(FlyOf(ops, KernelBefore(T, M)), 1), x, 0, 8 * 1, Pow2(M - 3));
    }
  }

  lemma PassesLength(ops: Ops, T: Table, M: nat, x: seq<Complex>)
    requires 3 <= M
    ensures |Passes(ops, T, M, x)| == |x|
  {
    BeforeLength(ops, T, M, x);
    StageKeeps(ops, T, M);
    StagesLength(StageOf(ops, T, M), M, Before(ops, T, M, x), 1 + (M - 1) % 3);
  }

  // ----- the passes of the two procedures stay in step

  function MapAll(h: Complex -> Complex, x: seq<Complex>): (r: seq<Complex>)
    ensures |r| == |x|
  {
    seq(|x|, i requires 0 <= i < |x| => h(x[i]))
  }

  lemma PutCarried(h: Complex -> Complex, x: seq<Complex>, p: int, inc: int, e: Eight)
    requires h(ZERO) == ZERO
    ensures Put8(MapAll(h, x), p, inc, Map8(h, e)) == MapAll(h, Put8(x, p, inc, e))
    ensures Get8(MapAll(h, x), p, inc) == Map8(h, Get8(x, p, inc))
  {
    var y, z := Put8(MapAll(h, x), p, inc, Map8(h, e)), MapAll(h, Put8(x, p, inc, e));
    forall i | 0 <= i < |x| ensures y[i] == z[i] {}
  }

  function Mapping(h: Complex -> Complex): seq<Complex> -> seq<Complex> { x => MapAll(h, x) }

  /** `H` carries rows, so that change `f` before it does what change `g` does after it. */
  ghost predicate ChangeCarried(H: seq<Complex> -> seq<Complex>, f: Change, g: Change) {
    forall x: seq<Complex>, p: int :: g(H(x), p) == H(f(x, p))
  }

  ghost predicate AllCarried(H: seq<Complex> -> seq<Complex>, F: Ops, I: Ops) {
    forall k: Kernel, inc: int :: ChangeCarried(H, GroupOf(FlyOf(F, k), inc), GroupOf(FlyOf(I, k), inc))
  }

  lemma GroupCarried(h: Complex -> Complex, F: Ops, I: Ops, k: Kernel, x: seq<Complex>, p: int, inc: int)
    requires Carries(h, F, I) && h(ZERO) == ZERO
    ensures GroupOf(FlyOf(I, k), inc)(MapAll(h, x), p) == MapAll(h, GroupOf(FlyOf(F, k), inc)(x, p))
  {
    PutCarried(h, x, p, inc, Fly(F, k, Get8(x, p, inc)));
    FlyCarried(h, F, I, k, Get8(x, p, inc));
  }

  lemma MappingCarries(h: Complex -> Complex, F: Ops, I: Ops)
    requires Carries(h, F, I) && h(ZERO) == ZERO
    ensures AllCarried(Mapping(h), F, I)
  {
    forall k: Kernel, inc: int ensures ChangeCarried(Mapping(h), GroupOf(FlyOf(F, k), inc), GroupOf(FlyOf(I, k), inc)) {
      forall x: seq<Complex>, p: int ensures GroupOf(FlyOf(I, k), inc)(Mapping(h)(x), p)
        == Mapping(h)(GroupOf(FlyOf(F, k), inc)(x, p)) {
        GroupCarried(h, F, I, k, x, p, inc);
      }
    }
  }

  lemma {:induction false} AlongCarried(H: seq<Complex> -> seq<Complex>, f: Change, g: Change, x: seq<Complex>, p: int,
                                        d: int, n: nat)
    requires ChangeCarried(H, f, g)
    ensures Along(g, H(x), p, d, n) == H(Along(f, x, p, d, n))
    decreases n
  {
    if n > 0 { AlongCarried(H, f, g, f(x, p), p + d, d, n - 1); }
  }

  lemma GroupsCarried(H: seq<Complex> -> seq<Complex>, F: Ops, I: Ops, k: Kernel, x: seq<Complex>, p: int, inc: int,
                      n: nat)
    requires AllCarried(H, F, I)
    ensures Groups(I, k, H(x), p, inc, n) == H(Groups(F, k, x, p, inc, n))
  {
    assert ChangeCarried(H, GroupOf(FlyOf(F, k), inc), GroupOf(FlyOf(I, k), inc));
    AlongCarried(H, GroupOf(FlyOf(F, k), inc), GroupOf(FlyOf(I, k), inc), x, p, 8 * inc, n);
  }

  lemma {:induction false} SweepCarried(H: seq<Complex> -> seq<Complex>, f: Kernel -> Change, g: Kernel -> Change,
                                        next: Pointers -> Pointers,
                                        x: seq<Complex>, p: int, d: int, n: nat, pt: Pointers, cnt: nat)
    requires forall k: Kernel {:trigger f(k)} :: ChangeCarried(H, f(k), g(k))
    ensures var a := Sweep(f, next, x, p, d, n, pt, cnt); Sweep(g, next, H(x), p, d, n, pt, cnt) == Swept(H(a.x), a.pt)
    decreases cnt
  {
    if cnt > 0 {
      var k := Radix8(pt.turns);
      AlongCarried(H, f(k), g(k), x, p, d, n);
      SweepCarried(H, f, g, next, Along(f(k), x, p, d, n), p + 1, d, n, next(pt), cnt - 1);
    }
  }

  lemma StageCarried(H: seq<Complex> -> seq<Complex>, F: Ops, I: Ops, T: Table, M: nat, x: seq<Complex>, e: nat)
    requires AllCarried(H, F, I) && 1 <= e && e + 3 <= M
    ensures Stage(I, T, M, H(x), e) == H(Stage(F, T, M, x, e))
  {
    var st, half := StepsAt(M, e), Pow2(e - 1);
    var f, g := GroupsBy(FliesOf(F), st.inc), GroupsBy(FliesOf(I), st.inc);
    var pt := Started(T, Pow2(M - 2), st.eighth);
    forall k: Kernel {:trigger f(k)} ensures ChangeCarried(H, f(k), g(k)) {
      assert ChangeCarried(H, GroupOf(FlyOf(F, k), st.inc), GroupOf(FlyOf(I, k), st.inc));
    }
    SweepCarried(H, f, g, Advancing(T, st, false), x, 0, 8 * st.inc, st.n, pt, half);
    var a := Sweep(f, Advancing(T, st, false), x, 0, 8 * st.inc, st.n, pt, half);
    SweepCarried(H, f, g, Advancing(T, st, true), a.x, half, 8 * st.inc, st.n, a.pt, half);
  }

  lemma {:induction false} StagesCarried(H: seq<Complex> -> seq<Complex>, f: Change, g: Change, M: nat, x: seq<Complex>,
                                         e: nat)
    requires ChangeCarried(H, f, g)
    ensures Stages(g, M, H(x), e) == H(Stages(f, M, x, e))
    decreases M - e
  {
    if e + 3 <= M { StagesCarried(H, f, g, M, f(x, e), e + 3); }
  }

  lemma StageOfCarried(H: seq<Complex> -> seq<Complex>, F: Ops, I: Ops, T: Table, M: nat)
    requires AllCarried(H, F, I)
    ensures ChangeCarried(H, StageOf(F, T, M), StageOf(I, T, M))
  {
    forall x: seq<Complex>, e: int ensures StageOf(I, T, M)(H(x), e) == H(StageOf(F, T, M)(x, e)) {
      if 1 <= e && e + 3 <= M { StageCarried(H, F, I, T, M, x, e); }
    }
  }

  lemma BeforeCarried(H: seq<Complex> -> seq<Complex>, F: Ops, I: Ops, T: Table, M: nat, x: seq<Complex>)
    requires AllCarried(H, F, I) && 3 <= M
    ensures Before(I, T, M, H(x)) == H(Before(F, T, M, x))
  {
    if (M - 1) % 3 != 0 { GroupsCarried(H, F, I, KernelBefore(T, M), x, 0, 1, Pow2(M - 3)); }
  }

  /** The passes of one procedure on a row carried over are those of the other, carried over. */
  lemma PassesCarried(H: seq<Complex> -> seq<Complex>, F: Ops, I: Ops, T: Table, M: nat, x: seq<Complex>)
    requires AllCarried(H, F, I) && 3 <= M
    ensures Passes(I, T, M, H(x)) == H(Passes(F, T, M, x))
  {
    BeforeCarried(H, F, I, T, M, x);
    StageOfCarried(H, F, I, T, M);
    StagesCarried(H, StageOf(F, T, M), StageOf(I, T, M), M, Before(F, T, M, x), 1 + (M - 1) % 3);
  }
}

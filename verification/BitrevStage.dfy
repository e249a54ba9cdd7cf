/** The loops of `BitrevR2` (fftlib.c), and what they leave: sums and differences of bit-reversed pairs. */
module BitrevStage {
  import opened BitReversal
  import opened Butterflies
  import opened FirstStage
  import E = MirrorExchange

  function LayoutOf(sh: Shape): E.Layout {
    E.Layout(Columns(sh), sh.odd, Pass(sh), Half(sh), (a, b, s) => Place(sh, a, b, s))
  }

  lemma LayoutFits(sh: Shape)
    ensures E.LayoutOk(LayoutOf(sh))
  {
    var g := LayoutOf(sh);
    TimesMonotone(1, Columns(sh), Stride(sh));
    assert Times(1, Stride(sh)) == Times(0, Stride(sh)) + Stride(sh);
    forall a: nat, b: nat, s: nat ensures E.InRange(g, a, b, s) {
      if E.Spot(g, a, b, s) { PlaceRange(sh, a, b, s); }
    }
    forall a: nat, b: nat, s: nat, a': nat, b': nat, s': nat ensures E.Apart(g, a, b, s, a', b', s') {
      LayoutApart(sh, a, b, s, a', b', s');
    }
  }

  lemma LayoutApart(sh: Shape, a: nat, b: nat, s: nat, a': nat, b': nat, s': nat)
    ensures E.Apart(LayoutOf(sh), a, b, s, a', b', s')
  {
    var g := LayoutOf(sh);
    if E.Spot(g, a, b, s) && E.Spot(g, a', b', s') {
      PlaceRange(sh, a, b, s);
      PlaceRange(sh, a', b', s');
      if Place(sh, a, b, s) == Place(sh, a', b', s') { PlacesApart(sh, a, b, s, a', b', s'); }
    }
  }

  /** The way the loops compute where a spot is. */
  ghost predicate AddressOk(g: E.Layout, stride: nat, BRshift: nat, a: nat, b: nat, s: nat) {
    b < 256 && g.place(a, b, s) == Times(a, stride) + 2 * Shr(BRcnt(b), BRshift) + s
  }

  ghost predicate Addressed(g: E.Layout, stride: nat, BRshift: nat) {
    && g.columns <= 256 && g.half == Times(g.columns, stride)
    && forall a: nat, b: nat, s: nat {:trigger AddressOk(g, stride, BRshift, a, b, s)} :: E.Spot(g, a, b, s) ==>
         AddressOk(g, stride, BRshift, a, b, s)
  }

  lemma LayoutAddressed(sh: Shape)
    requires sh.n <= 8
    ensures Addressed(LayoutOf(sh), Stride(sh), 8 - sh.n)
  {
    var g := LayoutOf(sh);
    Pow2Monotone(sh.n, 8);
    assert Pow2(8) == 256;
    forall a: nat, b: nat, s: nat | E.Spot(g, a, b, s) ensures AddressOk(g, Stride(sh), 8 - sh.n, a, b, s) {
      TableReversed(sh.n, b);
    }
  }

  /** Where the loop over a column stands: `fly0` and `fly1` are the addresses of element `A` and its mirror image, and
      the first two elements at `fly0` have been read ahead. */
  ghost predicate At(fly: E.Pairing, g: E.Layout, o: nat, y: seq<Complex>, x: seq<Complex>, S: nat, B: nat, A: nat,
                     fly0: nat, fly1: nat, f0: Complex, f1: Complex) {
    && E.Cells(fly, g, o, y, x, S, B, A) && B <= A && E.Spot(g, A, B, S)
    && fly0 == o + g.place(A, B, S) && fly1 == o + g.place(B, A, S)
    && fly0 + g.half + 1 < |x| && fly1 + g.half + 1 < |x| && f0 == x[fly0] && f1 == x[fly0 + g.half]
  }

  lemma Arrive(fly: E.Pairing, g: E.Layout, o: nat, y: seq<Complex>, x: seq<Complex>, S: nat, B: nat, A: nat, fly0: nat,
               fly1: nat)
    requires E.Cells(fly, g, o, y, x, S, B, A) && B <= A && E.Spot(g, A, B, S)
    requires fly0 == o + g.place(A, B, S) && fly1 == o + g.place(B, A, S)
    ensures fly0 + g.half + 1 < |y| && At(fly, g, o, y, x, S, B, A, fly0, fly1, y[fly0], y[fly0 + g.half])
  {
    E.Reads(fly, g, o, y, x, S, B, A, A, B);
    E.Reads(fly, g, o, y, x, S, B, A, B, A);
  }

  /** One turn of the loop over a column. */
  method Turn(io: array<Complex>, o: nat, fly: E.Pairing, half: nat, fly0: nat, fly1: nat, f0: Complex, f1: Complex,
              ghost g: E.Layout, ghost x: seq<Complex>, ghost S: nat, ghost B: nat, ghost A: nat)
    requires At(fly, g, o, io[..], x, S, B, A, fly0, fly1, f0, f1) && B < A && half == g.half
    modifies io
    ensures E.Cells(fly, g, o, io[..], x, S, B, A - 1)
  {
    Exchanged(fly, g, o, io[..], x, S, B, A, fly0, fly1, f0, f1);
    E.Exchange(io, fly, fly0, fly1, half, f0, f1, x);
  }

  lemma Exchanged(fly: E.Pairing, g: E.Layout, o: nat, y: seq<Complex>, x: seq<Complex>, S: nat, B: nat, A: nat,
                  fly0: nat, fly1: nat, f0: Complex, f1: Complex)
    requires At(fly, g, o, y, x, S, B, A, fly0, fly1, f0, f1) && B < A
    ensures |y| == |x| && 1 < g.half && fly0 + g.half + 1 < |x| && fly1 + g.half + 1 < |x|
    ensures E.Fresh(y, x, fly0, g.half) && E.Fresh(y, x, fly1, g.half) && f0 == x[fly0] && f1 == x[fly0 + g.half]
    ensures E.Cells(fly, g, o, E.Fly4(fly, E.Fly4(fly, y, fly1, x, fly0, g.half), fly0, x, fly1, g.half), x, S, B,
      A - 1)
  {
    E.Reads(fly, g, o, y, x, S, B, A, A, B);
    E.Reads(fly, g, o, y, x, S, B, A, B, A);
    E.PairStep(fly, g, o, y, x, S, B, A);
  }

  /** The last turn, on the diagonal. */
  method LastTurn(io: array<Complex>, o: nat, fly: E.Pairing, half: nat, fly0: nat, f0: Complex, f1: Complex,
                  ghost fly1: nat, ghost g: E.Layout, ghost x: seq<Complex>, ghost S: nat, ghost B: nat)
    requires At(fly, g, o, io[..], x, S, B, B, fly0, fly1, f0, f1) && half == g.half
    modifies io
    ensures E.Cells(fly, g, o, io[..], x, S, B - 1, g.columns - 1)
  {
    E.Reads(fly, g, o, io[..], x, S, B, B, B, B);
    E.DiagonalStep(fly, g, o, io[..], x, S, B);
    var f2, f3 := io[fly0 + 1], io[fly0 + half + 1];
    E.WriteFour(io, fly0, half, fly.sum(f0, f1), fly.difference(f0, f1), fly.sum(f2, f3), fly.difference(f2, f3));
  }

  /** `x << k` */
  function Shl(x: nat, k: nat): nat { if k == 0 then x else 2 * Shl(x, k - 1) }

  lemma {:induction false} ShlIsTimes(x: nat, k: nat)
    ensures Shl(x, k) == Times(x, Pow2(k))
  {
    TimesIs(x, Pow2(k));
    if k > 0 {
      ShlIsTimes(x, k - 1);
      TimesIs(x, Pow2(k - 1));
      assert x * Pow2(k) == 2 * (x * Pow2(k - 1));
    } else {
      assert x * 1 == x;
    }
  }

  lemma Addresses(g: E.Layout, stride: nat, BRshift: nat, shift: nat, a: nat, b: nat, s: nat)
    requires Addressed(g, stride, BRshift) && E.Spot(g, a, b, s) && stride == Pow2(shift)
    ensures g.place(a, b, s) == Shl(a, shift) + Shr(BRcnt(b), BRshift) * 2 + s
    ensures a > 0 ==> g.place(a, b, s) == g.place(a - 1, b, s) + stride
    ensures a == g.columns - 1 ==>
      g.half >= stride && g.place(a, b, s) == g.half - stride + Shr(BRcnt(b), BRshift) * 2 + s
  {
    ShlIsTimes(a, shift);
    assert AddressOk(g, stride, BRshift, a, b, s);
    if a > 0 { assert AddressOk(g, stride, BRshift, a - 1, b, s); }
  }

  /** The addresses of the element before and of its mirror image. */
  method Back(o: nat, BRshift: nat, stride: nat, base: nat, fly0: nat, LoopCnt: nat, ghost shift: nat,
              ghost g: E.Layout, ghost S: nat, ghost B: nat)
      returns (fly0': nat, fly1': nat)
    requires Addressed(g, stride, BRshift) && stride == Pow2(shift) && B < LoopCnt && E.Spot(g, LoopCnt, B, S)
    requires fly0 == o + g.place(LoopCnt, B, S) && base == o + Shl(B, shift) + S
    ensures fly0' == o + g.place(LoopCnt - 1, B, S) && fly1' == o + g.place(B, LoopCnt - 1, S)
  {
    Addresses(g, stride, BRshift, shift, LoopCnt, B, S);
    Addresses(g, stride, BRshift, shift, B, LoopCnt - 1, S);
    fly0' := fly0 - stride;
    fly1' := base + Shr(BRcnt(LoopCnt - 1), BRshift) * 2;
  }

  /** The addresses of the last element of a column and of its mirror image. */
  method Begin(o: nat, columns: nat, BRshift: nat, shift: nat, stride: nat, half: nat, stage: nat, LoopN: nat,
               ghost g: E.Layout)
      returns (base: nat, fly0: nat, fly1: nat)
    requires Addressed(g, stride, BRshift) && columns == g.columns && half == g.half && stride == Pow2(shift)
      && E.Spot(g, LoopN, LoopN, stage)
    ensures fly0 == o + g.place(columns - 1, LoopN, stage) && fly1 == o + g.place(LoopN, columns - 1, stage)
    ensures base == o + Shl(LoopN, shift) + stage
  {
    Addresses(g, stride, BRshift, shift, columns - 1, LoopN, stage);
    Addresses(g, stride, BRshift, shift, LoopN, columns - 1, stage);
    fly0 := o + (half - stride) + Shr(BRcnt(LoopN), BRshift) * 2 + stage;
    base := o + Shl(LoopN, shift) + stage;
    fly1 := base + Shr(BRcnt(columns - 1), BRshift) * 2;
  }

  /** Reads the first two elements of the spot the loop has come to. */
  method ReadAhead(io: array<Complex>, half: nat, fly0: nat, ghost fly1: nat, ghost fly: E.Pairing, ghost o: nat,
                   ghost g: E.Layout, ghost x: seq<Complex>,
                   ghost S: nat, ghost B: nat, ghost A: nat) returns (f0: Complex, f1: Complex)
    requires E.Cells(fly, g, o, io[..], x, S, B, A) && B <= A && E.Spot(g, A, B, S) && half == g.half
    requires fly0 == o + g.place(A, B, S) && fly1 == o + g.place(B, A, S)
    ensures At(fly, g, o, io[..], x, S, B, A, fly0, fly1, f0, f1)
  {
    Arrive(fly, g, o, io[..], x, S, B, A, fly0, fly1);
    f0, f1 := io[fly0], io[fly0 + half];
  }

  /** The loop over one column: its elements are exchanged with their mirror images, from the last down to the diagonal.
      The first two elements of the next spot are read ahead. */
  method Column(io: array<Complex>, o: nat, fly: E.Pairing, columns: nat, BRshift: nat, shift: nat, stride: nat,
                half: nat, stage: nat, LoopN: nat,
                ghost g: E.Layout, ghost x: seq<Complex>)
    requires Addressed(g, stride, BRshift) && columns == g.columns && half == g.half && stride == Pow2(shift)
      && E.Spot(g, LoopN, LoopN, stage)
    requires E.Cells(fly, g, o, io[..], x, stage, LoopN, g.columns - 1)
    modifies io
    ensures E.Cells(fly, g, o, io[..], x, stage, LoopN - 1, g.columns - 1)
  {
    var base, fly0, fly1 := Begin(o, columns, BRshift, shift, stride, half, stage, LoopN, g);
    var f0, f1 := ReadAhead(io, half, fly0, fly1, fly, o, g, x, stage, LoopN, columns - 1);
    fly0, fly1, f0, f1 := DownTo(io, o, fly, columns, BRshift, stride, half, base, LoopN, fly0, fly1, f0, f1, shift, g,
      x, stage);
    LastTurn(io, o, fly, half, fly0, f0, f1, fly1, g, x, stage, LoopN);
  }

  /** Goes on to the element before. */
  method Next(io: array<Complex>, o: nat, BRshift: nat, stride: nat, half: nat, base: nat, fly: nat, LoopCnt: nat,
              ghost shift: nat, ghost pairing: E.Pairing, ghost g: E.Layout, ghost x: seq<Complex>, ghost S: nat,
                ghost B: nat)
      returns (fly0: nat, fly1: nat, f0: Complex, f1: Complex)
    requires Addressed(g, stride, BRshift) && stride == Pow2(shift) && half == g.half && base == o + Shl(B, shift) + S
    requires B < LoopCnt && E.Spot(g, LoopCnt, B, S) && fly == o + g.place(LoopCnt, B, S)
    requires E.Cells(pairing, g, o, io[..], x, S, B, LoopCnt - 1)
    ensures At(pairing, g, o, io[..], x, S, B, LoopCnt - 1, fly0, fly1, f0, f1)
  {
    fly0, fly1 := Back(o, BRshift, stride, base, fly, LoopCnt, shift, g, S, B);
    f0, f1 := ReadAhead(io, half, fly0, fly1, pairing, o, g, x, S, B, LoopCnt - 1);
  }

  method TurnAndNext(io: array<Complex>, o: nat, fly: E.Pairing, BRshift: nat, stride: nat, half: nat, base: nat,
                     flyA: nat, flyB: nat, fA: Complex, fB: Complex, LoopCnt: nat, ghost shift: nat, ghost g: E.Layout,
                       ghost x: seq<Complex>, ghost S: nat, ghost B: nat)
      returns (fly0: nat, fly1: nat, f0: Complex, f1: Complex)
    requires Addressed(g, stride, BRshift) && half == g.half && stride == Pow2(shift) && base == o + Shl(B, shift) + S
    requires At(fly, g, o, io[..], x, S, B, LoopCnt, flyA, flyB, fA, fB) && B < LoopCnt
    modifies io
    ensures At(fly, g, o, io[..], x, S, B, LoopCnt - 1, fly0, fly1, f0, f1)
  {
    Turn(io, o, fly, half, flyA, flyB, fA, fB, g, x, S, B, LoopCnt);
    fly0, fly1, f0, f1 := Next(io, o, BRshift, stride, half, base, flyA, LoopCnt, shift, fly, g, x, S, B);
  }

  /** The loop over a column, down to the diagonal. */
  method DownTo(io: array<Complex>, o: nat, fly: E.Pairing, columns: nat, BRshift: nat, stride: nat, half: nat,
                base: nat, LoopN: nat,
                flyA: nat, flyB: nat, fA: Complex, fB: Complex, ghost shift: nat, ghost g: E.Layout,
                  ghost x: seq<Complex>, ghost S: nat)
      returns (fly0: nat, fly1: nat, f0: Complex, f1: Complex)
    requires Addressed(g, stride, BRshift) && half == g.half && stride == Pow2(shift)
      && base == o + Shl(LoopN, shift) + S
    requires LoopN < columns && At(fly, g, o, io[..], x, S, LoopN, columns - 1, flyA, flyB, fA, fB)
    modifies io
    ensures At(fly, g, o, io[..], x, S, LoopN, LoopN, fly0, fly1, f0, f1)
  {
    var LoopCnt: nat := columns - 1;
    fly0, fly1, f0, f1 := flyA, flyB, fA, fB;
    while LoopCnt > LoopN
      invariant LoopN <= LoopCnt && At(fly, g, o, io[..], x, S, LoopN, LoopCnt, fly0, fly1, f0, f1)
    {
      fly0, fly1, f0, f1 := TurnAndNext(io, o, fly, BRshift, stride, half, base, fly0, fly1, f0, f1, LoopCnt, shift, g,
        x, S, LoopN);
      LoopCnt := LoopCnt - 1;
    }
  }

  function ShapeOf(M: nat): (sh: Shape)
    requires 3 <= M <= 19
    ensures Bits(sh) == M && sh.n <= 8
  {
    Shape(M / 2 - 1, M % 2 == 1)
  }

  lemma SizesOf(M: nat)
    requires 3 <= M <= 19
    ensures var sh := ShapeOf(M);
      && Columns(sh) == Pow2(M / 2 - 1) && Stride(sh) == Pow2(M - M / 2) && Half(sh) == Pow2(M - 1)
      && Pass(sh) == Pow2(M / 2)
      && Pow2(M) == 2 * Half(sh)
  {
    HalfIs(ShapeOf(M));
  }

  /** One element after the stage, from the elements at bit-reversed places. */
  function Staged(fly: E.Pairing, M: nat, o: nat, x: seq<Complex>, j: nat): Complex
    requires o + Pow2(M) <= |x| && j < Pow2(M)
  {
    var e := j - j % 2;
    RevBound(M, e);
    RevBound(M, e + 1);
    Combined(fly, x[o + Rev(M, e)], x[o + Rev(M, e + 1)], j % 2)
  }

  function Combined(fly: E.Pairing, f: Complex, g: Complex, l: nat): Complex {
    if l == 0 then fly.sum(f, g) else fly.difference(f, g)
  }

  lemma EachDone(fly: E.Pairing, g: E.Layout, o: nat, y: seq<Complex>, x: seq<Complex>, S: nat, a: nat, b: nat, s: nat,
                 t: nat, l: nat)
    requires E.Cells(fly, g, o, y, x, S, g.columns - 1, g.columns - 1) && E.Spot(g, a, b, s) && s < S && t < 2 && l < 2
    ensures var i, i0 := g.place(a, b, s) + (if t == 1 then g.half else 0) + l, g.place(b, a, s) + t;
      && o + i < |x| && o + i0 + g.half < |x| && y[o + i] == Combined(fly, x[o + i0], x[o + i0 + g.half], l)
  {
    assert E.InRange(g, a, b, s) && E.InRange(g, b, a, s)
      && E.CellWhen(fly, g, o, y, x, a, b, s, S, g.columns - 1, g.columns - 1);
  }

  /** Spot `(a, b, s)`, in the half `t`, holds the pair of elements at `e`; their reversed places are in the mirror
      image. */
  ghost predicate Locates(M: nat, g: E.Layout, S: nat, e: nat, a: nat, b: nat, s: nat, t: nat) {
    && E.Spot(g, a, b, s) && s < S && t < 2 && e == g.place(a, b, s) + (if t == 1 then g.half else 0)
    && Rev(M, e) == g.place(b, a, s) + t && Rev(M, e + 1) == g.place(b, a, s) + t + g.half
  }

  /** The layout reaches every pair of elements. */
  ghost predicate Covers(M: nat, g: E.Layout, S: nat) {
    forall e: nat :: e % 2 == 0 && e < Pow2(M) ==>
      exists a: nat, b: nat, s: nat, t: nat :: Locates(M, g, S, e, a, b, s, t)
  }

  lemma LayoutCovers(M: nat, sh: Shape)
    requires Bits(sh) == M
    ensures Covers(M, LayoutOf(sh), Stride(sh))
  {
    forall e: nat | e % 2 == 0 && e < Pow2(M)
      ensures exists a: nat, b: nat, s: nat, t: nat :: Locates(M, LayoutOf(sh), Stride(sh), e, a, b, s, t) {
      var a, b, s, t, l := Coordinates(sh, e);
      var i0, i1 := Partners(sh, a, b, s, t, e);
      assert Locates(M, LayoutOf(sh), Stride(sh), e, a, b, s, t);
    }
  }

  lemma Located(M: nat, g: E.Layout, S: nat, e: nat) returns (a: nat, b: nat, s: nat, t: nat, i0: nat, i1: nat)
    requires Covers(M, g, S) && e % 2 == 0 && e < Pow2(M)
    ensures E.Spot(g, a, b, s) && s < S && t < 2 && e == g.place(a, b, s) + (if t == 1 then g.half else 0)
    ensures i0 == Rev(M, e) && i1 == Rev(M, e + 1) && i0 == g.place(b, a, s) + t && i1 == i0 + g.half
  {
    a, b, s, t :| Locates(M, g, S, e, a, b, s, t);
    i0, i1 := Rev(M, e), Rev(M, e + 1);
  }

  lemma AllDone(fly: E.Pairing, M: nat, g: E.Layout, o: nat, y: seq<Complex>, x: seq<Complex>, S: nat, j: nat)
    requires j < Pow2(M) && o + Pow2(M) <= |x| == |y| && Covers(M, g, S)
    requires E.Cells(fly, g, o, y, x, S, g.columns - 1, g.columns - 1)
    ensures y[o + j] == Staged(fly, M, o, x, j)
  {
    var l := j % 2;
    var e := j - l;
    var a, b, s, t, i0, i1 := Located(M, g, S, e);
    EachDone(fly, g, o, y, x, S, a, b, s, t, l);
    StagedIs(fly, M, o, x, j, e, i0, i1);
  }

  lemma StagedIs(fly: E.Pairing, M: nat, o: nat, x: seq<Complex>, j: nat, e: nat, i0: nat, i1: nat)
    requires o + Pow2(M) <= |x| && j < Pow2(M) && e == j - j % 2 && i0 == Rev(M, e) && i1 == Rev(M, e + 1)
    ensures i0 < Pow2(M) && i1 < Pow2(M) && Staged(fly, M, o, x, j) == Combined(fly, x[o + i0], x[o + i1], j % 2)
  {
    RevBound(M, e);
    RevBound(M, e + 1);
  }

  lemma Partners(sh: Shape, a: nat, b: nat, s: nat, t: nat, e: nat) returns (i0: nat, i1: nat)
    requires Spot(sh, a, b, s) && t < 2 && e == Index(sh, a, b, s, t, 0)
    ensures i0 == Place(sh, b, a, s) + t && i1 == i0 + Half(sh)
    ensures i0 == Rev(Bits(sh), e) && i1 == Rev(Bits(sh), e + 1)
  {
    IndexReversed(sh, a, b, s, t, 0);
    IndexReversed(sh, a, b, s, t, 1);
    i0 := Index(sh, b, a, s, 0, t);
    i1 := Index(sh, b, a, s, 1, t);
  }

  /** `y` is `x` after the stage on the row at `o`: each pair is sum and difference of the elements at bit-reversed
      places, and nothing outside the row has changed. */
  ghost predicate BitReversed(fly: E.Pairing, M: nat, o: nat, x: seq<Complex>, y: seq<Complex>) {
    && |y| == |x| && o + Pow2(M) <= |x|
    && (forall j: nat {:trigger Staged(fly, M, o, x, j)} :: j < Pow2(M) ==> y[o + j] == Staged(fly, M, o, x, j))
    && (forall i :: 0 <= i < |x| && (i < o || o + Pow2(M) <= i) ==> y[i] == x[i])
  }

  lemma Coordinates(sh: Shape, j: nat) returns (a: nat, b: nat, s: nat, t: nat, l: nat)
    requires j < Pow2(Bits(sh))
    ensures Spot(sh, a, b, s) && t < 2 && l == j % 2 && j == Index(sh, a, b, s, t, l) && s < Stride(sh)
  {
    HalfIs(sh);
    StrideEven(sh);
    TimesEven(Columns(sh), Stride(sh));
    t := if j >= Half(sh) then 1 else 0;
    l := j % 2;
    var h := if t == 1 then Half(sh) else 0;
    EvenRest(j, h);
    a, b, s := PlacesEverywhere(sh, j - h - l);
  }

  lemma EvenRest(j: nat, h: nat)
    requires h <= j && h % 2 == 0
    ensures 0 <= j - h - j % 2 && (j - h - j % 2) % 2 == 0
  {}

  /** `BitrevR2`: every pair of elements becomes sum and difference of the elements at the bit-reversed places, in
      place, and nothing else changes. */
  method BitrevR2(io: array<Complex>, o: nat, M: nat, fly: E.Pairing)
    requires 3 <= M <= 19 && o + Pow2(M) <= io.Length
    modifies io
    ensures BitReversed(fly, M, o, old(io[..]), io[..])
  {
    ghost var g := Geometry(M);
    ghost var x := io[..];
    var BRshift, shift := 9 - M / 2, M - M / 2;
    var columns, stride, half, pass := Pow2(M / 2 - 1), Pow2(shift), Pow2(M - 1), Pow2(M / 2);
    Passes(io, o, fly, columns, BRshift, shift, stride, half, pass, g, x);
    Finished(fly, M, g, o, io[..], x, stride);
  }

  lemma Geometry(M: nat) returns (g: E.Layout)
    requires 3 <= M <= 19
    ensures E.LayoutOk(g) && Addressed(g, Pow2(M - M / 2), 9 - M / 2) && Covers(M, g, Pow2(M - M / 2))
    ensures g.columns == Pow2(M / 2 - 1) && g.half == Pow2(M - 1) && g.pass == Pow2(M / 2) && Pow2(M) == 2 * g.half
    ensures Pow2(M - M / 2) == (if g.odd then 2 * g.pass else g.pass)
  {
    g := LayoutOf(ShapeOf(M));
    SizesOf(M);
    LayoutFits(ShapeOf(M));
    LayoutAddressed(ShapeOf(M));
    LayoutCovers(M, ShapeOf(M));
  }

  lemma Finished(fly: E.Pairing, M: nat, g: E.Layout, o: nat, y: seq<Complex>, x: seq<Complex>, S: nat)
    requires o + Pow2(M) <= |x| == |y| && Covers(M, g, S) && Pow2(M) == 2 * g.half
    requires E.Cells(fly, g, o, y, x, S, g.columns - 1, g.columns - 1)
    ensures BitReversed(fly, M, o, x, y)
  {
    forall j: nat | j < Pow2(M) ensures y[o + j] == Staged(fly, M, o, x, j) {
      AllDone(fly, M, g, o, y, x, S, j);
    }
  }

  /** The loops of `BitrevR2` over passes and columns. */
  method Passes(io: array<Complex>, o: nat, fly: E.Pairing, columns: nat, BRshift: nat, shift: nat, stride: nat,
                half: nat, pass: nat,
                ghost g: E.Layout, ghost x: seq<Complex>)
    requires Addressed(g, stride, BRshift) && columns == g.columns && half == g.half && pass == g.pass
    requires stride == Pow2(shift) && stride == (if g.odd then 2 * pass else pass)
    requires E.LayoutOk(g) && o + 2 * half <= io.Length && x == io[..]
    modifies io
    ensures E.Cells(fly, g, o, io[..], x, stride, g.columns - 1, g.columns - 1)
  {
    E.NothingDone(fly, g, o, x);
    var stage := 0;
    while stage < stride
      invariant stage == 0 || stage == pass || stage == stride
      invariant E.Cells(fly, g, o, io[..], x, stage, g.columns - 1, g.columns - 1)
      decreases stride - stage
    {
      var LoopN: int := columns - 1;
      while LoopN >= 0
        invariant -1 <= LoopN < columns
        invariant E.Cells(fly, g, o, io[..], x, stage, LoopN, g.columns - 1)
      {
        Column(io, o, fly, columns, BRshift, shift, stride, half, stage, LoopN, g, x);
        LoopN := LoopN - 1;
      }
      E.PassDone(fly, g, o, io[..], x, stage, stage + pass);
      stage := stage + pass;
    }
  }
}

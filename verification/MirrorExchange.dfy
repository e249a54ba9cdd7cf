/** Exchanging elements with their mirror images in place, for any layout whose spots do not overlap. Spot `(a, b, s)`
    is element `a` of column `b` in pass `s`; its mirror image is `(b, a, s)`. */
module MirrorExchange {
  import opened Basics
  import opened Butterflies

  /** `place` tells where a spot is; four elements belong to it, at distances 0, 1, `half` and `half + 1`. */
  datatype Layout = Layout(columns: nat, odd: bool, pass: nat, half: nat, place: (nat, nat, nat) -> nat)

  predicate Spot(g: Layout, a: nat, b: nat, s: nat) {
    a < g.columns && b < g.columns && (s == 0 || (g.odd && s == g.pass))
  }

  ghost predicate InRange(g: Layout, a: nat, b: nat, s: nat) {
    Spot(g, a, b, s) ==> g.place(a, b, s) + 1 < g.half
  }

  ghost predicate Apart(g: Layout, a: nat, b: nat, s: nat, a': nat, b': nat, s': nat) {
    Spot(g, a, b, s) && Spot(g, a', b', s') && !(a == a' && b == b' && s == s') ==>
      g.place(a, b, s) + 1 < g.place(a', b', s') || g.place(a', b', s') + 1 < g.place(a, b, s)
  }

  ghost predicate LayoutOk(g: Layout) {
    && 1 < g.half && 0 < g.pass && 0 < g.columns
    && (forall a: nat, b: nat, s: nat {:trigger InRange(g, a, b, s)} :: InRange(g, a, b, s))
    && (forall a: nat, b: nat, s: nat, a': nat, b': nat, s': nat {:trigger Apart(g, a, b, s, a', b', s')} ::
      Apart(g, a, b, s, a', b', s'))
  }

  /** What the stage makes of a pair of elements: sum and difference, scaled in the inverse transform. */
  datatype Pairing = Pairing(sum: (Complex, Complex) -> Complex, difference: (Complex, Complex) -> Complex)

  /** Four elements: sum and difference of each of two pairs. */
  function Put4(y: seq<Complex>, i: nat, h: nat, v: Complex, v1: Complex, vh: Complex, vh1: Complex): (r: seq<Complex>)
    requires 1 < h && i + h + 1 < |y|
    ensures |r| == |y|
  {
    y[i := v][i + 1 := v1][i + h := vh][i + h + 1 := vh1]
  }

  method WriteFour(io: array<Complex>, i: nat, h: nat, v: Complex, v1: Complex, vh: Complex, vh1: Complex)
    requires 1 < h && i + h + 1 < io.Length
    modifies io
    ensures io[..] == Put4(old(io[..]), i, h, v, v1, vh, vh1)
  {
    io[i], io[i + 1] := v, v1;
    io[i + h], io[i + h + 1] := vh, vh1;
  }

  /** The four elements that stand at `q` in the end, from those at `p` in the beginning. */
  function Fly4(fly: Pairing, y: seq<Complex>, q: nat, x: seq<Complex>, p: nat, h: nat): (r: seq<Complex>)
    requires 1 < h && q + h + 1 < |y| && p + h + 1 < |x|
    ensures |r| == |y|
  {
    Put4(y, q, h, fly.sum(x[p], x[p + h]), fly.difference(x[p], x[p + h]),
      fly.sum(x[p + 1], x[p + h + 1]), fly.difference(x[p + 1], x[p + h + 1]))
  }

  /** The elements at `q` are those of `p`, combined, or still what they were. */
  ghost predicate Cell(fly: Pairing, y: seq<Complex>, x: seq<Complex>, q: nat, p: nat, h: nat, done: bool)
    requires 1 < h && |y| == |x| && q + h + 1 < |x| && p + h + 1 < |x|
  {
    if done then
      && y[q] == fly.sum(x[p], x[p + h]) && y[q + 1] == fly.difference(x[p], x[p + h])
      && y[q + h] == fly.sum(x[p + 1], x[p + h + 1]) && y[q + h + 1] == fly.difference(x[p + 1], x[p + h + 1])
    else Fresh(y, x, q, h)
  }

  /** The elements at `p` hold what they held in the beginning. */
  ghost predicate Fresh(y: seq<Complex>, x: seq<Complex>, p: nat, h: nat)
    requires |y| == |x| && p + h + 1 < |x|
  {
    y[p] == x[p] && y[p + 1] == x[p + 1] && y[p + h] == x[p + h] && y[p + h + 1] == x[p + h + 1]
  }

  /** Which spots the loops have dealt with before they come to element `A` of column `B` in pass `S`. */
  predicate Done(a: nat, b: nat, s: nat, S: nat, B: int, A: int) {
    s < S || (s == S && (Min(a, b) > B || (Min(a, b) == B && Max(a, b) > A)))
  }

  ghost predicate Fits(g: Layout, o: nat, y: seq<Complex>, x: seq<Complex>) {
    LayoutOk(g) && |y| == |x| && o + 2 * g.half <= |x|
  }

  ghost predicate CellAt(fly: Pairing, g: Layout, o: nat, y: seq<Complex>, x: seq<Complex>, a: nat, b: nat, s: nat,
                         done: bool)
    requires Fits(g, o, y, x) && Spot(g, a, b, s)
  {
    assert InRange(g, a, b, s) && InRange(g, b, a, s);
    Cell(fly, y, x, o + g.place(a, b, s), o + g.place(b, a, s), g.half, done)
  }

  ghost predicate CellWhen(fly: Pairing, g: Layout, o: nat, y: seq<Complex>, x: seq<Complex>, a: nat, b: nat, s: nat,
                           S: nat, B: int, A: int)
    requires Fits(g, o, y, x)
  {
    Spot(g, a, b, s) ==> CellAt(fly, g, o, y, x, a, b, s, Done(a, b, s, S, B, A))
  }

  ghost predicate Cells(fly: Pairing, g: Layout, o: nat, y: seq<Complex>, x: seq<Complex>, S: nat, B: int, A: int) {
    && Fits(g, o, y, x)
    && (forall a: nat, b: nat, s: nat {:trigger CellWhen(fly, g, o, y, x, a, b, s, S, B, A)} ::
      CellWhen(fly, g, o, y, x, a, b, s, S, B, A))
    && (forall i :: 0 <= i < |x| && (i < o || o + 2 * g.half <= i) ==> y[i] == x[i])
  }

  /** Writing at one place leaves the cells of other places alone. */
  lemma Elsewhere(fly: Pairing, y: seq<Complex>, x: seq<Complex>, q: nat, p: nat, h: nat, done: bool, i: nat, from: nat)
    requires 1 < h && |y| == |x| && q + h + 1 < |x| && p + h + 1 < |x| && i + h + 1 < |x| && from + h + 1 < |x|
    requires Cell(fly, y, x, q, p, h, done)
    requires (q + 1 < i || i + 1 < q) && q + 1 < i + h && i + 1 < q + h
    ensures Cell(fly, Fly4(fly, y, i, x, from, h), x, q, p, h, done)
  {}

  /** Four elements written at the place of spot `(a, b, s)`, from the place of its mirror image. */
  function FlyAt(fly: Pairing, g: Layout, o: nat, y: seq<Complex>, x: seq<Complex>, a: nat, b: nat,
                 s: nat): (r: seq<Complex>)
    requires Fits(g, o, y, x) && Spot(g, a, b, s)
    ensures |r| == |y|
  {
    assert InRange(g, a, b, s) && InRange(g, b, a, s);
    Fly4(fly, y, o + g.place(a, b, s), x, o + g.place(b, a, s), g.half)
  }

  lemma SameSpot(fly: Pairing, g: Layout, o: nat, y: seq<Complex>, x: seq<Complex>, a: nat, b: nat, s: nat)
    requires Fits(g, o, y, x) && Spot(g, a, b, s)
    ensures CellAt(fly, g, o, FlyAt(fly, g, o, y, x, a, b, s), x, a, b, s, true)
  {}

  lemma CellAtIs(fly: Pairing, g: Layout, o: nat, y: seq<Complex>, x: seq<Complex>, a: nat, b: nat, s: nat, q: nat,
                 p: nat, done: bool)
    requires Fits(g, o, y, x) && Spot(g, a, b, s) && q == o + g.place(a, b, s) && p == o + g.place(b, a, s)
    requires q + g.half + 1 < |x| && p + g.half + 1 < |x|
    ensures Cell(fly, y, x, q, p, g.half, done) <==> CellAt(fly, g, o, y, x, a, b, s, done)
  {}

  lemma Distances(g: Layout, a: nat, b: nat, s: nat, a': nat, b': nat, s': nat)
    requires LayoutOk(g) && Spot(g, a, b, s) && Spot(g, a', b', s') && !(a == a' && b == b' && s == s')
    ensures var q, i, h := g.place(a, b, s), g.place(a', b', s'), g.half;
      (q + 1 < i || i + 1 < q) && q + 1 < i + h && i + 1 < q + h && q + 1 < h && i + 1 < h
    ensures g.place(b, a, s) + 1 < g.half && g.place(b', a', s') + 1 < g.half
  {
    assert InRange(g, a, b, s) && InRange(g, b, a, s) && InRange(g, a', b', s') && InRange(g, b', a', s');
    assert Apart(g, a, b, s, a', b', s');
  }

  lemma OtherSpot(fly: Pairing, g: Layout, o: nat, y: seq<Complex>, x: seq<Complex>, a: nat, b: nat, s: nat, a': nat,
                  b': nat, s': nat, done: bool)
    requires Fits(g, o, y, x) && Spot(g, a, b, s) && Spot(g, a', b', s') && !(a' == a && b' == b && s' == s)
    requires CellAt(fly, g, o, y, x, a', b', s', done)
    ensures CellAt(fly, g, o, FlyAt(fly, g, o, y, x, a, b, s), x, a', b', s', done)
  {
    Distances(g, a', b', s', a, b, s);
    var q, p, i, from, h := o + g.place(a', b', s'), o + g.place(b', a', s'), o + g.place(a, b, s),
      o + g.place(b, a, s), g.half;
    CellAtIs(fly, g, o, y, x, a', b', s', q, p, done);
    Elsewhere(fly, y, x, q, p, h, done, i, from);
    var y' := FlyAt(fly, g, o, y, x, a, b, s);
    assert y' == Fly4(fly, y, i, x, from, h) && Fits(g, o, y', x);
    CellAtIs(fly, g, o, y', x, a', b', s', q, p, done);
  }

  /** Writing one spot completes its cell and leaves the others. */
  lemma OneSpot(fly: Pairing, g: Layout, o: nat, y: seq<Complex>, x: seq<Complex>, a: nat, b: nat, s: nat, a': nat,
                b': nat, s': nat, done: bool)
    requires Fits(g, o, y, x) && Spot(g, a, b, s) && Spot(g, a', b', s')
    requires CellAt(fly, g, o, y, x, a', b', s', done)
    ensures CellAt(fly, g, o, FlyAt(fly, g, o, y, x, a, b, s), x, a', b', s', done || (a' == a && b' == b && s' == s))
  {
    if a' == a && b' == b && s' == s {
      SameSpot(fly, g, o, y, x, a, b, s);
    } else {
      OtherSpot(fly, g, o, y, x, a, b, s, a', b', s', done);
    }
  }

  lemma OutsideKept(fly: Pairing, g: Layout, o: nat, y: seq<Complex>, x: seq<Complex>, a: nat, b: nat, s: nat)
    requires Fits(g, o, y, x) && Spot(g, a, b, s)
    ensures forall i :: 0 <= i < |x| && (i < o || o + 2 * g.half <= i) ==> FlyAt(fly, g, o, y, x, a, b, s)[i] == y[i]
  {
    assert InRange(g, a, b, s) && InRange(g, b, a, s);
  }

  /** A spot off the diagonal and its mirror image exchange their elements. */
  lemma PairStep(fly: Pairing, g: Layout, o: nat, y: seq<Complex>, x: seq<Complex>, S: nat, B: nat, A: nat)
    requires Cells(fly, g, o, y, x, S, B, A) && B < A && Spot(g, A, B, S)
    ensures Cells(fly, g, o, FlyAt(fly, g, o, FlyAt(fly, g, o, y, x, B, A, S), x, A, B, S), x, S, B, A - 1)
  {
    var y1 := FlyAt(fly, g, o, y, x, B, A, S);
    var y2 := FlyAt(fly, g, o, y1, x, A, B, S);
    OutsideKept(fly, g, o, y, x, B, A, S);
    OutsideKept(fly, g, o, y1, x, A, B, S);
    var A' := A - 1;
    forall a: nat, b: nat, s: nat ensures CellWhen(fly, g, o, y2, x, a, b, s, S, B, A') {
      assert CellWhen(fly, g, o, y, x, a, b, s, S, B, A);
      if Spot(g, a, b, s) {
        OneSpot(fly, g, o, y, x, B, A, S, a, b, s, Done(a, b, s, S, B, A));
        OneSpot(fly, g, o, y1, x, A, B, S, a, b, s, Done(a, b, s, S, B, A) || (a == B && b == A && s == S));
      }
    }
  }

  /** A spot on the diagonal is its own mirror image; with it a column is finished. */
  lemma DiagonalStep(fly: Pairing, g: Layout, o: nat, y: seq<Complex>, x: seq<Complex>, S: nat, B: nat)
    requires Cells(fly, g, o, y, x, S, B, B) && Spot(g, B, B, S)
    ensures Cells(fly, g, o, FlyAt(fly, g, o, y, x, B, B, S), x, S, B - 1, g.columns - 1)
  {
    var y1 := FlyAt(fly, g, o, y, x, B, B, S);
    OutsideKept(fly, g, o, y, x, B, B, S);
    var B', A' := B - 1, g.columns - 1;
    forall a: nat, b: nat, s: nat ensures CellWhen(fly, g, o, y1, x, a, b, s, S, B', A') {
      assert CellWhen(fly, g, o, y, x, a, b, s, S, B, B);
      if Spot(g, a, b, s) { OneSpot(fly, g, o, y, x, B, B, S, a, b, s, Done(a, b, s, S, B, B)); }
    }
  }

  /** A spot that is not dealt with yet holds what it held in the beginning. */
  lemma Reads(fly: Pairing, g: Layout, o: nat, y: seq<Complex>, x: seq<Complex>, S: nat, B: nat, A: nat, a: nat, b: nat)
    requires Cells(fly, g, o, y, x, S, B, A) && B <= A && Spot(g, a, b, S) && Min(a, b) == B && Max(a, b) == A
    ensures o + g.place(a, b, S) + g.half + 1 < |x| && Fresh(y, x, o + g.place(a, b, S), g.half)
  {
    assert InRange(g, a, b, S) && CellWhen(fly, g, o, y, x, a, b, S, S, B, A);
  }

  lemma NothingDone(fly: Pairing, g: Layout, o: nat, x: seq<Complex>)
    requires Fits(g, o, x, x)
    ensures Cells(fly, g, o, x, x, 0, g.columns - 1, g.columns - 1)
  {
    var A := g.columns - 1;
    forall a: nat, b: nat, s: nat ensures CellWhen(fly, g, o, x, x, a, b, s, 0, A, A) {}
  }

  lemma PassDone(fly: Pairing, g: Layout, o: nat, y: seq<Complex>, x: seq<Complex>, S: nat, S': nat)
    requires Cells(fly, g, o, y, x, S, -1, g.columns - 1) && S' == S + g.pass && (S == 0 || S == g.pass)
    ensures Cells(fly, g, o, y, x, S', g.columns - 1, g.columns - 1)
  {
    var A := g.columns - 1;
    forall a: nat, b: nat, s: nat ensures CellWhen(fly, g, o, y, x, a, b, s, S', A, A) {
      assert CellWhen(fly, g, o, y, x, a, b, s, S, -1, A);
    }
  }

  /** Reads two spots, of which two elements are already in `f0` and `f1`, and writes each in the place of the other. */
  method Exchange(io: array<Complex>, fly: Pairing, fly0: nat, fly1: nat, half: nat, f0: Complex, f1: Complex,
                  ghost x: seq<Complex>)
    requires 1 < half && fly0 + half + 1 < io.Length && fly1 + half + 1 < io.Length && |x| == io.Length
    requires Fresh(io[..], x, fly0, half) && Fresh(io[..], x, fly1, half) && f0 == x[fly0] && f1 == x[fly0 + half]
    modifies io
    ensures io[..] == Fly4(fly, Fly4(fly, old(io[..]), fly1, x, fly0, half), fly0, x, fly1, half)
  {
    var f2, f3 := io[fly0 + 1], io[fly0 + half + 1];
    var f4, f5 := io[fly1], io[fly1 + half];
    var f6, f7 := io[fly1 + 1], io[fly1 + half + 1];
    WriteFour(io, fly1, half, fly.sum(f0, f1), fly.difference(f0, f1), fly.sum(f2, f3), fly.difference(f2, f3));
    WriteFour(io, fly0, half, fly.sum(f4, f5), fly.difference(f4, f5), fly.sum(f6, f7), fly.difference(f6, f7));
  }
}

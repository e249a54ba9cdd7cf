/** The last pass of `rffts` and the first of `riffts` (fftlib.c), over exact reals. A row of `4 * e` complex slots
    holds the transform of `8 * e` real numbers; slots that mirror each other are dealt with in pairs. */
module RealFft {
  import opened Butterflies

  /** `Finish RFFT` on a slot and its mirror image (lines 2390-2412 of fftlib.c). */
  function FinishPair(f: Complex, g: Complex, ur: real, ui: real): (Complex, Complex) {
    Finished(f.re + g.re, f.im - g.im, f.im + g.im, g.re - f.re, ur, ui)
  }

  function Finished(t0r: real, t0i: real, t1r: real, t1i: real, ur: real, ui: real): (Complex, Complex) {
    var r, i := t0r + ur * t1r + ui * t1i, t0i - ui * t1r + ur * t1i;
    (Complex(r, i), Complex(2.0 * t0r - r, i - 2.0 * t0i))
  }

  /** `Start RIFFT` on a slot and its mirror image (lines 2590-2620 of fftlib.c). */
  function StartPair(f: Complex, g: Complex, ur: real, ui: real): (Complex, Complex) {
    Started(f.re + g.re, f.im - g.im, f.re - g.re, f.im + g.im, ur, ui)
  }

  function Started(t0r: real, t0i: real, t1r: real, t1i: real, ur: real, ui: real): (Complex, Complex) {
    var f3r, f3i := t1r * ur - ui * t1i, t1r * ui + ur * t1i;
    (Complex(t0r - f3i, t0i + f3r), Complex(t0r + f3i, -t0i + f3r))
  }

  function Four(z: Complex): Complex { Complex(4.0 * z.re, 4.0 * z.im) }

  lemma Turn(ur: real, ui: real, a: real, b: real)
    requires ur * ur + ui * ui == 1.0
    ensures (ur * a + ui * b) * ur - ui * (ur * b - ui * a) == a
    ensures (ur * a + ui * b) * ui + ur * (ur * b - ui * a) == b
  {
    Squares(ur, ui, a, b);
    Squares(ur, ui, b, a);
    Unit(ur, ui, a);
    Unit(ur, ui, b);
  }

  lemma Squares(ur: real, ui: real, a: real, b: real)
    ensures (ur * a + ui * b) * ur - ui * (ur * b - ui * a) == ur * ur * a + ui * ui * a
    ensures (ur * b + ui * a) * ui + ur * (ur * a - ui * b) == ui * ui * a + ur * ur * a
  {
    assert (ur * a + ui * b) * ur == ur * ur * a + ur * ui * b;
    assert ui * (ur * b - ui * a) == ur * ui * b - ui * ui * a;
    assert (ur * b + ui * a) * ui == ur * ui * b + ui * ui * a;
    assert ur * (ur * a - ui * b) == ur * ur * a - ur * ui * b;
  }

  lemma Unit(ur: real, ui: real, a: real)
    requires ur * ur + ui * ui == 1.0
    ensures ur * ur * a + ui * ui * a == a
  {
    assert ur * ur * a + ui * ui * a == (ur * ur + ui * ui) * a;
  }

  lemma StartedTwice(t0r: real, t0i: real, a: real, b: real, ur: real, ui: real, c: real, d: real)
    requires c == a * ur - ui * b && d == a * ui + ur * b
    ensures Started(2.0 * t0r, 2.0 * t0i, 2.0 * a, 2.0 * b, ur, ui)
      == (Complex(2.0 * t0r - 2.0 * d, 2.0 * t0i + 2.0 * c), Complex(2.0 * t0r + 2.0 * d, 2.0 * c - 2.0 * t0i))
  {
    assert 2.0 * a * ur == 2.0 * (a * ur) && ui * (2.0 * b) == 2.0 * (ui * b);
    assert 2.0 * a * ui == 2.0 * (a * ui) && ur * (2.0 * b) == 2.0 * (ur * b);
  }

  lemma FinishedIs(t0r: real, t0i: real, t1r: real, t1i: real, ur: real, ui: real, a: real, b: real)
    requires a == ur * t1r + ui * t1i && b == ur * t1i - ui * t1r
    ensures Finished(t0r, t0i, t1r, t1i, ur, ui) == (Complex(t0r + a, t0i + b), Complex(t0r - a, b - t0i))
  {}

  /** With table entries on the unit circle the two passes multiply a pair by four. */
  lemma PairTimesFour(f: Complex, g: Complex, ur: real, ui: real)
    requires ur * ur + ui * ui == 1.0
    ensures var p := FinishPair(f, g, ur, ui); StartPair(p.0, p.1, ur, ui) == (Four(f), Four(g))
  {
    var t0r, t0i := f.re + g.re, f.im - g.im;
    var t1r, t1i := f.im + g.im, g.re - f.re;
    var a, b := ur * t1r + ui * t1i, ur * t1i - ui * t1r;
    FinishedIs(t0r, t0i, t1r, t1i, ur, ui, a, b);
    Turn(ur, ui, t1r, t1i);
    Commuted(a, b, ur, ui);
    StartedTwice(t0r, t0i, a, b, ur, ui, t1r, t1i);
    PairSums(t0r, t0i, a, b, ur, ui);
  }

  lemma Commuted(a: real, b: real, ur: real, ui: real)
    ensures a * ur == ur * a && a * ui == ui * a && b * ur == ur * b && b * ui == ui * b
  {}

  lemma PairSums(t0r: real, t0i: real, a: real, b: real, ur: real, ui: real)
    ensures StartPair(Complex(t0r + a, t0i + b), Complex(t0r - a, b - t0i), ur, ui)
      == Started(2.0 * t0r, 2.0 * t0i, 2.0 * a, 2.0 * b, ur, ui)
  {
    assert (t0r + a) + (t0r - a) == 2.0 * t0r && (t0i + b) - (b - t0i) == 2.0 * t0i;
    assert (t0r + a) - (t0r - a) == 2.0 * a && (t0i + b) + (b - t0i) == 2.0 * b;
  }

  // ----- the slots

  /** The slots that have no mirror image: the first and the middle one. */
  function FinishEnds(z: Complex): Complex { Complex(2.0 * z.re + 2.0 * z.im, 2.0 * z.re - 2.0 * z.im) }

  function FinishMiddle(z: Complex): Complex { Complex(2.0 * z.re, -2.0 * z.im) }

  function StartEnds(z: Complex): Complex { Complex(z.re + z.im, z.re - z.im) }

  function StartMiddle(z: Complex): Complex { Complex(z.re + z.re, -z.im - z.im) }

  /** A pass: what it does to the two slots without mirror image, and to a pair with two table entries. */
  datatype Pass = Pass(ends: Complex -> Complex, middle: Complex -> Complex,
    pair: (Complex, Complex, real, real) -> (Complex, Complex))

  function Finish(): Pass { Pass(FinishEnds, FinishMiddle, FinishPair) }

  function Start(): Pass { Pass(StartEnds, StartMiddle, StartPair) }

  /** Slot `i` after a pass over a row of `2 * q` slots. */
  function Slot(pass: Pass, T: seq<real>, q: nat, x: seq<Complex>, i: nat): Complex
    requires 0 < q < |T| && |x| == 2 * q && i < 2 * q
  {
    if i == 0 then pass.ends(x[0])
    else if i == q then pass.middle(x[q])
    else if i < q then pass.pair(x[i], x[2 * q - i], T[i], T[q - i]).0
    else pass.pair(x[2 * q - i], x[i], T[2 * q - i], T[i - q]).1
  }

  function Passed(pass: Pass, T: seq<real>, q: nat, x: seq<Complex>): (y: seq<Complex>)
    requires 0 < q < |T| && |x| == 2 * q
    ensures |y| == 2 * q
  {
    seq(2 * q, i requires 0 <= i < 2 * q => Slot(pass, T, q, x, i))
  }

  /** A table of cosines: entries that mirror each other lie on the unit circle. */
  ghost predicate OnCircle(T: seq<real>, q: nat) {
    q < |T| && forall i, j :: 0 < i < q && j == q - i ==> T[i] * T[i] + T[j] * T[j] == 1.0
  }

  /** `Finish RFFT` and then `Start RIFFT` multiply every element by exactly four. */
  lemma RoundTrip(T: seq<real>, q: nat, x: seq<Complex>, i: nat)
    requires 0 < q && OnCircle(T, q) && |x| == 2 * q && i < 2 * q
    ensures Passed(Start(), T, q, Passed(Finish(), T, q, x))[i] == Four(x[i])
  {
    var y := Passed(Finish(), T, q, x);
    if i == 0 || i == q {
      assert y[i] == (if i == 0 then FinishEnds(x[0]) else FinishMiddle(x[q]));
    } else {
      var k := if i < q then i else 2 * q - i;
      var f, g, ur, ui := x[k], x[2 * q - k], T[k], T[q - k];
      assert T[k] * T[k] + T[q - k] * T[q - k] == 1.0;
      PairTimesFour(f, g, ur, ui);
      assert y[k] == FinishPair(f, g, ur, ui).0 && y[2 * q - k] == FinishPair(f, g, ur, ui).1;
    }
  }

  // ----- the loop, in place

  /** The slots of the pairs dealt with before pair `k`, among them those of the middle pair. */
  predicate Done(q: nat, k: nat, i: int) {
    var d := if i < q then i else 2 * q - i;
    i == 0 || i == q || 2 * d == q || d < k || q - d < k
  }

  ghost predicate SlotOk(pass: Pass, T: seq<real>, q: nat, o: nat, y: seq<Complex>, row: seq<Complex>, k: nat, i: nat)
    requires 0 < q < |T| && |row| == 2 * q && o + 2 * q <= |y| && i < 2 * q
  {
    y[o + i] == if Done(q, k, i) then Slot(pass, T, q, row, i) else row[i]
  }

  ghost predicate Partly(pass: Pass, T: seq<real>, q: nat, o: nat, y: seq<Complex>, x: seq<Complex>, row: seq<Complex>,
                         k: nat) {
    && 0 < q < |T| && |row| == 2 * q && |y| == |x| && o + 2 * q <= |x| && row == x[o..o + 2 * q]
    && (forall i: nat {:trigger SlotOk(pass, T, q, o, y, row, k, i)} :: i < 2 * q ==>
      SlotOk(pass, T, q, o, y, row, k, i))
    && (forall i :: 0 <= i < |x| && (i < o || o + 2 * q <= i) ==> y[i] == x[i])
  }

  /** Two pairs written: slots `i` and `2 * q - i`, and `q - i` and `q + i`. */
  ghost predicate FourWritten(pass: Pass, T: seq<real>, q: nat, o: nat, y: seq<Complex>, y': seq<Complex>,
                              row: seq<Complex>, i: nat)
    requires 0 < q < |T| && |row| == 2 * q && |y| == |y'| && o + 2 * q <= |y| && 0 < i < q
  {
    && (forall j :: 0 <= j < |y| && j != o + i && j != o + 2 * q - i && j != o + q - i && j != o + q + i ==>
      y'[j] == y[j])
    && y'[o + i] == Slot(pass, T, q, row, i) && y'[o + 2 * q - i] == Slot(pass, T, q, row, 2 * q - i)
    && y'[o + q - i] == Slot(pass, T, q, row, q - i) && y'[o + q + i] == Slot(pass, T, q, row, q + i)
  }

  lemma StepPartly(pass: Pass, T: seq<real>, q: nat, o: nat, y: seq<Complex>, y': seq<Complex>, x: seq<Complex>,
                   row: seq<Complex>, k: nat)
    requires Partly(pass, T, q, o, y, x, row, k) && 0 < k && 2 * k < q && |y'| == |y|
      && FourWritten(pass, T, q, o, y, y', row, k)
    ensures Partly(pass, T, q, o, y', x, row, k + 1)
  {
    var k' := k + 1;
    forall i: nat | i < 2 * q ensures SlotOk(pass, T, q, o, y', row, k', i) {
      assert SlotOk(pass, T, q, o, y, row, k, i);
      StepSlot(pass, T, q, o, y, y', row, k, i);
    }
  }

  lemma StepSlot(pass: Pass, T: seq<real>, q: nat, o: nat, y: seq<Complex>, y': seq<Complex>, row: seq<Complex>, k: nat,
                 i: nat)
    requires 0 < q < |T| && |row| == 2 * q && |y| == |y'| && o + 2 * q <= |y| && 0 < k && 2 * k < q && i < 2 * q
    requires FourWritten(pass, T, q, o, y, y', row, k) && SlotOk(pass, T, q, o, y, row, k, i)
    ensures SlotOk(pass, T, q, o, y', row, k + 1, i)
  {
    DoneNext(q, k, i);
  }

  lemma DoneNext(q: nat, k: nat, i: nat)
    requires 0 < k && 2 * k < q && i < 2 * q
    ensures Done(q, k + 1, i) <==> Done(q, k, i) || i == k || i == 2 * q - k || i == q - k || i == q + k
    ensures !Done(q, k, k) && !Done(q, k, 2 * q - k) && !Done(q, k, q - k) && !Done(q, k, q + k)
  {}

  lemma SpecialsPartly(pass: Pass, T: seq<real>, e: nat, o: nat, y: seq<Complex>, x: seq<Complex>, row: seq<Complex>)
    requires 0 < e && 2 * e < |T| && o + 4 * e <= |x| == |y| && row == x[o..o + 4 * e]
    requires forall j :: 0 <= j < |y| && j != o && j != o + e && j != o + 2 * e && j != o + 3 * e ==> y[j] == x[j]
    requires y[o] == Slot(pass, T, 2 * e, row, 0) && y[o + 2 * e] == Slot(pass, T, 2 * e, row, 2 * e)
    requires y[o + e] == Slot(pass, T, 2 * e, row, e) && y[o + 3 * e] == Slot(pass, T, 2 * e, row, 3 * e)
    ensures Partly(pass, T, 2 * e, o, y, x, row, 1)
  {
    var q := 2 * e;
    forall i: nat | i < 2 * q ensures SlotOk(pass, T, q, o, y, row, 1, i) {}
  }

  /** The special slots: the first, the middle one, and the pair at a quarter. */
  method Specials(io: array<Complex>, o: nat, e: nat, T: seq<real>, pass: Pass, ghost x: seq<Complex>,
                  ghost row: seq<Complex>)
    requires 0 < e && 2 * e < |T| && o + 4 * e <= io.Length && x == io[..] && row == x[o..o + 4 * e]
    modifies io
    ensures Partly(pass, T, 2 * e, o, io[..], x, row, 1)
  {
    var fly0, fly1, offsetA := o + 2 * e, o + e, 2 * e;
    var u0r := T[e];
    var f0, f1, f2, f3 := io[o], io[fly0], io[fly1], io[fly1 + offsetA];
    assert f0 == row[0] && f1 == row[2 * e] && f2 == row[e] && f3 == row[3 * e];
    var p := pass.pair(f2, f3, u0r, u0r);
    io[o] := pass.ends(f0);
    io[fly0] := pass.middle(f1);
    io[fly1] := p.0;
    io[fly1 + offsetA] := p.1;
    SpecialsPartly(pass, T, e, o, io[..], x, row);
  }

  /** One turn of the loop: two pairs. */
  method TwoPairs(io: array<Complex>, fly0: nat, fly1: nat, offsetA: nat, pass: Pass, u0r: real, u0i: real,
                  ghost T: seq<real>, ghost q: nat, ghost o: nat, ghost x: seq<Complex>, ghost row: seq<Complex>,
                    ghost k: nat)
    requires Partly(pass, T, q, o, io[..], x, row, k) && 0 < k && 2 * k < q
    requires fly0 == o + k && fly1 == o + q - k && offsetA == q && u0r == T[k] && u0i == T[q - k]
    modifies io
    ensures Partly(pass, T, q, o, io[..], x, row, k + 1)
  {
    DoneNext(q, k, k);
    ghost var y := io[..];
    assert SlotOk(pass, T, q, o, y, row, k, k) && SlotOk(pass, T, q, o, y, row, k, 2 * q - k);
    assert SlotOk(pass, T, q, o, y, row, k, q - k) && SlotOk(pass, T, q, o, y, row, k, q + k);
    var a := pass.pair(io[fly0], io[fly1 + offsetA], u0r, u0i);
    var b := pass.pair(io[fly1], io[fly0 + offsetA], u0i, u0r);
    io[fly0] := a.0;
    io[fly1 + offsetA] := a.1;
    io[fly1] := b.0;
    io[fly0 + offsetA] := b.1;
    StepPartly(pass, T, q, o, y, io[..], x, row, k);
  }

  lemma AllDone(pass: Pass, T: seq<real>, q: nat, o: nat, y: seq<Complex>, x: seq<Complex>, row: seq<Complex>, e: nat)
    requires Partly(pass, T, q, o, y, x, row, e) && q == 2 * e
    ensures y == x[..o] + Passed(pass, T, q, row) + x[o + 2 * q..]
  {
    var z := x[..o] + Passed(pass, T, q, row) + x[o + 2 * q..];
    forall i | 0 <= i < |y| ensures y[i] == z[i] {
      if o <= i < o + 2 * q { assert SlotOk(pass, T, q, o, y, row, e, i - o); }
    }
  }

  /** `Finish RFFT`, or `Start RIFFT`, on the row at `o`, in place: every slot is read before it is written, and all are
      written once. */
  method PassRow(io: array<Complex>, o: nat, e: nat, T: seq<real>, pass: Pass)
    requires 0 < e && 2 * e < |T| && o + 4 * e <= io.Length
    modifies io
    ensures io[..] == old(io[..o]) + Passed(pass, T, 2 * e, old(io[o..o + 4 * e])) + old(io[o + 4 * e..])
  {
    ghost var x := io[..];
    ghost var row := x[o..o + 4 * e];
    Specials(io, o, e, T, pass, x, row);
    var u0r, u0i := T[1], T[2 * e - 1];
    var fly0, fly1, offsetA := o + 1, o + (2 * e - 1), 2 * e;
    var diffUcnt := e - 1;
    ghost var k := 1;
    while diffUcnt > 0
      invariant 0 <= diffUcnt && k + diffUcnt == e && fly0 == o + k && fly1 == o + 2 * e - k && u0r == T[k]
        && u0i == T[2 * e - k]
      invariant Partly(pass, T, 2 * e, o, io[..], x, row, k)
    {
      TwoPairs(io, fly0, fly1, offsetA, pass, u0r, u0i, T, 2 * e, o, x, row, k);
      k := k + 1;
      fly0, fly1 := fly0 + 1, fly1 - 1;
      u0r, u0i := T[fly0 - o], T[2 * e - (fly0 - o)];
      diffUcnt := diffUcnt - 1;
    }
    AllDone(pass, T, 2 * e, o, io[..], x, row, e);
  }

  function Fours(x: seq<Complex>): seq<Complex> { seq(|x|, i requires 0 <= i < |x| => Four(x[i])) }

  lemma AllFour(T: seq<real>, q: nat, x: seq<Complex>)
    requires 0 < q && OnCircle(T, q) && |x| == 2 * q
    ensures Passed(Start(), T, q, Passed(Finish(), T, q, x)) == Fours(x)
  {
    forall i | 0 <= i < 2 * q ensures Passed(Start(), T, q, Passed(Finish(), T, q, x))[i] == Four(x[i]) {
      RoundTrip(T, q, x, i);
    }
  }

  lemma Parts(y: seq<Complex>, a: seq<Complex>, row: seq<Complex>, b: seq<Complex>)
    requires y == a + row + b
    ensures y[..|a|] == a && y[|a|..|a| + |row|] == row && y[|a| + |row|..] == b
  {}

  /** The last pass of `rffts` and then the first of `riffts`: the row is four times what it was, the rest as it was. */
  method FinishThenStart(io: array<Complex>, o: nat, e: nat, T: seq<real>)
    requires 0 < e && OnCircle(T, 2 * e) && o + 4 * e <= io.Length
    modifies io
    ensures io[..] == old(io[..o]) + Fours(old(io[o..o + 4 * e])) + old(io[o + 4 * e..])
  {
    ghost var a, row, b := io[..o], io[o..o + 4 * e], io[o + 4 * e..];
    PassRow(io, o, e, T, Finish());
    Parts(io[..], a, Passed(Finish(), T, 2 * e, row), b);
    assert io[..o] == io[..][..o] && io[o..o + 4 * e] == io[..][o..o + 4 * e] && io[o + 4 * e..] == io[..][o + 4 * e..];
    PassRow(io, o, e, T, Start());
    AllFour(T, 2 * e, row);
  }
}

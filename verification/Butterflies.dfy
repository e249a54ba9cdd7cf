/** Complex numbers and the butterflies of `ffts` and `iffts` (fftlib.c), over exact reals. The two procedures have the
    same loops; what differs are the signs, written out here for both, and the scaling in the first stage of the
    inverse. */
module Butterflies {

  datatype Complex = Complex(re: real, im: real)

  const ZERO := Complex(0.0, 0.0)

  /** The steps that butterflies are made of. */
  datatype Ops = Ops(
    plus: (Complex, Complex) -> Complex,
    minus: (Complex, Complex) -> Complex,
    /** A quarter turn of the second operand added, in one direction and in the other. */
    quarter: (Complex, Complex) -> Complex,
    unquarter: (Complex, Complex) -> Complex,
    /** The second operand turned by a table entry and taken away, or after a quarter turn added or taken away. */
    turned: (Complex, Complex, Complex) -> Complex,
    turnedAdd: (Complex, Complex, Complex) -> Complex,
    turnedSub: (Complex, Complex, Complex) -> Complex,
    /** Twice the first operand less the second: the other half of a butterfly. */
    other: (Complex, Complex) -> Complex)

  function Plus(f: Complex, g: Complex): Complex { Complex(f.re + g.re, f.im + g.im) }

  function Minus(f: Complex, g: Complex): Complex { Complex(f.re - g.re, f.im - g.im) }

  function PlusI(f: Complex, g: Complex): Complex { Complex(f.re - g.im, f.im + g.re) }

  function MinusI(f: Complex, g: Complex): Complex { Complex(f.re + g.im, f.im - g.re) }

  function Other(f: Complex, g: Complex): Complex { Complex(2.0 * f.re - g.re, 2.0 * f.im - g.im) }

  function ForwardTurned(f: Complex, u: Complex, g: Complex): Complex {
    Complex(f.re - u.re * g.re - u.im * g.im, f.im + u.im * g.re - u.re * g.im)
  }

  function ForwardTurnedAdd(f: Complex, u: Complex, g: Complex): Complex {
    Complex(f.re + u.im * g.re - u.re * g.im, f.im + u.re * g.re + u.im * g.im)
  }

  function ForwardTurnedSub(f: Complex, u: Complex, g: Complex): Complex {
    Complex(f.re - u.im * g.re + u.re * g.im, f.im - u.re * g.re - u.im * g.im)
  }

  function InverseTurned(f: Complex, u: Complex, g: Complex): Complex {
    Complex(f.re - u.re * g.re + u.im * g.im, f.im - u.im * g.re - u.re * g.im)
  }

  function InverseTurnedAdd(f: Complex, u: Complex, g: Complex): Complex {
    Complex(f.re + u.im * g.re + u.re * g.im, f.im - u.re * g.re + u.im * g.im)
  }

  function InverseTurnedSub(f: Complex, u: Complex, g: Complex): Complex {
    Complex(f.re - u.im * g.re - u.re * g.im, f.im + u.re * g.re - u.im * g.im)
  }

  /** The signs of `ffts`. */
  function ForwardOps(): Ops {
    Ops(Plus, Minus, PlusI, MinusI, ForwardTurned, ForwardTurnedAdd, ForwardTurnedSub, Other)
  }

  /** The signs of `iffts`. */
  function InverseOps(): Ops {
    Ops(Plus, Minus, MinusI, PlusI, InverseTurned, InverseTurnedAdd, InverseTurnedSub, Other)
  }

  /** The conjugate, multiplied by `c`. */
  function ScaledConjugate(c: real, z: Complex): Complex { Complex(c * z.re, -(c * z.im)) }

  /** `h` carries the steps of one procedure into those of the other. */
  ghost predicate Carries(h: Complex -> Complex, F: Ops, I: Ops) {
    && (forall f: Complex, g: Complex :: I.plus(h(f), h(g)) == h(F.plus(f, g)))
    && (forall f: Complex, g: Complex :: I.minus(h(f), h(g)) == h(F.minus(f, g)))
    && (forall f: Complex, g: Complex :: I.quarter(h(f), h(g)) == h(F.quarter(f, g)))
    && (forall f: Complex, g: Complex :: I.unquarter(h(f), h(g)) == h(F.unquarter(f, g)))
    && (forall f: Complex, u: Complex, g: Complex :: I.turned(h(f), u, h(g)) == h(F.turned(f, u, g)))
    && (forall f: Complex, u: Complex, g: Complex :: I.turnedAdd(h(f), u, h(g)) == h(F.turnedAdd(f, u, g)))
    && (forall f: Complex, u: Complex, g: Complex :: I.turnedSub(h(f), u, h(g)) == h(F.turnedSub(f, u, g)))
    && (forall f: Complex, g: Complex :: I.other(h(f), h(g)) == h(F.other(f, g)))
  }

  /** One component of a turned butterfly: products with table entries, scaled. */
  lemma Component(c: real, a: real, u: real, g: real, v: real, k: real)
    ensures c * a - u * (c * g) - v * (c * k) == c * (a - u * g - v * k)
    ensures c * a + u * (c * g) - v * (c * k) == c * (a + u * g - v * k)
    ensures c * a - u * (c * g) + v * (c * k) == c * (a - u * g + v * k)
    ensures c * a + u * (c * g) + v * (c * k) == c * (a + u * g + v * k)
  {
    var p, q := u * g, v * k;
    assert u * (c * g) == c * p && v * (c * k) == c * q;
    Distributed(c, a, p, q);
  }

  lemma Distributed(c: real, a: real, b: real, d: real)
    ensures c * (a + b + d) == c * a + c * b + c * d && c * (a + b - d) == c * a + c * b - c * d
    ensures c * (a - b + d) == c * a - c * b + c * d && c * (a - b - d) == c * a - c * b - c * d
  {}

  lemma Negated(u: real, x: real)
    ensures u * -x == -(u * x)
  {}

  lemma TurnedCarried(c: real, f: Complex, u: Complex, g: Complex)
    ensures InverseTurned(ScaledConjugate(c, f), u, ScaledConjugate(c, g)) == ScaledConjugate(c, ForwardTurned(f, u, g))
  {
    Component(c, f.re, u.re, g.re, u.im, g.im);
    Component(c, f.im, u.im, g.re, u.re, g.im);
    Negated(u.im, c * g.im);
    Negated(u.re, c * g.im);
  }

  lemma TurnedAddCarried(c: real, f: Complex, u: Complex, g: Complex)
    ensures InverseTurnedAdd(ScaledConjugate(c, f), u, ScaledConjugate(c, g))
      == ScaledConjugate(c, ForwardTurnedAdd(f, u, g))
  {
    Component(c, f.re, u.im, g.re, u.re, g.im);
    Component(c, f.im, u.re, g.re, u.im, g.im);
    Negated(u.im, c * g.im);
    Negated(u.re, c * g.im);
  }

  lemma TurnedSubCarried(c: real, f: Complex, u: Complex, g: Complex)
    ensures InverseTurnedSub(ScaledConjugate(c, f), u, ScaledConjugate(c, g))
      == ScaledConjugate(c, ForwardTurnedSub(f, u, g))
  {
    Component(c, f.re, u.im, g.re, u.re, g.im);
    Component(c, f.im, u.re, g.re, u.im, g.im);
    Negated(u.im, c * g.im);
    Negated(u.re, c * g.im);
  }

  lemma SumsCarried(c: real, f: Complex, g: Complex)
    ensures Plus(ScaledConjugate(c, f), ScaledConjugate(c, g)) == ScaledConjugate(c, Plus(f, g))
    ensures Minus(ScaledConjugate(c, f), ScaledConjugate(c, g)) == ScaledConjugate(c, Minus(f, g))
    ensures MinusI(ScaledConjugate(c, f), ScaledConjugate(c, g)) == ScaledConjugate(c, PlusI(f, g))
    ensures PlusI(ScaledConjugate(c, f), ScaledConjugate(c, g)) == ScaledConjugate(c, MinusI(f, g))
  {
    Distributed(c, f.re, g.re, 0.0);
    Distributed(c, f.im, g.im, 0.0);
    Distributed(c, f.re, g.im, 0.0);
    Distributed(c, f.im, g.re, 0.0);
  }

  lemma OtherCarried(c: real, f: Complex, g: Complex)
    ensures Other(ScaledConjugate(c, f), ScaledConjugate(c, g)) == ScaledConjugate(c, Other(f, g))
  {
    Distributed(c, f.re, f.re, g.re);
    Distributed(c, f.im, f.im, g.im);
  }

  function Conjugation(c: real): Complex -> Complex { z => ScaledConjugate(c, z) }

  /** Conjugation turns the signs of one procedure into those of the other. */
  lemma ConjugationCarries(c: real)
    ensures Carries(Conjugation(c), ForwardOps(), InverseOps())
  {
    var h, F, I := Conjugation(c), ForwardOps(), InverseOps();
    forall f: Complex, g: Complex ensures I.plus(h(f), h(g)) == h(F.plus(f, g))
      && I.minus(h(f), h(g)) == h(F.minus(f, g)) { SumsCarried(c, f, g); }
    forall f: Complex, g: Complex ensures I.quarter(h(f), h(g)) == h(F.quarter(f, g))
      && I.unquarter(h(f), h(g)) == h(F.unquarter(f, g)) { SumsCarried(c, f, g); }
    forall f: Complex, u: Complex, g: Complex
      ensures I.turned(h(f), u, h(g)) == h(F.turned(f, u, g)) { TurnedCarried(c, f, u, g); }
    forall f: Complex, u: Complex, g: Complex
      ensures I.turnedAdd(h(f), u, h(g)) == h(F.turnedAdd(f, u, g)) { TurnedAddCarried(c, f, u, g); }
    forall f: Complex, u: Complex, g: Complex
      ensures I.turnedSub(h(f), u, h(g)) == h(F.turnedSub(f, u, g)) { TurnedSubCarried(c, f, u, g); }
    forall f: Complex, g: Complex ensures I.other(h(f), h(g)) == h(F.other(f, g)) { OtherCarried(c, f, g); }
  }
}

/** The words of the bin occupancy map as binary numerals, with the bitwise operations the pool applies to them.
    Every complement in the source stands under a conjunction, so `a & ~b` is the primitive and no word width is
    needed. */
module BitWords {

  /** `1L << i` */
  function One(i: nat): (b: nat)
    ensures b > 0
  {
    if i == 0 then 1 else 2 * One(i - 1)
  }

  predicate Bit(w: nat, i: nat)
    decreases i
  {
    if i == 0 then w % 2 == 1 else Bit(w / 2, i - 1)
  }

  /** `a | b` */
  function Or(a: nat, b: nat): nat {
    if a == 0 && b == 0 then 0
    else (if a % 2 == 1 || b % 2 == 1 then 1 else 0) + 2 * Or(a / 2, b / 2)
  }

  /** `a & ~b` */
  function AndNot(a: nat, b: nat): nat {
    if a == 0 then 0
    else (if a % 2 == 1 && b % 2 == 0 then 1 else 0) + 2 * AndNot(a / 2, b / 2)
  }

  /** The number of bits needed to write `w`. */
  function NumBits(w: nat): nat {
    if w == 0 then 0 else 1 + NumBits(w / 2)
  }

  /** Leading zeroes of a 32-bit word. */
  function Clz(w: nat): int { 32 - NumBits(w) }

  /** Trailing zeroes, the way clz.h counts them. */
  function Ctz(w: nat): int
    requires w > 0
  {
    32 - Clz(AndNot(w - 1, w))
  }

  lemma OrHalf(a: nat, b: nat) returns (w: nat)
    ensures w == Or(a, b) && w / 2 == Or(a / 2, b / 2) && (w % 2 == 1 <==> a % 2 == 1 || b % 2 == 1)
  {
    w := Or(a, b);
  }

  lemma {:induction false} OrBits(a: nat, b: nat, j: nat)
    ensures Bit(Or(a, b), j) <==> Bit(a, j) || Bit(b, j)
    decreases j
  {
    var w := OrHalf(a, b);
    if j > 0 { OrBits(a / 2, b / 2, j - 1); }
  }

  lemma {:induction false} AndNotBits(a: nat, b: nat, j: nat)
    ensures Bit(AndNot(a, b), j) <==> Bit(a, j) && !Bit(b, j)
    decreases j
  {
    if j > 0 {
      assert AndNot(a, b) / 2 == AndNot(a / 2, b / 2);
      AndNotBits(a / 2, b / 2, j - 1);
    }
  }

  lemma {:induction false} OneBits(i: nat, j: nat)
    ensures Bit(One(i), j) <==> i == j
    decreases j
  {
    if i == 0 { if j > 0 { ZeroBits(j - 1); } } else if j > 0 { OneBits(i - 1, j - 1); }
  }

  lemma {:induction false} BelowOneBits(i: nat, j: nat)
    ensures Bit(One(i) - 1, j) <==> j < i
    decreases j
  {
    if i == 0 {
      ZeroBits(j);
    } else if j > 0 {
      assert (One(i) - 1) / 2 == One(i - 1) - 1;
      BelowOneBits(i - 1, j - 1);
    }
  }

  lemma {:induction false} ZeroBits(j: nat)
    ensures !Bit(0, j)
  {
    if j > 0 { ZeroBits(j - 1); }
  }

  lemma {:induction false} SetBit(w: nat, i: nat, j: nat)
    ensures Bit(Or(w, One(i)), j) <==> i == j || Bit(w, j)
  {
    OrBits(w, One(i), j);
    OneBits(i, j);
  }

  lemma {:induction false} ClearBit(w: nat, i: nat, j: nat)
    ensures Bit(AndNot(w, One(i)), j) <==> i != j && Bit(w, j)
  {
    AndNotBits(w, One(i), j);
    OneBits(i, j);
  }

  /** `~((1L << i) - 1) & w` keeps exactly the bits from `i` up. */
  lemma {:induction false} MaskBit(w: nat, i: nat, j: nat)
    ensures Bit(AndNot(w, One(i) - 1), j) <==> i <= j && Bit(w, j)
  {
    AndNotBits(w, One(i) - 1, j);
    BelowOneBits(i, j);
  }

  /** A word is at least `1L << i` exactly when it has a bit at `i` or above. */
  lemma {:induction false} AtLeastOne(w: nat, i: nat)
    ensures w >= One(i) <==> i < NumBits(w)
    decreases i
  {
    if i > 0 { AtLeastOne(w / 2, i - 1); }
  }

  lemma {:induction false} NoBitAbove(w: nat, j: nat)
    requires NumBits(w) <= j
    ensures !Bit(w, j)
    decreases j
  {
    if w == 0 { ZeroBits(j); } else { NoBitAbove(w / 2, j - 1); }
  }

  /** The highest set bit is `NumBits - 1`. */
  lemma {:induction false} HighestBit(w: nat)
    requires w > 0
    ensures 0 < NumBits(w) && Bit(w, NumBits(w) - 1)
    ensures forall j: nat :: NumBits(w) <= j ==> !Bit(w, j)
  {
    if w > 1 { HighestBit(w / 2); }
    forall j: nat | NumBits(w) <= j ensures !Bit(w, j) { NoBitAbove(w, j); }
  }

  /** The lowest set bit is `Ctz`. */
  lemma {:induction false} LowestBit(w: nat)
    requires w > 0
    ensures 0 <= Ctz(w) && Bit(w, Ctz(w))
    ensures forall j :: 0 <= j < Ctz(w) ==> !Bit(w, j)
  {
    if w % 2 == 1 {
      AndNotPred(w);
    } else {
      LowestBit(w / 2);
      assert (w - 1) / 2 == w / 2 - 1;
      assert Ctz(w) == 1 + Ctz(w / 2);
    }
  }

  lemma {:induction false} AndNotPred(w: nat)
    requires w % 2 == 1
    ensures AndNot(w - 1, w) == 0
  {
    assert (w - 1) / 2 == w / 2;
    AndNotSelf(w / 2);
  }

  lemma {:induction false} AndNotSelf(w: nat)
    ensures AndNot(w, w) == 0
  {
    if w > 0 { AndNotSelf(w / 2); }
  }
}

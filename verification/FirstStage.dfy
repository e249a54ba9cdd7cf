/** The loops of `BitrevR2`: bit reversal and the first radix-2 stage, fused and in place. */
module FirstStage {
  import opened BitReversal
  import opened Butterflies

  /** The size of a transform, `2^M`, seen as the loops see it: `M == 2 * n + 2`, or one more if `odd`. */
  datatype Shape = Shape(n: nat, odd: bool)

  function Bits(sh: Shape): nat { 2 * sh.n + 2 + (if sh.odd then 1 else 0) }

  /** The number of columns. */
  function Columns(sh: Shape): nat { Pow2(sh.n) }

  /** The distance of neighbours in a column. */
  function Stride(sh: Shape): nat { if sh.odd then 4 * Pow2(sh.n) else 2 * Pow2(sh.n) }

  /** The distance of the two passes over odd sizes. */
  function Pass(sh: Shape): nat { 2 * Pow2(sh.n) }

  function Times(a: nat, n: nat): nat { if a == 0 then 0 else Times(a - 1, n) + n }

  function Half(sh: Shape): nat { Times(Columns(sh), Stride(sh)) }

  predicate Spot(sh: Shape, a: nat, b: nat, s: nat) {
    a < Columns(sh) && b < Columns(sh) && (s == 0 || (sh.odd && s == Pass(sh)))
  }

  /** Where the loops find element `a` of column `b` in pass `s`; three more elements belong to it, at distances
      1, half the size, and half the size and 1. */
  function Place(sh: Shape, a: nat, b: nat, s: nat): nat {
    Times(a, Stride(sh)) + 2 * Rev(sh.n, b) + s
  }

  lemma {:induction false} TimesIs(a: nat, n: nat)
    ensures Times(a, n) == a * n
  {
    if a > 0 { TimesIs(a - 1, n); }
  }

  lemma {:induction false} TimesMonotone(a: nat, b: nat, n: nat)
    requires a <= b
    ensures Times(a, n) <= Times(b, n) && (a < b ==> Times(a, n) + n <= Times(b, n))
    decreases b
  {
    if a < b { TimesMonotone(a, b - 1, n); }
  }

  lemma {:induction false} TimesEven(a: nat, n: nat)
    requires n % 2 == 0
    ensures Times(a, n) % 2 == 0
  {
    if a > 0 { TimesEven(a - 1, n); }
  }

  lemma PlaceRange(sh: Shape, a: nat, b: nat, s: nat)
    requires Spot(sh, a, b, s)
    ensures Place(sh, a, b, s) + 1 < Half(sh) && Place(sh, a, b, s) % 2 == 0
    ensures Times(a, Stride(sh)) <= Place(sh, a, b, s) < Times(a, Stride(sh)) + Stride(sh)
  {
    RevBound(sh.n, b);
    TimesMonotone(a, Columns(sh), Stride(sh));
    StrideEven(sh);
    TimesEven(a, Stride(sh));
    EvenSum(Times(a, Stride(sh)), Rev(sh.n, b), s);
    assert 2 * Rev(sh.n, b) + s + 2 <= Stride(sh);
  }

  lemma StrideEven(sh: Shape)
    ensures Stride(sh) % 2 == 0 && Pass(sh) % 2 == 0
  {}

  lemma EvenSum(x: nat, r: nat, s: nat)
    requires x % 2 == 0 && s % 2 == 0
    ensures (x + 2 * r + s) % 2 == 0
  {}

  /** No two spots share a place. */
  lemma PlacesApart(sh: Shape, a: nat, b: nat, s: nat, a': nat, b': nat, s': nat)
    requires Spot(sh, a, b, s) && Spot(sh, a', b', s') && Place(sh, a, b, s) == Place(sh, a', b', s')
    ensures a == a' && b == b' && s == s'
  {
    PlaceRange(sh, a, b, s);
    PlaceRange(sh, a', b', s');
    if a < a' { TimesMonotone(a, a', Stride(sh)); }
    if a' < a { TimesMonotone(a', a, Stride(sh)); }
    RevBound(sh.n, b);
    RevBound(sh.n, b');
    RevTwice(sh.n, b);
    RevTwice(sh.n, b');
  }

  lemma {:induction false} Quotient(q: nat, k: nat, n: nat) returns (a: nat)
    requires q < Times(k, n)
    ensures a < k && Times(a, n) <= q < Times(a, n) + n
  {
    if q >= Times(k - 1, n) { a := k - 1; } else { a := Quotient(q, k - 1, n); }
  }

  /** Every even index in the lower half is the place of a spot. */
  lemma PlacesEverywhere(sh: Shape, q: nat) returns (a: nat, b: nat, s: nat)
    requires q < Half(sh) && q % 2 == 0
    ensures Spot(sh, a, b, s) && q == Place(sh, a, b, s)
  {
    a := Quotient(q, Columns(sh), Stride(sh));
    TimesEven(a, Stride(sh));
    b, s := WithinColumn(sh, q - Times(a, Stride(sh)));
  }

  lemma WithinColumn(sh: Shape, rest: nat) returns (b: nat, s: nat)
    requires rest < Stride(sh) && rest % 2 == 0
    ensures Spot(sh, 0, b, s) && rest == 2 * Rev(sh.n, b) + s
  {
    s := if rest >= Pass(sh) then Pass(sh) else 0;
    var r := (rest - s) / 2;
    assert rest == 2 * r + s && r < Columns(sh);
    b := Rev(sh.n, r);
    RevBound(sh.n, r);
    RevTwice(sh.n, r);
  }

  /** The index with top bit `t`, low bit `l` and the place of a spot between them. */
  function Index(sh: Shape, a: nat, b: nat, s: nat, t: nat, l: nat): nat {
    Place(sh, a, b, s) + (if t == 1 then Half(sh) else 0) + l
  }

  lemma TimesTwice(a: nat, k: nat)
    ensures Times(a, 2 * k) == 2 * (k * a) && Times(a, 4 * k) == 4 * (k * a)
  {
    TimesIs(a, 2 * k);
    TimesIs(a, 4 * k);
    assert a * (2 * k) == 2 * (k * a) && a * (4 * k) == 4 * (k * a);
  }

  lemma Grouped(k: nat, a: nat, t: nat)
    requires t < 2
    ensures k * (a + k * t) == k * a + (if t == 1 then k * k else 0)
  {
    if t == 0 { assert k * t == 0; } else { assert k * t == k && k * (a + k) == k * a + k * k; }
  }

  lemma GroupedMore(k: nat, y: nat, m: nat)
    requires m < 2
    ensures k * (m + 2 * y) == (if m == 1 then k else 0) + 2 * (k * y)
  {
    assert k * (m + 2 * y) == k * m + k * (2 * y) && k * (2 * y) == 2 * (k * y);
    if m == 0 { assert k * m == 0; } else { assert k * m == k; }
  }

  /** The bits of an index above the lowest: a reversed column number, the element and the top bit. */
  lemma BitsEven(sh: Shape, a: nat, b: nat, t: nat, l: nat)
    requires !sh.odd && t < 2
    ensures var k := Columns(sh); Index(sh, a, b, 0, t, l) == l + 2 * (Rev(sh.n, b) + k * (a + k * t))
  {
    TimesTwice(a, Columns(sh));
    TimesTwice(Columns(sh), Columns(sh));
    Grouped(Columns(sh), a, t);
  }

  /** In odd sizes the bit of the pass comes between column number and element. */
  lemma BitsOdd(sh: Shape, a: nat, b: nat, m: nat, t: nat, l: nat)
    requires sh.odd && t < 2 && m < 2
    ensures var k := Columns(sh);
      Index(sh, a, b, if m == 1 then Pass(sh) else 0, t, l) == l + 2 * (Rev(sh.n, b) + k * (m + 2 * (a + k * t)))
  {
    var k := Columns(sh);
    TimesTwice(a, k);
    TimesTwice(k, k);
    Grouped(k, a, t);
    GroupedMore(k, a + k * t, m);
  }

  lemma RevLow(n: nat, l: nat, y: nat)
    requires l < 2
    ensures Rev(n + 1, l + 2 * y) == (if l == 1 then Pow2(n) else 0) + Rev(n, y)
  {
    assert (l + 2 * y) % 2 == l && (l + 2 * y) / 2 == y;
  }

  lemma RevTop(n: nat, a: nat, t: nat)
    requires a < Pow2(n) && t < 2
    ensures Rev(n + 1, a + Pow2(n) * t) == 2 * Rev(n, a) + t
  {
    RevConcat(n, 1, a, t);
    RevOne(t);
    assert Pow2(1) == 2;
  }

  lemma RevEven(n: nat, r: nat, a: nat, t: nat, l: nat)
    requires r < Pow2(n) && a < Pow2(n) && t < 2 && l < 2
    ensures Rev(2 * n + 2, l + 2 * (r + Pow2(n) * (a + Pow2(n) * t)))
      == (if l == 1 then Pow2(2 * n + 1) else 0) + Rev(n, r) * Pow2(n + 1) + 2 * Rev(n, a) + t
  {
    var z := a + Pow2(n) * t;
    RevLow(2 * n + 1, l, r + Pow2(n) * z);
    RevConcat(n, n + 1, r, z);
    RevTop(n, a, t);
  }

  lemma RevOdd(n: nat, r: nat, a: nat, m: nat, t: nat, l: nat)
    requires r < Pow2(n) && a < Pow2(n) && t < 2 && l < 2 && m < 2
    ensures Rev(2 * n + 3, l + 2 * (r + Pow2(n) * (m + 2 * (a + Pow2(n) * t))))
      == (if l == 1 then Pow2(2 * n + 2) else 0) + Rev(n,
        r) * Pow2(n + 2) + (if m == 1 then Pow2(n + 1) else 0) + 2 * Rev(n, a) + t
  {
    var z := m + 2 * (a + Pow2(n) * t);
    RevUpper(n, a, m, t, z);
    RevLower(n, r, z, l);
  }

  lemma RevUpper(n: nat, a: nat, m: nat, t: nat, z: nat)
    requires a < Pow2(n) && t < 2 && m < 2 && z == m + 2 * (a + Pow2(n) * t)
    ensures Rev(n + 2, z) == (if m == 1 then Pow2(n + 1) else 0) + 2 * Rev(n, a) + t
  {
    RevLow(n + 1, m, a + Pow2(n) * t);
    RevTop(n, a, t);
  }

  lemma RevLower(n: nat, r: nat, z: nat, l: nat)
    requires r < Pow2(n) && l < 2
    ensures Rev(2 * n + 3, l + 2 * (r + Pow2(n) * z))
      == (if l == 1 then Pow2(2 * n + 2) else 0) + Rev(n, r) * Pow2(n + 2) + Rev(n + 2, z)
  {
    RevLow(2 * n + 2, l, r + Pow2(n) * z);
    RevConcat(n, n + 2, r, z);
  }

  /** Half the size is a power of two. */
  lemma HalfIs(sh: Shape)
    ensures Half(sh) == Pow2(Bits(sh) - 1) && Pow2(Bits(sh)) == 2 * Half(sh)
  {
    var n := sh.n;
    if sh.odd { Pow2Add(n, n + 2); } else { Pow2Add(n, n + 1); }
    TimesIs(Pow2(n), Stride(sh));
    assert Stride(sh) == (if sh.odd then Pow2(n + 2) else Pow2(n + 1));
  }

  lemma RowStart(sh: Shape, b: nat)
    ensures Times(b, Stride(sh)) == b * (if sh.odd then Pow2(sh.n + 2) else Pow2(sh.n + 1))
  {
    TimesIs(b, Stride(sh));
    assert Stride(sh) == (if sh.odd then Pow2(sh.n + 2) else Pow2(sh.n + 1));
  }

  lemma EvenReversed(sh: Shape, a: nat, b: nat, t: nat, l: nat)
    requires !sh.odd && Spot(sh, a, b, 0) && t < 2 && l < 2
    ensures Rev(Bits(sh), Index(sh, a, b, 0, t, l)) == Index(sh, b, a, 0, l, t)
  {
    HalfIs(sh);
    RowStart(sh, b);
    RevBound(sh.n, b);
    RevTwice(sh.n, b);
    BitsEven(sh, a, b, t, l);
    RevEven(sh.n, Rev(sh.n, b), a, t, l);
  }

  lemma OddReversed(sh: Shape, a: nat, b: nat, m: nat, t: nat, l: nat)
    requires sh.odd && Spot(sh, a, b, 0) && t < 2 && l < 2 && m < 2
    ensures var s := if m == 1 then Pass(sh) else 0; Rev(Bits(sh), Index(sh, a, b, s, t, l)) == Index(sh, b, a, s, l, t)
  {
    HalfIs(sh);
    RowStart(sh, b);
    RevBound(sh.n, b);
    RevTwice(sh.n, b);
    BitsOdd(sh, a, b, m, t, l);
    RevOdd(sh.n, Rev(sh.n, b), a, m, t, l);
  }

  /** Reversing the bits of an index swaps element and column, and top and bottom bit. */
  lemma IndexReversed(sh: Shape, a: nat, b: nat, s: nat, t: nat, l: nat)
    requires Spot(sh, a, b, s) && t < 2 && l < 2
    ensures Rev(Bits(sh), Index(sh, a, b, s, t, l)) == Index(sh, b, a, s, l, t)
  {
    if sh.odd {
      OddReversed(sh, a, b, if s == 0 then 0 else 1, t, l);
    } else {
      EvenReversed(sh, a, b, t, l);
    }
  }

  // ----- the table and its shifts

  lemma TableReversed(n: nat, L: nat)
    requires n <= 8 && L < Pow2(n)
    ensures L < 256 && Shr(BRcnt(L), 8 - n) == Rev(n, L)
  {
    Pow2Monotone(n, 8);
    assert Pow2(8) == 256;
    TableIsReversal(L);
    HighZeros(n, 8 - n, L);
    Divided(Rev(n, L), 8 - n);
  }

  lemma {:induction false} Pow2Monotone(m: nat, n: nat)
    requires m <= n
    ensures Pow2(m) <= Pow2(n)
    decreases n
  {
    if m < n { Pow2Monotone(m, n - 1); }
  }

  lemma HighZeros(m: nat, n: nat, x: nat)
    requires x < Pow2(m)
    ensures Rev(m + n, x) == Rev(m, x) * Pow2(n)
  {
    RevConcat(m, n, x, 0);
    RevZero(n);
    assert x + Pow2(m) * 0 == x;
  }

  /** `x >> k` */
  function Shr(x: nat, k: nat): nat { if k == 0 then x else Shr(x / 2, k - 1) }

  lemma {:induction false} Divided(r: nat, k: nat)
    ensures Shr(r * Pow2(k), k) == r
  {
    if k > 0 {
      assert r * Pow2(k) == 2 * (r * Pow2(k - 1));
      Divided(r, k - 1);
    } else {
      assert r * 1 == r;
    }
  }

  lemma {:induction false} RevZero(n: nat)
    ensures Rev(n, 0) == 0
  {
    if n > 0 { RevZero(n - 1); }
  }
}

/** Decimal text to number, as `sc_strtod` does it, with exact arithmetic in place of floating point. */
module Strtod {
  import opened Basics

  newtype int32 = x: int | -0x8000_0000 <= x < 0x8000_0000

  const MAX_EXPONENT: int32 := 511

  // ----- powers

  function Pow10(n: nat): (r: real)
    ensures r > 0.0
  {
    if n == 0 then 1.0 else 10.0 * Pow10(n - 1)
  }

  /** `x` times ten to the power of `e`. */
  function Scaled(x: real, e: int): real
    decreases if e >= 0 then e else -e
  {
    if e == 0 then x else if e > 0 then 10.0 * Scaled(x, e - 1) else Scaled(x, e + 1) / 10.0
  }

  lemma ScaledNext(x: real, e: int)
    ensures Scaled(x, e + 1) == 10.0 * Scaled(x, e)
  {}

  /** Scaling twice adds the exponents. */
  lemma {:induction false} ScaledTwice(x: real, d: int, e: int)
    ensures Scaled(Scaled(x, d), e) == Scaled(x, d + e)
    decreases if e >= 0 then e else -e
  {
    if e > 0 {
      ScaledTwice(x, d, e - 1);
      ScaledNext(x, d + e - 1);
    } else if e < 0 {
      ScaledTwice(x, d, e + 1);
      ScaledNext(x, d + e);
    }
  }

  lemma {:induction false} ScaledSum(x: real, y: real, e: int)
    ensures Scaled(x + y, e) == Scaled(x, e) + Scaled(y, e)
    decreases if e >= 0 then e else -e
  {
    if e > 0 { ScaledSum(x, y, e - 1); } else if e < 0 { ScaledSum(x, y, e + 1); }
  }

  lemma {:induction false} ScaledGrows(x: real, y: real, e: int)
    ensures x < y <==> Scaled(x, e) < Scaled(y, e)
    decreases if e >= 0 then e else -e
  {
    if e > 0 { ScaledGrows(x, y, e - 1); } else if e < 0 { ScaledGrows(x, y, e + 1); }
  }

  lemma {:induction false} ScaledZero(e: int)
    ensures Scaled(0.0, e) == 0.0
    decreases if e >= 0 then e else -e
  {
    if e > 0 { ScaledZero(e - 1); } else if e < 0 { ScaledZero(e + 1); }
  }

  lemma {:induction false} ScaledUp(x: real, n: nat)
    ensures Scaled(x, n) == x * Pow10(n)
  {
    if n > 0 { ScaledUp(x, n - 1); }
  }

  lemma ScaledDown(x: real, n: nat)
    ensures Scaled(x, 0 - n) == x / Pow10(n)
  {
    ScaledTwice(x, 0 - n, n);
    ScaledUp(Scaled(x, 0 - n), n);
    Divided(Scaled(x, 0 - n), Pow10(n));
  }

  lemma Divided(x: real, a: real)
    requires a != 0.0
    ensures (x * a) / a == x
  {}

  // ----- digits

  predicate IsDigit(c: char) { '0' <= c <= '9' }

  predicate AllDigits(t: string) { forall i :: 0 <= i < |t| ==> IsDigit(t[i]) }

  function DigitValue(c: char): (d: int)
    requires IsDigit(c)
    ensures 0 <= d <= 9
  {
    c as int - '0' as int
  }

  /** The number a digit string stands for. */
  function NumberOf(t: string): nat
    requires AllDigits(t)
  {
    if t == "" then 0 else 10 * NumberOf(t[..|t| - 1]) + DigitValue(t[|t| - 1])
  }

  function Ten(n: nat): (t: nat)
    ensures t > 0
  {
    if n == 0 then 1 else 10 * Ten(n - 1)
  }

  lemma OneDigitMore(a: nat, t: nat, b: nat, d: int)
    ensures 10 * (a * t + b) + d == a * (10 * t) + (10 * b + d)
  {}

  lemma {:induction false} NumberOfAppend(a: string, b: string)
    requires AllDigits(a) && AllDigits(b)
    ensures AllDigits(a + b) && NumberOf(a + b) == NumberOf(a) * Ten(|b|) + NumberOf(b)
    decreases |b|
  {
    if b == "" {
      assert a + b == a;
    } else {
      var b' := b[..|b| - 1];
      assert (a + b)[..|a + b| - 1] == a + b';
      NumberOfAppend(a, b');
      OneDigitMore(NumberOf(a), Ten(|b'|), NumberOf(b'), DigitValue(b[|b| - 1]));
    }
  }

  lemma {:induction false} NumberOfBound(t: string)
    requires AllDigits(t)
    ensures NumberOf(t) < Ten(|t|)
  {
    if t != "" { NumberOfBound(t[..|t| - 1]); }
  }

  lemma {:induction false} TenMonotone(m: nat, n: nat)
    requires m <= n
    ensures Ten(m) <= Ten(n)
    decreases n
  {
    if m < n { TenMonotone(m, n - 1); }
  }

  // ----- the form of a number

  datatype Exponent = NoExponent | Exponent(letter: char, sign: string, digits: string)

  /** `-I.FE-X` with white space before it, and whatever follows. */
  datatype Literal = Literal(
    spaces: string, sign: string, whole: string, point: string, fraction: string, exponent: Exponent, rest: string)

  function Head(t: string): char { if t == "" then 0 as char else t[0] }

  /** The text of an exponent and of what follows it. */
  function Tail(e: Exponent, rest: string): string {
    if e.NoExponent? then rest else [e.letter] + (e.sign + (e.digits + rest))
  }

  function Text(l: Literal): string {
    l.spaces + (l.sign + (l.whole + (l.point + (l.fraction + Tail(l.exponent, l.rest)))))
  }

  predicate IsSign(sign: string, after: string) {
    if sign == "" then Head(after) != '-' && Head(after) != '+' else sign == "-" || sign == "+"
  }

  predicate ExponentOk(e: Exponent, rest: string) {
    match e
    case NoExponent => Head(rest) != 'e' && Head(rest) != 'E'
    case Exponent(letter, sign, digits) =>
      && (letter == 'e' || letter == 'E') && IsSign(sign, digits + rest) && AllDigits(digits) && !IsDigit(Head(rest))
  }

  /** Every part of the number extends as far as it can. */
  predicate WellFormed(l: Literal) {
    var x := Tail(l.exponent, l.rest);
    && (forall i :: 0 <= i < |l.spaces| ==> IsSpace(l.spaces[i]))
    && !IsSpace(Head(l.sign + (l.whole + (l.point + (l.fraction + x)))))
    && IsSign(l.sign, l.whole + (l.point + (l.fraction + x)))
    && AllDigits(l.whole) && AllDigits(l.fraction) && !IsDigit(Head(x))
    && (if l.point == "" then l.fraction == "" && Head(x) != '.' else l.point == ".")
    && ExponentOk(l.exponent, l.rest)
  }

  predicate HasDigits(l: Literal) {
    AllDigits(l.whole) && AllDigits(l.fraction) && (l.exponent.Exponent? ==> AllDigits(l.exponent.digits))
  }

  /** `l` is how the text `s` reads. */
  ghost predicate Reads(s: string, l: Literal) { WellFormed(l) && Text(l) == s }

  /** All digits of the mantissa. */
  function Digits(l: Literal): string { l.whole + l.fraction }

  function Signed(sign: string, x: real): real { if sign == "-" then -x else x }

  function WrittenExponent(e: Exponent): int
    requires e.Exponent? ==> AllDigits(e.digits)
  {
    if e.NoExponent? then 0 else (if e.sign == "-" then -1 else 1) * NumberOf(e.digits)
  }

  /** The mantissa `I.F`. */
  function Mantissa(l: Literal): real
    requires HasDigits(l)
  {
    NumberOf(l.whole) as real + Scaled(NumberOf(l.fraction) as real, -|l.fraction|)
  }

  /** The number a text stands for. */
  function Value(l: Literal): real
    requires HasDigits(l)
  {
    Signed(l.sign, Scaled(Mantissa(l), WrittenExponent(l.exponent)))
  }

  // ----- reading the form

  function Span(t: string, p: char -> bool): (n: nat)
    ensures n <= |t| && (forall i :: 0 <= i < n ==> p(t[i])) && (n < |t| ==> !p(t[n]))
  {
    if t == "" || !p(t[0]) then 0 else 1 + Span(t[1..], p)
  }

  lemma {:induction false} SpanOf(a: string, b: string, p: char -> bool)
    requires forall i :: 0 <= i < |a| ==> p(a[i])
    requires b != "" ==> !p(b[0])
    ensures Span(a + b, p) == |a|
  {
    if a != "" {
      assert (a + b)[1..] == a[1..] + b;
      SpanOf(a[1..], b, p);
    } else {
      assert a + b == b;
    }
  }

  function ReadSpan(t: string, p: char -> bool): (r: (string, string))
    ensures r.0 + r.1 == t && (forall i :: 0 <= i < |r.0| ==> p(r.0[i])) && (r.1 != "" ==> !p(r.1[0]))
  {
    (t[..Span(t, p)], t[Span(t, p)..])
  }

  lemma ReadSpanBack(a: string, b: string, p: char -> bool)
    requires forall i :: 0 <= i < |a| ==> p(a[i])
    requires b != "" ==> !p(b[0])
    ensures ReadSpan(a + b, p) == (a, b)
  {
    SpanOf(a, b, p);
  }

  function ReadSign(t: string): (r: (string, string))
    ensures r.0 + r.1 == t && IsSign(r.0, r.1)
  {
    if Head(t) == '-' || Head(t) == '+' then (t[..1], t[1..]) else ("", t)
  }

  lemma ReadSignBack(sign: string, after: string)
    requires IsSign(sign, after)
    ensures ReadSign(sign + after) == (sign, after)
  {
    if sign == "" { assert sign + after == after; }
  }

  function ReadPoint(t: string): (r: (string, string))
    ensures r.0 + r.1 == t && (if r.0 == "" then Head(r.1) != '.' else r.0 == ".")
  {
    if Head(t) == '.' then (t[..1], t[1..]) else ("", t)
  }

  function ReadExponent(x: string): (r: (Exponent, string))
    ensures Tail(r.0, r.1) == x && ExponentOk(r.0, r.1)
  {
    if Head(x) == 'e' || Head(x) == 'E' then
      var (sign, z) := ReadSign(x[1..]);
      var (digits, rest) := ReadSpan(z, IsDigit);
      assert x == [x[0]] + x[1..];
      (Exponent(x[0], sign, digits), rest)
    else
      (NoExponent, x)
  }

  function Read(s: string): (l: Literal)
    ensures WellFormed(l) && Text(l) == s
  {
    var (spaces, t) := ReadSpan(s, IsSpace);
    var (sign, u) := ReadSign(t);
    var (whole, v) := ReadSpan(u, IsDigit);
    var (point, v') := ReadPoint(v);
    var (fraction, x) := if point == "" then ("", v') else ReadSpan(v', IsDigit);
    var (exponent, rest) := ReadExponent(x);
    Literal(spaces, sign, whole, point, fraction, exponent, rest)
  }

  lemma ReadExponentBack(e: Exponent, rest: string)
    requires ExponentOk(e, rest)
    ensures ReadExponent(Tail(e, rest)) == (e, rest)
  {
    var x := Tail(e, rest);
    if e.Exponent? {
      assert x[1..] == e.sign + (e.digits + rest);
      ReadSignBack(e.sign, e.digits + rest);
      ReadSpanBack(e.digits, rest, IsDigit);
    }
  }

  /** A text has one reading. */
  lemma ReadBack(l: Literal)
    requires WellFormed(l)
    ensures Read(Text(l)) == l
  {
    var x := Tail(l.exponent, l.rest);
    var v' := l.fraction + x;
    var v := l.point + v';
    var u := l.whole + v;
    ReadSpanBack(l.spaces, l.sign + u, IsSpace);
    ReadSignBack(l.sign, u);
    ReadSpanBack(l.whole, v, IsDigit);
    if l.point == "" {
      assert v == v' == x;
    } else {
      assert v[..1] == l.point && v[1..] == v';
      ReadSpanBack(l.fraction, x, IsDigit);
    }
    ReadExponentBack(l.exponent, l.rest);
  }

  // ----- what the digits are worth

  const MAX_DIGITS := 18

  /** The digits that `sc_strtod` uses: the first eighteen. */
  function Lead(l: Literal): string {
    if |Digits(l)| > MAX_DIGITS then Digits(l)[..MAX_DIGITS] else Digits(l)
  }

  lemma LeadSize(l: Literal)
    ensures |Lead(l)| == (if |l.whole| + |l.fraction| > MAX_DIGITS then MAX_DIGITS else |l.whole| + |l.fraction|)
    ensures |Digits(l)| == |l.whole| + |l.fraction|
      && (AllDigits(l.whole) && AllDigits(l.fraction) ==> AllDigits(Lead(l)))
  {}

  /** The exponent that belongs to the leading digits. */
  function Places(l: Literal): int { |l.whole| - |Lead(l)| }

  lemma {:induction false} TenTimes(a: nat, n: nat)
    ensures (a * Ten(n)) as real == Scaled(a as real, n)
  {
    if n > 0 {
      TenTimes(a, n - 1);
      assert a * Ten(n) == 10 * (a * Ten(n - 1));
    }
  }

  /** The digits without the point, scaled down, are the mantissa. */
  lemma MantissaIs(l: Literal)
    requires HasDigits(l)
    ensures Mantissa(l) == Scaled(NumberOf(Digits(l)) as real, -|l.fraction|)
  {
    var f := |l.fraction|;
    NumberOfAppend(l.whole, l.fraction);
    TenTimes(NumberOf(l.whole), f);
    ScaledTwice(NumberOf(l.whole) as real, f, -f);
    ScaledSum((NumberOf(l.whole) * Ten(f)) as real, NumberOf(l.fraction) as real, -f);
  }

  /** The leading digits fall short of the mantissa by less than one unit of their last place, and not at all if there
      are no more than eighteen digits. */
  lemma LeadBelow(l: Literal)
    requires HasDigits(l)
    ensures |Digits(l)| <= MAX_DIGITS ==> Scaled(NumberOf(Lead(l)) as real, Places(l)) == Mantissa(l)
    ensures var m := Scaled(NumberOf(Lead(l)) as real, Places(l)); m <= Mantissa(l) < m + Scaled(1.0, Places(l))
  {
    MantissaIs(l);
    if |Digits(l)| > MAX_DIGITS {
      LeadOfMany(l);
    } else {
      ScaledGrows(0.0, 1.0, Places(l));
      ScaledZero(Places(l));
    }
  }

  lemma LeadOfMany(l: Literal)
    requires HasDigits(l) && |Digits(l)| > MAX_DIGITS
    ensures var m := Scaled(NumberOf(Lead(l)) as real, Places(l));
      m <= Scaled(NumberOf(Digits(l)) as real, -|l.fraction|) < m + Scaled(1.0, Places(l))
  {
    var f, k := |l.fraction|, |Digits(l)| - MAX_DIGITS;
    var lead, more := Lead(l), Digits(l)[MAX_DIGITS..];
    assert Digits(l) == lead + more;
    NumberOfAppend(lead, more);
    NumberOfBound(more);
    var a, b := NumberOf(lead), NumberOf(more);
    TenTimes(a, k);
    TenTimes(1, k);
    ScaledTwice(a as real, k, -f);
    ScaledTwice(1.0, k, -f);
    ScaledSum((a * Ten(k)) as real, b as real, -f);
    ScaledGrows(b as real, Ten(k) as real, -f);
    ScaledGrows(b as real, 0.0, -f);
    ScaledZero(-f);
  }

  // ----- binary exponentiation

  function Power(b: real, n: nat): real {
    if n == 0 then 1.0 else b * Power(b, n - 1)
  }

  lemma {:induction false} PowerOfTen(n: nat)
    ensures Power(10.0, n) == Pow10(n)
  {
    if n > 0 { PowerOfTen(n - 1); }
  }

  lemma {:induction false} PowerSquare(b: real, n: nat)
    ensures Power(b * b, n) == Power(b, 2 * n)
  {
    if n > 0 {
      PowerSquare(b, n - 1);
      assert Power(b, 2 * n) == b * (b * Power(b, 2 * (n - 1)));
    }
  }

  lemma HalfPower(x: real, b: real, e: nat, b': real)
    requires e > 0 && b' == b * b
    ensures e % 2 == 0 ==> x * Power(b, e) == x * Power(b', e / 2)
    ensures e % 2 == 1 ==> x * Power(b, e) == (x * b) * Power(b', e / 2)
  {
    PowerSquare(b, e / 2);
    if e % 2 == 1 {
      assert Power(b, e) == b * Power(b, 2 * (e / 2));
    }
  }

  function Two(i: nat): nat { if i == 0 then 1 else 2 * Two(i - 1) }

  /** Entry `i` of the table `powersOf10`, ten to the power of two to the power of `i`. */
  function Entry(i: nat): real {
    if i == 0 then 10.0 else Entry(i - 1) * Entry(i - 1)
  }

  const powersOf10: seq<real> := seq(9, i requires 0 <= i < 9 => Entry(i))

  function Times(a: real, b: real): real { a * b }

  /** `x` and the bits of `e`, which stand for the squares of `b`, make up ten to the power of `e0`. */
  ghost predicate Combines(x: real, b: real, e: nat, e0: nat) {
    x * Power(b, e) == Power(10.0, e0)
  }

  lemma NextBit(x: real, b: real, e: nat, e0: nat)
    requires e > 0 && Combines(x, b, e, e0)
    ensures Combines(if e % 2 == 1 then Times(x, b) else x, Times(b, b), e / 2, e0)
  {
    HalfPower(x, b, e, Times(b, b));
  }

  lemma EntrySquare(d: nat)
    ensures Entry(d + 1) == Times(Entry(d), Entry(d))
  {}

  lemma AllBits(x: real, b: real, e0: nat)
    requires Combines(x, b, 0, e0)
    ensures x == Pow10(e0)
  {
    PowerOfTen(e0);
  }

  /** Ten to the power of `exponent`, one bit of the exponent at a time. */
  method PowerOf(exponent: int32) returns (dblExp: real)
    requires 0 <= exponent <= MAX_EXPONENT
    ensures dblExp == Pow10(exponent as int)
  {
    var exp := exponent;
    dblExp := 1.0;
    var d := 0;
    assert Two(9) == 512;
    while exp != 0
      invariant 0 <= exp <= MAX_EXPONENT && 0 <= d <= 9 && (exp as int) < Two(9 - d)
      invariant Combines(dblExp, Entry(d), exp as int, exponent as int)
      decreases exp
    {
      NextBit(dblExp, Entry(d), exp as int, exponent as int);
      EntrySquare(d);
      if exp % 2 == 1 {
        dblExp := Times(dblExp, powersOf10[d]);
      }
      exp := exp / 2;
      d := d + 1;
    }
    AllBits(dblExp, Entry(d), exponent as int);
  }

  /** An exponent cut off at 511. */
  function Clamped(e: int): int { if e < -511 then -511 else if 511 < e then 511 else e }

  /** Combines a fraction with an exponent, which is cut off at 511. */
  method Scale(fraction: real, exponent: int32) returns (r: real, range: bool)
    requires exponent > -0x8000_0000
    ensures range <==> exponent < -MAX_EXPONENT || MAX_EXPONENT < exponent
    ensures r == Scaled(fraction, Clamped(exponent as int))
  {
    var exp := exponent;
    var expSign := exp < 0;
    if expSign { exp := -exp; }
    range := exp > MAX_EXPONENT;
    if range { exp := MAX_EXPONENT; }
    var dblExp := PowerOf(exp);
    if expSign {
      ScaledDown(fraction, exp as int);
      r := fraction / dblExp;
    } else {
      ScaledUp(fraction, exp as int);
      r := fraction * dblExp;
    }
  }

  // ----- the scan

  /** The character at a place of a C string, which ends with a zero character. */
  function CharAt(s: string, i: nat): char { if i < |s| then s[i] else 0 as char }

  ghost predicate Stands(s: string, i: nat, part: string) {
    forall k: nat :: k < |part| ==> CharAt(s, i + k) == part[k]
  }

  /** From place `i` on `s` reads as `t`. */
  ghost predicate ReadsAs(s: string, i: nat, t: string) {
    forall k: nat :: CharAt(s, i + k) == CharAt(t, k)
  }

  lemma PartStands(s: string, i: nat, part: string, after: string)
    requires ReadsAs(s, i, part + after)
    ensures Stands(s, i, part) && ReadsAs(s, i + |part|, after)
  {
    forall k: nat | k < |part| ensures CharAt(s, i + k) == part[k] {
      assert CharAt(s, i + k) == CharAt(part + after, k);
    }
    forall k: nat ensures CharAt(s, i + |part| + k) == CharAt(after, k) {
      assert CharAt(s, i + (|part| + k)) == CharAt(part + after, |part| + k);
    }
  }

  function MantissaStart(l: Literal): nat { |l.spaces| + |l.sign| }

  function MantissaEnd(l: Literal): nat { MantissaStart(l) + |l.whole| + |l.point| + |l.fraction| }

  /** What stands where in the text of a number. */
  ghost predicate Laid(s: string, l: Literal) {
    var b, e := MantissaStart(l), MantissaEnd(l);
    && (forall k: nat :: k < |l.spaces| ==> IsSpace(CharAt(s, k))) && !IsSpace(CharAt(s, |l.spaces|))
    && SignAt(s, |l.spaces|, l.sign)
    && AllDigits(l.whole) && Stands(s, b, l.whole)
    && AllDigits(l.fraction) && Stands(s, b + |l.whole| + |l.point|, l.fraction)
    && !IsDigit(CharAt(s, e))
    && (l.point == "" ==> l.fraction == "" && CharAt(s, e) != '.')
    && (l.point != "" ==> l.point == "." && CharAt(s, b + |l.whole|) == '.')
  }

  ghost predicate SignAt(s: string, i: nat, sign: string) {
    if sign == "" then CharAt(s, i) != '-' && CharAt(s, i) != '+'
    else |sign| == 1 && (sign[0] == '-' || sign[0] == '+') && CharAt(s, i) == sign[0]
  }

  lemma SignStands(s: string, i: nat, sign: string, after: string)
    requires IsSign(sign, after) && ReadsAs(s, i, sign + after)
    ensures SignAt(s, i, sign)
  {
    assert CharAt(s, i + 0) == CharAt(sign + after, 0);
    if sign == "" { assert sign + after == after; }
  }

  lemma HeadStands(s: string, i: nat, after: string)
    requires ReadsAs(s, i, after)
    ensures CharAt(s, i) == Head(after)
  {
    assert CharAt(s, i + 0) == CharAt(after, 0);
  }

  lemma SpacesStand(s: string, spaces: string, t: string)
    requires s == spaces + t && (forall k :: 0 <= k < |spaces| ==> IsSpace(spaces[k])) && !IsSpace(Head(t))
    ensures (forall k: nat :: k < |spaces| ==> IsSpace(CharAt(s, k))) && !IsSpace(CharAt(s, |spaces|))
    ensures ReadsAs(s, |spaces|, t)
  {}

  lemma NumberStands(s: string, l: Literal, b: nat, v: string, v': string, x: string)
    requires ReadsAs(s, b, l.whole + v) && v == l.point + v' && v' == l.fraction + x && b == MantissaStart(l)
    requires l.point == "" || l.point == "."
    ensures Stands(s, b, l.whole) && Stands(s, b + |l.whole| + |l.point|, l.fraction) && ReadsAs(s, MantissaEnd(l), x)
    ensures l.point == "." ==> CharAt(s, b + |l.whole|) == '.'
  {
    PartStands(s, b, l.whole, v);
    PartStands(s, b + |l.whole|, l.point, v');
    PartStands(s, b + |l.whole| + |l.point|, l.fraction, x);
    if l.point == "." { assert CharAt(s, b + |l.whole| + 0) == l.point[0]; }
  }

  lemma LaidOut(s: string, l: Literal, u: string, v: string, v': string, x: string)
    requires s == l.spaces + (l.sign + u) && u == l.whole + v && v == l.point + v' && v' == l.fraction + x
    requires WellFormed(l) && x == Tail(l.exponent, l.rest)
    ensures Laid(s, l) && ReadsAs(s, MantissaEnd(l), x) && MantissaEnd(l) + |x| == |s|
  {
    SpacesStand(s, l.spaces, l.sign + u);
    SignStands(s, |l.spaces|, l.sign, u);
    PartStands(s, |l.spaces|, l.sign, u);
    NumberStands(s, l, MantissaStart(l), v, v', x);
    HeadStands(s, MantissaEnd(l), x);
  }

  method SkipSpaces(s: string, ghost l: Literal) returns (p: nat)
    requires Laid(s, l)
    ensures p == |l.spaces|
  {
    p := 0;
    while IsSpace(CharAt(s, p))
      invariant p <= |l.spaces|
      decreases |l.spaces| - p
    {
      p := p + 1;
    }
  }

  method SkipSign(s: string, p0: nat, ghost sign: string) returns (negative: bool, p: nat)
    requires SignAt(s, p0, sign)
    ensures p == p0 + |sign| && negative == (sign == "-")
  {
    p := p0;
    if CharAt(s, p) == '-' {
      negative := true;
      p := p + 1;
    } else {
      if CharAt(s, p) == '+' {
        p := p + 1;
      }
      negative := false;
    }
  }

  /** Counts the digits of the mantissa and the point, and finds the point. */
  method CountMantissa(s: string, p0: nat, ghost l: Literal) returns (mantSize: nat, decPt: int, p: nat)
    requires Laid(s, l) && p0 == MantissaStart(l)
    ensures mantSize == |l.whole| + |l.point| + |l.fraction| && p == p0 + mantSize
    ensures decPt == if l.point == "." then |l.whole| else -1
  {
    p := p0;
    decPt := -1;
    mantSize := 0;
    ghost var w, e := |l.whole|, |l.whole| + |l.point| + |l.fraction|;
    while true
      invariant mantSize <= e && p == p0 + mantSize
      invariant decPt == if l.point == "." && mantSize > w then w else -1
      decreases e - mantSize
    {
      MantissaChar(s, l, mantSize);
      var c := CharAt(s, p);
      if !IsDigit(c) {
        if c != '.' || decPt >= 0 { break; }
        decPt := mantSize;
      }
      p := p + 1;
      mantSize := mantSize + 1;
    }
  }

  lemma MantissaChar(s: string, l: Literal, i: nat)
    requires Laid(s, l) && i <= |l.whole| + |l.point| + |l.fraction|
    ensures var c := CharAt(s, MantissaStart(l) + i);
      if i == |l.whole| && l.point == "." then c == '.'
      else if i < |l.whole| + |l.point| + |l.fraction| then IsDigit(c)
      else !IsDigit(c) && (l.point == "" ==> c != '.')
  {
    var w := |l.whole| + |l.point|;
    if i < |l.whole| {
      assert CharAt(s, MantissaStart(l) + i) == l.whole[i];
    } else if w <= i < w + |l.fraction| {
      assert CharAt(s, MantissaStart(l) + |l.whole| + |l.point| + (i - w)) == l.fraction[i - w];
    }
  }

  /** Where digit `k` of the mantissa stands, or where the reader stops before the point that it will skip. */
  function DigitPlace(l: Literal, k: nat): nat {
    MantissaStart(l) + k + (if k > |l.whole| then |l.point| else 0)
  }

  function DigitAt(l: Literal, k: nat): char
    requires k < |l.whole| + |l.fraction|
  {
    if k < |l.whole| then l.whole[k] else l.fraction[k - |l.whole|]
  }

  /** The next digit of the mantissa; a point before it is skipped. */
  method ReadDigit(s: string, p0: nat, ghost l: Literal, ghost k: nat) returns (c: char, p: nat)
    requires Laid(s, l) && k < |l.whole| + |l.fraction| && p0 == DigitPlace(l, k)
    ensures c == DigitAt(l, k) && IsDigit(c) && p == DigitPlace(l, k + 1)
  {
    p := p0;
    DigitStands(s, l, k);
    c := CharAt(s, p);
    p := p + 1;
    if c == '.' {
      c := CharAt(s, p);
      p := p + 1;
    }
  }

  lemma DigitStands(s: string, l: Literal, k: nat)
    requires Laid(s, l) && k < |l.whole| + |l.fraction|
    ensures IsDigit(DigitAt(l, k))
    ensures if k == |l.whole| && l.point == "." then CharAt(s, DigitPlace(l, k)) == '.' && CharAt(s,
      DigitPlace(l, k) + 1) == DigitAt(l, k)
      else CharAt(s, DigitPlace(l, k)) == DigitAt(l, k)
  {
    var b, w := MantissaStart(l), |l.whole|;
    if k >= w {
      assert CharAt(s, b + w + |l.point| + (k - w)) == l.fraction[k - w];
    }
  }

  /** Collects `count` digits of the mantissa, at most nine. */
  method ReadDigits(s: string, p0: nat, count: nat, ghost l: Literal, ghost from: nat) returns (frac: int32, p: nat)
    requires Laid(s, l) && from + count <= |l.whole| + |l.fraction| && count <= 9 && p0 == DigitPlace(l, from)
    ensures Collected(frac as int, l, from, count) && p == DigitPlace(l, from + count)
    ensures 0 <= frac < 10_0000_0000
  {
    frac := 0;
    p := p0;
    ghost var k := 0;
    var left := count;
    CollectNone(l, from);
    while left > 0
      invariant 0 <= left && k + left == count && p == DigitPlace(l, from + k)
      invariant Collected(frac as int, l, from, k)
    {
      var c;
      c, p := ReadDigit(s, p, l, from + k);
      CollectOne(frac as int, l, from, k);
      frac := 10 * frac + (c as int - '0' as int) as int32;
      left := left - 1;
      k := k + 1;
    }
    CollectedBound(frac as int, l, from, count);
  }

  /** `n` is the number that the digits from `from` on stand for. */
  ghost predicate Collected(n: int, l: Literal, from: nat, count: nat)
    requires from + count <= |l.whole| + |l.fraction|
  {
    AllDigits(Digits(l)) && n == NumberOf(Digits(l)[from..from + count])
  }

  lemma CollectNone(l: Literal, from: nat)
    requires AllDigits(l.whole) && AllDigits(l.fraction) && from <= |l.whole| + |l.fraction|
    ensures Collected(0, l, from, 0)
  {
    assert Digits(l)[from..from] == "";
  }

  lemma CollectOne(n: int, l: Literal, from: nat, k: nat)
    requires from + k < |l.whole| + |l.fraction| && k < 9 && Collected(n, l, from, k)
    ensures IsDigit(DigitAt(l, from + k))
    ensures Collected(10 * n + DigitValue(DigitAt(l, from + k)), l, from, k + 1) && 0 <= n < 1_0000_0000
  {
    var d := Digits(l);
    assert d[from + k] == DigitAt(l, from + k);
    var t := d[from..from + k + 1];
    assert t[..|t| - 1] == d[from..from + k];
    NumberOfBound(d[from..from + k]);
    TenMonotone(k, 8);
    NineZeroes();
  }

  lemma CollectedBound(n: int, l: Literal, from: nat, count: nat)
    requires from + count <= |l.whole| + |l.fraction| && count <= 9 && Collected(n, l, from, count)
    ensures 0 <= n < 10_0000_0000
  {
    NumberOfBound(Digits(l)[from..from + count]);
    TenMonotone(count, 9);
    NineZeroes();
  }

  /** What stands where in the text of an exponent. */
  ghost predicate ExponentLaid(s: string, p: nat, e: Exponent, end: nat) {
    if e.NoExponent? then CharAt(s, p) != 'e' && CharAt(s, p) != 'E' && end == p
    else
      && (CharAt(s, p) == 'e' || CharAt(s, p) == 'E') && SignAt(s, p + 1, e.sign)
      && AllDigits(e.digits) && Stands(s, p + 1 + |e.sign|, e.digits)
      && end == p + 1 + |e.sign| + |e.digits| && !IsDigit(CharAt(s, end))
  }

  lemma ExponentStands(s: string, p: nat, e: Exponent, rest: string)
    requires ExponentOk(e, rest) && ReadsAs(s, p, Tail(e, rest)) && p + |Tail(e, rest)| == |s|
    ensures ExponentLaid(s, p, e, |s| - |rest|)
  {
    HeadStands(s, p, Tail(e, rest));
    if e.Exponent? {
      PartStands(s, p, [e.letter], e.sign + (e.digits + rest));
      SignStands(s, p + 1, e.sign, e.digits + rest);
      PartStands(s, p + 1, e.sign, e.digits + rest);
      PartStands(s, p + 1 + |e.sign|, e.digits, rest);
      HeadStands(s, p + 1 + |e.sign| + |e.digits|, rest);
    }
  }

  /** Skims off the exponent. */
  method SkimExponent(s: string, p0: nat, ghost e: Exponent, ghost end: nat) returns (exp: int32, expSign: bool, p: nat)
    requires ExponentLaid(s, p0, e, end) && (e.Exponent? ==> NumberOf(e.digits) <= 0x7fff_ffff)
    ensures p == end
      && exp as int == (if e.NoExponent? then 0 else NumberOf(e.digits)) && expSign == (e.Exponent? && e.sign == "-")
  {
    exp := 0;
    expSign := false;
    p := p0;
    if CharAt(s, p) == 'E' || CharAt(s, p) == 'e' {
      p := p + 1;
      expSign, p := SkipSign(s, p, e.sign);
      exp, p := SkimDigits(s, p, e.digits);
    }
  }

  method SkimDigits(s: string, p0: nat, ghost digits: string) returns (exp: int32, p: nat)
    requires AllDigits(digits) && Stands(s, p0, digits) && !IsDigit(CharAt(s, p0 + |digits|))
      && NumberOf(digits) <= 0x7fff_ffff
    ensures p == p0 + |digits| && exp as int == NumberOf(digits)
  {
    exp := 0;
    p := p0;
    ghost var k := 0;
    DigitsStand(s, p0, digits);
    while IsDigit(CharAt(s, p))
      invariant 0 <= k <= |digits| && p == p0 + k && exp as int == NumberOf(digits[..k])
      decreases |digits| - k
    {
      assert CharAt(s, p0 + k) == digits[k];
      DigitsOneMore(digits, k);
      exp := exp * 10 + (CharAt(s, p) as int - '0' as int) as int32;
      p := p + 1;
      k := k + 1;
    }
    assert digits[..k] == digits;
  }

  lemma DigitsOneMore(digits: string, k: nat)
    requires AllDigits(digits) && k < |digits|
    ensures NumberOf(digits[..k + 1]) == 10 * NumberOf(digits[..k]) + DigitValue(digits[k])
    ensures NumberOf(digits[..k + 1]) <= NumberOf(digits)
  {
    var t := digits[..k + 1];
    assert t[..|t| - 1] == digits[..k];
    assert digits == t + digits[k + 1..];
    NumberOfAppend(t, digits[k + 1..]);
    Factor(NumberOf(t), Ten(|digits[k + 1..]|));
  }

  lemma Factor(a: nat, t: nat)
    requires t > 0
    ensures a <= a * t
  {}

  lemma DigitsStand(s: string, p: nat, digits: string)
    requires AllDigits(digits) && Stands(s, p, digits)
    ensures forall q: nat :: p <= q < p + |digits| ==> IsDigit(CharAt(s, q))
  {
    forall q: nat | p <= q < p + |digits| ensures IsDigit(CharAt(s, q)) {
      assert CharAt(s, p + (q - p)) == digits[q - p];
    }
  }

  // ----- the function itself

  /** The combined exponent of the leading digits. */
  function Combined(l: Literal): int
    requires HasDigits(l)
  {
    Places(l) + WrittenExponent(l.exponent)
  }

  /** The mantissa as far as the leading digits tell it. */
  function Low(l: Literal): real
    requires HasDigits(l)
  {
    Scaled(NumberOf(Lead(l)) as real, Places(l))
  }

  /** The outcome for a text with mantissa digits. The first eighteen of them count; the result is exact if there are no
      more, and otherwise low by less than one unit of the eighteenth. A combined exponent beyond 511 is cut off. */
  ghost predicate Converted(l: Literal, r: real, range: bool) {
    && HasDigits(l)
    && var d := l.whole + l.fraction;
    var n := if |d| <= 18 then |d| else 18;
    var e := |l.whole| - n + WrittenExponent(l.exponent);
    && Lead(l) == d[..n]
    && (range <==> e < -511 || 511 < e)
    && (!range && |d| <= 18 ==> r == Value(l))
    && (!range ==> r == Signed(l.sign, Scaled(NumberOf(Lead(l)) as real, e)))
    && (!range ==> Within(Signed(l.sign, r), Scaled(Mantissa(l), WrittenExponent(l.exponent)), Scaled(1.0, e)))
    && (range ==> r == Signed(l.sign, Scaled(NumberOf(Lead(l)) as real, if e < 0 then -511 else 511)))
  }

  /** Equal to `v`, or less by less than a unit. */
  predicate Within(a: real, v: real, unit: real) { a <= v < a + unit }

  lemma IsConverted(l: Literal, fraction: real, exp: int, magnitude: real, r: real, range: bool)
    requires HasDigits(l) && AllDigits(Lead(l)) && fraction == NumberOf(Lead(l)) as real
    requires exp == Combined(l) && (range <==> exp < -511 || 511 < exp)
    requires magnitude == Scaled(fraction, Clamped(exp)) && r == (if l.sign == "-" then -magnitude else magnitude)
    ensures Converted(l, r, range)
  {
    LeadSize(l);
    LeadBelow(l);
    ScaledTwice(fraction, Places(l), WrittenExponent(l.exponent));
    LowScaled(l);
  }

  /** The bound on the leading digits, with the exponent that the text writes. */
  lemma LowScaled(l: Literal)
    requires HasDigits(l)
    ensures Within(Scaled(Low(l), WrittenExponent(l.exponent)), Scaled(Mantissa(l), WrittenExponent(l.exponent)),
      Scaled(1.0, Combined(l)))
  {
    var e, unit := WrittenExponent(l.exponent), Scaled(1.0, Places(l));
    LeadBelow(l);
    ScaledGrows(Mantissa(l), Low(l), e);
    ScaledGrows(Mantissa(l), Low(l) + unit, e);
    ScaledSum(Low(l), unit, e);
    ScaledTwice(1.0, Places(l), e);
  }

  /** The mantissa: two integers of up to nine digits each. */
  method ReadFraction(s: string, p0: nat, size: nat, ghost l: Literal) returns (fraction: real)
    requires Laid(s, l) && p0 == MantissaStart(l) && 0 < size == |Lead(l)|
    ensures AllDigits(Lead(l)) && fraction == NumberOf(Lead(l)) as real
  {
    var first := if size > 9 then size - 9 else 0;
    var frac1, p := ReadDigits(s, p0, first, l, 0);
    var frac2;
    frac2, p := ReadDigits(s, p, size - first, l, first);
    TwoParts(frac1 as int, frac2 as int, l, first, size);
    fraction := 1_000_000_000.0 * frac1 as real + frac2 as real;
  }

  lemma TwoParts(a: int, b: int, l: Literal, first: nat, size: nat)
    requires first == (if size > 9 then size - 9 else 0) && size == |Lead(l)|
    requires Collected(a, l, 0, first) && Collected(b, l, first, size - first)
    ensures AllDigits(Lead(l)) && NumberOf(Lead(l)) == 10_0000_0000 * a + b
  {
    var d := Digits(l);
    var x, y := d[0..first], d[first..first + (size - first)];
    assert Lead(l) == x + y;
    NumberOfAppend(x, y);
    NineZeroes();
    assert first > 0 ==> |y| == 9;
  }

  lemma NineZeroes()
    ensures Ten(8) == 1_0000_0000 && Ten(9) == 10_0000_0000
  {
    assert Ten(3) == 1000;
    assert Ten(6) == 1000 * Ten(3);
    assert Ten(8) == 100 * Ten(6);
  }

  /** Everything before the exponent: sign, digits and the place of the point. */
  method ReadMantissa(s: string, ghost l: Literal)
      returns (sign: bool, fraction: real, fracExp: int32, mantSize: nat, pExp: nat)
    requires Laid(s, l) && MantissaEnd(l) <= |s| <= 0x7fff_ffff
    ensures sign == (l.sign == "-") && pExp == MantissaEnd(l) && AllDigits(Lead(l))
      && (mantSize == 0 <==> |Digits(l)| == 0)
    ensures mantSize > 0 ==> fraction == NumberOf(Lead(l)) as real
    ensures fracExp as int == Places(l)
  {
    LeadSize(l);
    var p := SkipSpaces(s, l);
    sign, p := SkipSign(s, p, l.sign);
    var decPt;
    mantSize, decPt, pExp := CountMantissa(s, p, l);
    p := pExp - mantSize;
    if decPt < 0 {
      decPt := mantSize;
    } else {
      mantSize := mantSize - 1;
    }
    if mantSize > 18 {
      fracExp := (decPt - 18) as int32;
      mantSize := 18;
    } else {
      fracExp := (decPt - mantSize) as int32;
    }
    if mantSize == 0 {
      fraction := 0.0;
    } else {
      fraction := ReadFraction(s, p, mantSize, l);
    }
  }

  /** The exponent that the text writes and the one that the point's place implies, together. */
  method CombineExponent(s: string, pExp: nat, fracExp: int32, ghost e: Exponent, ghost endOf: nat)
      returns (exp: int32, end: nat)
    requires ExponentLaid(s, pExp, e, endOf) && (e.Exponent? ==> AllDigits(e.digits))
    requires -0x7fff_ffff <= fracExp as int - Magnitude(e) && fracExp as int + Magnitude(e) <= 0x7fff_ffff
    requires Magnitude(e) <= 0x7fff_ffff
    ensures exp as int == fracExp as int + WrittenExponent(e) && exp > -0x8000_0000 && end == endOf
  {
    var expSign;
    exp, expSign, end := SkimExponent(s, pExp, e, endOf);
    if expSign {
      exp := fracExp - exp;
    } else {
      exp := fracExp + exp;
    }
  }

  function Magnitude(e: Exponent): nat
    requires e.Exponent? ==> AllDigits(e.digits)
  {
    if e.NoExponent? then 0 else NumberOf(e.digits)
  }

  /** The exponent and the text's length stay within an `int`, as the source takes for granted. */
  ghost predicate ExponentFits(s: string) {
    forall l :: Reads(s, l) ==> |s| + Magnitude(l.exponent) <= 0x7fff_ffff
  }

  /** The outcome for a text: none if there is no digit in the mantissa; otherwise the text ends after the exponent. */
  ghost predicate Outcome(s: string, l: Literal, r: real, end: nat, range: bool) {
    if |Digits(l)| == 0 then r == 0.0 && end == 0 && !range
    else end == |s| - |l.rest| && HasDigits(l) && Converted(l, r, range)
  }

  lemma TheReading(s: string) returns (l: Literal)
    ensures Reads(s, l) && forall l' :: Reads(s, l') ==> l' == l
  {
    l := Read(s);
    forall l' | Reads(s, l') ensures l' == l { ReadBack(l'); }
  }

  lemma ReadingLaid(s: string, l: Literal) returns (end: nat)
    requires Reads(s, l)
    ensures Laid(s, l) && HasDigits(l) && ExponentLaid(s, MantissaEnd(l), l.exponent, end)
    ensures MantissaEnd(l) <= |s| && end == |s| - |l.rest|
  {
    var x := Tail(l.exponent, l.rest);
    var v' := l.fraction + x;
    var v := l.point + v';
    LaidOut(s, l, l.whole + v, v, v', x);
    ExponentStands(s, MantissaEnd(l), l.exponent, l.rest);
    end := |s| - |l.rest|;
  }

  lemma TextFacts(s: string) returns (l: Literal, end: nat)
    requires ExponentFits(s)
    ensures forall l' :: Reads(s, l') ==> l' == l
    ensures Laid(s, l) && HasDigits(l) && ExponentLaid(s, MantissaEnd(l), l.exponent, end)
    ensures MantissaEnd(l) <= |s| && end == |s| - |l.rest| && |s| + Magnitude(l.exponent) <= 0x7fff_ffff
  {
    l := TheReading(s);
    end := ReadingLaid(s, l);
  }

  lemma PlacesBound(l: Literal, n: int)
    requires MantissaEnd(l) <= n
    ensures -n <= Places(l) <= n
  {
    LeadSize(l);
  }

  /** `sc_strtod`: the number, where its text ends, and whether the exponent was out of range. */
  method ScStrtod(s: string) returns (r: real, end: nat, range: bool)
    requires ExponentFits(s)
    ensures forall l :: Reads(s, l) ==> Outcome(s, l, r, end, range)
  {
    ghost var l, endOf := TextFacts(s);
    var sign, fraction, fracExp, mantSize, pExp := ReadMantissa(s, l);
    if mantSize == 0 {
      return 0.0, 0, false;
    }
    PlacesBound(l, |s|);
    var exp;
    exp, end := CombineExponent(s, pExp, fracExp, l.exponent, endOf);
    r, range := Scale(fraction, exp);
    ghost var magnitude := r;
    if sign { r := -r; }
    IsConverted(l, fraction, exp as int, magnitude, r, range);
  }
}

/** The bit-reversing first stage of the transforms in fftlib.c (`BitrevR2`), in place. One complex number stands for
    two floats, so offsets are half of those in the source. */
module BitReversal {

  // ----- powers of two and reversed bits

  function Pow2(n: nat): (p: nat)
    ensures p > 0
  {
    if n == 0 then 1 else 2 * Pow2(n - 1)
  }

  /** The `n` low bits of `x`, in reverse order. */
  function Rev(n: nat, x: nat): nat {
    if n == 0 then 0 else (if x % 2 == 1 then Pow2(n - 1) else 0) + Rev(n - 1, x / 2)
  }

  lemma {:induction false} Pow2Add(m: nat, n: nat)
    ensures Pow2(m + n) == Pow2(m) * Pow2(n)
  {
    if m > 0 {
      Pow2Add(m - 1, n);
      assert Pow2(m + n) == 2 * Pow2(m - 1 + n);
    }
  }

  lemma {:induction false} RevBound(n: nat, x: nat)
    ensures Rev(n, x) < Pow2(n)
  {
    if n > 0 { RevBound(n - 1, x / 2); }
  }

  /** Reversing two fields of bits reverses each and swaps them. */
  lemma {:induction false} RevConcat(m: nat, n: nat, x: nat, y: nat)
    requires x < Pow2(m)
    ensures Rev(m + n, x + Pow2(m) * y) == Rev(m, x) * Pow2(n) + Rev(n, y)
  {
    if m > 0 {
      var z := x + Pow2(m) * y;
      Halve(x, Pow2(m - 1), y);
      RevConcat(m - 1, n, x / 2, y);
      Pow2Add(m - 1, n);
      assert Rev(m + n, z) == (if x % 2 == 1 then Pow2(m - 1 + n) else 0) + Rev(m - 1 + n, z / 2);
      Distributed(Pow2(m - 1), Rev(m - 1, x / 2), Pow2(n));
    }
  }

  lemma Halve(x: nat, p: nat, y: nat)
    requires x < 2 * p
    ensures (x + 2 * p * y) % 2 == x % 2 && (x + 2 * p * y) / 2 == x / 2 + p * y && x / 2 < p
  {
    assert x + 2 * p * y == x % 2 + 2 * (x / 2 + p * y);
  }

  lemma Distributed(p: nat, r: nat, q: nat)
    ensures (p + r) * q == p * q + r * q
  {}

  lemma RevOne(x: nat)
    requires x < 2
    ensures Rev(1, x) == x
  {
    assert Rev(0, x / 2) == 0 && Pow2(0) == 1;
  }

  lemma TopBit(n: nat, y: nat, b: nat)
    requires y < Pow2(n) && b < 2
    ensures Rev(n + 1, (if b == 1 then Pow2(n) else 0) + y) == 2 * Rev(n, y) + b
  {
    RevConcat(n, 1, y, b);
    RevOne(b);
    assert Pow2(1) == 2;
  }

  /** Reversing twice gives the number back. */
  lemma {:induction false} RevTwice(n: nat, x: nat)
    requires x < Pow2(n)
    ensures Rev(n, Rev(n, x)) == x
  {
    if n > 0 {
      var y, b := Rev(n - 1, x / 2), x % 2;
      RevTwice(n - 1, x / 2);
      RevBound(n - 1, x / 2);
      TopBit(n - 1, y, b);
      RevIs(n, x, y, b);
    }
  }

  lemma RevIs(n: nat, x: nat, y: nat, b: nat)
    requires n > 0 && y == Rev(n - 1, x / 2) && b == x % 2
    ensures Rev(n, x) == (if b == 1 then Pow2(n - 1) else 0) + y
  {}

  // ----- the table of reversed bytes

  function Row(r: nat): seq<nat> {
    match r
    case 0 => [0, 128, 64, 192, 32, 160, 96, 224, 16, 144, 80, 208, 48, 176, 112, 240]
    case 1 => [8, 136, 72, 200, 40, 168, 104, 232, 24, 152, 88, 216, 56, 184, 120, 248]
    case 2 => [4, 132, 68, 196, 36, 164, 100, 228, 20, 148, 84, 212, 52, 180, 116, 244]
    case 3 => [12, 140, 76, 204, 44, 172, 108, 236, 28, 156, 92, 220, 60, 188, 124, 252]
    case 4 => [2, 130, 66, 194, 34, 162, 98, 226, 18, 146, 82, 210, 50, 178, 114, 242]
    case 5 => [10, 138, 74, 202, 42, 170, 106, 234, 26, 154, 90, 218, 58, 186, 122, 250]
    case 6 => [6, 134, 70, 198, 38, 166, 102, 230, 22, 150, 86, 214, 54, 182, 118, 246]
    case 7 => [14, 142, 78, 206, 46, 174, 110, 238, 30, 158, 94, 222, 62, 190, 126, 254]
    case 8 => [1, 129, 65, 193, 33, 161, 97, 225, 17, 145, 81, 209, 49, 177, 113, 241]
    case 9 => [9, 137, 73, 201, 41, 169, 105, 233, 25, 153, 89, 217, 57, 185, 121, 249]
    case 10 => [5, 133, 69, 197, 37, 165, 101, 229, 21, 149, 85, 213, 53, 181, 117, 245]
    case 11 => [13, 141, 77, 205, 45, 173, 109, 237, 29, 157, 93, 221, 61, 189, 125, 253]
    case 12 => [3, 131, 67, 195, 35, 163, 99, 227, 19, 147, 83, 211, 51, 179, 115, 243]
    case 13 => [11, 139, 75, 203, 43, 171, 107, 235, 27, 155, 91, 219, 59, 187, 123, 251]
    case 14 => [7, 135, 71, 199, 39, 167, 103, 231, 23, 151, 87, 215, 55, 183, 119, 247]
    case _ => [15, 143, 79, 207, 47, 175, 111, 239, 31, 159, 95, 223, 63, 191, 127, 255]
  }

  lemma RowSize(r: nat)
    ensures |Row(r)| == 16
  {}

  /** The table `BRcnt`, sixteen entries to a row. */
  function BRcnt(i: nat): nat
    requires i < 256
  {
    RowSize(i / 16);
    Row(i / 16)[i % 16]
  }

  /** The reversals of four bits. */
  const Four: seq<nat> := [0, 8, 4, 12, 2, 10, 6, 14, 1, 9, 5, 13, 3, 11, 7, 15]

  lemma RevTwo(x: nat)
    requires x < 4
    ensures Rev(2, x) == (if x == 1 then 2 else if x == 2 then 1 else x)
  {
    assert Rev(2, x) == (if x % 2 == 1 then Pow2(1) else 0) + Rev(1, x / 2) && Pow2(1) == 2;
    RevOne(x / 2);
  }

  lemma FourIsReversal(x: nat)
    requires x < 16
    ensures Rev(4, x) == Four[x]
  {
    RevConcat(2, 2, x % 4, x / 4);
    assert Pow2(2) == 4 && x % 4 + 4 * (x / 4) == x;
    RevTwo(x % 4);
    RevTwo(x / 4);
  }

  /** Row `r` of the table and its column `c` are the two halves of a byte, reversed. */
  predicate RowOk(row: seq<nat>, low: nat) {
    |row| == 16 && forall c :: 0 <= c < 16 ==> row[c] == 16 * Four[c] + low
  }

  lemma RowsFrom0(r: nat)
    requires r < 4
    ensures RowOk(Row(r), Four[r])
  {}

  lemma RowsFrom4(r: nat)
    requires 4 <= r < 8
    ensures RowOk(Row(r), Four[r])
  {}

  lemma RowsFrom8(r: nat)
    requires 8 <= r < 12
    ensures RowOk(Row(r), Four[r])
  {}

  lemma RowsFrom12(r: nat)
    requires 12 <= r < 16
    ensures RowOk(Row(r), Four[r])
  {}

  lemma RowIs(r: nat)
    requires r < 16
    ensures RowOk(Row(r), Four[r])
  {
    if r < 4 { RowsFrom0(r); } else if r < 8 { RowsFrom4(r); } else if r < 12 { RowsFrom8(r); } else { RowsFrom12(r); }
  }

  lemma TableIsReversal(i: nat)
    requires i < 256
    ensures BRcnt(i) == Rev(8, i)
  {
    var r, c := i / 16, i % 16;
    RowIs(r);
    FourIsReversal(r);
    FourIsReversal(c);
    assert Pow2(4) == 16;
    RevConcat(4, 4, c, r);
    assert c + Pow2(4) * r == i;
  }
}

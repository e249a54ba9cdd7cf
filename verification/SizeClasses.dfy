/** Chunk sizes and the 128 size bins they are sorted into. */
module SizeClasses {
  import opened BitWords

  const ALIGN := 64
  const HEADER := 32
  const MIN_ALLOC := 2 * ALIGN
  const NUM_BINS := 128
  const NUM_SMALL_BINS := 64
  const MAX_SMALL_BIN := NUM_SMALL_BINS - 1
  const MAX_INT32 := 0x7fff_ffff

  /** Requests up to this bound have chunk sizes that fit a 32-bit integer, as lines 346 and 363 of SC_AllocPool.cpp
      take for granted. */
  const MAX_REQUEST := MAX_INT32 - HEADER - ALIGN

  predicate Aligned(x: int) { x % 64 == 0 }

  /** A conversion to a 32-bit signed integer. */
  function ToInt32(x: int): (r: int)
    ensures -0x8000_0000 <= x <= MAX_INT32 ==> r == x
  {
    var low := x % 0x1_0000_0000;
    if low <= MAX_INT32 then low else low - 0x1_0000_0000
  }

  /** The chunk size that serves a request: the least aligned size that holds the payload and the header. */
  function RequestToSize(req: nat): (size: nat)
    ensures Aligned(size) && MIN_ALLOC <= size && req + HEADER <= size
    ensures forall s :: Aligned(s) && MIN_ALLOC <= s && req + HEADER <= s ==> size <= s
    ensures req <= MAX_REQUEST ==> size <= MAX_INT32
  {
    var sizePlusOverhead := req + HEADER;
    if sizePlusOverhead <= MIN_ALLOC then MIN_ALLOC
    else (sizePlusOverhead + (ALIGN - 1)) / ALIGN * ALIGN
  }

  /** The same bins written out as a table of thresholds. */
  function BinIndex2(size: nat): nat {
    if size < 1024 then size / 16
    else if size < 2048 then 56 + size / 128
    else if size < 4096 then 64 + size / 256
    else if size < 8192 then 72 + size / 512
    else if size < 16384 then 80 + size / 1024
    else if size < 32768 then 88 + size / 2048
    else if size < 65536 then 96 + size / 4096
    else if size < 131072 then 104 + size / 8192
    else if size < 262144 then 112 + size / 16384
    else 127
  }

  lemma {:induction false} NumBitsOf(x: nat, n: nat)
    requires 0 < n && One(n - 1) <= x < One(n)
    ensures NumBits(x) == n
  {
    if n > 1 { NumBitsOf(x / 2, n - 1); }
  }

  lemma Powers()
    ensures One(7) == 128 && One(8) == 256 && One(9) == 512 && One(10) == 1024 && One(11) == 2048 && One(12) == 4096
    ensures One(13) == 8192 && One(14) == 16384 && One(15) == 32768 && One(16) == 65536 && One(17) == 131072
      && One(18) == 262144
  {}

  lemma BinBitsAt(size: nat, n: nat)
    requires 11 <= n <= 18 && One(n - 1) <= size < One(n)
    ensures 28 - Clz(size) == n - 4
  {
    NumBitsOf(size, n);
  }

  lemma BinBits(size: nat)
    requires 1024 <= size < 262144
    ensures 0 <= 28 - Clz(size)
    ensures 8 * (28 - Clz(size)) + size / One(28 - Clz(size)) == BinIndex2(size) < NUM_BINS
  {
    Powers();
    if size < 2048 { BinBitsAt(size, 11); }
    else if size < 4096 { BinBitsAt(size, 12); }
    else if size < 8192 { BinBitsAt(size, 13); }
    else if size < 16384 { BinBitsAt(size, 14); }
    else if size < 32768 { BinBitsAt(size, 15); }
    else if size < 65536 { BinBitsAt(size, 16); }
    else if size < 131072 { BinBitsAt(size, 17); }
    else { BinBitsAt(size, 18); }
  }

  /** The bin of a size, found by counting leading zeroes. */
  function BinIndex(size: nat): (i: nat)
    ensures i < NUM_BINS
  {
    if size < 1024 then size / 16
    else if size >= 262144 then 127
    else
      BinBits(size);
      var bits: nat := 28 - Clz(size);
      8 * bits + size / One(bits)
  }

  /** Counting leading zeroes finds the bin that the table of thresholds gives. */
  lemma BinIndexIsTable(size: nat)
    ensures BinIndex(size) == BinIndex2(size)
  {
    if 1024 <= size < 262144 { BinBits(size); }
  }

  lemma TableMonotone(s: nat, t: nat)
    requires s <= t
    ensures BinIndex2(s) <= BinIndex2(t)
  {}

  /** A larger size never lies in a lower bin. */
  lemma BinIndexMonotone(s: nat, t: nat)
    requires s <= t
    ensures BinIndex(s) <= BinIndex(t)
  {
    BinIndexIsTable(s);
    BinIndexIsTable(t);
    TableMonotone(s, t);
  }

  lemma SmallIndex(s: nat)
    ensures BinIndex(s) < NUM_SMALL_BINS <==> s < 1024
    ensures s < 1024 ==> BinIndex(s) == s / 16
  {
    BinIndexIsTable(s);
    if 1024 <= s { TableMonotone(1024, s); }
  }

  /** A small bin holds aligned chunks of one size only, and its upper neighbour holds none. */
  lemma SmallBinHoldsOneSize(s: nat, t: nat)
    requires Aligned(s) && Aligned(t)
    requires BinIndex(s) < NUM_SMALL_BINS
    ensures BinIndex(t) == BinIndex(s) ==> s == t
    ensures BinIndex(t) != BinIndex(s) + 1 || BinIndex(s) == MAX_SMALL_BIN
  {
    SmallIndex(s);
    SmallIndex(t);
    assert s == 64 * (s / 64) && t == 64 * (t / 64);
    assert s < 1024 ==> s / 16 == 4 * (s / 64);
    assert t < 1024 ==> t / 16 == 4 * (t / 64);
  }
}

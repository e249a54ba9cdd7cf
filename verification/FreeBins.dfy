/** The free chunks of a pool: 128 circular lists by size and one bit for each list that is not empty. */
module FreeBins {
  import opened BitWords
  import opened SizeClasses
  import opened ChunkMemory
  import T = ChunkTiling

  type Bins = seq<seq<int>>
  type Blocks = seq<nat>

  const BIN_BASE := 64

  /** The address of bin `i`, a list header inside the pool object. */
  function BinAt(i: int): int { BIN_BASE + HEADER * i }

  function BinOf(m: Memory, p: int): (i: nat)
    ensures i < NUM_BINS
  {
    if At(m, p).size < 0 then 0 else BinIndex(At(m, p).size)
  }

  ghost predicate Descending(m: Memory, s: seq<int>) {
    forall k, l :: 0 <= k < l < |s| ==> At(m, s[k]).size >= At(m, s[l]).size
  }

  /** Bin `i` is a well-linked list of free chunks of its own sizes, the largest first. */
  ghost predicate BinOk(m: Memory, s: seq<int>, i: int, free: set<int>) {
    && IsRing(m, BinAt(i), s)
    && Descending(m, s)
    && (forall p :: p in s ==> p in free && BinOf(m, p) == i)
  }

  ghost predicate FreeOk(m: Memory, bins: Bins, p: int)
    requires |bins| == NUM_BINS
  {
    T.FLOOR <= p && 0 <= At(m, p).size && Aligned(At(m, p).size) && p in bins[BinOf(m, p)]
  }

  ghost predicate BlocksOk(bins: Bins, blocks: Blocks) {
    && |bins| == NUM_BINS && |blocks| == 4
    && (forall i :: 0 <= i < NUM_BINS ==> (Bit(blocks[i / 32], i % 32) <==> bins[i] != []))
    && (forall w, j :: 0 <= w < 4 && 32 <= j ==> !Bit(blocks[w], j))
  }

  /** The chunks of `free`, and no others, are in the bins, each in the bin of its size. */
  ghost predicate ListsOk(m: Memory, bins: Bins, free: set<int>) {
    && |bins| == NUM_BINS
    && (forall i {:trigger BinOk(m, bins[i], i, free)} :: 0 <= i < NUM_BINS ==> BinOk(m, bins[i], i, free))
    && (forall p {:trigger FreeOk(m, bins, p)} :: p in free ==> FreeOk(m, bins, p))
  }

  ghost predicate BinsOk(m: Memory, bins: Bins, blocks: Blocks, free: set<int>) {
    BlocksOk(bins, blocks) && ListsOk(m, bins, free)
  }

  function Marked(blocks: Blocks, i: nat): Blocks
    requires |blocks| == 4 && i < NUM_BINS
  {
    blocks[i / 32 := Or(blocks[i / 32], One(i % 32))]
  }

  function Cleared(blocks: Blocks, i: nat): Blocks
    requires |blocks| == 4 && i < NUM_BINS
  {
    blocks[i / 32 := AndNot(blocks[i / 32], One(i % 32))]
  }

  lemma MarkedOk(bins: Bins, blocks: Blocks, i: nat, s: seq<int>)
    requires BlocksOk(bins, blocks) && i < NUM_BINS && s != []
    ensures BlocksOk(bins[i := s], Marked(blocks, i))
  {
    var blocks' := Marked(blocks, i);
    forall j: nat ensures Bit(Or(blocks[i / 32], One(i % 32)), j) <==> j == i % 32 || Bit(blocks[i / 32], j) {
      SetBit(blocks[i / 32], i % 32, j);
    }
    forall k | 0 <= k < NUM_BINS ensures Bit(blocks'[k / 32], k % 32) <==> bins[i := s][k] != [] {
      assert k / 32 == i / 32 && k % 32 == i % 32 ==> k == i;
    }
  }

  lemma ClearedOk(bins: Bins, blocks: Blocks, i: nat)
    requires BlocksOk(bins, blocks) && i < NUM_BINS
    ensures BlocksOk(bins[i := []], Cleared(blocks, i))
  {
    var blocks' := Cleared(blocks, i);
    forall j: nat ensures Bit(AndNot(blocks[i / 32], One(i % 32)), j) <==> j != i % 32 && Bit(blocks[i / 32], j) {
      ClearBit(blocks[i / 32], i % 32, j);
    }
    forall k | 0 <= k < NUM_BINS ensures Bit(blocks'[k / 32], k % 32) <==> bins[i := []][k] != [] {
      assert k / 32 == i / 32 && k % 32 == i % 32 ==> k == i;
    }
  }

  lemma WordBit(bins: Bins, blocks: Blocks, w: nat, j: nat)
    requires BlocksOk(bins, blocks) && w < 4 && j < 32
    ensures Bit(blocks[w], j) <==> bins[32 * w + j] != []
  {
    var i := 32 * w + j;
    assert i / 32 == w && i % 32 == j;
  }

  /** A word below `1L << from` marks no bin from `from` on. */
  lemma EmptyWord(bins: Bins, blocks: Blocks, w: nat, from: nat)
    requires BlocksOk(bins, blocks) && w < 4 && from < 32 && blocks[w] < One(from)
    ensures forall i :: 32 * w + from <= i < 32 * w + 32 ==> bins[i] == []
  {
    AtLeastOne(blocks[w], from);
    forall i | 32 * w + from <= i < 32 * w + 32 ensures bins[i] == [] {
      NoBitAbove(blocks[w], i - 32 * w);
      WordBit(bins, blocks, w, i - 32 * w);
    }
  }

  /** The lowest bit of a masked word is the first full bin it marks. */
  lemma FirstInWord(bins: Bins, blocks: Blocks, w: nat, from: nat, bits: nat)
    requires BlocksOk(bins, blocks) && w < 4 && from < 32 && blocks[w] >= One(from)
    requires forall j: nat :: Bit(bits, j) <==> from <= j && Bit(blocks[w], j)
    ensures bits > 0 && from <= Ctz(bits) < 32 && bins[32 * w + Ctz(bits)] != []
    ensures forall i :: 32 * w + from <= i < 32 * w + Ctz(bits) ==> bins[i] == []
  {
    AtLeastOne(blocks[w], from);
    HighestBit(blocks[w]);
    var top: nat := NumBits(blocks[w]) - 1;
    assert Bit(bits, top);
    if bits == 0 { ZeroBits(top); }
    LowestBit(bits);
    var c: nat := Ctz(bits);
    assert Bit(bits, c);
    WordBit(bins, blocks, w, c);
    forall i | 32 * w + from <= i < 32 * w + c ensures bins[i] == [] {
      assert !Bit(bits, i - 32 * w);
      WordBit(bins, blocks, w, i - 32 * w);
    }
  }

  /** Sizes of free chunks, and links of free chunks and bins, are all that the lists depend on. */
  lemma ListsFrame(m: Memory, m': Memory, bins: Bins, free: set<int>)
    requires ListsOk(m, bins, free)
    requires forall p :: p in free || p < T.FLOOR ==>
      At(m', p).next == At(m, p).next && At(m', p).prev == At(m, p).prev && At(m', p).size == At(m, p).size
    ensures ListsOk(m', bins, free)
  {
    forall i | 0 <= i < NUM_BINS ensures BinOk(m', bins[i], i, free) {
      assert BinOk(m, bins[i], i, free);
      RingFrame(m, m', BinAt(i), bins[i]);
    }
    forall p | p in free ensures FreeOk(m', bins, p) { assert FreeOk(m, bins, p); }
  }

  /** Replacing one list by another leaves the other lists in order. */
  lemma ReplaceList(m: Memory, m': Memory, bins: Bins, free: set<int>, free': set<int>, i: nat, s: seq<int>, p: int)
    requires ListsOk(m, bins, free) && i < NUM_BINS && T.FLOOR <= p
    requires SameSizes(m, m') && SameOutside(m, m', (set q | q in bins[i]) + {BinAt(i), p})
    requires BinOf(m, p) == i && BinOk(m', s, i, free') && free - {p} == free' - {p}
    requires forall q :: q in free' && BinOf(m', q) == i ==> q in s && FreeOk(m', bins[i := s], q)
    ensures ListsOk(m', bins[i := s], free')
  {
    var bins' := bins[i := s];
    forall j | 0 <= j < NUM_BINS ensures BinOk(m', bins'[j], j, free') {
      if j != i {
        assert BinOk(m, bins[j], j, free) && BinOk(m, bins[i], i, free);
        forall q | q == BinAt(j) || q in bins[j] ensures At(m', q) == At(m, q) {
          assert q in bins[j] ==> FreeOk(m, bins, q);
          assert q in bins[i] ==> FreeOk(m, bins, q);
        }
        RingFrame(m, m', BinAt(j), bins[j]);
        forall q | q in bins[j] ensures q in free' && BinOf(m', q) == j {
          assert q in free - {p};
        }
      }
    }
    forall q | q in free' ensures FreeOk(m', bins', q) {
      if BinOf(m', q) != i {
        assert q in free' - {p};
        assert FreeOk(m, bins, q);
      }
    }
  }

  ghost predicate Fits(m: Memory, s: seq<int>, k: nat, p: int)
    requires k <= |s|
  {
    && (forall l :: 0 <= l < k ==> At(m, s[l]).size >= At(m, p).size)
    && (forall l :: k <= l < |s| ==> At(m, p).size >= At(m, s[l]).size)
  }

  /** The lists after a chunk was put into place `k` of its bin. */
  function Put(m: Memory, bins: Bins, p: int, k: nat): Bins
    requires |bins| == NUM_BINS && k <= |bins[BinOf(m, p)]|
  {
    bins[BinOf(m, p) := With(bins[BinOf(m, p)], k, p)]
  }

  /** Linking a chunk into its bin at a place that keeps the order adds it to the free chunks. */
  lemma Linking(m: Memory, m': Memory, bins: Bins, free: set<int>, p: int, k: nat)
    requires ListsOk(m, bins, free)
    requires p !in free && T.FLOOR <= p && 0 <= At(m, p).size && Aligned(At(m, p).size)
    requires k <= |bins[BinOf(m, p)]| && Fits(m, bins[BinOf(m, p)], k, p)
    requires IsRing(m', BinAt(BinOf(m, p)), With(bins[BinOf(m, p)], k, p))
    requires SameSizes(m, m') && SameOutside(m, m', (set q | q in bins[BinOf(m, p)]) + {BinAt(BinOf(m, p)), p})
    ensures ListsOk(m', Put(m, bins, p, k), free + {p})
  {
    var i := BinOf(m, p);
    var s := With(bins[i], k, p);
    var free' := free + {p};
    assert BinOk(m, bins[i], i, free);
    WithMembers(bins[i], k, p);
    assert Descending(m', s);
    forall q | q in free' && BinOf(m', q) == i ensures q in s && FreeOk(m', bins[i := s], q) {
      if q != p { assert FreeOk(m, bins, q); }
    }
    ReplaceList(m, m', bins, free, free', i, s, p);
  }

  function IndexOf(s: seq<int>, p: int): (k: nat)
    requires p in s
    ensures k < |s| && s[k] == p
  {
    if s[0] == p then 0 else 1 + IndexOf(s[1..], p)
  }

  /** The lists after a free chunk was taken out. */
  function Taken(m: Memory, bins: Bins, p: int): Bins
    requires |bins| == NUM_BINS && p in bins[BinOf(m, p)]
  {
    bins[BinOf(m, p) := Without(bins[BinOf(m, p)], IndexOf(bins[BinOf(m, p)], p))]
  }

  /** `RemoveLeaveDangling` on a free chunk takes it out of its bin. */
  lemma Unlinking(m: Memory, bins: Bins, free: set<int>, p: int)
    requires ListsOk(m, bins, free) && p in free && FreeOk(m, bins, p)
    ensures ListsOk(Unlinked(m, p), Taken(m, bins, p), free - {p})
    ensures SameSizes(m, Unlinked(m, p))
  {
    var i := BinOf(m, p);
    var k: int := IndexOf(bins[i], p);
    var s := Without(bins[i], k);
    var free' := free - {p};
    var m' := Unlinked(m, p);
    assert BinOk(m, bins[i], i, free);
    RingRemove(m, BinAt(i), bins[i], k);
    WithoutMembers(bins[i], k);
    assert Descending(m', s);
    forall q | q in free' && BinOf(m', q) == i ensures q in s && FreeOk(m', bins[i := s], q) {
      assert FreeOk(m, bins, q);
    }
    ReplaceList(m, m', bins, free, free', i, s, p);
  }

  lemma UnlinkingTouches(m: Memory, bins: Bins, free: set<int>, p: int)
    requires ListsOk(m, bins, free) && p in free && FreeOk(m, bins, p)
    ensures SameOutside(m, Unlinked(m, p), (free - {p}) + {BinAt(BinOf(m, p))})
  {
    var i := BinOf(m, p);
    var k: int := IndexOf(bins[i], p);
    assert BinOk(m, bins[i], i, free);
    RingRemove(m, BinAt(i), bins[i], k);
    assert Node(BinAt(i), bins[i], k - 1) != p && Node(BinAt(i), bins[i], k + 1) != p;
  }

  /** A bin whose header links to itself is empty. */
  lemma EmptyRing(m: Memory, h: int, s: seq<int>)
    requires IsRing(m, h, s)
    ensures At(m, h).next == h <==> s == []
    ensures At(m, h).prev == h <==> s == []
  {
    RingStep(m, h, s, -1);
    RingStep(m, h, s, |s|);
  }

  /** A chunk goes to the front of a small bin: all the chunks there have its size. */
  lemma FitsInFront(m: Memory, bins: Bins, free: set<int>, p: int)
    requires ListsOk(m, bins, free) && 0 <= At(m, p).size && Aligned(At(m, p).size)
    requires BinOf(m, p) < NUM_SMALL_BINS || bins[BinOf(m, p)] == []
    ensures Fits(m, bins[BinOf(m, p)], 0, p)
  {
    var i := BinOf(m, p);
    assert BinOk(m, bins[i], i, free);
    forall l | 0 <= l < |bins[i]| ensures At(m, p).size >= At(m, bins[i][l]).size {
      assert FreeOk(m, bins, bins[i][l]);
      SmallBinHoldsOneSize(At(m, p).size, At(m, bins[i][l]).size);
    }
  }

  /** Linking a chunk at the front of a small or empty bin. */
  lemma LinkingInFront(m: Memory, bins: Bins, blocks: Blocks, free: set<int>, p: int)
    requires BinsOk(m, bins, blocks, free)
    requires p !in free && T.FLOOR <= p && 0 <= At(m, p).size && Aligned(At(m, p).size)
    requires BinOf(m, p) < NUM_SMALL_BINS || bins[BinOf(m, p)] == []
    ensures BinsOk(InsertedAfter(m, p, BinAt(BinOf(m, p))), Put(m, bins, p, 0), Marked(blocks, BinOf(m, p)), free + {p})
    ensures OnlyLinks(m, InsertedAfter(m, p, BinAt(BinOf(m, p))), free + {p})
  {
    var i := BinOf(m, p);
    assert BinOk(m, bins[i], i, free);
    FitsInFront(m, bins, free, p);
    RingInsertAfter(m, BinAt(i), bins[i], 0, p);
    MarkedOk(bins, blocks, i, With(bins[i], 0, p));
    Linking(m, InsertedAfter(m, p, BinAt(i)), bins, free, p, 0);
  }

  /** Linking a chunk into a bin that is not empty, before its member `k`. */
  lemma LinkingBefore(m: Memory, bins: Bins, blocks: Blocks, free: set<int>, p: int, k: nat)
    requires BinsOk(m, bins, blocks, free)
    requires p !in free && T.FLOOR <= p && 0 <= At(m, p).size && Aligned(At(m, p).size)
    requires bins[BinOf(m, p)] != [] && k <= |bins[BinOf(m, p)]| && Fits(m, bins[BinOf(m, p)], k, p)
    ensures var x := Node(BinAt(BinOf(m, p)), bins[BinOf(m, p)], k);
      BinsOk(InsertedBefore(m, p, x), Put(m, bins, p, k), blocks, free + {p})
        && OnlyLinks(m, InsertedBefore(m, p, x), free + {p})
  {
    var i := BinOf(m, p);
    assert BinOk(m, bins[i], i, free);
    RingInsertBefore(m, BinAt(i), bins[i], k, p);
    Linking(m, InsertedBefore(m, p, Node(BinAt(i), bins[i], k)), bins, free, p, k);
    assert BlocksOk(Put(m, bins, p, k), blocks);
  }

  /** Only the links of free chunks and of bins differ. */
  ghost predicate OnlyLinks(m: Memory, m': Memory, free: set<int>) {
    SameSizes(m, m') && forall x :: T.FLOOR <= x && x !in free ==> At(m', x) == At(m, x)
  }

  /** The sizes along a bin, as the search loops read them. */
  lemma MemberSize(m: Memory, bins: Bins, free: set<int>, i: int, k: int)
    requires ListsOk(m, bins, free) && 0 <= i < NUM_BINS && 0 <= k < |bins[i]|
    ensures bins[i][k] in free && BinOf(m, bins[i][k]) == i
    ensures 0 <= At(m, bins[i][k]).size && Aligned(At(m, bins[i][k]).size)
  {
    assert BinOk(m, bins[i], i, free);
    assert FreeOk(m, bins, bins[i][k]);
  }

  // ----- searching the bins

  ghost predicate SizesBounded(m: Memory, free: set<int>) {
    forall p :: p in free ==> At(m, p).size <= MAX_INT32
  }

  ghost predicate NoneFits(m: Memory, free: set<int>, size: int) {
    forall p :: p in free ==> At(m, p).size < size
  }

  /** A smallest free chunk that holds `size` bytes. */
  ghost predicate Best(m: Memory, free: set<int>, size: int, c: int) {
    c in free && size <= At(m, c).size && forall p :: p in free && size <= At(m, p).size ==>
      At(m, c).size <= At(m, p).size
  }

  /** Nothing in the bins below `i` is large enough. */
  ghost predicate NoneBelow(m: Memory, free: set<int>, size: int, i: int) {
    forall p :: p in free && BinOf(m, p) < i ==> At(m, p).size < size
  }

  lemma StartOfSearch(m: Memory, bins: Bins, free: set<int>, size: nat)
    requires ListsOk(m, bins, free)
    ensures NoneBelow(m, free, size, BinIndex(size))
  {
    forall p | p in free && BinOf(m, p) < BinIndex(size) ensures At(m, p).size < size {
      assert FreeOk(m, bins, p);
      if size <= At(m, p).size { BinIndexMonotone(size, At(m, p).size); }
    }
  }

  lemma SearchedBin(m: Memory, bins: Bins, free: set<int>, size: int, i: int, s: seq<int>)
    requires ListsOk(m, bins, free) && 0 <= i < NUM_BINS && NoneBelow(m, free, size, i) && s == bins[i]
    requires forall k :: 0 <= k < |s| ==> At(m, s[k]).size < size
    ensures NoneBelow(m, free, size, i + 1)
  {
    forall p | p in free && BinOf(m, p) < i + 1 ensures At(m, p).size < size {
      assert FreeOk(m, bins, p);
    }
  }

  lemma SkippedBins(m: Memory, bins: Bins, free: set<int>, size: int, i: int, j: int)
    requires ListsOk(m, bins, free) && 0 <= i && j <= NUM_BINS && NoneBelow(m, free, size, i)
    requires forall k :: i <= k < j ==> bins[k] == []
    ensures NoneBelow(m, free, size, j)
  {
    forall p | p in free && BinOf(m, p) < j ensures At(m, p).size < size {
      assert FreeOk(m, bins, p);
    }
  }

  lemma SearchedAll(m: Memory, free: set<int>, size: int)
    requires NoneBelow(m, free, size, NUM_BINS)
    ensures NoneFits(m, free, size)
  {}

  /** The last member of a bin, counted from its large end, that is large enough is a best fit. */
  lemma BestInBin(m: Memory, bins: Bins, free: set<int>, size: int, i: int, k: int)
    requires ListsOk(m, bins, free) && 0 <= i < NUM_BINS && NoneBelow(m, free, size, i)
    requires 0 <= k < |bins[i]| && size <= At(m, bins[i][k]).size
    requires forall l :: k < l < |bins[i]| ==> At(m, bins[i][l]).size < size
    ensures Best(m, free, size, bins[i][k])
  {
    var c := bins[i][k];
    assert BinOk(m, bins[i], i, free);
    assert FreeOk(m, bins, c);
    forall p | p in free && size <= At(m, p).size ensures At(m, c).size <= At(m, p).size {
      assert FreeOk(m, bins, p);
      if BinOf(m, p) != i && At(m, p).size < At(m, c).size { BinIndexMonotone(At(m, p).size, At(m, c).size); }
    }
  }

  /** Small bins hold chunks of exactly the size asked for, and the bin after it none at all. */
  lemma SmallBins(m: Memory, bins: Bins, free: set<int>, size: nat)
    requires ListsOk(m, bins, free) && Aligned(size) && BinIndex(size) < MAX_SMALL_BIN
    ensures forall k :: 0 <= k < |bins[BinIndex(size)]| ==> At(m, bins[BinIndex(size)][k]).size == size
    ensures bins[BinIndex(size) + 1] == []
  {
    var i := BinIndex(size);
    forall k | 0 <= k < |bins[i]| ensures At(m, bins[i][k]).size == size {
      MemberSize(m, bins, free, i, k);
      SmallBinHoldsOneSize(size, At(m, bins[i][k]).size);
    }
    if bins[i + 1] != [] {
      MemberSize(m, bins, free, i + 1, 0);
      SmallBinHoldsOneSize(size, At(m, bins[i + 1][0]).size);
    }
  }

  // ----- empty bins, and sums and maxima over all of them

  ghost function NoBins(): Bins { seq(NUM_BINS, _ => []) }

  /** `BeEmpty` */
  function BeEmpty(m: Memory, h: int): Memory { Store(m, h, At(m, h).(next := h, prev := h)) }

  ghost predicate SelfLinked(m: Memory, h: int) { At(m, h).next == h && At(m, h).prev == h }

  lemma EmptyBins(m: Memory, blocks: Blocks)
    requires forall i :: 0 <= i < NUM_BINS ==> SelfLinked(m, BinAt(i))
    requires |blocks| == 4 && forall w :: 0 <= w < 4 ==> blocks[w] == 0
    ensures BinsOk(m, NoBins(), blocks, {})
  {
    forall i | 0 <= i < NUM_BINS ensures BinOk(m, NoBins()[i], i, {}) { assert SelfLinked(m, BinAt(i)); }
    forall j: nat ensures !Bit(0, j) { ZeroBits(j); }
  }

  /** The free chunks in the bins below `i`. */
  ghost function Below(m: Memory, free: set<int>, i: int): set<int> {
    set p | p in free && BinOf(m, p) < i
  }

  lemma NothingBelow(m: Memory, free: set<int>)
    ensures Below(m, free, 0) == {}
  {
    if Below(m, free, 0) != {} { var p := T.Pick(Below(m, free, 0)); }
  }

  /** The free chunks below bin `i` and those of bin `i` after its member `k`. */
  ghost predicate Walked(m: Memory, free: set<int>, s: seq<int>, i: int, k: int, seen: set<int>)
    requires -1 <= k < |s| || k == -1
  {
    forall p {:trigger p in seen} :: p in seen <==> p in free && (BinOf(m, p) < i || p in s[k + 1..])
  }

  lemma BelowNext(m: Memory, bins: Bins, free: set<int>, i: int, seen: set<int>)
    requires ListsOk(m, bins, free) && 0 <= i < NUM_BINS && Walked(m, free, bins[i], i, -1, seen)
    ensures seen == Below(m, free, i + 1)
  {
    assert BinOk(m, bins[i], i, free);
    assert bins[i][0..] == bins[i];
    forall p ensures p in seen <==> p in Below(m, free, i + 1) {
      if p in free { assert FreeOk(m, bins, p); }
    }
  }

  /** The highest bit of the highest marked word stands for the highest bin that is not empty. */
  lemma HighestBin(m: Memory, bins: Bins, blocks: Blocks, free: set<int>, word: nat)
    requires BinsOk(m, bins, blocks, free) && free != {} && word < 4
    requires forall w :: word < w < 4 ==> blocks[w] == 0
    requires word == 0 || blocks[word] != 0
    ensures var index := 32 * word + NumBits(blocks[word]) - 1;
      0 <= index < NUM_BINS && bins[index] != [] && forall i :: index < i < NUM_BINS ==> bins[i] == []
  {
    var p := T.Pick(free);
    assert FreeOk(m, bins, p);
    if blocks[word] == 0 {
      assert Bit(blocks[BinOf(m, p) / 32], BinOf(m, p) % 32);
      ZeroBits(BinOf(m, p) % 32);
      assert false;
    }
    HighestBit(blocks[word]);
    var top: nat := NumBits(blocks[word]) - 1;
    WordBit(bins, blocks, word, top);
    forall i | 32 * word + top < i < NUM_BINS ensures bins[i] == [] {
      if i / 32 == word { NoBitAbove(blocks[word], i % 32); } else { ZeroBits(i % 32); }
    }
  }

  /** Without free chunks no bin is marked. */
  lemma NoneMarked(m: Memory, bins: Bins, blocks: Blocks)
    requires BinsOk(m, bins, blocks, {})
    ensures forall w :: 0 <= w < 4 ==> blocks[w] == 0
  {
    forall w: nat | w < 4 ensures blocks[w] == 0 {
      if blocks[w] != 0 {
        var top: nat := NumBits(blocks[w]) - 1;
        HighestBit(blocks[w]);
        WordBit(bins, blocks, w, top);
        NoneIn(m, bins, 32 * w + top);
        assert false;
      }
    }
  }

  lemma NoneIn(m: Memory, bins: Bins, i: nat)
    requires ListsOk(m, bins, {}) && i < NUM_BINS
    ensures bins[i] == []
  {
    assert BinOk(m, bins[i], i, {});
    if bins[i] != [] {
      HasFirst(bins[i]);
      assert false;
    }
  }

  lemma HasFirst(s: seq<int>)
    requires s != []
    ensures s[0] in s
  {}

  /** The first chunk of the highest bin is a largest one. */
  lemma LargestInBin(m: Memory, bins: Bins, free: set<int>, i: int)
    requires ListsOk(m, bins, free) && 0 <= i < NUM_BINS && bins[i] != []
    requires forall j :: i < j < NUM_BINS ==> bins[j] == []
    ensures bins[i][0] in free && forall p :: p in free ==> At(m, p).size <= At(m, bins[i][0]).size
  {
    assert BinOk(m, bins[i], i, free);
    assert FreeOk(m, bins, bins[i][0]);
    forall p | p in free ensures At(m, p).size <= At(m, bins[i][0]).size {
      assert FreeOk(m, bins, p);
      if BinOf(m, p) != i && At(m, bins[i][0]).size < At(m,
        p).size { BinIndexMonotone(At(m, bins[i][0]).size, At(m, p).size); }
    }
  }
}

/** The allocator itself (`AllocPool`), a class over the memory it manages. */
module AllocPools {
  import opened BitWords
  import opened SizeClasses
  import opened ChunkMemory
  import opened ChunkTiling
  import opened FreeBins
  import opened PoolInvariant

  /** A returned payload pointer, or the exception that a failed callback or a pool that may not grow raises. */
  datatype Result = Returned(ptr: int) | Thrown

  /** How a search of the bins ends: with a chunk to be used whole, a chunk to be split, or nothing. */
  datatype Fit = Exact(chunk: int) | Bigger(chunk: int) | Nothing

  class AllocPool {
    var mem: Memory
    var hdrs: Headers
    const mBinBlocks: array<nat>
    var mAreas: int
    const mAreaInitSize: int
    const mAreaMoreSize: int

    /** What the words above stand for. */
    ghost var g: Plan

    ghost predicate Binned(free: set<int>)
      reads this, mBinBlocks
    {
      mBinBlocks.Length == 4 && BinsOk(mem, g.bins, mBinBlocks[..], free)
    }

    ghost predicate SteadyWith(free: set<int>)
      reads this, mBinBlocks
    {
      && mBinBlocks.Length == 4 && Steady(mem, hdrs, mBinBlocks[..], mAreas, g, free)
      && SizeArg(mAreaInitSize) && SizeArg(mAreaMoreSize)
    }

    ghost predicate Valid()
      reads this, mBinBlocks
    {
      && mBinBlocks.Length == 4 && PoolOk(mem, hdrs, mBinBlocks[..], mAreas, g)
      && SizeArg(mAreaInitSize) && SizeArg(mAreaMoreSize)
    }

    ghost predicate IsLive(ptr: int)
      reads this
    {
      ptr - HEADER in Live(g.chunks)
    }

    /** A pool begins without areas, and then opens its first one if it wants one. When the callback fails (`os == 0`)
        the source raises an exception with the pool still empty. `m` and `h` are whatever the memory held before. */
    constructor (m: Memory, h: Headers, inAreaInitSize: int, inAreaMoreSize: int, os: int)
      requires SizeArg(inAreaInitSize) && SizeArg(inAreaMoreSize)
      requires inAreaInitSize != 0 && os != 0 ==> RoomFor(map[], AlignUp(os), inAreaInitSize)
      ensures Valid() && fresh(mBinBlocks) && Live(g.chunks) == map[]
      ensures mAreaInitSize == inAreaInitSize && mAreaMoreSize == inAreaMoreSize
      ensures g.areas == if inAreaInitSize == 0 || os == 0 then map[] else map[AlignUp(os) := inAreaInitSize]
      ensures g.held == if inAreaInitSize == 0 || os == 0 then {} else {os}
    {
      mem := m;
      hdrs := h;
      mBinBlocks := new nat[4];
      mAreaInitSize := inAreaInitSize;
      mAreaMoreSize := inAreaMoreSize;
      mAreas := 0;
      g := NoPlan([]);
      new;
      InitBins();
      NothingHeld(mem, hdrs, mBinBlocks[..], g);
      var granted := InitAlloc(os);
    }

    /** Gives the pool its initial area; false when the callback fails, which raises an exception. */
    method InitAlloc(os: int) returns (granted: bool)
      requires Valid() && (mAreaInitSize != 0 && os != 0 ==> RoomFor(g.areas, AlignUp(os), mAreaInitSize))
      modifies this`mem, this`hdrs, this`mAreas, this`g, mBinBlocks
      ensures Valid() && Live(g.chunks) == Live(old(g).chunks)
      ensures granted <==> mAreaInitSize == 0 || os != 0
      ensures mAreaInitSize == 0 || os == 0 ==>
        g == old(g) && mem == old(mem) && hdrs == old(hdrs) && mAreas == old(mAreas)
      ensures mAreaInitSize != 0 && os != 0 ==>
        && g.areas == old(g).areas[AlignUp(os) := mAreaInitSize] && g.held == old(g).held + {os}
        && First(AlignUp(os)) in FreeSet(g.chunks)
    {
      if mAreaInitSize == 0 { return true; }
      if os == 0 { return false; }
      var chunk := OpenArea(mAreaInitSize, os);
      ghost var m1 := mem;
      assert ChunkOk(g.chunks, g.areas, chunk) && AreaOk(g.areas, AlignUp(os)) && HeaderOk(mem, g.chunks, chunk);
      LinkFree(chunk, FreeSet(old(g).chunks));
      FramedSameSizes(m1, mem, g.chunks, g.areas, {});
      assert FreeSet(old(g).chunks) + {chunk} == FreeSet(g.chunks);
      return true;
    }

    /** Empties every bin. */
    method InitBins()
      requires mBinBlocks.Length == 4
      modifies this`mem, this`g, mBinBlocks
      ensures g == old(g).(bins := NoBins()) && Binned({}) && OnlyLinks(old(mem), mem, {})
    {
      var i := 0;
      while i < NUM_BINS
        invariant 0 <= i <= NUM_BINS && g == old(g) && mBinBlocks[..] == old(mBinBlocks[..])
        invariant OnlyLinks(old(mem), mem, {})
        invariant forall j :: 0 <= j < i ==> SelfLinked(mem, BinAt(j))
      {
        ghost var m1 := mem;
        mem := BeEmpty(mem, BinAt(i));
        forall j | 0 <= j < i ensures SelfLinked(mem, BinAt(j)) { assert SelfLinked(m1, BinAt(j)); }
        i := i + 1;
      }
      ghost var m2 := mem;
      i := 0;
      while i < 4
        invariant 0 <= i <= 4 && g == old(g) && mem == m2 && forall w :: 0 <= w < i ==> mBinBlocks[w] == 0
      {
        mBinBlocks[i] := 0;
        i := i + 1;
      }
      g := g.(bins := NoBins());
      EmptyBins(mem, mBinBlocks[..]);
    }

    /** Gives all areas back; `freed` are the raw blocks in the order in which the callback gets them. */
    method FreeAll() returns (freed: seq<int>)
      requires Valid()
      modifies this`mem, this`mAreas, this`g, mBinBlocks
      ensures Valid() && g == NoPlan(NoBins()) && mAreas == 0
      ensures Distinct(freed) && (set raw | raw in freed) == old(g).held
    {
      var area := mAreas;
      FirstArea(hdrs, mAreas, g.ring, g.areas);
      freed := [];
      if area != 0 {
        var firstArea := area;
        var more := true;
        ghost var ring, k := g.ring, 0;
        while more
          invariant 0 <= k <= |ring| && |freed| == k && g == old(g) && mem == old(mem)
          invariant ring == g.ring != [] && firstArea == ring[0]
          invariant if more then k < |ring| && area == ring[k] else k == |ring|
          invariant forall i :: 0 <= i < k ==> freed[i] == HdrAt(hdrs, ring[i]).raw
          decreases |ring| - k
        {
          assert AreaLinked(hdrs, ring, k);
          var nextarea := HdrAt(hdrs, area).next;
          freed := freed + [HdrAt(hdrs, area).raw];
          area := nextarea;
          k := k + 1;
          more := area != firstArea;
        }
        RawSequence(hdrs, mAreas, ring, g.areas, freed);
        mAreas := 0;
      } else {
        NoAreas(hdrs, g.ring, g.areas);
      }
      InitBins();
      g := NoPlan(NoBins());
      NothingHeld(mem, hdrs, mBinBlocks[..], g);
    }

    /** Makes one free chunk of every area again. */
    method FreeAllInternal()
      requires Valid()
      modifies this`mem, this`g, mBinBlocks
      ensures Valid() && Live(g.chunks) == map[]
      ensures g.areas == old(g).areas && g.ring == old(g).ring && g.held == old(g).held
    {
      ghost var chunks0 := g.chunks;
      InitBins();
      FramedSameSizes(old(mem), mem, chunks0, g.areas, {});
      ghost var w := WholeAreas(g.areas, g.ring);
      WholeIsTiled(w, g.areas);
      g := g.(chunks := w);
      FramedRetiled(mem, chunks0, w, g.areas, {}, w.Keys);
      MakeAllWhole();
      WholeIsFree(w, g.areas);
    }

    /** The loop of `FreeAllInternal` around the ring of areas. */
    method MakeAllWhole()
      requires Binned({}) && Framed(mem, g.chunks, g.areas, g.chunks.Keys) && AreWhole(g.chunks, g.areas)
      requires RingOk(hdrs, mAreas, g.ring, g.areas)
      modifies this`mem, this`g, mBinBlocks
      ensures g == old(g).(bins := g.bins) && Binned(g.chunks.Keys) && Framed(mem, g.chunks, g.areas, {})
    {
      ghost var w, ring, k, done := g.chunks, g.ring, 0, {};
      assert w.Keys - done == w.Keys;
      var area := mAreas;
      FirstArea(hdrs, mAreas, ring, g.areas);
      if area != 0 {
        var firstArea := area;
        var more := true;
        while more
          invariant 0 <= k <= |ring| && g == old(g).(bins := g.bins) && ring != [] && firstArea == ring[0]
          invariant if more then k < |ring| && area == ring[k] else k == |ring|
          invariant forall i {:trigger ring[i]} :: 0 <= i < |ring| ==> (First(ring[i]) in done <==> i < k)
          invariant done <= w.Keys && Binned(done) && Framed(mem, w, g.areas, w.Keys - done)
          decreases |ring| - k
        {
          RingTurn(hdrs, mAreas, ring, g.areas, k, done);
          var nextarea := HdrAt(hdrs, area).next;
          done := MakeWhole(area, done);
          area := nextarea;
          k := k + 1;
          more := area != firstArea;
        }
        AllTurned(w, g.areas, ring, done);
      } else {
        NoAreas(hdrs, ring, g.areas);
        WholeOfNothing(w, g.areas);
      }
    }

    /** One turn of the loop of `FreeAllInternal`: `area` becomes one free chunk. */
    method MakeWhole(area: int, ghost done: set<int>) returns (ghost more: set<int>)
      requires Binned(done) && Framed(mem, g.chunks, g.areas, g.chunks.Keys - done) && done <= g.chunks.Keys
      requires AreWhole(g.chunks, g.areas) && area in g.areas && First(area) !in done
        && HdrAt(hdrs, area).size == g.areas[area]
      modifies this`mem, this`g, mBinBlocks
      ensures g == old(g).(bins := g.bins) && more == done + {First(area)}
      ensures Binned(more) && Framed(mem, g.chunks, g.areas, g.chunks.Keys - more)
    {
      var size := HdrAt(hdrs, area).size;
      var chunk := First(area);
      assert ChunkOk(g.chunks, g.areas, chunk) && AreaOk(g.areas, area);
      HeaderStep(mem, g.chunks, g.chunks, g.areas, g.bins, done, g.chunks.Keys - done, chunk);
      mem := SetSize(mem, chunk, size, size);
      ghost var m1 := mem;
      assert MarkerOk(m1, g.areas, area);
      mem := SetNeighborsInUse(mem, chunk, size);
      more := done + {chunk};
      assert g.chunks.Keys - done - {chunk} == g.chunks.Keys - more;
      assert HeaderOk(m1, g.chunks, chunk);
      FramedSameSizes(m1, mem, g.chunks, g.areas, g.chunks.Keys - more);
      ListsFrame(m1, mem, g.bins, done);
      ghost var m2 := mem;
      LinkFree(chunk, done);
      FramedSameSizes(m2, mem, g.chunks, g.areas, g.chunks.Keys - more);
    }

    /** `FreeAll`, then a new initial area. */
    method Reinit(os: int) returns (freed: seq<int>, granted: bool)
      requires Valid() && (mAreaInitSize != 0 && os != 0 ==> RoomFor(map[], AlignUp(os), mAreaInitSize))
      modifies this`mem, this`hdrs, this`mAreas, this`g, mBinBlocks
      ensures Valid() && Live(g.chunks) == map[] && granted == (mAreaInitSize == 0 || os != 0)
      ensures Distinct(freed) && (set raw | raw in freed) == old(g).held
      ensures g.held == if mAreaInitSize != 0 && os != 0 then {os} else {}
    {
      freed := FreeAll();
      granted := InitAlloc(os);
    }

    /** The bytes in free chunks: what the areas hold less what is in use. */
    method TotalFree() returns (total: int)
      requires Valid()
      ensures total == SizeSum(g.chunks, FreeSet(g.chunks))
      ensures total + SizeSum(g.chunks, Live(g.chunks).Keys) == AreaSum(g.areas)
    {
      ghost var free := FreeSet(g.chunks);
      FreeSizes(mem, g.chunks, g.areas);
      total := 0;
      var i := 0;
      NothingBelow(mem, free);
      while i < NUM_BINS
        invariant 0 <= i <= NUM_BINS && Below(mem, free, i) <= g.chunks.Keys
        invariant total == SizeSum(g.chunks, Below(mem, free, i))
      {
        var bin := BinAt(i);
        if At(mem, bin).prev != bin {
          total := AddBin(i, total);
        } else {
          assert BinOk(mem, g.bins[i], i, free);
          EmptyRing(mem, bin, g.bins[i]);
          BelowNext(mem, g.bins, free, i, Below(mem, free, i));
        }
        i := i + 1;
      }
      assert Below(mem, free, NUM_BINS) == free;
      Conservation(g.chunks, g.areas);
    }

    /** The inner loop of `TotalFree`. */
    method AddBin(i: int, total0: int) returns (total: int)
      requires Valid() && 0 <= i < NUM_BINS && total0 == SizeSum(g.chunks, Below(mem, FreeSet(g.chunks), i))
      ensures total == SizeSum(g.chunks, Below(mem, FreeSet(g.chunks), i + 1))
    {
      ghost var free, s := FreeSet(g.chunks), g.bins[i];
      ghost var k, seen := |s| - 1, Below(mem, free, i);
      var bin := BinAt(i);
      LastCandidate(mem, g.bins, free, i);
      total := total0;
      var candidate := At(mem, bin).prev;
      while candidate != bin
        invariant -1 <= k < |s| && candidate == Node(bin, s, k) && bin !in s
        invariant Walked(mem, free, s, i, k, seen) && seen <= g.chunks.Keys && total == SizeSum(g.chunks, seen)
        decreases k + 1
      {
        StepUp(mem, g.bins, free, i, k);
        var size := SizeBits(At(mem, candidate).size);
        seen := OneMore(mem, g.chunks, g.areas, g.bins, i, k, seen);
        total := total + size;
        candidate := At(mem, candidate).prev;
        k := k - 1;
      }
      BelowNext(mem, g.bins, free, i, seen);
    }

    /** The highest bin that is marked. With no free chunk the index comes out as -1, which is no bin. */
    method HighestFullBin() returns (index: int)
      requires Valid()
      ensures index == -1 <==> FreeSet(g.chunks) == {}
      ensures index != -1 ==>
        0 <= index < NUM_BINS && g.bins[index] != [] && forall i :: index < i < NUM_BINS ==> g.bins[i] == []
    {
      var word := 0;
      var i := 3;
      while i >= 0
        invariant -1 <= i <= 3 && word == 0
        invariant forall w :: i < w < 4 ==> mBinBlocks[w] == 0
      {
        if mBinBlocks[i] != 0 {
          word := i;
          break;
        }
        i := i - 1;
      }
      if FreeSet(g.chunks) != {} {
        HighestBin(mem, g.bins, mBinBlocks[..], FreeSet(g.chunks), word);
      } else {
        NoneMarked(mem, g.bins, mBinBlocks[..]);
      }
      var binBits := mBinBlocks[word];
      var bitPosition := NumBits(binBits) - 1;
      index := 32 * word + bitPosition;
    }

    /** The largest free size, found by looking only into the highest bin that is marked. Without a free chunk there is
        no such bin, and what lies before the bins would be taken for one. */
    method LargestFreeChunk() returns (maxsize: int)
      requires Valid() && FreeSet(g.chunks) != {}
      ensures exists p :: p in FreeSet(g.chunks) && g.chunks[p].size == maxsize
      ensures forall p :: p in FreeSet(g.chunks) ==> g.chunks[p].size <= maxsize
    {
      ghost var free := FreeSet(g.chunks);
      FreeSizes(mem, g.chunks, g.areas);
      var index := HighestFullBin();
      maxsize := LargestIn(index);
      LargestInBin(mem, g.bins, free, index);
    }

    /** The loop of `LargestFreeChunk`; the bin is walked from its small end. */
    method LargestIn(index: int) returns (maxsize: int)
      requires Valid() && 0 <= index < NUM_BINS && g.bins[index] != []
      ensures maxsize == At(mem, g.bins[index][0]).size
    {
      ghost var free, s := FreeSet(g.chunks), g.bins[index];
      var bin := BinAt(index);
      ghost var k := |s| - 1;
      LastCandidate(mem, g.bins, free, index);
      maxsize := 0;
      var candidate := At(mem, bin).prev;
      while candidate != bin
        invariant -1 <= k < |s| && candidate == Node(bin, s, k) && bin !in s
        invariant maxsize == if k == |s| - 1 then 0 else At(mem, s[k + 1]).size
        decreases k + 1
      {
        StepUp(mem, g.bins, free, index, k);
        var candidateSize := SizeBits(At(mem, candidate).size);
        if candidateSize > maxsize { maxsize := candidateSize; }
        candidate := At(mem, candidate).prev;
        k := k - 1;
      }
    }

    // The pool's own checks. Each returns the conjunction of what the source asserts.

    /** `DoCheckPool`: all its assertions hold of every pool in order. */
    method DoCheckPool() returns (ok: bool)
      requires Valid()
      ensures ok
    {
      var area := mAreas;
      ok := true;
      FirstArea(hdrs, mAreas, g.ring, g.areas);
      if area != 0 {
        var more := true;
        ghost var k := 0;
        while more
          invariant 0 <= k <= |g.ring| && ok && mAreas == g.ring[0]
          invariant if more then k < |g.ring| && area == g.ring[k] else k == |g.ring|
          decreases |g.ring| - k
        {
          assert AreaLinked(hdrs, g.ring, k);
          var nextarea := HdrAt(hdrs, area).next;
          var areaOk := DoCheckArea(area);
          ok := ok && areaOk;
          area := nextarea;
          k := k + 1;
          more := area != mAreas;
        }
      }
      var i := 0;
      while i < NUM_BINS
        invariant 0 <= i <= NUM_BINS && ok
      {
        var binOk := DoCheckBin(BinAt(i), i);
        ok := ok && binOk;
        i := i + 1;
      }
    }

    method DoCheckArea(area: int) returns (ok: bool)
      requires Valid() && area in g.areas
      ensures ok
    {
      var p := First(area);
      PreviousChunk(mem, g.chunks, g.areas, p);
      ok := InUseBit(At(mem, p).prevSize);
      while At(mem, p).size != IN_USE
        invariant ok && p <= End(g.areas, area)
        invariant At(mem, p).size == IN_USE || (p in g.chunks && g.chunks[p].area == area)
        decreases End(g.areas, area) - p
      {
        WordParts(mem, g.chunks, g.areas, p);
        var chunkOk;
        if InUseBit(At(mem, p).size) {
          chunkOk := DoCheckInUseChunk(p);
        } else {
          chunkOk := DoCheckFreeChunk(p);
        }
        ok := ok && chunkOk;
        NextRead(mem, g.chunks, g.areas, p);
        p := p + SizeBits(At(mem, p).size);
      }
    }

    method DoCheckBin(bin: int, index: int) returns (ok: bool)
      requires Valid() && 0 <= index < NUM_BINS && bin == BinAt(index)
      ensures ok
    {
      ghost var free, s := FreeSet(g.chunks), g.bins[index];
      ghost var k := 0;
      assert BinOk(mem, s, index, free);
      RingStep(mem, bin, s, -1);
      var p := At(mem, bin).next;
      ok := true;
      while p != bin
        invariant 0 <= k <= |s| && p == Node(bin, s, k) && ok
        decreases |s| - k
      {
        StepUp(mem, g.bins, free, index, k);
        MemberSize(mem, g.bins, free, index, k);
        RingStep(mem, bin, s, k);
        var size := SizeBits(At(mem, p).size);
        var chunkOk := DoCheckFreeChunk(p);
        ok := ok && BinIndex(size) == index && chunkOk;
        p := At(mem, p).next;
        k := k + 1;
      }
    }

    method DoCheckChunk(p: int) returns (ok: bool)
      requires Valid() && p in g.chunks
      ensures ok
    {
      WordParts(mem, g.chunks, g.areas, p);
      assert HeaderOk(mem, g.chunks, p);
      var next := p + SizeBits(At(mem, p).size);
      ok := At(mem, p).size == At(mem, next).prevSize;
    }

    method DoCheckFreeChunk(p: int) returns (ok: bool)
      requires Valid() && p in g.chunks && !g.chunks[p].used
      ensures ok
    {
      WordParts(mem, g.chunks, g.areas, p);
      FreeChunkReads(mem, g.chunks, g.areas, g.bins, p);
      var size := SizeBits(At(mem, p).size);
      var next := p + size;
      ok := DoCheckChunk(p);
      ok := ok && !InUseBit(At(mem, p).size);
      if size >= MIN_ALLOC {
        ok := ok && Aligned(size) && Aligned(p + HEADER)
          && InUseBit(At(mem, p).prevSize) && InUseBit(At(mem, next).size)
          && At(mem, At(mem, p).next).prev == p && At(mem, At(mem, p).prev).next == p;
      } else {
        ok := ok && size == 0;
      }
    }

    method DoCheckInUseChunk(p: int) returns (ok: bool)
      requires Valid() && p in g.chunks && g.chunks[p].used
      ensures ok
    {
      WordParts(mem, g.chunks, g.areas, p);
      PreviousChunk(mem, g.chunks, g.areas, p);
      FollowingChunk(mem, g.chunks, g.areas, p);
      var size := SizeBits(At(mem, p).size);
      var next := p + size;
      ok := DoCheckChunk(p);
      ok := ok && InUseBit(At(mem, p).size);
      if !InUseBit(At(mem, p).prevSize) {
        var prevsize := SizeBits(At(mem, p).prevSize);
        if prevsize > 0 {
          var prv := p - prevsize;
          WordParts(mem, g.chunks, g.areas, prv);
          ok := ok && prv + SizeBits(At(mem, prv).size) == p;
          var prvOk := DoCheckFreeChunk(prv);
          ok := ok && prvOk;
        }
      }
      if !InUseBit(At(mem, p + size).size) {
        var nextOk := DoCheckFreeChunk(next);
        ok := ok && nextOk;
      }
    }

    method MarkBinBlock(index: nat)
      requires mBinBlocks.Length == 4 && index < NUM_BINS
      modifies mBinBlocks
      ensures mBinBlocks[..] == Marked(old(mBinBlocks[..]), index)
    {
      var word := index / 32;
      mBinBlocks[word] := Or(mBinBlocks[word], One(index % 32));
    }

    method ClearBinBlock(index: nat)
      requires mBinBlocks.Length == 4 && index < NUM_BINS
      modifies mBinBlocks
      ensures mBinBlocks[..] == Cleared(old(mBinBlocks[..]), index)
    {
      var word := index / 32;
      mBinBlocks[word] := AndNot(mBinBlocks[word], One(index % 32));
    }

    /** The first bin from `start` on that is not empty, or -1. */
    method NextFullBin(start: nat) returns (index: int)
      requires mBinBlocks.Length == 4 && BlocksOk(g.bins, mBinBlocks[..])
      ensures index == -1 || (start <= index < NUM_BINS && g.bins[index] != [])
      ensures forall i :: start <= i < (if index == -1 then NUM_BINS else index) ==> g.bins[i] == []
    {
      if start >= 128 { return -1; }
      var word := start / 32;
      var bitPosition := start % 32;
      var bitValue := One(bitPosition);
      var binBits := mBinBlocks[word];
      if binBits >= bitValue {
        binBits := AndNot(binBits, bitValue - 1);
        forall j: nat ensures Bit(binBits, j) <==> bitPosition <= j && Bit(mBinBlocks[word], j) {
          MaskBit(mBinBlocks[word], bitPosition, j);
        }
        FirstInWord(g.bins, mBinBlocks[..], word, bitPosition, binBits);
      } else {
        EmptyWord(g.bins, mBinBlocks[..], word, bitPosition);
        word := word + 1;
        while word < 4 && mBinBlocks[word] == 0
          invariant start / 32 < word <= 4
          invariant forall i :: start <= i < 32 * word ==> g.bins[i] == []
        {
          EmptyWord(g.bins, mBinBlocks[..], word, 0);
          word := word + 1;
        }
        if word == 4 {
          return -1;
        }
        binBits := mBinBlocks[word];
        FirstInWord(g.bins, mBinBlocks[..], word, 0, binBits);
      }
      index := 32 * word + Ctz(binBits);
    }

    /** Takes a free chunk out of its bin. */
    method UnlinkFree(p: int, ghost free: set<int>)
      requires Binned(free) && p in free
      modifies this`mem, this`g, mBinBlocks
      ensures g == old(g).(bins := g.bins)
      ensures Binned(free - {p}) && OnlyLinks(old(mem), mem, free - {p})
    {
      assert FreeOk(mem, g.bins, p);
      Unlinking(mem, g.bins, free, p);
      UnlinkingTouches(mem, g.bins, free, p);
      Aligns(At(mem, p).size);
      ghost var i := BinOf(mem, p);
      ghost var s := Taken(mem, g.bins, p);
      mem := Unlinked(mem, p);
      var size := SizeBits(At(mem, p).size);
      assert At(mem, p).size == At(old(mem), p).size;
      assert size == At(old(mem), p).size;
      var index := BinIndex(size);
      assert index == i;
      var bin := BinAt(index);
      assert BinOk(mem, s[i], i, free - {p});
      EmptyRing(mem, bin, s[i]);
      if At(mem, bin).next == bin {
        ClearedOk(g.bins, mBinBlocks[..], i);
        ClearBinBlock(index);
      }
      g := g.(bins := s);
    }

    /** Puts a chunk into the bin of its size: small g.bins at the front, others where the sizes stay in order. */
    method LinkFree(p: int, ghost free: set<int>)
      requires Binned(free) && p !in free && FLOOR <= p && 0 <= At(mem, p).size && Aligned(At(mem, p).size)
      modifies this`mem, this`g, mBinBlocks
      ensures g == old(g).(bins := g.bins)
      ensures Binned(free + {p}) && OnlyLinks(old(mem), mem, free + {p})
    {
      Aligns(At(mem, p).size);
      var size := SizeBits(At(mem, p).size);
      var index := BinIndex(size);
      var bin := BinAt(index);
      ghost var s := g.bins[index];
      ghost var k: nat := 0;
      assert BinOk(mem, s, index, free);
      EmptyRing(mem, bin, s);
      if index < NUM_SMALL_BINS || At(mem, bin).next == bin {
        LinkingInFront(mem, g.bins, mBinBlocks[..], free, p);
        mem := InsertedAfter(mem, p, bin);
        MarkBinBlock(index);
      } else {
        var link := At(mem, bin).next;
        RingStep(mem, bin, s, -1);
        while link != bin && size < SizeBits(At(mem, link).size)
          invariant mem == old(mem) && g == old(g) && mBinBlocks[..] == old(mBinBlocks[..])
          invariant 0 <= k <= |s| && link == Node(bin, s, k)
          invariant forall l :: 0 <= l < k ==> size < At(mem, s[l]).size
          decreases |s| - k
        {
          MemberSize(mem, g.bins, free, index, k);
          Aligns(At(mem, link).size);
          RingStep(mem, bin, s, k);
          link := At(mem, link).next;
          k := k + 1;
        }
        if k < |s| {
          MemberSize(mem, g.bins, free, index, k);
          Aligns(At(mem, s[k]).size);
        }
        LinkingBefore(mem, g.bins, mBinBlocks[..], free, p, k);
        mem := InsertedBefore(mem, p, link);
      }
      g := g.(bins := Put(old(mem), g.bins, p, k));
    }

    /** Obtains an area from the callback (`os` is what it returned, 0 for failure); its chunk is free but in no bin. */
    method NewArea(inAreaSize: int, os: int, ghost free: set<int>) returns (area: int)
      requires SteadyWith(free) && Aligned(inAreaSize) && MIN_ALLOC <= inAreaSize <= MAX_INT32
      requires os != 0 ==> RoomFor(g.areas, AlignUp(os), inAreaSize)
      requires free <= g.chunks.Keys
      modifies this`mem, this`hdrs, this`mAreas, this`g
      ensures SteadyWith(free)
      ensures os == 0 ==> area == 0 && mem == old(mem) && hdrs == old(hdrs) && mAreas == old(mAreas) && g == old(g)
      ensures os != 0 ==>
        && area == AlignUp(os) == mAreas && area !in old(g.areas) && First(area) !in old(g.chunks)
        && g == WithArea(old(g), area, inAreaSize, os)
        && OnlyHeaders(old(mem), mem, g.chunks, g.areas)
    {
      if os == 0 { return 0; }
      area := (os + 63) / 64 * 64;
      AreaEnters(mem, hdrs, mBinBlocks[..], mAreas, g, free, area, inAreaSize, os);
      hdrs := Entered(hdrs, mAreas, area, os, inAreaSize);
      mAreas := area;
      mem := Opened(mem, First(area), inAreaSize);
      g := WithArea(g, area, inAreaSize, os);
    }

    /** Gives the area whose only chunk is `chunk` back. */
    method FreeArea(chunk: int, ghost free: set<int>)
      requires SteadyWith(free) && chunk in g.chunks && chunk - AREA_HEADER in g.areas && chunk - AREA_HEADER in g.ring
      requires g.chunks[chunk].size == g.areas[chunk - AREA_HEADER]
      modifies this`hdrs, this`mAreas, this`g
      ensures SteadyWith(free)
      ensures g == WithoutArea(old(g), chunk - AREA_HEADER, HdrAt(old(hdrs), chunk - AREA_HEADER).raw)
      ensures HdrAt(old(hdrs), chunk - AREA_HEADER).raw in old(g).held
    {
      var area := chunk - AREA_HEADER;
      AreaLeaves(mem, hdrs, mBinBlocks[..], mAreas, g, free, area);
      g := WithoutArea(g, area, HdrAt(hdrs, area).raw);
      if HdrAt(hdrs, area).next == area {
        mAreas := 0;
      } else {
        var next := HdrAt(hdrs, area).next;
        hdrs := AreaRemoved(hdrs, area);
        mAreas := next;
      }
    }

    /** `UnlinkFree(p)` where `p` may be known to be in use, so that nothing is to be done. */
    method UnlinkIf(really: bool, p: int, ghost free: set<int>) returns (ghost rest: set<int>)
      requires Binned(free) && (really ==> p in free)
      modifies this`mem, this`g, mBinBlocks
      ensures rest == free - (if really then {p} else {})
      ensures g == old(g).(bins := g.bins) && Binned(rest) && OnlyLinks(old(mem), mem, rest)
    {
      rest := free;
      if really {
        UnlinkFree(p, free);
        rest := free - {p};
      }
    }

    /** Takes the free neighbours of a block out of their bins; together they cover `size` bytes from `chunk` on. */
    method TakeNeighbours(p: int) returns (chunk: int, size: int, joinPrev: bool, joinNext: bool, ghost free: set<int>)
      requires Valid() && p in g.chunks && g.chunks[p].used
      modifies this`mem, this`g, mBinBlocks
      ensures Joins(g.chunks, g.areas, p, chunk, joinPrev, joinNext)
        && size == FreedSize(g.chunks, p, chunk, joinPrev, joinNext)
      ensures free
        == FreeSet(g.chunks) - (if joinPrev then {chunk} else {}) - (if joinNext then {p + g.chunks[p].size} else {})
      ensures g == old(g).(bins := g.bins) && SteadyWith(free)
      ensures OnlyHeaders(old(mem), mem, g.chunks, g.areas)
    {
      free := FreeSet(g.chunks);
      ReadNeighbours(mem, g.chunks, g.areas, p);
      chunk := p;
      size := SizeBits(At(mem, chunk).size);
      joinPrev := !InUseBit(At(mem, chunk).prevSize);
      if joinPrev {
        var prevSize := SizeBits(At(mem, chunk).prevSize);
        chunk := chunk - prevSize;
        size := size + prevSize;
      }
      free := UnlinkIf(joinPrev, chunk, free);
      var next := chunk + size;
      assert At(mem, next).size == At(old(mem), next).size;
      joinNext := !InUseBit(At(mem, next).size);
      if joinNext {
        size := size + SizeBits(At(mem, next).size);
      }
      free := UnlinkIf(joinNext, next, free);
      LinksAreHeaders(old(mem), mem, FreeSet(g.chunks), g.chunks, g.areas);
      FramedSameSizes(old(mem), mem, g.chunks, g.areas, {});
    }

    /** The first half of `Free`: the block and its free neighbours become one free chunk that is in no bin yet. */
    method Consolidate(p: int) returns (chunk: int, ghost free: set<int>)
      requires Valid() && p in g.chunks && g.chunks[p].used
      modifies this`mem, this`g, mBinBlocks
      ensures SteadyWith(free) && Coalesced(g.chunks) && Live(g.chunks) == Live(old(g).chunks) - {p}
      ensures chunk in g.chunks && !g.chunks[chunk].used && g.chunks[chunk].area == old(g).chunks[p].area
      ensures free == FreeSet(g.chunks) - {chunk} && FLOOR <= chunk && Aligned(g.chunks[chunk].size)
      ensures g == old(g).(bins := g.bins, chunks := g.chunks) && g.chunks.Keys <= old(g).chunks.Keys
      ensures OnlyHeaders(old(mem), mem, old(g).chunks, g.areas)
    {
      var size, joinPrev, joinNext;
      chunk, size, joinPrev, joinNext, free := TakeNeighbours(p);
      ghost var m1, r := mem, Freed(g.chunks, p, chunk, joinPrev, joinNext);
      FreedSteady(mem, g.chunks, g.areas, g.bins, free, p, chunk, joinPrev, joinNext);
      mem := SetSize(mem, chunk, size, size);
      OnlyHeadersCompose(old(mem), m1, mem, g.chunks, g.areas);
      g := g.(chunks := r);
    }

    /** Frees a live block: joins it with the free chunks around it, and gives a growable pool's area back once all of
        it is free. */
    method Free(inPtr: int)
      requires Valid() && (inPtr != 0 ==> IsLive(inPtr))
      modifies this`mem, this`hdrs, this`mAreas, this`g, mBinBlocks
      ensures Valid()
      ensures inPtr == 0 ==> mem == old(mem) && hdrs == old(hdrs) && mAreas == old(mAreas) && g == old(g)
      ensures inPtr != 0 ==>
        && Live(g.chunks) == Live(old(g).chunks) - {inPtr - HEADER}
        && var a := old(g).chunks[inPtr - HEADER].area;
        && (if mAreaMoreSize != 0 && AreaUnused(Live(g.chunks), a) then
              g.areas == old(g).areas - {a} && g.held == old(g).held - {HdrAt(old(hdrs), a).raw}
            else
              g.areas == old(g).areas && g.held == old(g).held)
      ensures OnlyHeaders(old(mem), mem, old(g).chunks, old(g).areas)
    {
      if inPtr == 0 { return; }
      var chunk, free := Consolidate(inPtr - HEADER);
      PreviousChunk(mem, g.chunks, g.areas, chunk);
      FollowingChunk(mem, g.chunks, g.areas, chunk);
      WordParts(mem, g.chunks, g.areas, chunk);
      WholeAreaIff(g.chunks, g.areas, chunk);
      RemoveFree(g.chunks, chunk);
      assert HeaderOk(mem, g.chunks, chunk) && ChunkOk(g.chunks, g.areas, chunk);
      var word := At(mem, chunk + SizeBits(At(mem, chunk).size)).size;
      if mAreaMoreSize != 0 && At(mem, chunk).prevSize == IN_USE && word == IN_USE {
        FreeArea(chunk, free);
      } else {
        ghost var m1 := mem;
        LinkFree(chunk, free);
        FramedSameSizes(m1, mem, g.chunks, g.areas, {});
        assert free + {chunk} == FreeSet(g.chunks);
      }
    }

    ghost predicate FitOk(fit: Fit, free: set<int>, size: int)
      reads this
    {
      && (fit.Nothing? ==> NoneFits(mem, free, size))
      && (!fit.Nothing? ==> Best(mem, free, size, fit.chunk))
      && (!fit.Nothing? ==> (fit.Bigger? <==> MIN_ALLOC <= At(mem, fit.chunk).size - size))
    }

    ghost predicate Searching(free: set<int>, size: int)
      reads this, mBinBlocks
    {
      Binned(free) && Aligned(size) && MIN_ALLOC <= size <= MAX_INT32 && SizesBounded(mem, free)
    }

    /** The search for a small request: its own bin, then the next one; `index` is where the scan goes on. */
    method SearchSmall(size: int, ghost free: set<int>) returns (fit: Fit, index: nat)
      requires Searching(free, size) && BinIndex(size) < MAX_SMALL_BIN
      ensures !fit.Nothing? ==> FitOk(fit, free, size)
      ensures fit.Nothing? ==> index <= NUM_BINS && NoneBelow(mem, free, size, index)
    {
      index := BinIndex(size);
      var bin := BinAt(index);
      ghost var s := g.bins[index];
      StartOfSearch(mem, g.bins, free, size);
      SmallBins(mem, g.bins, free, size);
      assert BinOk(mem, s, index, free) && BinOk(mem, g.bins[index + 1], index + 1, free);
      RingStep(mem, bin, s, |s|);
      EmptyRing(mem, bin, s);
      EmptyRing(mem, BinAt(index + 1), g.bins[index + 1]);
      var candidate := At(mem, bin).prev;
      if candidate == bin {
        bin := BinAt(index + 1);
        candidate := At(mem, bin).prev;
      }
      if candidate != bin {
        BestInBin(mem, g.bins, free, size, index, |s| - 1);
        return Exact(candidate), index;
      }
      SkippedBins(mem, g.bins, free, size, index, index + 2);
      return Nothing, index + 2;
    }

    /** The search for a larger request in its own bin; `index` is where the scan goes on. */
    method SearchOwnBin(size: int, ghost free: set<int>) returns (fit: Fit, index: int)
      requires Searching(free, size)
      ensures !fit.Nothing? ==> FitOk(fit, free, size)
      ensures fit.Nothing? ==> 0 <= index <= NUM_BINS && NoneBelow(mem, free, size, index)
    {
      index := BinIndex(size);
      var bin := BinAt(index);
      ghost var s := g.bins[index];
      StartOfSearch(mem, g.bins, free, size);
      LastCandidate(mem, g.bins, free, index);
      var candidate := At(mem, bin).prev;
      ghost var k := |s| - 1;
      while candidate != bin
        invariant -1 <= k < |s| && candidate == Node(bin, s, k) && bin !in s
        invariant index == BinIndex(size)
        invariant forall l :: k < l < |s| ==> At(mem, s[l]).size < size
        decreases k + 1
      {
        ReadCandidate(mem, g.bins, free, size, index, k);
        var candidateSize := SizeBits(At(mem, candidate).size);
        var remainderSize := ToInt32(candidateSize - size);
        if remainderSize >= MIN_ALLOC { // more than a least chunk would be left over
          index := index - 1; // the search by marks begins with this bin again
          break;
        } else if remainderSize >= 0 { // the chunk is used whole
          BestInBin(mem, g.bins, free, size, index, k);
          return Exact(candidate), index;
        }
        candidate := At(mem, candidate).prev;
        k := k - 1;
      }
      if candidate == bin { SearchedBin(mem, g.bins, free, size, index, s); }
      return Nothing, index + 1;
    }

    /** The search of `Alloc` through the bins (lines 322-369 of SC_AllocPool.cpp). */
    method FindFit(size: int, ghost free: set<int>) returns (fit: Fit)
      requires Searching(free, size)
      ensures FitOk(fit, free, size)
    {
      var index: int := BinIndex(size);
      if index < MAX_SMALL_BIN {
        fit, index := SearchSmall(size, free);
      } else {
        fit, index := SearchOwnBin(size, free);
      }
      if fit.Nothing? {
        fit := ScanBins(size, index, free);
      }
    }

    /** The first chunk of one bin, from its small end, that is large enough. */
    method ScanBin(size: int, index: int, ghost free: set<int>) returns (fit: Fit)
      requires Searching(free, size) && 0 <= index < NUM_BINS && NoneBelow(mem, free, size, index)
      ensures !fit.Nothing? ==> FitOk(fit, free, size)
      ensures fit.Nothing? ==> NoneBelow(mem, free, size, index + 1)
    {
      var bin := BinAt(index);
      var candidate := At(mem, bin).prev;
      ghost var s := g.bins[index];
      ghost var k := |s| - 1;
      LastCandidate(mem, g.bins, free, index);
      while candidate != bin
        invariant -1 <= k < |s| && candidate == Node(bin, s, k) && bin !in s
        invariant forall l :: k < l < |s| ==> At(mem, s[l]).size < size
        decreases k + 1
      {
        ReadCandidate(mem, g.bins, free, size, index, k);
        var candidateSize := SizeBits(At(mem, candidate).size);
        var remainderSize := ToInt32(candidateSize - size);
        if remainderSize >= MIN_ALLOC { // the rest becomes a chunk
          BestInBin(mem, g.bins, free, size, index, k);
          return Bigger(candidate);
        } else if remainderSize >= 0 {
          BestInBin(mem, g.bins, free, size, index, k);
          return Exact(candidate);
        }
        candidate := At(mem, candidate).prev;
        k := k - 1;
      }
      SearchedBin(mem, g.bins, free, size, index, s);
      return Nothing;
    }

    /** The second half of the search: the first chunk large enough in the first bin that has one. */
    method ScanBins(size: int, start: nat, ghost free: set<int>) returns (fit: Fit)
      requires Searching(free, size) && start <= NUM_BINS && NoneBelow(mem, free, size, start)
      ensures FitOk(fit, free, size)
    {
      var index := NextFullBin(start);
      SkippedBins(mem, g.bins, free, size, start, if index == -1 then NUM_BINS else index);
      while index >= 0
        invariant -1 <= index < NUM_BINS && NoneBelow(mem, free, size, if index == -1 then NUM_BINS else index)
        decreases if index == -1 then 0 else NUM_BINS - index
      {
        fit := ScanBin(size, index, free);
        if !fit.Nothing? { return fit; }
        var after := index + 1;
        index := NextFullBin(after);
        SkippedBins(mem, g.bins, free, size, after, if index == -1 then NUM_BINS else index);
      }
      SearchedAll(mem, free, size);
      return Nothing;
    }

    /** A chunk goes into use whole. */
    method TakeWhole(c: int, ghost free: set<int>)
      requires SteadyWith(free) && Coalesced(g.chunks) && c in g.chunks && !g.chunks[c].used
        && free == FreeSet(g.chunks) - {c}
      modifies this`mem, this`g
      ensures Valid() && g == old(g).(chunks := g.chunks)
      ensures Live(g.chunks) == Live(old(g).chunks)[c := Chunk(old(g).chunks[c].size, true, old(g).chunks[c].area)]
      ensures OnlyHeadersOr(old(mem), mem, old(g).chunks, g.areas, c)
    {
      WordParts(mem, g.chunks, g.areas, c);
      UsedSteady(mem, g.chunks, g.areas, g.bins, free, c);
      var size := SizeBits(At(mem, c).size);
      mem := SetSize(mem, c, size, size + IN_USE);
      g := g.(chunks := Mark(g.chunks, c, true));
    }

    /** The front of a chunk is put to use, the rest of it goes into the bins. */
    method TakeFront(c: int, size: int, rest: int, ghost free: set<int>)
      requires SteadyWith(free) && Coalesced(g.chunks) && c in g.chunks && !g.chunks[c].used
        && free == FreeSet(g.chunks) - {c}
      requires Aligned(size) && MIN_ALLOC <= size && rest == g.chunks[c].size - size && 0 <= rest
      modifies this`mem, this`g, mBinBlocks
      ensures g == old(g).(chunks := g.chunks, bins := g.bins)
      ensures OnlyHeadersOr(old(mem), mem, old(g).chunks, g.areas, c)
      ensures MIN_ALLOC <= rest ==>
        Valid() && Live(g.chunks) == Live(old(g).chunks)[c := Chunk(size, true, old(g).chunks[c].area)]
      ensures rest < MIN_ALLOC ==> At(mem, c).size == size + IN_USE && At(mem, c + size).size == rest
    {
      ghost var m1 := LinkRest(c, size, rest, free);
      TakingFrontTouches(old(mem), mem, g.chunks, g.areas, free, c, size);
      if MIN_ALLOC <= rest {
        ghost var r := FrontLinked(m1, mem, g.chunks, g.areas, g.bins, free + {c + size}, c, size);
        g := g.(chunks := r);
      }
      mem := SetSize(mem, c, size, size + IN_USE);
    }

    /** What is left of a chunk behind its front becomes a free chunk in its bin. */
    method LinkRest(c: int, size: int, rest: int, ghost free: set<int>) returns (ghost m1: Memory)
      requires SteadyWith(free) && Coalesced(g.chunks) && c in g.chunks && !g.chunks[c].used
        && free == FreeSet(g.chunks) - {c}
      requires Aligned(size) && MIN_ALLOC <= size && rest == g.chunks[c].size - size && 0 <= rest
      modifies this`mem, this`g, mBinBlocks
      ensures g == old(g).(bins := g.bins) && m1 == SetSize(old(mem), c + size, rest, rest)
      ensures Binned(free + {c + size}) && OnlyLinks(m1, mem, free + {c + size})
      ensures MIN_ALLOC <= rest ==> Framed(m1, Split(g.chunks, c, size, false), g.areas, {c})
    {
      if MIN_ALLOC <= rest {
        RemainderSteady(mem, g.chunks, g.areas, g.bins, free, c, size);
      } else {
        ShortRemainder(mem, g.chunks, g.areas, g.bins, free, c, size);
      }
      mem := SetSize(mem, c + size, rest, rest);
      m1 := mem;
      LinkFree(c + size, free);
    }

    /** The size of the area `Alloc` asks for when no free chunk fits: the first area's, if that is to be the only one;
        else the growth, or the size if that is more. */
    function AreaRequest(size: int): (n: int)
      ensures mAreaMoreSize == 0 ==> n == mAreaInitSize
      ensures mAreaMoreSize != 0 ==> size <= n && mAreaMoreSize <= n && (n == size || n == mAreaMoreSize)
    {
      if mAreaMoreSize == 0 then mAreaInitSize else if size > mAreaMoreSize then size else mAreaMoreSize
    }

    /** No free chunk holds `size` bytes. */
    ghost predicate NoFit(size: int)
      reads this
    {
      forall p :: p in FreeSet(g.chunks) ==> g.chunks[p].size < size
    }

    /** The pool may not obtain another area for `size` bytes. */
    predicate MayNotGrow(size: int)
      reads this
    {
      mAreaMoreSize == 0 && (mAreas != 0 || size > mAreaInitSize)
    }

    lemma MayNotGrowIs(size: int)
      requires Valid()
      ensures MayNotGrow(size) <==> mAreaMoreSize == 0 && (g.areas != map[] || mAreaInitSize < size)
    {
      FirstArea(hdrs, mAreas, g.ring, g.areas);
      if g.ring == [] {
        assert forall a :: a in g.areas ==> a in g.ring;
        assert g.areas == map[];
      } else {
        assert g.ring[0] in g.areas;
      }
    }

    /** A new area is split so that less than the least chunk size remains. */
    ghost predicate ShortSplit(size: int)
      reads this
    {
      NoFit(size) && SplitsTooClosely(size)
    }

    /** No free chunk is larger than need be: `c` is a smallest free chunk that holds `size` bytes. */
    ghost predicate BestFit(size: int, c: int)
      reads this
    {
      && c in g.chunks && !g.chunks[c].used && size <= g.chunks[c].size
      && forall p :: p in FreeSet(g.chunks) && size <= g.chunks[p].size ==> g.chunks[c].size <= g.chunks[p].size
    }

    /** A fitting chunk is taken from the bins. */
    method AllocFromBins(size: int, fit: Fit) returns (c: int)
      requires Valid() && Aligned(size) && MIN_ALLOC <= size && !fit.Nothing? && BestFit(size, fit.chunk)
      requires fit.Bigger? <==> MIN_ALLOC <= g.chunks[fit.chunk].size - size
      modifies this`mem, this`g, mBinBlocks
      ensures Valid() && c == fit.chunk && g == old(g).(chunks := g.chunks, bins := g.bins)
      ensures var had := old(g).chunks[c].size;
        Live(g.chunks) == Live(old(g).chunks)[c := Chunk(if MIN_ALLOC <= had - size then size else had, true,
          old(g).chunks[c].area)]
      ensures OnlyHeadersOr(old(mem), mem, old(g).chunks, g.areas, c)
    {
      c := fit.chunk;
      ghost var free := FreeSet(g.chunks);
      WordParts(mem, g.chunks, g.areas, c);
      UnlinkFree(c, free);
      FramedSameSizes(old(mem), mem, g.chunks, g.areas, {});
      ghost var m1 := mem;
      if fit.Bigger? {
        var rest := ToInt32(SizeBits(At(mem, c).size) - size);
        FreeSizes(mem, g.chunks, g.areas);
        TakeFront(c, size, rest, free - {c});
      } else {
        TakeWhole(c, free - {c});
      }
      LinksThenHeaders(old(mem), m1, mem, free - {c}, old(g).chunks, g.areas, c);
    }

    /** `NewArea` when the chunk of the area is put to use next. */
    method OpenArea(areaSize: int, os: int) returns (c: int)
      requires Valid() && os != 0 && RoomFor(g.areas, AlignUp(os), areaSize)
      requires Aligned(areaSize) && MIN_ALLOC <= areaSize <= MAX_INT32
      modifies this`mem, this`hdrs, this`mAreas, this`g
      ensures SteadyWith(FreeSet(old(g).chunks)) && Coalesced(g.chunks)
      ensures g == WithArea(old(g), AlignUp(os), areaSize, os) && mAreas == AlignUp(os) != 0
      ensures c == First(AlignUp(os)) && c !in old(g).chunks && AlignUp(os) !in old(g).areas
      ensures FreeSet(g.chunks) - {c} == FreeSet(old(g).chunks) && Live(g.chunks) == Live(old(g).chunks)
      ensures OnlyHeaders(old(mem), mem, g.chunks, g.areas)
    {
      AddCoalesced(g.chunks, g.areas, AlignUp(os), areaSize);
      var area := NewArea(areaSize, os, FreeSet(g.chunks));
      c := First(area);
    }

    /** A new area is split more closely than the least chunk size allows. */
    predicate SplitsTooClosely(size: int) {
      !(mAreaMoreSize != 0 && size > mAreaMoreSize) && AreaRequest(size) - size < MIN_ALLOC
    }

    /** The chunk `c` of a new area is split, or used whole when the area was made to measure. */
    method UseArea(c: int, size: int, ghost free: set<int>)
      requires SteadyWith(free) && Coalesced(g.chunks) && free == FreeSet(g.chunks) - {c}
      requires mAreas != 0 && c == First(mAreas) && c in g.chunks && !g.chunks[c].used
      requires Aligned(size) && MIN_ALLOC <= size <= g.chunks[c].size == AreaRequest(size) <= MAX_INT32
      modifies this`mem, this`g, mBinBlocks
      ensures g == old(g).(chunks := g.chunks, bins := g.bins)
      ensures Valid() <==> !SplitsTooClosely(size)
      ensures !SplitsTooClosely(size) ==> Live(g.chunks) == Live(old(g).chunks)[c := Chunk(size, true,
        old(g).chunks[c].area)]
      ensures OnlyHeadersOr(old(mem), mem, old(g).chunks, g.areas, c)
    {
      if mAreaMoreSize != 0 && size > mAreaMoreSize {
        TakeWhole(c, free);
      } else {
        var rest := ToInt32(AreaRequest(size) - size);
        TakeFront(c, size, rest, free);
        if rest < MIN_ALLOC {
          AlignedDifference(AreaRequest(size), size);
          ShortRemainderBreaks(mem, hdrs, mBinBlocks[..], mAreas, g, size, rest);
        }
      }
    }

    /** A new area is opened for the block. */
    method AllocFromArea(size: int, os: int) returns (c: int)
      requires Valid() && Aligned(size) && MIN_ALLOC <= size <= MAX_INT32 && !MayNotGrow(size)
      requires os != 0 && RoomFor(g.areas, AlignUp(os), AreaRequest(size))
      modifies this`mem, this`hdrs, this`mAreas, this`g, mBinBlocks
      ensures var a := AlignUp(os);
        && c == First(a) && a !in old(g).areas && c !in old(g).chunks
        && g.areas == old(g).areas[a := AreaRequest(size)] && g.held == old(g).held + {os}
      ensures Valid() <==> !SplitsTooClosely(size)
      ensures !SplitsTooClosely(size) ==> Live(g.chunks) == Live(old(g).chunks)[c := Chunk(size, true, AlignUp(os))]
      ensures forall p :: p in Live(old(g).chunks) ==> Untouched(old(mem), mem, p, old(g).chunks[p].size)
    {
      c := OpenArea(AreaRequest(size), os);
      ghost var m1, g1 := mem, g;
      UseArea(c, size, FreeSet(old(g).chunks));
      NewAreaPayloads(old(mem), m1, mem, Live(old(g).chunks), g1.chunks, g1.areas, c);
    }

    /** Allocates a block of at least `inReqSize` bytes. `os` is what the callback returns if it is asked for an
        area. */
    method Alloc(inReqSize: nat, os: int) returns (r: Result)
      requires Valid() && inReqSize <= MAX_REQUEST
      requires os != 0 ==> RoomFor(g.areas, AlignUp(os), AreaRequest(RequestToSize(inReqSize)))
      modifies this`mem, this`hdrs, this`mAreas, this`g, mBinBlocks
      // It fails exactly when nothing fits and no area is to be had, and then changes nothing.
      ensures r.Thrown? <==> old(NoFit(RequestToSize(inReqSize)) && (MayNotGrow(RequestToSize(inReqSize)) || os == 0))
      ensures r.Thrown? <==>
        && (forall p :: p in old(g).chunks && !old(g).chunks[p].used ==>
             old(g).chunks[p].size < RequestToSize(inReqSize))
        && (os == 0 || (mAreaMoreSize == 0 && (old(g).areas != map[] || mAreaInitSize < RequestToSize(inReqSize))))
      ensures r.Thrown? ==>
        mem == old(mem) && hdrs == old(hdrs) && mAreas == old(mAreas) && g == old(g)
          && mBinBlocks[..] == old(mBinBlocks[..])
      // It is a best fit, and keeps less than a least chunk of excess.
      ensures r.Returned? && !old(NoFit(RequestToSize(inReqSize))) ==>
        && var c, size := r.ptr - HEADER, RequestToSize(inReqSize);
        && old(BestFit(size, c)) && g.areas == old(g).areas && g.held == old(g).held && mAreas == old(mAreas)
        && var had := old(g).chunks[c].size;
        Live(g.chunks) == Live(old(g).chunks)[c := Chunk(if MIN_ALLOC <= had - size then size else had, true,
          old(g).chunks[c].area)]
      ensures r.Returned? && old(NoFit(RequestToSize(inReqSize))) ==>
        && var c, a, size := r.ptr - HEADER, AlignUp(os), RequestToSize(inReqSize);
        && c == First(a) && a !in old(g).areas && c !in old(g).chunks
        && g.areas == old(g).areas[a := AreaRequest(size)] && g.held == old(g).held + {os}
        && (!old(ShortSplit(size)) ==> Live(g.chunks) == Live(old(g).chunks)[c := Chunk(size, true, a)])
      // A pool that cannot grow opens its one area; others ask for the growth, or for the size if that is more.
      ensures r.Returned? && old(NoFit(RequestToSize(inReqSize))) ==>
        && var size, n := RequestToSize(inReqSize), g.areas[AlignUp(os)];
        if mAreaMoreSize == 0 then n == mAreaInitSize && old(g).areas == map[]
        else size <= n && mAreaMoreSize <= n && (n == size || n == mAreaMoreSize)
      // The pool stays in order except in the one case in which a new area is split too closely.
      ensures Valid() <==> r.Thrown? || !old(ShortSplit(RequestToSize(inReqSize)))
      ensures forall p :: p in Live(old(g).chunks) ==> Untouched(old(mem), mem, p, old(g).chunks[p].size)
    {
      var size := RequestToSize(inReqSize);
      ghost var free := FreeSet(g.chunks);
      MayNotGrowIs(size);
      FreeSizes(mem, g.chunks, g.areas);
      var fit := FindFit(size, free);
      if !fit.Nothing? {
        var c := AllocFromBins(size, fit);
        forall p | p in Live(old(g).chunks) ensures Untouched(old(mem), mem, p, old(g).chunks[p].size) {
          OtherPayloadsKept(old(mem), mem, old(g).chunks, g.areas, c, p);
        }
        return Returned(c + HEADER);
      }
      if mAreaMoreSize == 0 {
        if mAreas != 0 || size > mAreaInitSize { return Thrown; }
      }
      if os == 0 { return Thrown; }
      var c := AllocFromArea(size, os);
      return Returned(c + HEADER);
    }

    /** Freeing a block at once after it was taken from the bins brings the free chunks back as they were, except that
        a growable pool gives an area back that holds nothing else. */
    method AllocThenFree(inReqSize: nat, os: int) returns (r: Result)
      requires Valid() && inReqSize <= MAX_REQUEST && !NoFit(RequestToSize(inReqSize))
      requires os != 0 ==> RoomFor(g.areas, AlignUp(os), AreaRequest(RequestToSize(inReqSize)))
      modifies this`mem, this`hdrs, this`mAreas, this`g, mBinBlocks
      ensures Valid() && Live(g.chunks) == Live(old(g).chunks)
      ensures r.Returned? && old(BestFit(RequestToSize(inReqSize), r.ptr - HEADER))
      ensures var a := old(g).chunks[r.ptr - HEADER].area;
        if mAreaMoreSize != 0 && AreaUnused(Live(old(g).chunks), a) then g.areas == old(g).areas - {a}
        else g.areas == old(g).areas && g.chunks == old(g).chunks
    {
      r := Alloc(inReqSize, os);
      ghost var c := r.ptr - HEADER;
      ghost var live, now := Live(old(g).chunks), Live(g.chunks);
      assert c in now && c !in live && now == live[c := now[c]];
      PutAndRemoved(live, c, now[c]);
      assert ChunkOk(g.chunks, g.areas, c) && AreaOk(g.areas, g.chunks[c].area);
      Free(r.ptr);
      if g.areas == old(g).areas { HistoryIndependent(g.chunks, old(g).chunks, g.areas); }
    }

    /** Freeing the live chunk that follows a live chunk of the same area. */
    method FreeRemainder(c: int, remainder: int)
      requires Valid() && c in g.chunks && remainder in g.chunks && c != remainder && g.chunks[c].used
        && g.chunks[remainder].used
      requires g.chunks[c].area == g.chunks[remainder].area && c + g.chunks[c].size == remainder
      modifies this`mem, this`hdrs, this`mAreas, this`g, mBinBlocks
      ensures Valid() && g.areas == old(g).areas && g.held == old(g).held
        && Live(g.chunks) == Live(old(g).chunks) - {remainder}
      ensures OnlyHeaders(old(mem), mem, old(g).chunks, g.areas)
      ensures var e := remainder + old(g).chunks[remainder].size;
        (e in old(g).chunks ==> old(g).chunks[e].used) ==> At(mem, remainder).size == old(g).chunks[remainder].size
    {
      ghost var r := Mark(g.chunks, remainder, false);
      var a := g.chunks[remainder].area;
      MarkTiled(g.chunks, g.areas, remainder, false);
      assert ChunkOk(g.chunks, g.areas, remainder) && AreaOk(g.areas, a);
      Free(remainder + HEADER);
      assert c in Live(g.chunks) && Live(g.chunks)[c].area == a;
      ghost var e := remainder + old(g).chunks[remainder].size;
      if e in old(g).chunks ==> old(g).chunks[e].used {
        MarkedAlone(old(g).chunks, old(g).areas, c, remainder);
        HistoryIndependent(g.chunks, r, g.areas);
        assert HeaderOk(mem, g.chunks, remainder);
      }
    }

    /** The headers of a joined chunk that is split into two live ones. */
    method SplitJoined(p: int, c: int, total: int, size: int, ghost joinPrev: bool, ghost joinNext: bool,
                       ghost free: set<int>)
      requires SteadyWith(free) && Touches(g.chunks, g.areas, p, c, joinPrev, joinNext)
      requires free
        == FreeSet(g.chunks) - (if joinPrev then {c} else {}) - (if joinNext then {p + g.chunks[p].size} else {})
      requires total == FreedSize(g.chunks, p, c, joinPrev, joinNext)
      requires Aligned(size) && MIN_ALLOC <= size && MIN_ALLOC <= total - size
      modifies this`mem, this`g
      ensures Valid() && g == old(g).(chunks := g.chunks)
      ensures SplitAs(old(g).chunks, g.chunks, p, c, total, size)
      ensures ChangedForFront(old(mem), mem, old(g).chunks, g.areas, c, total, size)
    {
      ghost var s := JoinedSplit(mem, hdrs, mBinBlocks[..], mAreas, g, free, p, c, joinPrev, joinNext, total, size);
      JoinedCells(mem, g.chunks, g.areas, p, c, joinPrev, joinNext, size);
      mem := SplitHeaders(mem, c, size, total - size);
      g := g.(chunks := s);
    }

    /** A joined chunk goes into use whole. */
    method KeepWhole(p: int, c: int, total: int, ghost joinPrev: bool, ghost joinNext: bool, ghost free: set<int>)
      requires SteadyWith(free) && Touches(g.chunks, g.areas, p, c, joinPrev, joinNext)
      requires free
        == FreeSet(g.chunks) - (if joinPrev then {c} else {}) - (if joinNext then {p + g.chunks[p].size} else {})
      requires total == FreedSize(g.chunks, p, c, joinPrev, joinNext)
      modifies this`mem, this`g
      ensures Valid() && g == old(g).(chunks := g.chunks)
      ensures Live(g.chunks) == (Live(old(g).chunks) - {p})[c := Chunk(total, true, old(g).chunks[p].area)]
      ensures OnlyHeaders(old(mem), mem, old(g).chunks, g.areas)
    {
      ghost var r := JoinedWhole(mem, hdrs, mBinBlocks[..], mAreas, g, free, p, c, joinPrev, joinNext);
      mem := SetSize(mem, c, total, total + IN_USE);
      g := g.(chunks := r);
    }

    /** `split`: the joined chunk at `c` goes into use, and what `size` leaves over of it is split off and freed. */
    method KeepFront(p: int, c: int, total: int, size: int, ghost joinPrev: bool, ghost joinNext: bool,
                     ghost free: set<int>)
      requires SteadyWith(free) && Touches(g.chunks, g.areas, p, c, joinPrev, joinNext)
      requires free
        == FreeSet(g.chunks) - (if joinPrev then {c} else {}) - (if joinNext then {p + g.chunks[p].size} else {})
      requires total == FreedSize(g.chunks, p, c, joinPrev, joinNext)
      requires Aligned(size) && MIN_ALLOC <= size <= total
      modifies this`mem, this`hdrs, this`mAreas, this`g, mBinBlocks
      ensures Valid() && g.areas == old(g).areas && g.held == old(g).held
      ensures Live(g.chunks) == (Live(old(g).chunks) - {p})[c := Chunk(Kept(total, size), true, old(g).chunks[p].area)]
      ensures ChangedForFront(old(mem), mem, old(g).chunks, g.areas, c, total, size)
      ensures MIN_ALLOC <= total - size && (c + total in old(g).chunks ==> old(g).chunks[c + total].used) ==>
        At(mem, c + size).size == total - size
    {
      if total - size >= MIN_ALLOC {
        SplitJoined(p, c, total, size, joinPrev, joinNext, free);
        ghost var m1, s := mem, g.chunks;
        FreeRemainder(c, c + size);
        FrontChanges(old(mem), m1, mem, old(g).chunks, s, g.areas, c, total, size);
      } else {
        KeepWhole(p, c, total, joinPrev, joinNext, free);
      }
    }

    /** Takes over free neighbours of the block at `p` and keeps `size` bytes from `c` on. */
    method JoinAndKeep(p: int, c: int, total: int, size: int, joinPrev: bool, joinNext: bool)
      requires Valid() && Touches(g.chunks, g.areas, p, c, joinPrev, joinNext)
      requires joinPrev && joinNext ==> c != p + g.chunks[p].size
      requires total == FreedSize(g.chunks, p, c, joinPrev, joinNext)
      requires Aligned(size) && MIN_ALLOC <= size <= total
      modifies this`mem, this`hdrs, this`mAreas, this`g, mBinBlocks
      ensures Valid() && g.areas == old(g).areas && g.held == old(g).held
      ensures Live(g.chunks) == (Live(old(g).chunks) - {p})[c := Chunk(Kept(total, size), true, old(g).chunks[p].area)]
      ensures ChangedForFront(old(mem), mem, old(g).chunks, g.areas, c, total, size)
      ensures MIN_ALLOC <= total - size && (c + total in old(g).chunks ==> old(g).chunks[c + total].used) ==>
        At(mem, c + size).size == total - size
    {
      ghost var free := FreeSet(g.chunks);
      WordParts(mem, g.chunks, g.areas, p);
      free := UnlinkIf(joinNext, p + SizeBits(At(mem, p).size), free);
      ghost var m1 := mem;
      free := UnlinkIf(joinPrev, c, free);
      ghost var m2 := mem;
      FramedSameSizes(old(mem), mem, g.chunks, g.areas, {});
      assert free
        == FreeSet(g.chunks) - (if joinPrev then {c} else {}) - (if joinNext then {p + g.chunks[p].size} else {});
      KeepFront(p, c, total, size, joinPrev, joinNext, free);
      LinksThenFront(m1, m2, mem, free, old(g).chunks, g.areas, c, total, size);
      LinksThenFront(old(mem), m1, mem, FreeSet(old(g).chunks), old(g).chunks, g.areas, c, total, size);
    }

    /** `split` for a block that stays where it is. */
    method KeepInPlace(p: int, total: int, size: int, joinNext: bool)
      requires Valid() && Touches(g.chunks, g.areas, p, p, false, joinNext)
        && total == FreedSize(g.chunks, p, p, false, joinNext)
      requires Aligned(size) && MIN_ALLOC <= size <= total
      modifies this`mem, this`hdrs, this`mAreas, this`g, mBinBlocks
      ensures Valid() && Resized(old(mem), mem, Live(old(g).chunks), Live(g.chunks), p, p, size, InPlace(total))
    {
      JoinAndKeep(p, p, total, size, false, joinNext);
      KeptWell(old(mem), mem, old(g).chunks, old(g).areas, p, joinNext, total, size);
    }

    method MemMove(dst: int, src: int, len: int)
      modifies this`mem
      ensures IsMoved(old(mem), mem, dst, src, len)
    {
      mem := Moved(mem, dst, src, len);
    }

    /** `alloc_prev`: the block moves to the front of the free chunk before it. */
    method MoveBack(p: int, c: int, total: int, size: int, oldsize: int, joinNext: bool, ghost way: Way)
      requires Valid() && Touches(g.chunks, g.areas, p, c, true, joinNext) && oldsize == g.chunks[p].size < size
      requires joinNext ==> c != p + g.chunks[p].size
      requires total == FreedSize(g.chunks, p, c, true, joinNext)
        && (c + total in g.chunks ==> g.chunks[c + total].used)
      requires Aligned(size) && MIN_ALLOC <= size <= total && way == Backward(c, total)
      modifies this`mem, this`hdrs, this`mAreas, this`g, mBinBlocks
      ensures Valid() && Resized(old(mem), mem, Live(old(g).chunks), Live(g.chunks), p, c, size, way)
    {
      assert ChunkOk(g.chunks, g.areas, p);
      JoinAndKeep(p, c, total, size, true, joinNext);
      ghost var m1 := mem;
      assert c in Live(g.chunks);
      CopyPayload(c, p, oldsize);
      MovedBackResized(old(mem), m1, mem, old(g).chunks, old(g).areas, p, c, joinNext, total, size, Live(g.chunks));
    }

    /** What a client does with a block it holds: it writes into the payload. */
    method WritePayload(ptr: int, x: int, cell: Cell)
      requires Valid() && IsLive(ptr) && ptr <= x < ptr - HEADER + g.chunks[ptr - HEADER].size
      modifies this`mem
      ensures Valid() && mem == Store(old(mem), x, cell)
    {
      mem := Store(mem, x, cell);
      PayloadWrite(old(mem), mem, g.chunks, g.areas, g.bins, FreeSet(g.chunks), ptr - HEADER);
    }

    /** `Alloc`, as `Realloc` sees it: a new live block beside the ones there were. When a new area is split too closely
        the pool is out of order, but the block lies apart from the others all the same. */
    method AllocBlock(inReqSize: nat, os: int) returns (r: Result)
      requires Valid() && inReqSize <= MAX_REQUEST
      requires os != 0 ==> RoomFor(g.areas, AlignUp(os), AreaRequest(RequestToSize(inReqSize)))
      modifies this`mem, this`hdrs, this`mAreas, this`g, mBinBlocks
      ensures r.Thrown? <==> old(NoFit(RequestToSize(inReqSize)) && (MayNotGrow(RequestToSize(inReqSize)) || os == 0))
      ensures r.Thrown? ==>
        mem == old(mem) && hdrs == old(hdrs) && mAreas == old(mAreas) && g == old(g)
          && mBinBlocks[..] == old(mBinBlocks[..])
      ensures Valid() <==> r.Thrown? || !old(ShortSplit(RequestToSize(inReqSize)))
      ensures r.Returned? ==>
        forall q :: q in Live(old(g).chunks) ==>
          q + old(g).chunks[q].size <= r.ptr - HEADER || r.ptr - HEADER + RequestToSize(inReqSize) <= q
      ensures r.Returned? ==> r.ptr - HEADER !in Live(old(g).chunks)
      ensures r.Returned? && Valid() ==>
        && var c, size := r.ptr - HEADER, RequestToSize(inReqSize);
        && c in Live(g.chunks) && Live(g.chunks) - {c} == Live(old(g).chunks)
        && size <= g.chunks[c].size < size + MIN_ALLOC
      ensures forall p :: p in Live(old(g).chunks) ==> Untouched(old(mem), mem, p, old(g).chunks[p].size)
    {
      ghost var chunks, areas, size := g.chunks, g.areas, RequestToSize(inReqSize);
      ghost var grows := NoFit(size);
      r := Alloc(inReqSize, os);
      if r.Returned? {
        ghost var c := r.ptr - HEADER;
        if grows {
          AreaApart(chunks, areas, AlignUp(os), AreaRequest(size), size);
        } else {
          FreeApart(chunks, areas, c, size);
        }
      }
    }

    /** The block is copied to new room; what remains is to free the old one. A new area may be split too closely
        here, and the contents come along nevertheless. */
    method CopyUntilFree(p: int, inReqSize: nat, os: int) returns (r: Result)
      requires Valid() && p in Live(g.chunks) && inReqSize <= MAX_REQUEST && g.chunks[p].size < RequestToSize(inReqSize)
      requires os != 0 ==> RoomFor(g.areas, AlignUp(os), AreaRequest(RequestToSize(inReqSize)))
      modifies this`mem, this`hdrs, this`mAreas, this`g, mBinBlocks
      ensures r.Thrown? <==> old(NoFit(RequestToSize(inReqSize)) && (MayNotGrow(RequestToSize(inReqSize)) || os == 0))
      ensures r.Thrown? ==>
        mem == old(mem) && hdrs == old(hdrs) && mAreas == old(mAreas) && g == old(g)
          && mBinBlocks[..] == old(mBinBlocks[..])
      ensures r.Returned? ==>
        && r.ptr - HEADER !in Live(old(g).chunks)
        && (forall q :: q in Live(old(g).chunks) ==> Untouched(old(mem), mem, q, old(g).chunks[q].size))
        && Carried(old(mem), mem, p, r.ptr - HEADER, old(g).chunks[p].size)
      ensures r.Thrown? || !old(ShortSplit(RequestToSize(inReqSize))) ==> Valid()
      ensures r.Returned? && !old(ShortSplit(RequestToSize(inReqSize))) ==>
        && var c, size := r.ptr - HEADER, RequestToSize(inReqSize);
        && c in Live(g.chunks) && Live(g.chunks) - {c} == Live(old(g).chunks)
        && size <= g.chunks[c].size < size + MIN_ALLOC
    {
      ghost var live := Live(g.chunks);
      var oldsize := SizeBits(At(mem, p).size);
      WordParts(mem, g.chunks, g.areas, p);
      assert ChunkOk(g.chunks, g.areas, p);
      r := AllocBlock(inReqSize, os);
      if r.Returned? {
        var c := r.ptr - HEADER;
        ghost var m1 := mem;
        CopyPayload(c, p, oldsize);
        CopiedOver(old(mem), m1, mem, live, p, c);
      }
    }

    /** `memcpy` or `memmove` of a payload into the room of a block. */
    method CopyPayload(c: int, p: int, len: int)
      requires HEADER <= len && (Valid() ==> c in g.chunks && g.chunks[c].used && len <= g.chunks[c].size)
      modifies this`mem
      ensures old(Valid()) ==> Valid()
      ensures IsMoved(old(mem), mem, c + HEADER, p + HEADER, len - HEADER)
    {
      ghost var inOrder := Valid();
      MemMove(c + HEADER, p + HEADER, len - HEADER);
      if inOrder { PayloadWrite(old(mem), mem, g.chunks, g.areas, g.bins, FreeSet(g.chunks), c); }
    }

    /** `Free` of a live block, known by its header. */
    method FreeOld(p: int)
      requires Valid() && p in Live(g.chunks)
      modifies this`mem, this`hdrs, this`mAreas, this`g, mBinBlocks
      ensures Valid() && Live(g.chunks) == Live(old(g).chunks) - {p}
      ensures OnlyHeaders(old(mem), mem, old(g).chunks, old(g).areas)
    {
      assert ChunkOk(g.chunks, g.areas, p) && AreaOk(g.areas, g.chunks[p].area);
      Free(p + HEADER);
    }

    /** The block is copied to new room, and the old one freed. */
    method CopyElsewhere(p: int, inReqSize: nat, os: int) returns (r: Result)
      requires Valid() && p in Live(g.chunks) && inReqSize <= MAX_REQUEST && g.chunks[p].size < RequestToSize(inReqSize)
      requires os != 0 ==> RoomFor(g.areas, AlignUp(os), AreaRequest(RequestToSize(inReqSize)))
      requires !ShortSplit(RequestToSize(inReqSize))
      modifies this`mem, this`hdrs, this`mAreas, this`g, mBinBlocks
      ensures r.Thrown? <==> old(NoFit(RequestToSize(inReqSize)) && (MayNotGrow(RequestToSize(inReqSize)) || os == 0))
      ensures r.Thrown? ==>
        mem == old(mem) && hdrs == old(hdrs) && mAreas == old(mAreas) && g == old(g)
          && mBinBlocks[..] == old(mBinBlocks[..])
      ensures Valid()
      ensures r.Returned? ==>
        Resized(old(mem), mem, Live(old(g).chunks), Live(g.chunks), p, r.ptr - HEADER, RequestToSize(inReqSize),
          Elsewhere)
    {
      ghost var live := Live(g.chunks);
      r := CopyUntilFree(p, inReqSize, os);
      if r.Returned? {
        ghost var c := r.ptr - HEADER;
        ghost var m2, chunks, areas := mem, g.chunks, g.areas;
        assert c in Live(chunks) && p in Live(chunks) - {c};
        FreeOld(p);
        FreedAfterCopy(old(mem), m2, mem, live, chunks, areas, p, c, RequestToSize(inReqSize));
      }
    }

    /** Resizes a block where it stands or into the free chunk before it, or returns 0 and changes nothing. */
    method ResizeNearby(p: int, size: int) returns (c: int)
      requires Valid() && p in Live(g.chunks) && Aligned(size) && MIN_ALLOC <= size
      modifies this`mem, this`hdrs, this`mAreas, this`g, mBinBlocks
      ensures c == 0 <==> WayOf(old(mem), p, size).Elsewhere?
      ensures c == 0 ==>
        mem == old(mem) && hdrs == old(hdrs) && mAreas == old(mAreas) && g == old(g)
          && mBinBlocks[..] == old(mBinBlocks[..])
      ensures Valid()
      ensures c != 0 ==> Resized(old(mem), mem, Live(old(g).chunks), Live(g.chunks), p, c, size,
        WayOf(old(mem), p, size))
    {
      ReadWay(mem, g.chunks, g.areas, p);
      assert ChunkOk(g.chunks, g.areas, p) && AreaOk(g.areas, g.chunks[p].area);
      var oldsize := SizeBits(At(mem, p).size);
      if oldsize >= size {
        KeepInPlace(p, oldsize, size, false);
        return p;
      }
      // The next chunk may give enough room.
      var next := p + oldsize;
      if !InUseBit(At(mem, next).size) {
        var nextsize := SizeBits(At(mem, next).size);
        if nextsize + oldsize >= size {
          KeepInPlace(p, oldsize + nextsize, size, true);
          return p;
        }
      }
      c := ResizeBackward(p, size, WayOf(mem, p, size));
    }

    /** Moves a block into the free chunk before it, taking the next one as well where that saves a join. */
    method ResizeBackward(p: int, size: int, ghost way: Way) returns (c: int)
      requires Valid() && p in Live(g.chunks) && Aligned(size) && MIN_ALLOC <= size
      requires way == WayOf(mem, p, size) && !way.InPlace?
      modifies this`mem, this`hdrs, this`mAreas, this`g, mBinBlocks
      ensures c == 0 <==> way.Elsewhere?
      ensures c == 0 ==>
        mem == old(mem) && hdrs == old(hdrs) && mAreas == old(mAreas) && g == old(g)
          && mBinBlocks[..] == old(mBinBlocks[..])
      ensures Valid()
      ensures c != 0 ==> Resized(old(mem), mem, Live(old(g).chunks), Live(g.chunks), p, c, size, way)
    {
      ReadWay(mem, g.chunks, g.areas, p);
      var oldsize := SizeBits(At(mem, p).size);
      var next := p + oldsize;
      var nextFree := !InUseBit(At(mem, next).size);
      var nextsize := if nextFree then SizeBits(At(mem, next).size) else 0;
      var prevsize := SizeBits(At(mem, p).prevSize);
      var prev := p - prevsize;
      if !InUseBit(At(mem, prev).size) {
        assert ChunkOk(g.chunks, g.areas, prev) && AreaOk(g.areas, g.chunks[prev].area);
        if nextFree && nextsize + prevsize + oldsize >= size {
          MoveBack(p, prev, oldsize + nextsize + prevsize, size, oldsize, true, way);
          return prev;
        }
        if prevsize + oldsize >= size {
          MoveBack(p, prev, oldsize + prevsize, size, oldsize, false, way);
          return prev;
        }
      }
      return 0;
    }

    /** Resizes a live block: in place, by moving it to the front of a free neighbour, or by copying it elsewhere. */
    method Realloc(inPtr: int, inReqSize: nat, os: int) returns (r: Result)
      requires Valid() && inReqSize <= MAX_REQUEST && (inPtr != 0 ==> IsLive(inPtr))
      requires os != 0 ==> RoomFor(g.areas, AlignUp(os), AreaRequest(RequestToSize(inReqSize)))
      requires inPtr == 0 || WayOf(mem, inPtr - HEADER, RequestToSize(inReqSize)).Elsewhere? ==>
        !ShortSplit(RequestToSize(inReqSize))
      modifies this`mem, this`hdrs, this`mAreas, this`g, mBinBlocks
      ensures Valid()
      ensures r.Thrown? <==>
        old((inPtr == 0 || WayOf(mem, inPtr - HEADER, RequestToSize(inReqSize)).Elsewhere?)
          && NoFit(RequestToSize(inReqSize))
            && (MayNotGrow(RequestToSize(inReqSize)) || os == 0))
      ensures r.Thrown? ==>
        mem == old(mem) && hdrs == old(hdrs) && mAreas == old(mAreas) && g == old(g)
          && mBinBlocks[..] == old(mBinBlocks[..])
      ensures r.Returned? && inPtr == 0 ==>
        && var c, size := r.ptr - HEADER, RequestToSize(inReqSize);
        && c in Live(g.chunks) && c !in Live(old(g).chunks) && Live(g.chunks) - {c} == Live(old(g).chunks)
        && size <= g.chunks[c].size < size + MIN_ALLOC
        && (forall q :: q in Live(old(g).chunks) ==> Untouched(old(mem), mem, q, old(g).chunks[q].size))
      // Contents come along, unless the header of a remainder was written over them before they were moved.
      ensures r.Returned? && inPtr != 0 ==>
        && var p, size := inPtr - HEADER, RequestToSize(inReqSize);
        Resized(old(mem), mem, Live(old(g).chunks), Live(g.chunks), p, r.ptr - HEADER, size, WayOf(old(mem), p, size))
      // By the chunks that there are: which way it goes, and when it is refused.
      ensures inPtr != 0 ==>
        Housed(old(g).chunks, g.chunks, inPtr - HEADER, RequestToSize(inReqSize), r, os == 0 || mAreaMoreSize == 0)
    {
      if inPtr == 0 {
        r := AllocBlock(inReqSize, os);
        return;
      }
      r := ReallocBlock(inPtr - HEADER, inReqSize, os);
    }

    /** The same for a live block. */
    method ReallocBlock(p: int, inReqSize: nat, os: int) returns (r: Result)
      requires Valid() && inReqSize <= MAX_REQUEST && p in Live(g.chunks)
      requires os != 0 ==> RoomFor(g.areas, AlignUp(os), AreaRequest(RequestToSize(inReqSize)))
      requires WayOf(mem, p, RequestToSize(inReqSize)).Elsewhere? ==> !ShortSplit(RequestToSize(inReqSize))
      modifies this`mem, this`hdrs, this`mAreas, this`g, mBinBlocks
      ensures Valid()
      ensures r.Thrown? <==>
        old(WayOf(mem, p, RequestToSize(inReqSize)).Elsewhere? && NoFit(RequestToSize(inReqSize))
          && (MayNotGrow(RequestToSize(inReqSize)) || os == 0))
      ensures r.Thrown? ==>
        mem == old(mem) && hdrs == old(hdrs) && mAreas == old(mAreas) && g == old(g)
          && mBinBlocks[..] == old(mBinBlocks[..])
      ensures r.Returned? ==>
        && var size := RequestToSize(inReqSize);
        Resized(old(mem), mem, Live(old(g).chunks), Live(g.chunks), p, r.ptr - HEADER, size, WayOf(old(mem), p, size))
      ensures Housed(old(g).chunks, g.chunks, p, RequestToSize(inReqSize), r, os == 0 || mAreaMoreSize == 0)
    {
      ghost var size, live, chunks := RequestToSize(inReqSize), Live(g.chunks), g.chunks;
      ghost var way := WayOf(mem, p, size);
      GrowsNever(p, size);
      WayMeans(mem, chunks, g.areas, p, size);
      r := Rehoused(p, inReqSize, os);
      if r.Returned? && !way.Elsewhere? { HoldsKept(old(mem), mem, live, g.chunks, p, r.ptr - HEADER, size, way); }
      IsHoused(chunks, old(g).areas, g.chunks, p, size, way, r, os == 0 || mAreaMoreSize == 0);
    }

    lemma GrowsNever(p: int, size: int)
      requires Valid() && p in g.chunks
      ensures MayNotGrow(size) <==> mAreaMoreSize == 0
    {
      MayNotGrowIs(size);
      assert ChunkOk(g.chunks, g.areas, p);
    }

    /** A live block is resized where it stands or next to it, and copied elsewhere if that cannot be. */
    method Rehoused(p: int, inReqSize: nat, os: int) returns (r: Result)
      requires Valid() && inReqSize <= MAX_REQUEST && p in Live(g.chunks)
      requires os != 0 ==> RoomFor(g.areas, AlignUp(os), AreaRequest(RequestToSize(inReqSize)))
      requires WayOf(mem, p, RequestToSize(inReqSize)).Elsewhere? ==> !ShortSplit(RequestToSize(inReqSize))
      modifies this`mem, this`hdrs, this`mAreas, this`g, mBinBlocks
      ensures Valid()
      ensures r.Thrown? <==>
        old(WayOf(mem, p, RequestToSize(inReqSize)).Elsewhere? && NoFit(RequestToSize(inReqSize))
          && (MayNotGrow(RequestToSize(inReqSize)) || os == 0))
      ensures r.Thrown? ==>
        mem == old(mem) && hdrs == old(hdrs) && mAreas == old(mAreas) && g == old(g)
          && mBinBlocks[..] == old(mBinBlocks[..])
      ensures r.Returned? ==>
        && var size := RequestToSize(inReqSize);
        Resized(old(mem), mem, Live(old(g).chunks), Live(g.chunks), p, r.ptr - HEADER, size, WayOf(old(mem), p, size))
    {
      assert ChunkOk(g.chunks, g.areas, p);
      var c := ResizeNearby(p, RequestToSize(inReqSize));
      if c != 0 {
        r := Returned(c + HEADER);
      } else {
        WordParts(mem, g.chunks, g.areas, p);
        r := CopyElsewhere(p, inReqSize, os);
      }
    }
  }

  /** What becomes of a block at `p` that is to have `size` bytes. It stays if it has room, alone or with a free chunk
      behind it. Else it moves to a free chunk before it, if all these together have room. It is refused if they have
      not, no free chunk has, and no area is to be had. */
  ghost predicate Housed(chunks: Chunks, now: Chunks, p: int, size: int, r: Result, noArea: bool) {
    p in chunks
    && var had, e := chunks[p].size, p + chunks[p].size;
    var room := had + if e in chunks && !chunks[e].used then chunks[e].size else 0;
    && (size <= room ==> r == Returned(p + HEADER) && Holds(now, p, if size <= had then had else room, size))
    && (forall q :: q in chunks && !chunks[q].used && q + chunks[q].size == p && room < size ==>
         size <= chunks[q].size + room ==>
         r == Returned(q + HEADER) && Holds(now, q, chunks[q].size + room, size))
    && (r.Thrown? <==> noArea && room < size && forall q :: q in chunks && !chunks[q].used ==>
         chunks[q].size < size && (q + chunks[q].size == p ==> chunks[q].size + room < size))
  }

  /** A live chunk at `c` with `size` of `total` bytes, or all of them if a least chunk is not left over. */
  ghost predicate Holds(now: Chunks, c: int, total: int, size: int) {
    c in now && now[c].used && now[c].size == if MIN_ALLOC <= total - size then size else total
  }

  lemma IsHoused(chunks: Chunks, areas: Areas, now: Chunks, p: int, size: int, way: Way, r: Result, noArea: bool)
    requires Tiled(chunks, areas) && p in chunks && WayIs(chunks, p, size, way)
    requires r.Thrown? <==> way.Elsewhere? && noArea && forall q :: q in FreeSet(chunks) ==> chunks[q].size < size
    requires r.Returned? ==> match way
      case InPlace(total) => r.ptr - HEADER == p && Holds(now, p, total, size)
      case Backward(c, total) => r.ptr - HEADER == c && Holds(now, c, total, size)
      case Elsewhere => true
    ensures Housed(chunks, now, p, size, r, noArea)
  {
    var e := p + chunks[p].size;
    assert e in chunks ==> ChunkOk(chunks, areas, e);
    forall q | q in chunks && !chunks[q].used && q + chunks[q].size == p ensures WayBehind(chunks, p, q, size, way) {
      if way.Backward? { OneBefore(chunks, areas, p, q, way.chunk); }
    }
    if way.Backward? { assert WayBehind(chunks, p, way.chunk, size, way); }
  }

  /** The way of a block behind the free chunk at `q`. */
  ghost predicate WayBehind(chunks: Chunks, p: int, q: int, size: int, way: Way)
    requires p in chunks && q in chunks
  {
    var e := p + chunks[p].size;
    var room := chunks[p].size + if e in chunks && !chunks[e].used then chunks[e].size else 0;
    room < size ==> way == if size <= chunks[q].size + room then Backward(q, chunks[q].size + room) else Elsewhere
  }

  lemma HoldsKept(m: Memory, m': Memory, live: Chunks, chunks: Chunks, p: int, c: int, size: int, way: Way)
    requires Resized(m, m', live, Live(chunks), p, c, size, way) && !way.Elsewhere?
    ensures Holds(chunks, c, way.total, size)
  {}

  ghost predicate SizeArg(size: int) {
    size == 0 || (Aligned(size) && MIN_ALLOC <= size <= MAX_INT32)
  }

  lemma PutAndRemoved(live: Chunks, c: int, b: Chunk)
    requires c !in live
    ensures live[c := b] - {c} == live
  {}

  lemma AlignedDifference(x: int, y: int)
    requires Aligned(x) && Aligned(y)
    ensures Aligned(x - y)
  {}
}

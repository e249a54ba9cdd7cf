/** What every call leaves true of a pool: headers, end markers, bins and the ring of areas describe one tiling. */
module PoolInvariant {
  import opened Basics
  import opened SizeClasses
  import opened ChunkMemory
  import opened ChunkTiling
  import opened FreeBins

  /** The header of an area, `AllocAreaHdr`. */
  datatype AreaHdr = AreaHdr(prev: int, next: int, size: int, raw: int)

  datatype Headers = Headers(known: map<int, AreaHdr>, blank: AreaHdr)

  function HdrAt(hdrs: Headers, a: int): AreaHdr {
    if a in hdrs.known then hdrs.known[a] else hdrs.blank
  }

  const IN_USE := 1

  /** The size word of a chunk: its size, with the low bit set while it is in use. */
  function Word(c: Chunk): int { if c.used then c.size + IN_USE else c.size }

  /** `word & kSizeBits` */
  function SizeBits(word: int): int { word - word % 2 }

  predicate InUseBit(word: int) { word % 2 == 1 }

  ghost predicate HeaderOk(m: Memory, chunks: Chunks, p: int)
    requires p in chunks
  {
    At(m, p).size == Word(chunks[p]) && At(m, p + chunks[p].size).prevSize == Word(chunks[p])
  }

  /** Outside `skip`, the size word of a chunk stands in its own header and in the header after it. */
  ghost predicate HeadersOk(m: Memory, chunks: Chunks, skip: set<int>) {
    forall p {:trigger HeaderOk(m, chunks, p)} :: p in chunks && p !in skip ==> HeaderOk(m, chunks, p)
  }

  ghost predicate MarkerOk(m: Memory, areas: Areas, a: int) {
    At(m, First(a)).prevSize == IN_USE && At(m, End(areas, a)).size == IN_USE
  }

  ghost predicate MarkersOk(m: Memory, areas: Areas) {
    forall a {:trigger MarkerOk(m, areas, a)} :: a in areas ==> MarkerOk(m, areas, a)
  }

  function Following(ring: seq<int>, i: int): int
    requires 0 <= i < |ring|
  {
    if i + 1 < |ring| then ring[i + 1] else ring[0]
  }

  /** `AlignUp`: the first aligned address from a raw block on. */
  function AlignUp(raw: int): (a: int)
    ensures Aligned(a) && raw <= a < raw + ALIGN
  {
    (raw + 63) / 64 * 64
  }

  ghost predicate AreaLinked(hdrs: Headers, ring: seq<int>, i: int)
    requires 0 <= i < |ring|
  {
    HdrAt(hdrs, ring[i]).next == Following(ring, i) && HdrAt(hdrs, Following(ring, i)).prev == ring[i]
  }

  /** The areas form one circular list that `mAreas` enters, and each remembers the raw block it lies in. */
  ghost predicate RingOk(hdrs: Headers, mAreas: int, ring: seq<int>, areas: Areas) {
    && Distinct(ring)
    && (forall a :: a in ring <==> a in areas)
    && mAreas == (if ring == [] then 0 else ring[0])
    && (forall i {:trigger AreaLinked(hdrs, ring, i)} :: 0 <= i < |ring| ==> AreaLinked(hdrs, ring, i))
    && (forall a :: a in areas ==> HdrAt(hdrs, a).size == areas[a] && AlignUp(HdrAt(hdrs, a).raw) == a)
  }

  /** The raw blocks the pool owes to the callback that takes areas back. */
  ghost function RawBlocks(hdrs: Headers, areas: Areas): set<int> {
    set a | a in areas :: HdrAt(hdrs, a).raw
  }

  function StoreHdr(hdrs: Headers, a: int, h: AreaHdr): Headers { hdrs.(known := hdrs.known[a := h]) }

  /** Linking a new area in before the one `mAreas` points to, and letting `mAreas` point to it. */
  function AreaInserted(hdrs: Headers, mAreas: int, a: int): Headers {
    if mAreas != 0 then
      var last := HdrAt(hdrs, mAreas).prev;
      var h1 := StoreHdr(hdrs, a, HdrAt(hdrs, a).(next := mAreas, prev := last));
      var h2 := StoreHdr(h1, mAreas, HdrAt(h1, mAreas).(prev := a));
      StoreHdr(h2, last, HdrAt(h2, last).(next := a))
    else
      StoreHdr(hdrs, a, HdrAt(hdrs, a).(next := a, prev := a))
  }

  function AreaRemoved(hdrs: Headers, a: int): Headers {
    var h := HdrAt(hdrs, a);
    var h1 := StoreHdr(hdrs, h.prev, HdrAt(hdrs, h.prev).(next := h.next));
    StoreHdr(h1, h.next, HdrAt(h1, h.next).(prev := h.prev))
  }

  lemma AreaInsertedOk(hdrs: Headers, mAreas: int, ring: seq<int>, areas: Areas, a: int, size: int)
    requires RingOk(hdrs, mAreas, ring, areas) && a !in areas && a != 0 && 0 !in areas
    requires AlignUp(HdrAt(hdrs, a).raw) == a
    ensures var h := AreaInserted(hdrs, mAreas, a);
      RingOk(StoreHdr(h, a, HdrAt(h, a).(size := size)), a, [a] + ring, areas[a := size])
  {
    var h := AreaInserted(hdrs, mAreas, a);
    var h' := StoreHdr(h, a, HdrAt(h, a).(size := size));
    var ring' := [a] + ring;
    if ring != [] {
      assert AreaLinked(hdrs, ring, |ring| - 1);
      assert ring[0] in areas;
    }
    forall i | 0 <= i < |ring'| ensures AreaLinked(h', ring', i) {
      if 0 < i { assert AreaLinked(hdrs, ring, i - 1); }
    }
  }

  lemma RotatedMembers(ring: seq<int>, k: nat)
    requires k < |ring| && Distinct(ring)
    ensures forall b :: b in ring[k + 1..] + ring[..k] <==> b in ring && b != ring[k]
  {
    assert ring == ring[..k] + [ring[k]] + ring[k + 1..];
  }

  /** The ring after the removal of its member `k`, entered at the member that followed it. */
  function Rotated(ring: seq<int>, k: nat): seq<int>
    requires k < |ring|
  {
    ring[k + 1..] + ring[..k]
  }

  function Before(ring: seq<int>, k: nat): (b: nat)
    requires k < |ring|
    ensures b < |ring|
  {
    if k == 0 then |ring| - 1 else k - 1
  }

  lemma RotatedFollowing(ring: seq<int>, k: nat, i: nat) returns (j: nat)
    requires k < |ring| && 1 < |ring| && i < |Rotated(ring, k)|
    ensures j < |ring| && j != k && Rotated(ring, k)[i] == ring[j]
    ensures Following(Rotated(ring, k), i) == if j == Before(ring, k) then Following(ring, k) else Following(ring, j)
  {
    j := if k + 1 + i < |ring| then k + 1 + i else k + 1 + i - |ring|;
  }

  lemma UnlinkedArea(hdrs: Headers, ring: seq<int>, k: nat, j: nat)
    requires k < |ring| && j < |ring| && j != k && Distinct(ring)
    requires AreaLinked(hdrs, ring, k) && AreaLinked(hdrs, ring, Before(ring, k)) && AreaLinked(hdrs, ring, j)
    ensures var f := if j == Before(ring, k) then Following(ring, k) else Following(ring, j);
      HdrAt(AreaRemoved(hdrs, ring[k]), ring[j]).next == f && HdrAt(AreaRemoved(hdrs, ring[k]), f).prev == ring[j]
  {
    var p := Before(ring, k);
    assert Following(ring, p) == ring[k];
    if j != p { assert ring[j] != ring[p] && Following(ring, j) != ring[k]; }
  }

  lemma AreaRemovedOk(hdrs: Headers, mAreas: int, ring: seq<int>, areas: Areas, k: nat)
    requires RingOk(hdrs, mAreas, ring, areas) && k < |ring| && 0 !in areas
    ensures 1 < |ring| <==> HdrAt(hdrs, ring[k]).next != ring[k]
    ensures 1 < |ring| ==>
      RingOk(AreaRemoved(hdrs, ring[k]), HdrAt(hdrs, ring[k]).next, Rotated(ring, k), areas - {ring[k]})
    ensures |ring| == 1 ==> RingOk(hdrs, 0, [], areas - {ring[k]})
  {
    var ring' := Rotated(ring, k);
    assert AreaLinked(hdrs, ring, k);
    RotatedMembers(ring, k);
    if 1 < |ring| {
      var h' := AreaRemoved(hdrs, ring[k]);
      forall i | 0 <= i < |ring'| ensures AreaLinked(h', ring', i) { StillLinked(hdrs, mAreas, ring, areas, k, i); }
    }
  }

  lemma StillLinked(hdrs: Headers, mAreas: int, ring: seq<int>, areas: Areas, k: nat, i: nat)
    requires RingOk(hdrs, mAreas, ring, areas) && k < |ring| && 1 < |ring| && i < |Rotated(ring, k)|
    ensures AreaLinked(AreaRemoved(hdrs, ring[k]), Rotated(ring, k), i)
  {
    var j := RotatedFollowing(ring, k, i);
    assert AreaLinked(hdrs, ring, k) && AreaLinked(hdrs, ring, Before(ring, k)) && AreaLinked(hdrs, ring, j);
    UnlinkedArea(hdrs, ring, k, j);
  }

  lemma RingUnrelated(hdrs: Headers, hdrs': Headers, mAreas: int, ring: seq<int>, areas: Areas, a: int)
    requires RingOk(hdrs, mAreas, ring, areas) && a !in areas
    requires forall b :: b != a ==> HdrAt(hdrs', b) == HdrAt(hdrs, b)
    ensures RingOk(hdrs', mAreas, ring, areas)
  {
    forall i | 0 <= i < |ring| ensures AreaLinked(hdrs', ring, i) {
      assert AreaLinked(hdrs, ring, i);
      assert ring[i] in areas && Following(ring, i) in areas;
    }
  }

  ghost predicate SameRaw(hdrs: Headers, hdrs': Headers, areas: Areas) {
    forall b :: b in areas ==> HdrAt(hdrs', b).raw == HdrAt(hdrs, b).raw
  }

  lemma RawInserted(hdrs: Headers, hdrs': Headers, areas: Areas, a: int, size: int)
    requires SameRaw(hdrs, hdrs', areas) && a !in areas
    ensures RawBlocks(hdrs', areas[a := size]) == RawBlocks(hdrs, areas) + {HdrAt(hdrs', a).raw}
  {
    var areas' := areas[a := size];
    forall x | x in RawBlocks(hdrs, areas) + {HdrAt(hdrs', a).raw} ensures x in RawBlocks(hdrs', areas') {
      if x in RawBlocks(hdrs, areas) {
        var b :| b in areas && x == HdrAt(hdrs, b).raw;
        assert b in areas' && x == HdrAt(hdrs', b).raw;
      } else {
        assert a in areas';
      }
    }
  }

  /** The header writes of `NewArea` (lines 211-226 of SC_AllocPool.cpp). */
  function Entered(hdrs: Headers, mAreas: int, a: int, raw: int, size: int): Headers {
    var h1 := StoreHdr(hdrs, a, HdrAt(hdrs, a).(raw := raw));
    var h2 := AreaInserted(h1, mAreas, a);
    StoreHdr(h2, a, HdrAt(h2, a).(size := size))
  }

  lemma EnteredOk(hdrs: Headers, mAreas: int, ring: seq<int>, areas: Areas, a: int, raw: int, size: int)
    requires RingOk(hdrs, mAreas, ring, areas) && a !in areas && a != 0 && 0 !in areas && AlignUp(raw) == a
    ensures RingOk(Entered(hdrs, mAreas, a, raw, size), a, [a] + ring, areas[a := size])
    ensures RawBlocks(Entered(hdrs, mAreas, a, raw, size), areas[a := size]) == RawBlocks(hdrs, areas) + {raw}
  {
    var h1 := StoreHdr(hdrs, a, HdrAt(hdrs, a).(raw := raw));
    RingUnrelated(hdrs, h1, mAreas, ring, areas, a);
    AreaInsertedOk(h1, mAreas, ring, areas, a, size);
    assert SameRaw(hdrs, Entered(hdrs, mAreas, a, raw, size), areas);
    RawInserted(hdrs, Entered(hdrs, mAreas, a, raw, size), areas, a, size);
  }

  lemma RawRemoved(hdrs: Headers, hdrs': Headers, areas: Areas, a: int)
    requires SameRaw(hdrs, hdrs', areas) && a in areas
    requires forall b :: b in areas ==> AlignUp(HdrAt(hdrs, b).raw) == b
    ensures RawBlocks(hdrs', areas - {a}) == RawBlocks(hdrs, areas) - {HdrAt(hdrs, a).raw}
    ensures HdrAt(hdrs, a).raw in RawBlocks(hdrs, areas)
  {
    var areas' := areas - {a};
    forall x | x in RawBlocks(hdrs, areas) - {HdrAt(hdrs, a).raw} ensures x in RawBlocks(hdrs', areas') {
      var b :| b in areas && x == HdrAt(hdrs, b).raw;
      assert b in areas' && x == HdrAt(hdrs', b).raw;
    }
  }

  /** Everything but the bins. */
  ghost predicate Framed(m: Memory, chunks: Chunks, areas: Areas, skip: set<int>) {
    Tiled(chunks, areas) && HeadersOk(m, chunks, skip) && MarkersOk(m, areas)
  }

  // ----- reading the neighbours of a chunk from its header

  lemma NothingBefore(chunks: Chunks, areas: Areas, p: int)
    requires Tiled(chunks, areas) && p in chunks && p == First(chunks[p].area)
    ensures forall q :: q in chunks ==> q + chunks[q].size != p
  {
    assert ChunkOk(chunks, areas, p);
    forall q | q in chunks ensures q + chunks[q].size != p {
      AreaEdges(chunks, areas, q, chunks[p].area);
      assert ChunkOk(chunks, areas, q);
    }
  }

  lemma PreviousChunk(m: Memory, chunks: Chunks, areas: Areas, p: int)
    requires Framed(m, chunks, areas, {}) && p in chunks
    ensures !InUseBit(At(m, p).prevSize) ==>
      var q := p - SizeBits(At(m, p).prevSize);
      q in chunks && !chunks[q].used && q + chunks[q].size == p && chunks[q].area == chunks[p].area
    ensures InUseBit(At(m, p).prevSize) ==> forall q :: q in chunks && q + chunks[q].size == p ==> chunks[q].used
    ensures At(m, p).prevSize == IN_USE <==> p == First(chunks[p].area)
  {
    assert ChunkOk(chunks, areas, p);
    if p == First(chunks[p].area) {
      assert MarkerOk(m, areas, chunks[p].area);
      NothingBefore(chunks, areas, p);
    } else {
      var q := Predecessor(chunks, areas, p);
      assert HeaderOk(m, chunks, q) && ChunkOk(chunks, areas, q);
      forall r | r in chunks && r + chunks[r].size == p ensures r == q { assert ChunkOk(chunks, areas, r); }
    }
  }

  lemma FollowingChunk(m: Memory, chunks: Chunks, areas: Areas, p: int)
    requires Framed(m, chunks, areas, {}) && p in chunks
    ensures var e := p + chunks[p].size;
      if InUseBit(At(m, e).size) then e in chunks ==> chunks[e].used
      else e in chunks && !chunks[e].used && chunks[e].size == At(m, e).size
    ensures var e := p + chunks[p].size;
      At(m, e).size == IN_USE <==> e == End(areas, chunks[p].area)
  {
    var e := p + chunks[p].size;
    assert ChunkOk(chunks, areas, p) && NextOk(chunks, areas, p);
    if e in chunks {
      NeighbourArea(chunks, areas, p);
      assert ChunkOk(chunks, areas, e) && HeaderOk(m, chunks, e);
    } else {
      assert MarkerOk(m, areas, chunks[p].area);
    }
  }

  lemma WordParts(m: Memory, chunks: Chunks, areas: Areas, p: int)
    requires Framed(m, chunks, areas, {}) && p in chunks
    ensures SizeBits(At(m, p).size) == chunks[p].size && InUseBit(At(m, p).size) == chunks[p].used
  {
    assert HeaderOk(m, chunks, p) && ChunkOk(chunks, areas, p);
  }

  // ----- writing headers

  lemma SetHeader(m: Memory, chunks: Chunks, areas: Areas, skip: set<int>, p: int)
    requires Framed(m, chunks, areas, skip) && p in chunks
    ensures Framed(SetSize(m, p, chunks[p].size, Word(chunks[p])), chunks, areas, skip - {p})
  {
    var m' := SetSize(m, p, chunks[p].size, Word(chunks[p]));
    assert ChunkOk(chunks, areas, p);
    forall q | q in chunks && q !in skip - {p} ensures HeaderOk(m', chunks, q) {
      assert ChunkOk(chunks, areas, q);
      if q != p { assert HeaderOk(m, chunks, q); }
    }
    forall a | a in areas ensures MarkerOk(m', areas, a) {
      assert MarkerOk(m, areas, a);
      assert p != End(areas, a) && p + chunks[p].size != First(a) by { AreaEdges(chunks, areas, p, a); }
    }
  }

  lemma AreaEdges(chunks: Chunks, areas: Areas, p: int, a: int)
    requires Tiled(chunks, areas) && p in chunks && a in areas
    ensures p < p + chunks[p].size <= End(areas, a) || End(areas, a) + HEADER < p
    ensures First(a) <= p || p + chunks[p].size < First(a)
  {
    assert ChunkOk(chunks, areas, p);
    assert AreaOk(areas, a) && AreaOk(areas, chunks[p].area);
  }

  /** Links may change freely. */
  lemma FramedSameSizes(m: Memory, m': Memory, chunks: Chunks, areas: Areas, skip: set<int>)
    requires Framed(m, chunks, areas, skip) && SameSizes(m, m')
    ensures Framed(m', chunks, areas, skip)
  {
    forall p | p in chunks && p !in skip ensures HeaderOk(m', chunks, p) { assert HeaderOk(m, chunks, p); }
    forall a | a in areas ensures MarkerOk(m', areas, a) { assert MarkerOk(m, areas, a); }
  }

  /** A tiling that differs only in chunks whose headers are still to be written. */
  lemma FramedRetiled(m: Memory, chunks: Chunks, chunks': Chunks, areas: Areas, skip: set<int>, skip': set<int>)
    requires Framed(m, chunks, areas, skip) && Tiled(chunks', areas)
    requires forall p :: p in chunks' && p !in skip' ==> p in chunks && p !in skip && chunks'[p] == chunks[p]
    ensures Framed(m, chunks', areas, skip')
  {
    forall p | p in chunks' && p !in skip' ensures HeaderOk(m, chunks', p) { assert HeaderOk(m, chunks, p); }
  }

  // ----- payloads

  /** The payload of a chunk of size `size` at `p` is the same in both memories. */
  ghost predicate Untouched(m: Memory, m': Memory, p: int, size: int) {
    forall x :: p < x < p + size ==> At(m', x) == At(m, x)
  }

  /** Memory changes only in headers: of chunks, of end markers and of bins. */
  ghost predicate OnlyHeaders(m: Memory, m': Memory, chunks: Chunks, areas: Areas) {
    forall x :: At(m', x) != At(m, x) ==> x in chunks || x < FLOOR || exists a :: a in areas && x == End(areas, a)
  }

  lemma LinksAreHeaders(m: Memory, m': Memory, free: set<int>, chunks: Chunks, areas: Areas)
    requires OnlyLinks(m, m', free) && free <= chunks.Keys
    ensures OnlyHeaders(m, m', chunks, areas)
  {}

  lemma OnlyHeadersCompose(m: Memory, m1: Memory, m2: Memory, chunks: Chunks, areas: Areas)
    requires OnlyHeaders(m, m1, chunks, areas) && OnlyHeaders(m1, m2, chunks, areas)
    ensures OnlyHeaders(m, m2, chunks, areas)
  {
    forall x | At(m2, x) != At(m, x) ensures x in chunks || x < FLOOR || exists a :: a in areas && x == End(areas, a) {
      assert At(m1, x) != At(m, x) || At(m2, x) != At(m1, x);
    }
  }

  lemma HeadersLeavePayload(m: Memory, m': Memory, chunks: Chunks, areas: Areas, p: int)
    requires Tiled(chunks, areas) && OnlyHeaders(m, m', chunks, areas) && p in chunks
    ensures Untouched(m, m', p, chunks[p].size)
  {
    assert ChunkOk(chunks, areas, p);
    forall x | p < x < p + chunks[p].size ensures At(m', x) == At(m, x) {
      assert AreaOk(areas, chunks[p].area);
      forall a | a in areas ensures x != End(areas, a) { AreaEdges(chunks, areas, p, a); }
    }
  }

  // ----- a new area

  /** `SetNeighborsInUse` */
  function SetNeighborsInUse(m: Memory, chunk: int, size: int): Memory {
    var m1 := Store(m, chunk + size, At(m, chunk + size).(size := IN_USE));
    Store(m1, chunk, At(m1, chunk).(prevSize := IN_USE))
  }

  /** The writes that make one free chunk of a new area (lines 227-229 of SC_AllocPool.cpp). */
  function Opened(m: Memory, chunk: int, size: int): Memory {
    SetSize(SetNeighborsInUse(BeEmpty(m, chunk), chunk, size), chunk, size, size)
  }

  lemma OpenedFramed(m: Memory, chunks: Chunks, areas: Areas, a: int, size: int)
    requires Framed(m, chunks, areas, {}) && RoomFor(areas, a, size)
    requires Aligned(size) && MIN_ALLOC <= size <= MAX_INT32
    ensures Framed(Opened(m, First(a), size), chunks[First(a) := Chunk(size, false, a)], areas[a := size], {})
    ensures a !in areas && First(a) !in chunks
    ensures OnlyHeaders(m, Opened(m, First(a), size), chunks[First(a) := Chunk(size, false, a)], areas[a := size])
  {
    var m' := Opened(m, First(a), size);
    var chunks' := chunks[First(a) := Chunk(size, false, a)];
    var areas' := areas[a := size];
    AddAreaTiled(chunks, areas, a, size, false);
    assert End(areas', a) == First(a) + size;
    forall p | p in chunks' ensures HeaderOk(m', chunks', p) {
      if p != First(a) {
        assert HeaderOk(m, chunks, p) && ChunkOk(chunks, areas, p);
      }
    }
    forall b | b in areas' ensures MarkerOk(m', areas', b) {
      if b != a {
        assert MarkerOk(m, areas, b);
        AreaEdges(chunks', areas', First(a), b);
      }
    }
  }

  /** Nothing in the bins lies in a new area. */
  lemma OpenedLists(m: Memory, bins: Bins, chunks: Chunks, areas: Areas, free: set<int>, a: int, size: int)
    requires ListsOk(m, bins, free) && free <= chunks.Keys && Tiled(chunks, areas) && RoomFor(areas, a, size)
      && 0 < size
    ensures ListsOk(Opened(m, First(a), size), bins, free)
  {
    forall p | p in free ensures p != First(a) && p != First(a) + size {
      assert ChunkOk(chunks, areas, p);
    }
    ListsFrame(m, Opened(m, First(a), size), bins, free);
  }

  // ----- an area given back

  lemma RemovedFramed(m: Memory, chunks: Chunks, areas: Areas, a: int)
    requires Framed(m, chunks, areas, {}) && a in areas && chunks[First(a)].size == areas[a]
    ensures Framed(m, chunks - {First(a)}, areas - {a}, {})
  {
    RemoveAreaTiled(chunks, areas, a);
    var chunks' := chunks - {First(a)};
    forall p | p in chunks' ensures HeaderOk(m, chunks', p) { assert HeaderOk(m, chunks, p); }
    forall b | b in areas - {a} ensures MarkerOk(m, areas - {a}, b) { assert MarkerOk(m, areas, b); }
  }

  // ----- the state of a pool

  /** What the words of a pool stand for: its chunks, its areas in ring order, its lists and the raw blocks it owes. */
  datatype Plan = Plan(chunks: Chunks, areas: Areas, ring: seq<int>, bins: Bins, held: set<int>)

  /** Everything but the question which chunks are in the bins and whether free neighbours are joined. */
  ghost predicate Steady(m: Memory, hdrs: Headers, blocks: Blocks, mAreas: int, g: Plan, free: set<int>) {
    && BinsOk(m, g.bins, blocks, free) && Framed(m, g.chunks, g.areas, {})
    && RingOk(hdrs, mAreas, g.ring, g.areas) && g.held == RawBlocks(hdrs, g.areas)
  }

  /** What `DoCheckPool` checks, and what it takes for granted. */
  ghost predicate PoolOk(m: Memory, hdrs: Headers, blocks: Blocks, mAreas: int, g: Plan) {
    Steady(m, hdrs, blocks, mAreas, g, FreeSet(g.chunks)) && Coalesced(g.chunks)
  }

  function WithArea(g: Plan, a: int, size: int, raw: int): Plan {
    g.(chunks := g.chunks[First(a) := Chunk(size, false, a)], areas := g.areas[a := size],
       ring := [a] + g.ring, held := g.held + {raw})
  }

  lemma AreaEnters(m: Memory, hdrs: Headers, blocks: Blocks, mAreas: int, g: Plan, free: set<int>, a: int, size: int,
                   raw: int)
    requires Steady(m, hdrs, blocks, mAreas, g, free) && free <= g.chunks.Keys
    requires Aligned(size) && MIN_ALLOC <= size <= MAX_INT32 && RoomFor(g.areas, a, size) && AlignUp(raw) == a
    ensures Steady(Opened(m, First(a), size), Entered(hdrs, mAreas, a, raw, size), blocks, a, WithArea(g, a, size, raw),
      free)
    ensures a !in g.areas && First(a) !in g.chunks
    ensures OnlyHeaders(m, Opened(m, First(a), size), WithArea(g, a, size, raw).chunks, WithArea(g, a, size, raw).areas)
  {
    OpenedFramed(m, g.chunks, g.areas, a, size);
    OpenedLists(m, g.bins, g.chunks, g.areas, free, a, size);
    forall b | b in g.areas ensures b != 0 { assert AreaOk(g.areas, b); }
    EnteredOk(hdrs, mAreas, g.ring, g.areas, a, raw, size);
  }

  function WithoutArea(g: Plan, a: int, raw: int): Plan
    requires a in g.ring
  {
    g.(chunks := g.chunks - {First(a)}, areas := g.areas - {a},
       ring := if |g.ring| == 1 then [] else Rotated(g.ring, IndexOf(g.ring, a)), held := g.held - {raw})
  }

  /** An area that is wholly free leaves the ring: the last one, or one of several. */
  lemma AreaLeaves(m: Memory, hdrs: Headers, blocks: Blocks, mAreas: int, g: Plan, free: set<int>, a: int)
    requires Steady(m, hdrs, blocks, mAreas, g, free)
    requires a in g.areas && a in g.ring && g.chunks[First(a)].size == g.areas[a]
    ensures HdrAt(hdrs, a).next == a ==> Steady(m, hdrs, blocks, 0, WithoutArea(g, a, HdrAt(hdrs, a).raw), free)
    ensures HdrAt(hdrs, a).next != a ==>
      Steady(m, AreaRemoved(hdrs, a), blocks, HdrAt(hdrs, a).next, WithoutArea(g, a, HdrAt(hdrs, a).raw), free)
    ensures HdrAt(hdrs, a).raw in g.held
  {
    forall b | b in g.areas ensures b != 0 { assert AreaOk(g.areas, b); }
    AreaRemovedOk(hdrs, mAreas, g.ring, g.areas, IndexOf(g.ring, a));
    RemovedFramed(m, g.chunks, g.areas, a);
    RawRemoved(hdrs, if HdrAt(hdrs, a).next == a then hdrs else AreaRemoved(hdrs, a), g.areas, a);
  }

  // ----- freeing a chunk

  /** Writing the header of `q` turns a memory for one tiling into a memory for one that differs from it in `q`. */
  lemma HeaderStep(m: Memory, chunks: Chunks, r: Chunks, areas: Areas, bins: Bins, free: set<int>, skip: set<int>,
                   q: int)
    requires Framed(m, chunks, areas, skip) && ListsOk(m, bins, free)
    requires Tiled(r, areas) && q in r && q !in free && FLOOR <= q
    requires forall x :: x in r && x != q && x !in skip ==> x in chunks && r[x] == chunks[x]
    ensures var m' := SetSize(m, q, r[q].size, Word(r[q]));
      Framed(m', r, areas, skip - {q}) && ListsOk(m', bins, free)
  {
    var m' := SetSize(m, q, r[q].size, Word(r[q]));
    FramedRetiled(m, chunks, r, areas, skip, skip + {q});
    SetHeader(m, r, areas, skip + {q}, q);
    assert skip + {q} - {q} == skip - {q};
    ListsFrame(m, m', bins, free);
  }

  lemma HeaderTouches(m: Memory, chunks: Chunks, r: Chunks, areas: Areas, q: int)
    requires Tiled(r, areas) && q in r && q in chunks
    requires forall x :: x in r && x != q ==> x in chunks
    ensures OnlyHeaders(m, SetSize(m, q, r[q].size, Word(r[q])), chunks, areas)
  {
    assert NextOk(r, areas, q);
  }

  /** The header that `Free` writes after the free neighbours were taken out of their bins. */
  lemma FreedSteady(m: Memory, chunks: Chunks, areas: Areas, bins: Bins, free: set<int>,
                    p: int, q: int, joinPrev: bool, joinNext: bool)
    requires Joins(chunks, areas, p, q, joinPrev, joinNext) && Framed(m, chunks, areas, {}) && ListsOk(m, bins, free)
    requires free == FreeSet(chunks) - (if joinPrev then {q} else {}) - (if joinNext then {p + chunks[p].size} else {})
    ensures var r := Freed(chunks, p, q, joinPrev, joinNext);
      && q in r && r[q] == Chunk(FreedSize(chunks, p, q, joinPrev, joinNext), false, chunks[p].area)
      && 0 < r[q].size && FLOOR <= q && Aligned(r[q].size)
      && free == FreeSet(r) - {q} && Coalesced(r) && Live(r) == Live(chunks) - {p}
      && Framed(SetSize(m, q, r[q].size, r[q].size), r, areas, {})
      && ListsOk(SetSize(m, q, r[q].size, r[q].size), bins, free)
      && OnlyHeaders(m, SetSize(m, q, r[q].size, r[q].size), chunks, areas)
  {
    FreedFacts(chunks, areas, p, q, joinPrev, joinNext);
    HeaderStep(m, chunks, Freed(chunks, p, q, joinPrev, joinNext), areas, bins, free, {}, q);
    HeaderTouches(m, chunks, Freed(chunks, p, q, joinPrev, joinNext), areas, q);
    assert {} - {q} == {};
  }

  /** What the words around a block tell `Free` about its neighbours. */
  lemma ReadNeighbours(m: Memory, chunks: Chunks, areas: Areas, p: int)
    requires Framed(m, chunks, areas, {}) && Coalesced(chunks) && p in chunks && chunks[p].used
    ensures var joinPrev := !InUseBit(At(m, p).prevSize);
      var q := if joinPrev then p - SizeBits(At(m, p).prevSize) else p;
      var e := p + SizeBits(At(m, p).size);
      var joinNext := !InUseBit(At(m, e).size);
      && Joins(chunks, areas, p, q, joinPrev, joinNext) && q <= p < e
      && SizeBits(At(m, p).size) == chunks[p].size
      && (joinPrev ==> SizeBits(At(m, p).prevSize) == chunks[q].size)
      && (joinNext ==> SizeBits(At(m, e).size) == chunks[e].size)
      && e == p + chunks[p].size && (joinPrev ==> q in FreeSet(chunks)) && (joinNext ==> e in FreeSet(chunks))
  {
    PreviousChunk(m, chunks, areas, p);
    FollowingChunk(m, chunks, areas, p);
    WordParts(m, chunks, areas, p);
    assert ChunkOk(chunks, areas, p);
    if !InUseBit(At(m, p).prevSize) {
      assert ChunkOk(chunks, areas, p - SizeBits(At(m, p).prevSize));
    }
  }

  lemma FreedFacts(chunks: Chunks, areas: Areas, p: int, q: int, joinPrev: bool, joinNext: bool)
    requires Joins(chunks, areas, p, q, joinPrev, joinNext)
    ensures var r := Freed(chunks, p, q, joinPrev, joinNext);
      && Tiled(r, areas) && Coalesced(r) && Live(r) == Live(chunks) - {p} && q in r && q in chunks
      && r[q] == Chunk(FreedSize(chunks, p, q, joinPrev, joinNext), false, chunks[p].area)
      && (forall x :: x in r && x != q ==> x in chunks && r[x] == chunks[x])
      && FreeSet(r) - {q}
        == FreeSet(chunks) - (if joinPrev then {q} else {}) - (if joinNext then {p + chunks[p].size} else {})
      && 0 < r[q].size && FLOOR <= q && Aligned(r[q].size)
  {
    var r := Freed(chunks, p, q, joinPrev, joinNext);
    FreedTiled(chunks, areas, p, q, joinPrev, joinNext);
    FreedCoalesced(chunks, areas, p, q, joinPrev, joinNext);
    assert ChunkOk(chunks, areas, p);
    if joinPrev { assert ChunkOk(chunks, areas, q); }
    FreedSets(chunks, p, q, joinPrev, joinNext);
    FreedIs(chunks, p, q, joinPrev, joinNext);
    assert ChunkOk(r, areas, q) && AreaOk(areas, r[q].area);
  }

  // ----- taking a chunk into use

  /** Putting the whole of a free chunk that is in no bin to use. */
  lemma UsedSteady(m: Memory, chunks: Chunks, areas: Areas, bins: Bins, free: set<int>, c: int)
    requires Framed(m, chunks, areas, {}) && ListsOk(m, bins, free) && Coalesced(chunks)
    requires c in chunks && !chunks[c].used && free == FreeSet(chunks) - {c}
    ensures var r := Mark(chunks, c, true);
      var m' := SetSize(m, c, chunks[c].size, chunks[c].size + IN_USE);
      && Framed(m', r, areas, {}) && ListsOk(m', bins, free) && Coalesced(r)
      && free == FreeSet(r) && Live(r) == Live(chunks)[c := Chunk(chunks[c].size, true, chunks[c].area)]
      && OnlyHeaders(m, m', chunks, areas)
  {
    var r := Mark(chunks, c, true);
    MarkTiled(chunks, areas, c, true);
    assert ChunkOk(chunks, areas, c);
    HeaderStep(m, chunks, r, areas, bins, free, {}, c);
    assert {} - {c} == {};
    HeaderTouches(m, chunks, r, areas, c);
    forall x | x in r ensures JoinedAfter(r, x) { assert JoinedAfter(chunks, x); }
  }

  /** The chunks after the front of a free chunk was put to use and the rest of it left free. */
  function FrontTaken(chunks: Chunks, c: int, size: int): Chunks
    requires c in chunks
  {
    Mark(Split(chunks, c, size, false), c, true)
  }

  lemma FrontTakenOk(chunks: Chunks, areas: Areas, c: int, size: int)
    requires Tiled(chunks, areas) && Coalesced(chunks) && c in chunks && !chunks[c].used
    requires Aligned(size) && MIN_ALLOC <= size && MIN_ALLOC <= chunks[c].size - size
    ensures Tiled(Split(chunks, c, size, false), areas) && Tiled(FrontTaken(chunks, c, size), areas)
    ensures Coalesced(FrontTaken(chunks, c, size)) && c + size !in chunks
  {
    var s := Split(chunks, c, size, false);
    var r := FrontTaken(chunks, c, size);
    SplitTiled(chunks, areas, c, size, false);
    MarkTiled(s, areas, c, true);
    assert JoinedAfter(chunks, c);
    forall x | x in r ensures JoinedAfter(r, x) {
      if x != c && x != c + size {
        assert JoinedAfter(chunks, x) && ChunkOk(chunks, areas, x);
      }
    }
  }

  lemma FrontTakenSets(chunks: Chunks, c: int, size: int)
    requires c in chunks && !chunks[c].used && 0 < size && c + size !in chunks
    ensures FreeSet(FrontTaken(chunks, c, size)) == FreeSet(chunks) - {c} + {c + size}
    ensures Live(FrontTaken(chunks, c, size)) == Live(chunks)[c := Chunk(size, true, chunks[c].area)]
  {}

  /** The first step of a split: the header of the remainder, while that of the front is still to be written. */
  lemma RemainderSteady(m: Memory, chunks: Chunks, areas: Areas, bins: Bins, free: set<int>, c: int, size: int)
    requires Framed(m, chunks, areas, {}) && ListsOk(m, bins, free) && Coalesced(chunks)
    requires c in chunks && !chunks[c].used && free == FreeSet(chunks) - {c}
    requires Aligned(size) && MIN_ALLOC <= size && MIN_ALLOC <= chunks[c].size - size
    ensures var s := Split(chunks, c, size, false);
      var rest := chunks[c].size - size;
      var m' := SetSize(m, c + size, rest, rest);
      Framed(m', s, areas, {c}) && ListsOk(m', bins, free) && Aligned(rest) && FLOOR <= c + size && c + size !in free
  {
    var s := Split(chunks, c, size, false);
    FrontTakenOk(chunks, areas, c, size);
    assert ChunkOk(s, areas, c + size) && AreaOk(areas, chunks[c].area);
    FramedRetiled(m, chunks, s, areas, {}, {c, c + size});
    assert s[c + size] == Chunk(chunks[c].size - size, false, chunks[c].area);
    HeaderStep(m, s, s, areas, bins, free, {c, c + size}, c + size);
    assert {c, c + size} - {c + size} == {c};
  }

  /** The last step of a split: the header of the front. */
  lemma FrontSteady(m: Memory, chunks: Chunks, areas: Areas, bins: Bins, free: set<int>, c: int, size: int)
    requires Tiled(chunks, areas) && Coalesced(chunks) && c in chunks && !chunks[c].used
    requires Aligned(size) && MIN_ALLOC <= size && MIN_ALLOC <= chunks[c].size - size
    requires free == FreeSet(chunks) - {c} + {c + size}
    requires Framed(m, Split(chunks, c, size, false), areas, {c}) && ListsOk(m, bins, free)
    ensures var r := FrontTaken(chunks, c, size);
      var m' := SetSize(m, c, size, size + IN_USE);
      && Framed(m', r, areas, {}) && ListsOk(m', bins, free) && Coalesced(r) && free == FreeSet(r)
      && Live(r) == Live(chunks)[c := Chunk(size, true, chunks[c].area)]
  {
    var r := FrontTaken(chunks, c, size);
    FrontTakenOk(chunks, areas, c, size);
    FrontTakenSets(chunks, c, size);
    assert ChunkOk(chunks, areas, c) && AreaOk(areas, chunks[c].area);
    HeaderStep(m, Split(chunks, c, size, false), r, areas, bins, free, {c}, c);
    assert {c} - {c} == {};
  }

  lemma FrontLinked(m1: Memory, m: Memory, chunks: Chunks, areas: Areas, bins: Bins, free: set<int>, c: int, size: int)
      returns (r: Chunks)
    requires Tiled(chunks, areas) && Coalesced(chunks) && c in chunks && !chunks[c].used
    requires Aligned(size) && MIN_ALLOC <= size && MIN_ALLOC <= chunks[c].size - size
    requires free == FreeSet(chunks) - {c} + {c + size}
    requires Framed(m1, Split(chunks, c, size, false), areas, {c}) && SameSizes(m1, m) && ListsOk(m, bins, free)
    ensures var m' := SetSize(m, c, size, size + IN_USE);
      && Framed(m', r, areas, {}) && ListsOk(m', bins, free) && Coalesced(r) && free == FreeSet(r)
      && Live(r) == Live(chunks)[c := Chunk(size, true, chunks[c].area)]
  {
    FramedSameSizes(m1, m, Split(chunks, c, size, false), areas, {c});
    FrontSteady(m, chunks, areas, bins, free, c, size);
    r := FrontTaken(chunks, c, size);
  }

  /** Memory changes only in headers, and anywhere inside the chunk `c`. */
  ghost predicate OnlyHeadersOr(m: Memory, m': Memory, chunks: Chunks, areas: Areas, c: int)
    requires c in chunks
  {
    forall x :: At(m', x) != At(m, x) ==>
      x in chunks || x < FLOOR || (c <= x < c + chunks[c].size) || exists a :: a in areas && x == End(areas, a)
  }

  lemma OtherPayloadsKept(m: Memory, m': Memory, chunks: Chunks, areas: Areas, c: int, p: int)
    requires Tiled(chunks, areas) && c in chunks && OnlyHeadersOr(m, m', chunks, areas, c) && p in chunks && p != c
    ensures Untouched(m, m', p, chunks[p].size)
  {
    assert ChunkOk(chunks, areas, p);
    forall x | p < x < p + chunks[p].size ensures At(m', x) == At(m, x) {
      assert AreaOk(areas, chunks[p].area);
      forall a | a in areas ensures x != End(areas, a) { AreaEdges(chunks, areas, p, a); }
    }
  }

  lemma AddCoalesced(chunks: Chunks, areas: Areas, a: int, size: int)
    requires Tiled(chunks, areas) && Coalesced(chunks) && RoomFor(areas, a, size) && 0 < size
    ensures var r := chunks[First(a) := Chunk(size, false, a)];
      Coalesced(r) && FreeSet(r) - {First(a)} == FreeSet(chunks) && Live(r) == Live(chunks) && First(a) !in chunks
  {
    var r := chunks[First(a) := Chunk(size, false, a)];
    forall p | p in chunks ensures p != First(a) && p != First(a) + size && p + chunks[p].size != First(a) {
      assert ChunkOk(chunks, areas, p);
    }
    forall x | x in r ensures JoinedAfter(r, x) {
      if x != First(a) { assert JoinedAfter(chunks, x); }
    }
  }

  /** What stands after the first chunk of an area is not a free chunk below the least size. */
  lemma NoShortChunk(m: Memory, hdrs: Headers, blocks: Blocks, mAreas: int, g: Plan, size: int, rest: int)
    requires PoolOk(m, hdrs, blocks, mAreas, g) && mAreas != 0
    requires SizeBits(At(m, First(mAreas)).size) == size && At(m, First(mAreas) + size).size == rest && !InUseBit(rest)
    ensures MIN_ALLOC <= rest
  {
    var c := First(mAreas);
    assert mAreas in g.areas && c in g.chunks;
    WordParts(m, g.chunks, g.areas, c);
    FollowingChunk(m, g.chunks, g.areas, c);
    WordParts(m, g.chunks, g.areas, c + size);
    assert ChunkOk(g.chunks, g.areas, c + size);
  }

  /** A first chunk that is followed by a free chunk below the least size fits no pool: `DoCheckFreeChunk` fails on
      it. */
  lemma ShortRemainderBreaks(m: Memory, hdrs: Headers, blocks: Blocks, mAreas: int, g: Plan, size: int, rest: int)
    requires mAreas != 0 && Aligned(size) && At(m, First(mAreas)).size == size + IN_USE
    requires 0 <= rest < MIN_ALLOC && Aligned(rest) && At(m, First(mAreas) + size).size == rest
    ensures !PoolOk(m, hdrs, blocks, mAreas, g)
  {
    Aligns(size);
    Aligns(rest);
    if PoolOk(m, hdrs, blocks, mAreas, g) {
      NoShortChunk(m, hdrs, blocks, mAreas, g, size, rest);
    }
  }

  lemma {:induction false} Aligns(size: int)
    requires Aligned(size)
    ensures SizeBits(size) == size && SizeBits(size + IN_USE) == size && !InUseBit(size)
  {
    assert size == 2 * (32 * (size / 64));
  }

  /** The same first step when the remainder is too short to be a chunk. */
  lemma ShortRemainder(m: Memory, chunks: Chunks, areas: Areas, bins: Bins, free: set<int>, c: int, size: int)
    requires Tiled(chunks, areas) && Coalesced(chunks) && ListsOk(m, bins, free)
    requires c in chunks && !chunks[c].used && free == FreeSet(chunks) - {c}
    requires Aligned(size) && MIN_ALLOC <= size && 0 <= chunks[c].size - size
    ensures var rest := chunks[c].size - size;
      var m' := SetSize(m, c + size, rest, rest);
      ListsOk(m', bins, free) && Aligned(rest) && FLOOR <= c + size && c + size !in free
  {
    var rest := chunks[c].size - size;
    assert ChunkOk(chunks, areas, c) && AreaOk(areas, chunks[c].area);
    assert JoinedAfter(chunks, c);
    ListsFrame(m, SetSize(m, c + size, rest, rest), bins, free);
  }

  lemma TakingFrontTouches(m: Memory, m2: Memory, chunks: Chunks, areas: Areas, free: set<int>, c: int, size: int)
    requires Tiled(chunks, areas) && c in chunks && free <= chunks.Keys && 0 < size <= chunks[c].size
    requires OnlyLinks(SetSize(m, c + size, chunks[c].size - size, chunks[c].size - size), m2, free + {c + size})
    ensures OnlyHeadersOr(m, SetSize(m2, c, size, size + IN_USE), chunks, areas, c)
  {
    var m1 := SetSize(m, c + size, chunks[c].size - size, chunks[c].size - size);
    var e := c + chunks[c].size;
    assert NextOk(chunks, areas, c);
    forall x | x != c && x != c + size && x != e && x !in free && FLOOR <= x
      ensures At(SetSize(m2, c, size, size + IN_USE), x) == At(m, x)
    {
      assert At(m2, x) == At(m1, x) == At(m, x);
    }
    assert e in chunks || e == End(areas, chunks[c].area);
  }

  /** The bins see the sizes of the free chunks. */
  lemma FreeSizes(m: Memory, chunks: Chunks, areas: Areas)
    requires Framed(m, chunks, areas, {})
    ensures forall p :: p in FreeSet(chunks) ==> At(m, p).size == chunks[p].size <= MAX_INT32
  {
    forall p | p in FreeSet(chunks) ensures At(m, p).size == chunks[p].size <= MAX_INT32 {
      assert HeaderOk(m, chunks, p) && ChunkOk(chunks, areas, p) && AreaOk(areas, chunks[p].area);
    }
  }

  lemma LinksThenHeaders(m: Memory, m1: Memory, m2: Memory, free: set<int>, chunks: Chunks, areas: Areas, c: int)
    requires c in chunks && free <= chunks.Keys && OnlyLinks(m, m1, free) && OnlyHeadersOr(m1, m2, chunks, areas, c)
    ensures OnlyHeadersOr(m, m2, chunks, areas, c)
  {
    forall x | At(m2, x) != At(m, x)
      ensures x in chunks || x < FLOOR || (c <= x < c + chunks[c].size) || exists a :: a in areas && x == End(areas, a)
    {
      assert At(m1, x) != At(m, x) || At(m2, x) != At(m1, x);
    }
  }

  /** Opening an area and using its first chunk leaves the blocks of the other areas alone. */
  lemma NewAreaPayloads(m: Memory, m1: Memory, m2: Memory, live: Chunks, chunks: Chunks, areas: Areas, c: int)
    requires Tiled(chunks, areas) && c in chunks && c !in live
    requires forall p :: p in live ==> p in chunks && chunks[p] == live[p]
    requires OnlyHeaders(m, m1, chunks, areas) && OnlyHeadersOr(m1, m2, chunks, areas, c)
    ensures forall p :: p in live ==> Untouched(m, m2, p, live[p].size)
  {
    forall p | p in live ensures Untouched(m, m2, p, live[p].size) {
      HeadersLeavePayload(m, m1, chunks, areas, p);
      OtherPayloadsKept(m1, m2, chunks, areas, c, p);
    }
  }

  /** What a search loop reads of the candidate at place `k` of bin `i`. */
  lemma ReadCandidate(m: Memory, bins: Bins, free: set<int>, size: int, i: int, k: int)
    requires ListsOk(m, bins, free) && SizesBounded(m, free) && 0 <= i < NUM_BINS && 0 <= k < |bins[i]|
      && 0 <= size <= MAX_INT32
    ensures var c := bins[i][k];
      && Node(BinAt(i), bins[i], k) == c && c != BinAt(i)
      && ToInt32(SizeBits(At(m, c).size) - size) == At(m, c).size - size
      && At(m, c).prev == Node(BinAt(i), bins[i], k - 1)
  {
    assert BinOk(m, bins[i], i, free);
    MemberSize(m, bins, free, i, k);
    Aligns(At(m, bins[i][k]).size);
    RingStep(m, BinAt(i), bins[i], k);
  }

  lemma LastCandidate(m: Memory, bins: Bins, free: set<int>, i: int)
    requires ListsOk(m, bins, free) && 0 <= i < NUM_BINS
    ensures At(m, BinAt(i)).prev == Node(BinAt(i), bins[i], |bins[i]| - 1) && BinAt(i) !in bins[i]
  {
    assert BinOk(m, bins[i], i, free);
    RingStep(m, BinAt(i), bins[i], |bins[i]|);
  }

  // ----- reallocation in place

  /** The chunks after `p` took over free neighbours, described without naming how they are computed. */
  ghost predicate AbsorbedAs(chunks: Chunks, areas: Areas, p: int, q: int, joinPrev: bool, joinNext: bool, r: Chunks)
    requires p in chunks && (joinPrev ==> q in chunks) && (joinNext ==> p + chunks[p].size in chunks)
  {
    && Tiled(r, areas) && Coalesced(r) && q in r && q in chunks && FLOOR <= q
    && r[q] == Chunk(FreedSize(chunks, p, q, joinPrev, joinNext), true, chunks[p].area)
    && Live(r) == (Live(chunks) - {p})[q := r[q]]
    && FreeSet(r) == FreeSet(chunks) - (if joinPrev then {q} else {}) - (if joinNext then {p + chunks[p].size} else {})
    && (forall x :: x in r && x != q ==> x in chunks && r[x] == chunks[x] && x != p)
  }

  lemma AbsorbedFacts(chunks: Chunks, areas: Areas, p: int, q: int, joinPrev: bool, joinNext: bool) returns (r: Chunks)
    requires Touches(chunks, areas, p, q, joinPrev, joinNext)
    ensures AbsorbedAs(chunks, areas, p, q, joinPrev, joinNext, r)
  {
    r := Absorbed(chunks, p, q, joinPrev, joinNext);
    AbsorbedTiled(chunks, areas, p, q, joinPrev, joinNext);
    AbsorbedCoalesced(chunks, areas, p, q, joinPrev, joinNext);
    assert ChunkOk(chunks, areas, p) && AreaOk(areas, chunks[p].area);
    if joinPrev { assert ChunkOk(chunks, areas, q) && AreaOk(areas, chunks[q].area); }
    AbsorbedSets(chunks, p, q, joinPrev, joinNext);
  }

  lemma SplitCoalesced(chunks: Chunks, areas: Areas, q: int, size: int)
    requires Tiled(chunks, areas) && Coalesced(chunks) && q in chunks && chunks[q].used
    requires 0 < size < chunks[q].size && q + size !in chunks
    ensures Coalesced(Split(chunks, q, size, true))
  {
    var r := Split(chunks, q, size, true);
    forall x | x in r ensures JoinedAfter(r, x) { assert x in chunks ==> JoinedAfter(chunks, x); }
  }

  /** The same when the joined chunk is split into two live ones, as `Realloc` does before it frees the second. */
  lemma SplitShape(r: Chunks, areas: Areas, q: int, size: int)
    requires Tiled(r, areas) && Coalesced(r) && q in r && r[q].used
    requires Aligned(size) && MIN_ALLOC <= size && MIN_ALLOC <= r[q].size - size
    ensures var s := Split(r, q, size, true);
      && Tiled(s, areas) && Coalesced(s) && FreeSet(s) == FreeSet(r) && q + size !in r && FLOOR <= q
      && FLOOR <= q + size
      && s[q + size] == Chunk(r[q].size - size, true, r[q].area) && s[q] == Chunk(size, true, r[q].area)
      && Live(s) - {q + size} == Live(r)[q := Chunk(size, true, r[q].area)]
  {
    SplitTiled(r, areas, q, size, true);
    SplitCoalesced(r, areas, q, size);
    SplitLive(r, q, size);
    assert ChunkOk(r, areas, q) && AreaOk(areas, r[q].area);
  }

  lemma FirstHeader(m: Memory, chunks: Chunks, s: Chunks, areas: Areas, bins: Bins, free: set<int>, q: int, other: int)
      returns (m1: Memory)
    requires Framed(m, chunks, areas, {other}) && ListsOk(m, bins, free) && Tiled(s, areas) && q != other
    requires q in s && s[q].used && q !in free && FLOOR <= q
    requires forall x :: x in s && x != q && x != other ==> x in chunks && s[x] == chunks[x]
    ensures m1 == SetSize(m, q, s[q].size, s[q].size + IN_USE)
    ensures Framed(m1, s, areas, {other}) && ListsOk(m1, bins, free)
  {
    m1 := SetSize(m, q, s[q].size, s[q].size + IN_USE);
    HeaderStep(m, chunks, s, areas, bins, free, {other}, q);
    assert {other} - {q} == {other};
  }

  lemma TwoHeaders(m: Memory, chunks: Chunks, s: Chunks, areas: Areas, bins: Bins, free: set<int>, q: int, size: int,
                   rest: int)
    requires Framed(m, chunks, areas, {}) && ListsOk(m, bins, free) && Tiled(s, areas) && FLOOR <= q && 0 < size
    requires q in s && s[q].size == size && s[q].used && q !in free
    requires q + size in s && s[q + size].size == rest && s[q + size].used && q + size !in free
    requires forall x :: x in s && x != q && x != q + size ==> x in chunks && s[x] == chunks[x]
    ensures Framed(SplitHeaders(m, q, size, rest), s, areas, {}) && ListsOk(SplitHeaders(m, q, size, rest), bins, free)
  {
    FramedRetiled(m, chunks, chunks, areas, {}, {q});
    var m1 := FirstHeader(m, chunks, s, areas, bins, free, q + size, q);
    HeaderStep(m1, s, s, areas, bins, free, {q}, q);
    assert {q} - {q} == {};
  }

  lemma AbsorbedSplitSteady(m: Memory, chunks: Chunks, r: Chunks, areas: Areas, bins: Bins, free: set<int>, q: int,
                            size: int)
    requires Tiled(r, areas) && Framed(m, chunks, areas, {}) && ListsOk(m, bins, free) && Coalesced(r)
    requires q in r && r[q].used && free == FreeSet(r) && forall x :: x in r && x != q ==>
      x in chunks && r[x] == chunks[x]
    requires Aligned(size) && MIN_ALLOC <= size && MIN_ALLOC <= r[q].size - size
    ensures var s := Split(r, q, size, true);
      var m2 := SplitHeaders(m, q, size, r[q].size - size);
      && Framed(m2, s, areas, {}) && ListsOk(m2, bins, free) && Coalesced(s) && free == FreeSet(s)
      && s[q + size] == Chunk(r[q].size - size, true, r[q].area) && s[q] == Chunk(size, true, r[q].area)
      && q + size !in r
      && Live(s) - {q + size} == Live(r)[q := Chunk(size, true, r[q].area)]
  {
    SplitShape(r, areas, q, size);
    TwoHeaders(m, chunks, Split(r, q, size, true), areas, bins, free, q, size, r[q].size - size);
  }

  /** The header writes of a split into two live chunks. */
  function SplitHeaders(m: Memory, c: int, size: int, rest: int): Memory {
    SetSize(SetSize(m, c + size, rest, rest + IN_USE), c, size, size + IN_USE)
  }

  /** `s` has the block at `p` replaced by two live chunks that fill the `total` bytes from `c` on. */
  ghost predicate SplitAs(chunks: Chunks, s: Chunks, p: int, c: int, total: int, size: int)
    requires p in chunks
  {
    && c in s && s[c] == Chunk(size, true, chunks[p].area)
    && c + size in s && s[c + size] == Chunk(total - size, true, chunks[p].area)
    && Live(s) - {c + size} == (Live(chunks) - {p})[c := Chunk(size, true, chunks[p].area)]
    && (forall x :: x in s ==> x in chunks || x == c + size)
    && (c + total in s ==> c + total in chunks && s[c + total] == chunks[c + total])
  }

  lemma JoinedSplit(m: Memory, hdrs: Headers, blocks: Blocks, mAreas: int, g: Plan, free: set<int>,
                    p: int, c: int, joinPrev: bool, joinNext: bool, total: int, size: int) returns (s: Chunks)
    requires Steady(m, hdrs, blocks, mAreas, g, free) && Touches(g.chunks, g.areas, p, c, joinPrev, joinNext)
    requires free
      == FreeSet(g.chunks) - (if joinPrev then {c} else {}) - (if joinNext then {p + g.chunks[p].size} else {})
    requires total == FreedSize(g.chunks, p, c, joinPrev, joinNext)
    requires Aligned(size) && MIN_ALLOC <= size && MIN_ALLOC <= total - size
    ensures PoolOk(SplitHeaders(m, c, size, total - size), hdrs, blocks, mAreas, g.(chunks := s))
    ensures SplitAs(g.chunks, s, p, c, total, size)
  {
    var r := AbsorbedFacts(g.chunks, g.areas, p, c, joinPrev, joinNext);
    s := SplitPool(m, hdrs, blocks, mAreas, g, free, r, p, c, total, size);
  }

  lemma SplitPool(m: Memory, hdrs: Headers, blocks: Blocks, mAreas: int, g: Plan, free: set<int>, r: Chunks, p: int,
                  c: int, total: int, size: int) returns (s: Chunks)
    requires Steady(m, hdrs, blocks, mAreas, g, free) && Tiled(r, g.areas) && Coalesced(r) && free == FreeSet(r)
    requires p in g.chunks && c in r && r[c] == Chunk(total, true, g.chunks[p].area) && c in g.chunks
    requires Live(r) == (Live(g.chunks) - {p})[c := r[c]]
    requires forall x :: x in r && x != c ==> x in g.chunks && r[x] == g.chunks[x]
    requires Aligned(size) && MIN_ALLOC <= size && MIN_ALLOC <= total - size
    ensures PoolOk(SplitHeaders(m, c, size, total - size), hdrs, blocks, mAreas, g.(chunks := s))
    ensures SplitAs(g.chunks, s, p, c, total, size)
  {
    s := SplitSteady(m, g.chunks, r, g.areas, g.bins, free, c, size);
    Rechunked(m, SplitHeaders(m, c, size, total - size), hdrs, blocks, mAreas, g, free, s);
    JoinedThenSplit(g.chunks, p, c, total, r, s, size);
  }

  lemma Rechunked(m: Memory, m': Memory, hdrs: Headers, blocks: Blocks, mAreas: int, g: Plan, free: set<int>, s: Chunks)
    requires Steady(m, hdrs, blocks, mAreas, g, free) && Framed(m', s, g.areas, {}) && ListsOk(m', g.bins, free)
    requires Coalesced(s) && free == FreeSet(s)
    ensures PoolOk(m', hdrs, blocks, mAreas, g.(chunks := s))
  {}

  /** `s` is `r` with the live chunk at `q` split. */
  ghost predicate SplitOf(r: Chunks, s: Chunks, q: int, size: int)
    requires q in r
  {
    && q in s && q + size in s && q + size !in r
    && s[q + size] == Chunk(r[q].size - size, true, r[q].area) && s[q] == Chunk(size, true, r[q].area)
    && Live(s) - {q + size} == Live(r)[q := Chunk(size, true, r[q].area)]
    && (forall x :: x in s && x != q && x != q + size ==> x in r && s[x] == r[x])
  }

  lemma JoinedThenSplit(chunks: Chunks, p: int, c: int, total: int, r: Chunks, s: Chunks, size: int)
    requires p in chunks && c in r && r[c] == Chunk(total, true, chunks[p].area) && c in chunks
    requires Live(r) == (Live(chunks) - {p})[c := r[c]] && SplitOf(r, s, c, size) && 0 < size < total
    requires forall x :: x in r && x != c ==> x in chunks && r[x] == chunks[x]
    ensures SplitAs(chunks, s, p, c, total, size)
  {
    var live := Live(chunks) - {p};
    assert live[c := r[c]][c := Chunk(size, true, r[c].area)] == live[c := Chunk(size, true, chunks[p].area)];
    assert c + total != c && c + total != c + size;
  }

  lemma SplitSteady(m: Memory, chunks: Chunks, r: Chunks, areas: Areas, bins: Bins, free: set<int>, q: int, size: int)
      returns (s: Chunks)
    requires Tiled(r, areas) && Framed(m, chunks, areas, {}) && ListsOk(m, bins, free) && Coalesced(r)
    requires q in r && r[q].used && free == FreeSet(r) && forall x :: x in r && x != q ==>
      x in chunks && r[x] == chunks[x]
    requires Aligned(size) && MIN_ALLOC <= size && MIN_ALLOC <= r[q].size - size
    ensures var m2 := SplitHeaders(m, q, size, r[q].size - size);
      Framed(m2, s, areas, {}) && ListsOk(m2, bins, free) && Coalesced(s) && free == FreeSet(s)
    ensures SplitOf(r, s, q, size)
  {
    s := Split(r, q, size, true);
    AbsorbedSplitSteady(m, chunks, r, areas, bins, free, q, size);
  }

  lemma JoinedWhole(m: Memory, hdrs: Headers, blocks: Blocks, mAreas: int, g: Plan, free: set<int>,
                    p: int, c: int, joinPrev: bool, joinNext: bool) returns (r: Chunks)
    requires Steady(m, hdrs, blocks, mAreas, g, free) && Touches(g.chunks, g.areas, p, c, joinPrev, joinNext)
    requires free
      == FreeSet(g.chunks) - (if joinPrev then {c} else {}) - (if joinNext then {p + g.chunks[p].size} else {})
    ensures var total := FreedSize(g.chunks, p, c, joinPrev, joinNext);
      && PoolOk(SetSize(m, c, total, total + IN_USE), hdrs, blocks, mAreas, g.(chunks := r))
      && Live(r) == (Live(g.chunks) - {p})[c := Chunk(total, true, g.chunks[p].area)]
      && OnlyHeaders(m, SetSize(m, c, total, total + IN_USE), g.chunks, g.areas)
  {
    r := AbsorbedFacts(g.chunks, g.areas, p, c, joinPrev, joinNext);
    WholePool(m, hdrs, blocks, mAreas, g, free, r, c, FreedSize(g.chunks, p, c, joinPrev, joinNext));
  }

  lemma WholePool(m: Memory, hdrs: Headers, blocks: Blocks, mAreas: int, g: Plan, free: set<int>, r: Chunks, c: int,
                  total: int)
    requires Steady(m, hdrs, blocks, mAreas, g, free) && Tiled(r, g.areas) && Coalesced(r) && free == FreeSet(r)
    requires c in r && r[c].size == total && r[c].used && c in g.chunks && FLOOR <= c
    requires forall x :: x in r && x != c ==> x in g.chunks && r[x] == g.chunks[x]
    ensures PoolOk(SetSize(m, c, total, total + IN_USE), hdrs, blocks, mAreas, g.(chunks := r))
    ensures OnlyHeaders(m, SetSize(m, c, total, total + IN_USE), g.chunks, g.areas)
  {
    AbsorbedSteady(m, g.chunks, r, g.areas, g.bins, free, c);
    Rechunked(m, SetSize(m, c, total, total + IN_USE), hdrs, blocks, mAreas, g, free, r);
    HeaderTouches(m, g.chunks, r, g.areas, c);
  }

  lemma AbsorbedSteady(m: Memory, chunks: Chunks, r: Chunks, areas: Areas, bins: Bins, free: set<int>, c: int)
    requires Tiled(r, areas) && Framed(m, chunks, areas, {}) && ListsOk(m, bins, free) && c in r && r[c].used
    requires free == FreeSet(r) && FLOOR <= c && forall x :: x in r && x != c ==> x in chunks && r[x] == chunks[x]
    ensures var m' := SetSize(m, c, r[c].size, r[c].size + IN_USE);
      Framed(m', r, areas, {}) && ListsOk(m', bins, free)
  {
    HeaderStep(m, chunks, r, areas, bins, free, {}, c);
    assert {} - {c} == {};
  }

  /** What stays of `total` bytes when `size` of them are asked for. */
  function Kept(total: int, size: int): int { if MIN_ALLOC <= total - size then size else total }

  /** Keeping the front of the chunk at `c` writes headers, among them that of the remainder. */
  ghost predicate ChangedForFront(m: Memory, m': Memory, chunks: Chunks, areas: Areas, c: int, total: int, size: int) {
    forall x :: At(m', x) != At(m, x) ==>
      x in chunks || x < FLOOR || (exists a :: a in areas && x == End(areas, a))
        || (MIN_ALLOC <= total - size && x == c + size)
  }

  lemma JoinedEnd(chunks: Chunks, areas: Areas, p: int, c: int, joinPrev: bool, joinNext: bool)
    requires Touches(chunks, areas, p, c, joinPrev, joinNext)
    ensures var e := c + FreedSize(chunks, p, c, joinPrev, joinNext);
      (e in chunks || e == End(areas, chunks[p].area)) && p < e && c in chunks && chunks[p].area in areas
  {
    var e := p + chunks[p].size;
    assert ChunkOk(chunks, areas, p) && NextOk(chunks, areas, p);
    if joinNext { assert ChunkOk(chunks, areas, e) && NextOk(chunks, areas, e); }
  }

  lemma FrontCells(m: Memory, chunks: Chunks, areas: Areas, c: int, total: int, size: int, a: int)
    requires c in chunks && (c + total in chunks || (a in areas && c + total == End(areas, a)))
      && MIN_ALLOC <= total - size
    ensures ChangedForFront(m, SplitHeaders(m, c, size, total - size), chunks, areas, c, total, size)
  {}

  lemma JoinedCells(m: Memory, chunks: Chunks, areas: Areas, p: int, c: int, joinPrev: bool, joinNext: bool, size: int)
    requires Touches(chunks, areas, p, c, joinPrev, joinNext)
    requires MIN_ALLOC <= FreedSize(chunks, p, c, joinPrev, joinNext) - size
    ensures var total := FreedSize(chunks, p, c, joinPrev, joinNext);
      ChangedForFront(m, SplitHeaders(m, c, size, total - size), chunks, areas, c, total, size)
  {
    JoinedEnd(chunks, areas, p, c, joinPrev, joinNext);
    FrontCells(m, chunks, areas, c, FreedSize(chunks, p, c, joinPrev, joinNext), size, chunks[p].area);
  }

  lemma FrontChanges(m: Memory, m1: Memory, m2: Memory, chunks: Chunks, s: Chunks, areas: Areas, c: int, total: int,
                     size: int)
    requires ChangedForFront(m, m1, chunks, areas, c, total, size) && OnlyHeaders(m1, m2, s, areas)
      && MIN_ALLOC <= total - size
    requires forall x :: x in s ==> x in chunks || x == c + size
    ensures ChangedForFront(m, m2, chunks, areas, c, total, size)
  {
    forall x | At(m2, x) != At(m, x)
      ensures x in chunks || x < FLOOR || (exists a :: a in areas && x == End(areas, a)) || x == c + size
    {
      assert At(m1, x) != At(m, x) || At(m2, x) != At(m1, x);
    }
  }

  // ----- moving a payload

  function Source(x: int, dst: int, src: int): int { src + (x - dst) }

  /** `memmove` of `len` bytes: every cell of the target reads what the source held before. */
  function Moved(m: Memory, dst: int, src: int, len: int): Memory {
    m.(cells := m.cells + map x: int | dst <= x < dst + len :: At(m, Source(x, dst, src)))
  }

  /** Every cell of the target reads what the source held, and the rest is as it was. */
  ghost predicate IsMoved(m: Memory, m': Memory, dst: int, src: int, len: int) {
    && (forall x {:trigger At(m', x)} :: dst <= x < dst + len ==> At(m', x) == At(m, Source(x, dst, src)))
    && (forall x :: !(dst <= x < dst + len) ==> At(m', x) == At(m, x))
  }

  /** Writing the payload of a live chunk leaves the pool in order. */
  lemma PayloadWrite(m: Memory, m': Memory, chunks: Chunks, areas: Areas, bins: Bins, free: set<int>, c: int)
    requires Framed(m, chunks, areas, {}) && ListsOk(m, bins, free) && free == FreeSet(chunks) && c in chunks
      && chunks[c].used
    requires forall x :: !(c < x < c + chunks[c].size) ==> At(m', x) == At(m, x)
    ensures Framed(m', chunks, areas, {}) && ListsOk(m', bins, free)
  {
    assert ChunkOk(chunks, areas, c) && AreaOk(areas, chunks[c].area);
    forall p | p in chunks ensures HeaderOk(m', chunks, p) {
      assert HeaderOk(m, chunks, p) && NextOk(chunks, areas, p);
      assert p + chunks[p].size in chunks || p + chunks[p].size == End(areas, chunks[p].area);
      if p + chunks[p].size !in chunks { AreaEdges(chunks, areas, c, chunks[p].area); }
    }
    forall a | a in areas ensures MarkerOk(m', areas, a) {
      assert MarkerOk(m, areas, a);
      AreaEdges(chunks, areas, c, a);
    }
    ListsFrame(m, m', bins, free);
  }

  // ----- what Realloc promises of contents

  lemma LinksThenFront(m: Memory, m1: Memory, m2: Memory, free: set<int>, chunks: Chunks, areas: Areas, c: int,
                       total: int, size: int)
    requires free <= chunks.Keys && OnlyLinks(m, m1, free) && ChangedForFront(m1, m2, chunks, areas, c, total, size)
    ensures ChangedForFront(m, m2, chunks, areas, c, total, size)
  {
    forall x | At(m2, x) != At(m, x)
      ensures x in chunks || x < FLOOR || (exists a :: a in areas && x == End(areas, a))
        || (MIN_ALLOC <= total - size && x == c + size)
    {
      assert At(m1, x) != At(m, x) || At(m2, x) != At(m1, x);
    }
  }

  /** No address inside a chunk is a header. */
  lemma InsideChunk(chunks: Chunks, areas: Areas, p: int, x: int)
    requires Tiled(chunks, areas) && p in chunks && p < x < p + chunks[p].size
    ensures x !in chunks && FLOOR <= x && forall a :: a in areas ==> x != End(areas, a)
  {
    assert ChunkOk(chunks, areas, p) && AreaOk(areas, chunks[p].area);
    forall a | a in areas ensures x != End(areas, a) { AreaEdges(chunks, areas, p, a); }
  }

  /** The joined chunk overlaps no other live chunk. */
  lemma JoinedApart(chunks: Chunks, areas: Areas, p: int, c: int, joinPrev: bool, joinNext: bool, q: int)
    requires Touches(chunks, areas, p, c, joinPrev, joinNext) && q in Live(chunks) && q != p
    ensures q + chunks[q].size <= c || c + FreedSize(chunks, p, c, joinPrev, joinNext) <= q
  {
    var r := AbsorbedFacts(chunks, areas, p, c, joinPrev, joinNext);
    assert q in Live(r) && q != c;
  }

  lemma FrontKeepsOthers(m: Memory, m': Memory, chunks: Chunks, areas: Areas, p: int, c: int, joinPrev: bool,
                         joinNext: bool, size: int, q: int)
    requires Touches(chunks, areas, p, c, joinPrev, joinNext) && q in Live(chunks) && q != p && 0 < size
    requires ChangedForFront(m, m', chunks, areas, c, FreedSize(chunks, p, c, joinPrev, joinNext), size)
    ensures Untouched(m, m', q, chunks[q].size)
  {
    JoinedApart(chunks, areas, p, c, joinPrev, joinNext, q);
    forall x | q < x < q + chunks[q].size ensures At(m', x) == At(m, x) {
      InsideChunk(chunks, areas, q, x);
    }
  }

  /** The payload of `p` survives, except for the cell that the header of the remainder takes. */
  lemma FrontKeepsOwn(m: Memory, m': Memory, chunks: Chunks, areas: Areas, p: int, c: int, total: int, size: int)
    requires Tiled(chunks, areas) && p in chunks && ChangedForFront(m, m', chunks, areas, c, total, size)
    ensures forall x :: p < x < p + chunks[p].size && !(MIN_ALLOC <= total - size && x == c + size) ==>
      At(m', x) == At(m, x)
  {
    forall x | p < x < p + chunks[p].size && !(MIN_ALLOC <= total - size && x == c + size)
      ensures At(m', x) == At(m, x) {
      InsideChunk(chunks, areas, p, x);
    }
  }

  /** `len` bytes of a block, header included, read at `dst` what they read at `src` before. */
  ghost predicate Carried(m: Memory, m': Memory, src: int, dst: int, len: int) {
    forall x {:trigger Source(x, src, dst)} :: src + HEADER <= x < src + len ==> At(m', Source(x, src, dst)) == At(m, x)
  }

  /** The same, but for the cell at `but`. */
  ghost predicate CarriedBut(m: Memory, m': Memory, src: int, dst: int, len: int, but: int) {
    forall x {:trigger Source(x, src, dst)} :: src + HEADER <= x < src + len && x != but ==>
      At(m', Source(x, src, dst)) == At(m, x)
  }

  /** How `Realloc` finds room. */
  datatype Way = InPlace(total: int) | Backward(chunk: int, total: int) | Elsewhere

  /** The way that the headers around a block make `Realloc` take (lines 448-491 and 507 of SC_AllocPool.cpp). */
  function WayOf(m: Memory, p: int, size: int): Way {
    var had := SizeBits(At(m, p).size);
    var nextFree := !InUseBit(At(m, p + had).size);
    var nextSize := SizeBits(At(m, p + had).size);
    var prevSize := SizeBits(At(m, p).prevSize);
    var prevFree := !InUseBit(At(m, p - prevSize).size);
    if size <= had then InPlace(had)
    else if nextFree && nextSize + had >= size then InPlace(had + nextSize)
    else if prevFree && nextFree && nextSize + prevSize + had >= size then Backward(p - prevSize,
      had + nextSize + prevSize)
    else if prevFree && prevSize + had >= size then Backward(p - prevSize, had + prevSize)
    else Elsewhere
  }

  /** The header of the remainder falls on payload that is yet to be moved. */
  predicate Clobbers(way: Way, p: int, had: int, size: int) {
    way.Backward? && MIN_ALLOC <= way.total - size && p < way.chunk + size < p + had
  }

  /** The words that `Realloc` reads describe the neighbours. */
  lemma ReadWay(m: Memory, chunks: Chunks, areas: Areas, p: int)
    requires Framed(m, chunks, areas, {}) && Coalesced(chunks) && p in chunks && chunks[p].used
    ensures SizeBits(At(m, p).size) == chunks[p].size
    ensures var e := p + chunks[p].size;
      !InUseBit(At(m, e).size) ==> (
        && Touches(chunks, areas, p, p, false, true) && SizeBits(At(m, e).size) == chunks[e].size > 0
        && e in FreeSet(chunks)
        && FreedSize(chunks, p, p, false, true) == chunks[p].size + chunks[e].size)
    ensures var e := p + chunks[p].size;
      InUseBit(At(m, e).size) ==> (e in chunks ==> chunks[e].used)
    ensures var q := p - SizeBits(At(m, p).prevSize);
      !InUseBit(At(m, q).size) ==> (
        && Touches(chunks, areas, p, q, true, false) && q in FreeSet(chunks)
        && FreedSize(chunks, p, q, true, false) == chunks[p].size + SizeBits(At(m, p).prevSize))
    ensures var q := p - SizeBits(At(m, p).prevSize);
      var e := p + chunks[p].size;
      !InUseBit(At(m, q).size) && !InUseBit(At(m, e).size) ==> (
        && Touches(chunks, areas, p, q, true, true) && q != e
        && FreedSize(chunks, p, q, true, true) == chunks[p].size + SizeBits(At(m, p).prevSize) + chunks[e].size
        && (e + chunks[e].size in chunks ==> chunks[e + chunks[e].size].used))
    ensures Touches(chunks, areas, p, p, false, false) && FreedSize(chunks, p, p, false, false) == chunks[p].size
  {
    ReadNeighbours(m, chunks, areas, p);
    FollowingChunk(m, chunks, areas, p);
    PreviousHeader(m, chunks, areas, p);
    var e := p + chunks[p].size;
    if e in chunks { assert JoinedAfter(chunks, e) && ChunkOk(chunks, areas, e); }
  }

  lemma PreviousHeader(m: Memory, chunks: Chunks, areas: Areas, p: int)
    requires Framed(m, chunks, areas, {}) && p in chunks && chunks[p].used
    ensures InUseBit(At(m, p - SizeBits(At(m, p).prevSize)).size) == InUseBit(At(m, p).prevSize)
  {
    WordParts(m, chunks, areas, p);
    if p == First(chunks[p].area) {
      assert ChunkOk(chunks, areas, p) && MarkerOk(m, areas, chunks[p].area);
    } else {
      var q := Predecessor(chunks, areas, p);
      assert HeaderOk(m, chunks, q) && ChunkOk(chunks, areas, q);
      WordParts(m, chunks, areas, q);
    }
  }

  /** What the way is by the chunks around the block: it stays if it is large enough, or is so with a free chunk behind
      it; it moves to a free chunk before it if both, with the one behind, are large enough; else it goes elsewhere. */
  ghost predicate WayIs(chunks: Chunks, p: int, size: int, way: Way)
    requires p in chunks
  {
    var had, e := chunks[p].size, p + chunks[p].size;
    var room := had + if e in chunks && !chunks[e].used then chunks[e].size else 0;
    if size <= had then way == InPlace(had)
    else if size <= room then way == InPlace(room)
    else if way.Backward? then
      var q := way.chunk;
      q in chunks && !chunks[q].used && q + chunks[q].size == p && way.total == chunks[q].size + room >= size
    else
      way == Elsewhere && forall q :: q in chunks && !chunks[q].used && q + chunks[q].size == p ==>
        chunks[q].size + room < size
  }

  lemma WayMeans(m: Memory, chunks: Chunks, areas: Areas, p: int, size: int)
    requires Framed(m, chunks, areas, {}) && Coalesced(chunks) && p in chunks && chunks[p].used
    ensures WayIs(chunks, p, size, WayOf(m, p, size))
  {
    ReadNeighbours(m, chunks, areas, p);
    PreviousHeader(m, chunks, areas, p);
    ReadWay(m, chunks, areas, p);
  }

  /** There is no more than one chunk right before a chunk. */
  lemma OneBefore(chunks: Chunks, areas: Areas, p: int, q: int, q': int)
    requires Tiled(chunks, areas) && q in chunks && q' in chunks && q + chunks[q].size == p == q' + chunks[q'].size
    ensures q == q'
  {
    assert ChunkOk(chunks, areas, q) && ChunkOk(chunks, areas, q');
  }

  lemma MovedReads(m: Memory, m': Memory, p: int, c: int, len: int, x: int)
    requires IsMoved(m, m', c + HEADER, p + HEADER, len - HEADER) && p + HEADER <= x < p + len
    ensures At(m', Source(x, p, c)) == At(m, x)
  {
    assert Source(Source(x, p, c), c + HEADER, p + HEADER) == x;
  }

  lemma {:induction false} AlignedGap(x: int)
    requires Aligned(x) && 0 < x
    ensures ALIGN <= x
  {}

  /** What is read where after the block was moved back by `memmove`. */
  lemma MovedBack(m: Memory, m1: Memory, m2: Memory, chunks: Chunks, areas: Areas, p: int, c: int, total: int,
                  size: int)
    requires Tiled(chunks, areas) && p in chunks && ChangedForFront(m, m1, chunks, areas, c, total, size)
    requires IsMoved(m1, m2, c + HEADER, p + HEADER, chunks[p].size - HEADER)
    ensures !Clobbers(Backward(c, total), p, chunks[p].size, size) ==> Carried(m, m2, p, c, chunks[p].size)
    ensures CarriedBut(m, m2, p, c, chunks[p].size, c + size)
  {
    FrontKeepsOwn(m, m1, chunks, areas, p, c, total, size);
    var safe := !Clobbers(Backward(c, total), p, chunks[p].size, size);
    forall x {:trigger Source(x, p, c)} | p + HEADER <= x < p + chunks[p].size && (safe || x != c + size)
      ensures At(m2, Source(x, p, c)) == At(m, x)
    {
      MovedReads(m1, m2, p, c, chunks[p].size, x);
    }
  }

  /** And what is read instead where the header of the remainder was written first. */
  lemma MovedBackHeader(m1: Memory, m2: Memory, p: int, c: int, had: int, x: int)
    requires IsMoved(m1, m2, c + HEADER, p + HEADER, had - HEADER) && Aligned(x - p) && p < x < p + had
    ensures At(m2, Source(x, p, c)) == At(m1, x)
  {
    AlignedGap(x - p);
    MovedReads(m1, m2, p, c, had, x);
  }

  lemma MovedBackOver(m1: Memory, m2: Memory, p: int, c: int, had: int, total: int, size: int)
    requires IsMoved(m1, m2, c + HEADER, p + HEADER, had - HEADER) && Aligned(size + c - p)
    requires MIN_ALLOC <= total - size ==> At(m1, c + size).size == total - size
    ensures Clobbers(Backward(c, total), p, had, size) ==> At(m2, Source(c + size, p, c)).size == total - size
  {
    var x := c + size;
    if Clobbers(Backward(c, total), p, had, size) {
      assert x - p == size + c - p;
      MovedBackHeader(m1, m2, p, c, had, x);
    }
  }

  /** Moving a payload touches only the block itself. */
  lemma MoveKeepsOthers(m: Memory, m1: Memory, m2: Memory, chunks: Chunks, areas: Areas, p: int, c: int, joinNext: bool,
                        size: int, q: int)
    requires Touches(chunks, areas, p, c, true, joinNext) && 0 < size
    requires ChangedForFront(m, m1, chunks, areas, c, FreedSize(chunks, p, c, true, joinNext), size)
    requires IsMoved(m1, m2, c + HEADER, p + HEADER, chunks[p].size - HEADER)
    requires q in Live(chunks) && q != p
    ensures Untouched(m, m2, q, chunks[q].size)
  {
    FrontKeepsOthers(m, m1, chunks, areas, p, c, true, joinNext, size, q);
    JoinedApart(chunks, areas, p, c, true, joinNext, q);
    JoinedEnd(chunks, areas, p, c, true, joinNext);
    MovedInside(chunks, areas, p, c, joinNext);
  }

  lemma MovedInside(chunks: Chunks, areas: Areas, p: int, c: int, joinNext: bool)
    requires Touches(chunks, areas, p, c, true, joinNext)
    ensures c + chunks[p].size <= c + FreedSize(chunks, p, c, true, joinNext) && HEADER < chunks[p].size
  {
    assert ChunkOk(chunks, areas, p) && ChunkOk(chunks, areas, c);
    if joinNext { assert ChunkOk(chunks, areas, p + chunks[p].size); }
  }

  lemma AlignedOffset(chunks: Chunks, areas: Areas, p: int, c: int, size: int)
    requires Tiled(chunks, areas) && p in chunks && c in chunks && Aligned(size)
    ensures Aligned(size + c - p) && HEADER < chunks[p].size
  {
    assert ChunkOk(chunks, areas, p) && ChunkOk(chunks, areas, c);
    OffsetAligned(size, c, p);
  }

  lemma {:induction false} OffsetAligned(size: int, c: int, p: int)
    requires Aligned(size) && Aligned(c - HEADER) && Aligned(p - HEADER)
    ensures Aligned(size + c - p)
  {
    var i, j, k := size / 64, (c - HEADER) / 64, (p - HEADER) / 64;
    assert size + c - p == 64 * (i + j - k);
  }

  /** What a block that `Realloc` moves back carries along, and what the other blocks keep. */
  ghost predicate MovedWell(m: Memory, m': Memory, chunks: Chunks, p: int, c: int, total: int, size: int)
    requires p in chunks
  {
    && (forall q :: q in Live(chunks) && q != p ==> Untouched(m, m', q, chunks[q].size))
    && (!Clobbers(Backward(c, total), p, chunks[p].size, size) ==> Carried(m, m', p, c, chunks[p].size))
    && (Clobbers(Backward(c, total), p, chunks[p].size, size) ==>
          At(m', Source(c + size, p, c)).size == total - size && CarriedBut(m, m', p, c, chunks[p].size, c + size))
  }

  lemma MovedBackWell(m: Memory, m1: Memory, m2: Memory, chunks: Chunks, areas: Areas, p: int, c: int, joinNext: bool,
                      total: int, size: int)
    requires Touches(chunks, areas, p, c, true, joinNext) && Aligned(size) && 0 < size
    requires total == FreedSize(chunks, p, c, true, joinNext)
    requires ChangedForFront(m, m1, chunks, areas, c, total, size)
    requires IsMoved(m1, m2, c + HEADER, p + HEADER, chunks[p].size - HEADER)
    requires MIN_ALLOC <= total - size ==> At(m1, c + size).size == total - size
    ensures MovedWell(m, m2, chunks, p, c, total, size)
  {
    AlignedOffset(chunks, areas, p, c, size);
    MovedBackOver(m1, m2, p, c, chunks[p].size, total, size);
    MovedBack(m, m1, m2, chunks, areas, p, c, total, size);
    MoveKeepsAll(m, m1, m2, chunks, areas, p, c, joinNext, size);
  }

  lemma MoveKeepsAll(m: Memory, m1: Memory, m2: Memory, chunks: Chunks, areas: Areas, p: int, c: int, joinNext: bool,
                     size: int)
    requires Touches(chunks, areas, p, c, true, joinNext) && 0 < size
    requires ChangedForFront(m, m1, chunks, areas, c, FreedSize(chunks, p, c, true, joinNext), size)
    requires IsMoved(m1, m2, c + HEADER, p + HEADER, chunks[p].size - HEADER)
    ensures forall q :: q in Live(chunks) && q != p ==> Untouched(m, m2, q, chunks[q].size)
  {
    forall q | q in Live(chunks) && q != p ensures Untouched(m, m2, q, chunks[q].size) {
      MoveKeepsOthers(m, m1, m2, chunks, areas, p, c, joinNext, size, q);
    }
  }

  /** What a block that stays where it is keeps, and what the other blocks keep. */
  lemma KeptWell(m: Memory, m': Memory, chunks: Chunks, areas: Areas, p: int, joinNext: bool, total: int, size: int)
    requires Touches(chunks, areas, p, p, false, joinNext) && 0 < size
      && total == FreedSize(chunks, p, p, false, joinNext)
    requires ChangedForFront(m, m', chunks, areas, p, total, size)
    ensures forall q :: q in Live(chunks) && q != p ==> Untouched(m, m', q, chunks[q].size)
    ensures Carried(m, m', p, p, Min(chunks[p].size, Kept(total, size)))
  {
    FrontKeepsOwn(m, m', chunks, areas, p, p, total, size);
    forall q | q in Live(chunks) && q != p ensures Untouched(m, m', q, chunks[q].size) {
      FrontKeepsOthers(m, m', chunks, areas, p, p, false, joinNext, size, q);
    }
  }

  /** A free chunk lies apart from the live ones. */
  lemma FreeApart(chunks: Chunks, areas: Areas, c: int, size: int)
    requires Tiled(chunks, areas) && c in chunks && !chunks[c].used && size <= chunks[c].size
    ensures forall q :: q in Live(chunks) ==> q + chunks[q].size <= c || c + size <= q
  {}

  /** And so does a new area. */
  lemma AreaApart(chunks: Chunks, areas: Areas, a: int, had: int, size: int)
    requires Tiled(chunks, areas) && RoomFor(areas, a, had) && size <= had
    ensures forall q :: q in Live(chunks) ==> q + chunks[q].size <= First(a) || First(a) + size <= q
  {
    forall q | q in Live(chunks) ensures q + chunks[q].size <= First(a) || First(a) + size <= q {
      assert ChunkOk(chunks, areas, q);
    }
  }

  /** Copying a payload to room apart from the live blocks leaves them as they are. */
  lemma CopiedOver(m: Memory, m1: Memory, m2: Memory, live: Chunks, p: int, c: int)
    requires p in live && HEADER <= live[p].size && forall q :: q in live ==> Untouched(m, m1, q, live[q].size)
    requires forall q :: q in live ==> q + live[q].size <= c || c + live[p].size <= q
    requires IsMoved(m1, m2, c + HEADER, p + HEADER, live[p].size - HEADER)
    ensures forall q :: q in live ==> Untouched(m, m2, q, live[q].size)
    ensures Carried(m, m2, p, c, live[p].size)
  {
    forall q | q in live ensures Untouched(m, m2, q, live[q].size) { assert Untouched(m, m1, q, live[q].size); }
    assert Untouched(m, m1, p, live[p].size);
    forall x {:trigger Source(x, p, c)} | p + HEADER <= x < p + live[p].size
      ensures At(m2, Source(x, p, c)) == At(m, x) {
      MovedReads(m1, m2, p, c, live[p].size, x);
    }
  }

  /** A successful `Realloc` of the block at `p` to `size` bytes that went `way` and put it at `c`. */
  ghost predicate Resized(m: Memory, m': Memory, live: Chunks, live': Chunks, p: int, c: int, size: int, way: Way) {
    && p in live && c in live' && size <= live'[c].size < size + MIN_ALLOC && live' - {c} == live - {p}
    && (way.InPlace? ==> c == p) && (way.Backward? ==> c == way.chunk) && (way.Elsewhere? ==> c !in live)
    && (!way.Elsewhere? ==> live'[c].size == Kept(way.total, size))
    && (forall q :: q in live && q != p ==> Untouched(m, m', q, live[q].size))
    && (!Clobbers(way, p, live[p].size, size) ==> Carried(m, m', p, c, Min(live[p].size, live'[c].size)))
    && (Clobbers(way, p, live[p].size, size) ==>
          At(m', Source(c + size, p, c)).size == way.total - size && CarriedBut(m, m', p, c, live[p].size, c + size))
  }

  /** Freeing the old block after the copy writes headers only. */
  lemma FreedAfterCopy(m: Memory, m2: Memory, m3: Memory, live: Chunks, chunks: Chunks, areas: Areas, p: int, c: int,
                       size: int)
    requires Tiled(chunks, areas) && c in Live(chunks) && live == Live(chunks) - {c} && p in live && c !in live
    requires live[p].size < size <= chunks[c].size < size + MIN_ALLOC && OnlyHeaders(m2, m3, chunks, areas)
    requires forall q :: q in live ==> Untouched(m, m2, q, live[q].size)
    requires Carried(m, m2, p, c, live[p].size)
    ensures Resized(m, m3, live, Live(chunks) - {p}, p, c, size, Elsewhere)
  {
    forall q | q in live ensures Untouched(m, m3, q, live[q].size) {
      HeadersLeavePayload(m2, m3, chunks, areas, q);
      assert Untouched(m, m2, q, live[q].size);
    }
    HeadersLeavePayload(m2, m3, chunks, areas, c);
    assert Live(chunks) - {p} - {c} == live - {p};
  }

  // ----- pools without blocks

  ghost function NoPlan(bins: Bins): Plan { Plan(map[], map[], [], bins, {}) }

  lemma NothingHeld(m: Memory, hdrs: Headers, blocks: Blocks, g: Plan)
    requires g == NoPlan(g.bins) && BinsOk(m, g.bins, blocks, {})
    ensures PoolOk(m, hdrs, blocks, 0, g) && Live(g.chunks) == map[]
  {
    assert FreeSet(g.chunks) == {};
  }

  /** Walking the ring visits every raw block once. */
  lemma RawSequence(hdrs: Headers, mAreas: int, ring: seq<int>, areas: Areas, freed: seq<int>)
    requires RingOk(hdrs, mAreas, ring, areas) && |freed| == |ring|
    requires forall i :: 0 <= i < |ring| ==> freed[i] == HdrAt(hdrs, ring[i]).raw
    ensures Distinct(freed) && (set raw | raw in freed) == RawBlocks(hdrs, areas)
  {
    forall i, j | 0 <= i < j < |freed| ensures freed[i] != freed[j] { assert ring[i] in areas && ring[j] in areas; }
    forall raw | raw in freed ensures raw in RawBlocks(hdrs, areas) {
      var i :| 0 <= i < |freed| && freed[i] == raw;
      assert ring[i] in areas;
    }
    forall raw | raw in RawBlocks(hdrs, areas) ensures raw in freed {
      var a :| a in areas && HdrAt(hdrs, a).raw == raw;
      var i :| 0 <= i < |ring| && ring[i] == a;
      assert freed[i] == raw;
    }
  }

  lemma FirstArea(hdrs: Headers, mAreas: int, ring: seq<int>, areas: Areas)
    requires RingOk(hdrs, mAreas, ring, areas) && AreasOk(areas)
    ensures mAreas == 0 <==> ring == []
  {
    if ring != [] { assert ring[0] in areas && AreaOk(areas, ring[0]); }
  }

  /** One turn around the ring: the areas before `k` are done, now the one at `k` is. */
  lemma RingTurn(hdrs: Headers, mAreas: int, ring: seq<int>, areas: Areas, k: nat, done: set<int>)
    requires RingOk(hdrs, mAreas, ring, areas) && k < |ring|
    requires forall i {:trigger ring[i]} :: 0 <= i < |ring| ==> (First(ring[i]) in done <==> i < k)
    ensures ring[k] in areas && First(ring[k]) !in done && HdrAt(hdrs, ring[k]).size == areas[ring[k]]
    ensures k + 1 < |ring| ==> HdrAt(hdrs, ring[k]).next == ring[k + 1] != ring[0]
    ensures k + 1 == |ring| ==> HdrAt(hdrs, ring[k]).next == ring[0]
    ensures forall i {:trigger ring[i]} :: 0 <= i < |ring| ==>
      (First(ring[i]) in done + {First(ring[k])} <==> i < k + 1)
  {
    assert AreaLinked(hdrs, ring, k);
  }

  lemma AllTurned(w: Chunks, areas: Areas, ring: seq<int>, done: set<int>)
    requires AreWhole(w, areas) && done <= w.Keys && forall a :: a in ring <==> a in areas
    requires forall i {:trigger ring[i]} :: 0 <= i < |ring| ==> First(ring[i]) in done
    ensures done == w.Keys && w.Keys - done == {}
  {
    forall c | c in w ensures c in done {
      assert c - AREA_HEADER in ring;
      assert c == First(c - AREA_HEADER);
    }
  }

  lemma NoAreas(hdrs: Headers, ring: seq<int>, areas: Areas)
    requires ring == [] && forall a :: a in ring <==> a in areas
    ensures areas == map[] && RawBlocks(hdrs, areas) == {}
  {
    if areas.Keys != {} { var a := Pick(areas.Keys); }
    if RawBlocks(hdrs, areas) != {} { var raw := Pick(RawBlocks(hdrs, areas)); }
  }

  lemma WholeIsFree(w: Chunks, areas: Areas)
    requires AreWhole(w, areas)
    ensures FreeSet(w) == w.Keys
  {
    forall c | c in w ensures !w[c].used {
      assert c == First(c - AREA_HEADER);
    }
  }

  lemma WholeOfNothing(w: Chunks, areas: Areas)
    requires AreWhole(w, areas) && areas == map[]
    ensures w.Keys == {}
  {
    if w.Keys != {} { var c := Pick(w.Keys); }
  }

  /** One step from the small end of a bin to the large one. */
  lemma StepUp(m: Memory, bins: Bins, free: set<int>, i: int, k: int)
    requires ListsOk(m, bins, free) && 0 <= i < NUM_BINS && 0 <= k < |bins[i]|
    ensures SizeBits(At(m, bins[i][k]).size) == At(m, bins[i][k]).size >= 0
    ensures At(m, bins[i][k]).prev == Node(BinAt(i), bins[i], k - 1)
    ensures k + 1 < |bins[i]| ==> At(m, bins[i][k + 1]).size <= At(m, bins[i][k]).size
  {
    assert BinOk(m, bins[i], i, free);
    MemberSize(m, bins, free, i, k);
    RingStep(m, BinAt(i), bins[i], k);
    Aligns(At(m, bins[i][k]).size);
  }

  /** One more chunk of bin `i` counted. */
  lemma OneMore(m: Memory, chunks: Chunks, areas: Areas, bins: Bins, i: int, k: int, seen: set<int>)
      returns (more: set<int>)
    requires Framed(m, chunks, areas, {}) && ListsOk(m, bins, FreeSet(chunks)) && 0 <= i < NUM_BINS
      && 0 <= k < |bins[i]|
    requires Walked(m, FreeSet(chunks), bins[i], i, k, seen) && seen <= chunks.Keys
    ensures Walked(m, FreeSet(chunks), bins[i], i, k - 1, more) && more <= chunks.Keys
    ensures SizeSum(chunks, more) == SizeSum(chunks, seen) + At(m, bins[i][k]).size
  {
    var p, s := bins[i][k], bins[i];
    assert BinOk(m, s, i, FreeSet(chunks));
    MemberSize(m, bins, FreeSet(chunks), i, k);
    FreeSizes(m, chunks, areas);
    more := seen + {p};
    assert s[k..] == [p] + s[k + 1..];
    assert p !in s[k + 1..];
    SizeSumRemove(chunks, more, p);
    assert more - {p} == seen;
  }

  // ----- what the checks of the pool read

  /** A free chunk has chunks in use, or the ends of its area, on both sides, and its links are mutual. */
  lemma FreeChunkReads(m: Memory, chunks: Chunks, areas: Areas, bins: Bins, p: int)
    requires Framed(m, chunks, areas, {}) && ListsOk(m, bins, FreeSet(chunks)) && Coalesced(chunks)
    requires p in chunks && !chunks[p].used
    ensures InUseBit(At(m, p).prevSize) && InUseBit(At(m, p + chunks[p].size).size)
    ensures At(m, At(m, p).next).prev == p && At(m, At(m, p).prev).next == p
    ensures MIN_ALLOC <= chunks[p].size && Aligned(chunks[p].size) && Aligned(p + HEADER)
  {
    assert ChunkOk(chunks, areas, p) && JoinedAfter(chunks, p) && HeaderOk(m, chunks, p);
    PreviousChunk(m, chunks, areas, p);
    FollowingChunk(m, chunks, areas, p);
    forall q | q in chunks && q + chunks[q].size == p ensures chunks[q].used { assert JoinedAfter(chunks, q); }
    LinksMutual(m, bins, FreeSet(chunks), p);
  }

  lemma LinksMutual(m: Memory, bins: Bins, free: set<int>, p: int)
    requires ListsOk(m, bins, free) && p in free
    ensures At(m, At(m, p).next).prev == p && At(m, At(m, p).prev).next == p
  {
    var i := BinOf(m, p);
    assert FreeOk(m, bins, p) && BinOk(m, bins[i], i, free);
    var k: int := IndexOf(bins[i], p);
    assert At(m, Node(BinAt(i), bins[i], k - 1)).next == Node(BinAt(i), bins[i], k);
    assert At(m, Node(BinAt(i), bins[i], k)).next == Node(BinAt(i), bins[i], k + 1);
  }

  /** The chunk after `p` in its area, or the end marker. */
  lemma NextRead(m: Memory, chunks: Chunks, areas: Areas, p: int)
    requires Framed(m, chunks, areas, {}) && p in chunks
    ensures var e := p + chunks[p].size;
      && SizeBits(At(m, p).size) == chunks[p].size && p < e <= End(areas, chunks[p].area)
      && (At(m, e).size == IN_USE || (e in chunks && chunks[e].area == chunks[p].area))
  {
    WordParts(m, chunks, areas, p);
    FollowingChunk(m, chunks, areas, p);
    assert ChunkOk(chunks, areas, p) && NextOk(chunks, areas, p);
  }

  lemma MovedBackResized(m: Memory, m1: Memory, m2: Memory, chunks: Chunks, areas: Areas, p: int, c: int,
                         joinNext: bool,
                         total: int, size: int, live': Chunks)
    requires Touches(chunks, areas, p, c, true, joinNext) && Aligned(size) && 0 < size <= total && chunks[p].size < size
    requires total == FreedSize(chunks, p, c, true, joinNext)
    requires ChangedForFront(m, m1, chunks, areas, c, total, size)
    requires IsMoved(m1, m2, c + HEADER, p + HEADER, chunks[p].size - HEADER)
    requires MIN_ALLOC <= total - size ==> At(m1, c + size).size == total - size
    requires live' == (Live(chunks) - {p})[c := Chunk(Kept(total, size), true, chunks[p].area)]
    ensures Resized(m, m2, Live(chunks), live', p, c, size, Backward(c, total))
  {
    MovedBackWell(m, m1, m2, chunks, areas, p, c, joinNext, total, size);
  }
}

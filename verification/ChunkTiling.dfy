/** How chunks fill the areas of a pool, without their headers: the shape that `DoCheckArea` walks over. */
module ChunkTiling {
  import opened SizeClasses

  datatype Chunk = Chunk(size: int, used: bool, area: int)

  /** Chunks by address. */
  type Chunks = map<int, Chunk>

  /** Area sizes by the address of the area header. */
  type Areas = map<int, int>

  const AREA_HEADER := 32

  /** The pool object with its bins lies below this address, every area above it. */
  const FLOOR := 8192

  function First(a: int): int { a + AREA_HEADER }

  function SizeOf(areas: Areas, a: int): int { if a in areas then areas[a] else 0 }

  /** The address of the end marker of an area. */
  function End(areas: Areas, a: int): int { a + AREA_HEADER + SizeOf(areas, a) }

  ghost predicate AreaOk(areas: Areas, a: int)
    requires a in areas
  {
    FLOOR <= a && Aligned(a) && Aligned(areas[a]) && MIN_ALLOC <= areas[a] <= MAX_INT32
  }

  ghost predicate AreasOk(areas: Areas) {
    && (forall a :: a in areas ==> AreaOk(areas, a))
    && (forall a, b :: a in areas && b in areas && a < b ==> End(areas, a) + HEADER <= b)
  }

  ghost predicate ChunkOk(chunks: Chunks, areas: Areas, p: int)
    requires p in chunks
  {
    var c := chunks[p];
    c.area in areas && First(c.area) <= p && p + c.size <= End(areas, c.area)
    && Aligned(p - HEADER) && Aligned(c.size) && MIN_ALLOC <= c.size
  }

  ghost predicate NextOk(chunks: Chunks, areas: Areas, p: int)
    requires p in chunks
  {
    var c := chunks[p];
    c.area in areas && (p + c.size == End(areas, c.area) || (p + c.size in chunks && chunks[p + c.size].area == c.area))
  }

  /** Every area is filled from its first chunk to its end marker by chunks that do not overlap. */
  ghost predicate Tiled(chunks: Chunks, areas: Areas) {
    && AreasOk(areas)
    && (forall p {:trigger ChunkOk(chunks, areas, p)} :: p in chunks ==> ChunkOk(chunks, areas, p))
    && (forall p {:trigger NextOk(chunks, areas, p)} :: p in chunks ==> NextOk(chunks, areas, p))
    && (forall a {:trigger First(a)} :: a in areas ==> First(a) in chunks && chunks[First(a)].area == a)
    && Disjoint(chunks)
  }

  ghost predicate Disjoint(chunks: Chunks) {
    forall p, q :: p in chunks && q in chunks && p < q ==> p + chunks[p].size <= q
  }

  ghost predicate JoinedAfter(chunks: Chunks, p: int)
    requires p in chunks
  {
    chunks[p].used || (p + chunks[p].size in chunks ==> chunks[p + chunks[p].size].used)
  }

  /** No two free chunks are neighbours. */
  ghost predicate Coalesced(chunks: Chunks) {
    forall p {:trigger JoinedAfter(chunks, p)} :: p in chunks ==> JoinedAfter(chunks, p)
  }

  function Live(chunks: Chunks): Chunks {
    map p | p in chunks && chunks[p].used :: chunks[p]
  }

  function FreeSet(chunks: Chunks): set<int> {
    set p | p in chunks && !chunks[p].used
  }

  lemma Pick<T>(s: set<T>) returns (x: T)
    requires s != {}
    ensures x in s
  {
    x :| x in s;
  }

  lemma NotEmpty(s: set<int>)
    requires s != {}
    ensures exists x :: x in s
  {
    var x := Pick(s);
    assert x in s;
  }

  // ----- walking an area

  lemma {:induction false} ContainingFrom(chunks: Chunks, areas: Areas, p: int, x: int) returns (q: int)
    requires Tiled(chunks, areas) && p in chunks && p <= x < End(areas, chunks[p].area)
    ensures q in chunks && q <= x < q + chunks[q].size && chunks[q].area == chunks[p].area
    decreases End(areas, chunks[p].area) - p
  {
    assert ChunkOk(chunks, areas, p);
    if x < p + chunks[p].size {
      q := p;
    } else {
      assert NextOk(chunks, areas, p);
      q := ContainingFrom(chunks, areas, p + chunks[p].size, x);
    }
  }

  /** Every address of an area below its end marker lies in a chunk of that area. */
  lemma Containing(chunks: Chunks, areas: Areas, a: int, x: int) returns (q: int)
    requires Tiled(chunks, areas) && a in areas && First(a) <= x < End(areas, a)
    ensures q in chunks && q <= x < q + chunks[q].size && chunks[q].area == a
  {
    q := ContainingFrom(chunks, areas, First(a), x);
  }

  /** A chunk that does not open its area directly follows another chunk of the area. */
  lemma Predecessor(chunks: Chunks, areas: Areas, p: int) returns (q: int)
    requires Tiled(chunks, areas) && p in chunks && p != First(chunks[p].area)
    ensures q in chunks && q + chunks[q].size == p && chunks[q].area == chunks[p].area
  {
    assert ChunkOk(chunks, areas, p);
    q := Containing(chunks, areas, chunks[p].area, p - 1);
    assert q < p;
  }

  /** Chunks that touch belong to the same area. */
  lemma NeighbourArea(chunks: Chunks, areas: Areas, p: int)
    requires Tiled(chunks, areas) && p in chunks && p + chunks[p].size in chunks
    ensures chunks[p + chunks[p].size].area == chunks[p].area && p + chunks[p].size != End(areas, chunks[p].area)
  {
    var q := p + chunks[p].size;
    assert ChunkOk(chunks, areas, p) && ChunkOk(chunks, areas, q);
    assert chunks[p].area in areas && chunks[q].area in areas;
  }

  // ----- the free chunks are the gaps between the live ones

  /** `[p, p + size)` is a maximal stretch of area `a` that no live chunk enters. */
  ghost predicate IsGap(live: Chunks, areas: Areas, a: int, p: int, size: int) {
    && a in areas && First(a) <= p && 0 < size && p + size <= End(areas, a)
    && (p == First(a) || exists q :: q in live && live[q].area == a && q + live[q].size == p)
    && (p + size == End(areas, a) || p + size in live)
    && (forall q :: q in live ==> q + live[q].size <= p || p + size <= q)
  }

  /** The free chunks are exactly the maximal gaps between the live chunks of each area. */
  lemma FreeIffGap(chunks: Chunks, areas: Areas, a: int, p: int, size: int)
    requires Tiled(chunks, areas) && Coalesced(chunks)
    ensures p in chunks && chunks[p] == Chunk(size, false, a) <==> IsGap(Live(chunks), areas, a, p, size)
  {
    if p in chunks && chunks[p] == Chunk(size, false, a) {
      FreeIsGap(chunks, areas, p);
    }
    if IsGap(Live(chunks), areas, a, p, size) {
      GapIsFree(chunks, areas, a, p, size);
    }
  }

  lemma FreeIsGap(chunks: Chunks, areas: Areas, p: int)
    requires Tiled(chunks, areas) && Coalesced(chunks) && p in chunks && !chunks[p].used
    ensures IsGap(Live(chunks), areas, chunks[p].area, p, chunks[p].size)
  {
    var live := Live(chunks);
    var a := chunks[p].area;
    assert ChunkOk(chunks, areas, p) && NextOk(chunks, areas, p) && JoinedAfter(chunks, p);
    if p != First(a) {
      var q := Predecessor(chunks, areas, p);
      assert JoinedAfter(chunks, q);
      assert q in live && live[q].area == a && q + live[q].size == p;
    }
  }

  lemma GapIsFree(chunks: Chunks, areas: Areas, a: int, p: int, size: int)
    requires Tiled(chunks, areas) && Coalesced(chunks) && IsGap(Live(chunks), areas, a, p, size)
    ensures p in chunks && chunks[p] == Chunk(size, false, a)
  {
    var live := Live(chunks);
    if p != First(a) {
      var q :| q in live && live[q].area == a && q + live[q].size == p;
      assert NextOk(chunks, areas, q);
    }
    assert p in chunks && chunks[p].area == a;
    assert ChunkOk(chunks, areas, p);
    assert p !in live;
    GapSize(chunks, areas, a, p, size);
  }

  /** The free chunk at the start of a gap is as large as the gap. */
  lemma GapSize(chunks: Chunks, areas: Areas, a: int, p: int, size: int)
    requires Tiled(chunks, areas) && Coalesced(chunks) && IsGap(Live(chunks), areas, a, p, size)
    requires p in chunks && chunks[p].area == a && !chunks[p].used
    ensures chunks[p].size == size
  {
    var live, e := Live(chunks), p + chunks[p].size;
    assert ChunkOk(chunks, areas, p) && NextOk(chunks, areas, p) && JoinedAfter(chunks, p);
    assert e in chunks ==> ChunkOk(chunks, areas, e) && (chunks[e].used ==> e in live && live[e] == chunks[e]);
    assert p + size == End(areas, a) || (p + size in live && p + size in chunks);
  }

  /** Two pools with the same areas and the same live chunks have the same chunks: the free list does not depend
      on the order of the calls that led to it. */
  lemma HistoryIndependent(chunks: Chunks, chunks': Chunks, areas: Areas)
    requires Tiled(chunks, areas) && Coalesced(chunks)
    requires Tiled(chunks', areas) && Coalesced(chunks')
    requires Live(chunks) == Live(chunks')
    ensures chunks == chunks'
  {
    forall p | p in chunks || p in chunks'
      ensures p in chunks && p in chunks' && chunks[p] == chunks'[p]
    {
      if p in Live(chunks) {
        assert p in Live(chunks');
      } else if p in chunks {
        FreeIffGap(chunks, areas, chunks[p].area, p, chunks[p].size);
        FreeIffGap(chunks', areas, chunks[p].area, p, chunks[p].size);
      } else {
        assert p !in Live(chunks');
        FreeIffGap(chunks, areas, chunks'[p].area, p, chunks'[p].size);
        FreeIffGap(chunks', areas, chunks'[p].area, p, chunks'[p].size);
      }
    }
  }

  // ----- the steps that Alloc, Free and Realloc are made of

  function Merge(chunks: Chunks, p: int): Chunks
    requires p in chunks && p + chunks[p].size in chunks
  {
    var q := p + chunks[p].size;
    (chunks - {q})[p := chunks[p].(size := chunks[p].size + chunks[q].size)]
  }

  lemma MergeTiled(chunks: Chunks, areas: Areas, p: int)
    requires Tiled(chunks, areas) && p in chunks && p + chunks[p].size in chunks
    ensures Tiled(Merge(chunks, p), areas)
  {
    var q := p + chunks[p].size;
    var r := Merge(chunks, p);
    NeighbourArea(chunks, areas, p);
    assert ChunkOk(chunks, areas, p) && ChunkOk(chunks, areas, q);
    forall x | x in r ensures ChunkOk(r, areas, x) {
      assert ChunkOk(chunks, areas, x);
    }
    forall a | a in areas ensures First(a) in r && r[First(a)].area == a {
      assert First(a) != q;
    }
    MergeNexts(chunks, areas, p);
    MergeDisjoint(chunks, p);
  }

  lemma MergeNexts(chunks: Chunks, areas: Areas, p: int)
    requires Tiled(chunks, areas) && p in chunks && p + chunks[p].size in chunks
    ensures forall x :: x in Merge(chunks, p) ==> NextOk(Merge(chunks, p), areas, x)
  {
    var q := p + chunks[p].size;
    var r := Merge(chunks, p);
    NeighbourArea(chunks, areas, p);
    assert ChunkOk(chunks, areas, p) && ChunkOk(chunks, areas, q) && NextOk(chunks, areas, q);
    forall x | x in r ensures NextOk(r, areas, x) {
      assert ChunkOk(chunks, areas, x) && NextOk(chunks, areas, x);
      if x < p { assert x + chunks[x].size <= p < q; }
    }
  }

  lemma MergeDisjoint(chunks: Chunks, p: int)
    requires Disjoint(chunks) && p in chunks && p + chunks[p].size in chunks && 0 < chunks[p].size
    ensures Disjoint(Merge(chunks, p))
  {
    var r := Merge(chunks, p);
    forall x, y | x in r && y in r && x < y ensures x + r[x].size <= y {}
  }

  function Split(chunks: Chunks, p: int, size: int, used: bool): Chunks
    requires p in chunks
  {
    chunks[p := chunks[p].(size := size)][p + size := Chunk(chunks[p].size - size, used, chunks[p].area)]
  }

  lemma SplitTiled(chunks: Chunks, areas: Areas, p: int, size: int, used: bool)
    requires Tiled(chunks, areas) && p in chunks
    requires Aligned(size) && MIN_ALLOC <= size && MIN_ALLOC <= chunks[p].size - size
    ensures Tiled(Split(chunks, p, size, used), areas) && p + size !in chunks
  {
    var q := p + size;
    var r := Split(chunks, p, size, used);
    assert ChunkOk(chunks, areas, p);
    forall x | x in r ensures ChunkOk(r, areas, x) {
      if x != q { assert ChunkOk(chunks, areas, x); }
    }
    SplitNexts(chunks, areas, p, size, used);
    SplitDisjoint(chunks, p, size, used);
  }

  lemma SplitNexts(chunks: Chunks, areas: Areas, p: int, size: int, used: bool)
    requires Tiled(chunks, areas) && p in chunks
    requires 0 < size < chunks[p].size
    ensures p + size !in chunks
    ensures forall x :: x in Split(chunks, p, size, used) ==> NextOk(Split(chunks, p, size, used), areas, x)
  {
    var q := p + size;
    var r := Split(chunks, p, size, used);
    assert NextOk(chunks, areas, p);
    forall x | x in r ensures NextOk(r, areas, x) {
      if x != q { assert NextOk(chunks, areas, x); }
    }
  }

  lemma SplitDisjoint(chunks: Chunks, p: int, size: int, used: bool)
    requires Disjoint(chunks) && p in chunks && p + size !in chunks
    requires 0 < size < chunks[p].size
    ensures Disjoint(Split(chunks, p, size, used))
  {
    var r := Split(chunks, p, size, used);
    forall x, y | x in r && y in r && x < y ensures x + r[x].size <= y {}
  }

  function Mark(chunks: Chunks, p: int, used: bool): Chunks
    requires p in chunks
  {
    chunks[p := chunks[p].(used := used)]
  }

  lemma MarkTiled(chunks: Chunks, areas: Areas, p: int, used: bool)
    requires Tiled(chunks, areas) && p in chunks
    ensures Tiled(Mark(chunks, p, used), areas)
  {
    var r := Mark(chunks, p, used);
    forall x | x in r ensures ChunkOk(r, areas, x) && NextOk(r, areas, x) {
      assert ChunkOk(chunks, areas, x) && NextOk(chunks, areas, x);
    }
  }

  /** An area of size `size` fits at `a` beside the areas there are. */
  ghost predicate RoomFor(areas: Areas, a: int, size: int) {
    && FLOOR <= a && Aligned(a)
    && (forall b :: b in areas ==> End(areas, b) + HEADER <= a || a + AREA_HEADER + size + HEADER <= b)
  }

  lemma AddAreaTiled(chunks: Chunks, areas: Areas, a: int, size: int, used: bool)
    requires Tiled(chunks, areas) && RoomFor(areas, a, size)
    requires Aligned(size) && MIN_ALLOC <= size <= MAX_INT32
    ensures Tiled(chunks[First(a) := Chunk(size, used, a)], areas[a := size])
    ensures a !in areas && First(a) !in chunks
  {
    var areas' := areas[a := size];
    var r := chunks[First(a) := Chunk(size, used, a)];
    assert a !in areas;
    forall p | p in chunks ensures p != First(a) { assert ChunkOk(chunks, areas, p); }
    forall b | b in areas' ensures AreaOk(areas', b) {
      if b != a { assert AreaOk(areas, b); }
    }
    forall x | x in r ensures ChunkOk(r, areas', x) && NextOk(r, areas', x) {
      if x != First(a) { assert ChunkOk(chunks, areas, x) && NextOk(chunks, areas, x); }
    }
    forall p, q | p in r && q in r && p < q ensures p + r[p].size <= q {
      if p != First(a) { assert ChunkOk(chunks, areas, p); }
      if q != First(a) { assert ChunkOk(chunks, areas, q); }
    }
  }

  lemma RemoveAreaTiled(chunks: Chunks, areas: Areas, a: int)
    requires Tiled(chunks, areas) && a in areas && chunks[First(a)].size == areas[a]
    ensures Tiled(chunks - {First(a)}, areas - {a})
  {
    var areas' := areas - {a};
    var r := chunks - {First(a)};
    forall b | b in areas' ensures AreaOk(areas', b) { assert AreaOk(areas, b); }
    forall x | x in r ensures ChunkOk(r, areas', x) && NextOk(r, areas', x) {
      assert ChunkOk(chunks, areas, x) && NextOk(chunks, areas, x);
      assert x != First(a);
      if x + chunks[x].size == First(a) { NeighbourArea(chunks, areas, x); }
    }
  }

  /** The size of the free chunk that freeing `p` leaves. */
  function FreedSize(chunks: Chunks, p: int, q: int, joinPrev: bool, joinNext: bool): int
    requires p in chunks && (joinPrev ==> q in chunks) && (joinNext ==> p + chunks[p].size in chunks)
  {
    chunks[p].size
    + (if joinPrev then chunks[q].size else 0)
    + (if joinNext then chunks[p + chunks[p].size].size else 0)
  }

  /** The chunks after `p` was freed and joined with its free neighbours; `q` is where the free chunk starts. */
  function Freed(chunks: Chunks, p: int, q: int, joinPrev: bool, joinNext: bool): Chunks
    requires p in chunks && (joinPrev ==> q in chunks) && (joinNext ==> p + chunks[p].size in chunks)
  {
    (chunks - {p} - (if joinNext then {p + chunks[p].size} else {}))
      [q := Chunk(FreedSize(chunks, p, q, joinPrev, joinNext), false, chunks[p].area)]
  }

  lemma FreedBackTiled(chunks: Chunks, areas: Areas, p: int, q: int, joinPrev: bool, joinNext: bool)
    requires Touches(chunks, areas, p, q, joinPrev, joinNext)
    ensures Tiled(Freed(chunks, p, q, joinPrev, false), areas)
  {
    assert ChunkOk(chunks, areas, p);
    var c1 := Mark(chunks, p, false);
    MarkTiled(chunks, areas, p, false);
    if joinPrev {
      assert ChunkOk(chunks, areas, q);
      NeighbourArea(chunks, areas, q);
      MergeTiled(c1, areas, q);
      BackIsMerge(chunks, p, q);
    } else {
      assert c1 == Freed(chunks, p, q, joinPrev, false);
    }
  }

  lemma BackIsMerge(chunks: Chunks, p: int, q: int)
    requires p in chunks && q in chunks && q != p && q + chunks[q].size == p && !chunks[q].used
      && chunks[q].area == chunks[p].area
    ensures Merge(Mark(chunks, p, false), q) == Freed(chunks, p, q, true, false)
  {}

  lemma FreedTiled(chunks: Chunks, areas: Areas, p: int, q: int, joinPrev: bool, joinNext: bool)
    requires Touches(chunks, areas, p, q, joinPrev, joinNext)
    ensures Tiled(Freed(chunks, p, q, joinPrev, joinNext), areas)
  {
    FreedBackTiled(chunks, areas, p, q, joinPrev, joinNext);
    if joinNext {
      assert ChunkOk(chunks, areas, p);
      if joinPrev { assert ChunkOk(chunks, areas, q); }
      var c2 := Freed(chunks, p, q, joinPrev, false);
      var e := p + chunks[p].size;
      assert e == q + c2[q].size && e in c2;
      MergeTiled(c2, areas, q);
      OnIsMerge(chunks, p, q, joinPrev);
    }
  }

  lemma OnIsMerge(chunks: Chunks, p: int, q: int, joinPrev: bool)
    requires p in chunks && 0 < chunks[p].size && p + chunks[p].size in chunks
    requires if joinPrev then q in chunks && q != p && q + chunks[q].size == p && 0 < chunks[q].size else q == p
    ensures q in Freed(chunks, p, q, joinPrev, false)
      && q + Freed(chunks, p, q, joinPrev, false)[q].size == p + chunks[p].size
      && p + chunks[p].size in Freed(chunks, p, q, joinPrev, false)
      && Merge(Freed(chunks, p, q, joinPrev, false), q) == Freed(chunks, p, q, joinPrev, true)
  {}

  /** Free neighbours that the live chunk `p` may be joined with; `q` is where the joined chunk starts. */
  ghost predicate Touches(chunks: Chunks, areas: Areas, p: int, q: int, joinPrev: bool, joinNext: bool) {
    && Tiled(chunks, areas) && Coalesced(chunks) && p in chunks && chunks[p].used
    && (if joinPrev then q in chunks && q + chunks[q].size == p && !chunks[q].used else q == p)
    && (joinNext ==> p + chunks[p].size in chunks && !chunks[p + chunks[p].size].used)
  }

  /** Joining `p` with all the free neighbours it has. */
  ghost predicate Joins(chunks: Chunks, areas: Areas, p: int, q: int, joinPrev: bool, joinNext: bool) {
    && Touches(chunks, areas, p, q, joinPrev, joinNext)
    && (!joinPrev ==> forall x :: x in chunks && x + chunks[x].size == p ==> chunks[x].used)
    && (p + chunks[p].size in chunks && !chunks[p + chunks[p].size].used ==> joinNext)
  }

  lemma FreedIs(chunks: Chunks, p: int, q: int, joinPrev: bool, joinNext: bool)
    requires p in chunks && 0 < chunks[p].size && (if joinPrev then q in chunks && q < p else q == p)
    requires joinNext ==> p + chunks[p].size in chunks
    ensures IsFreed(chunks, Freed(chunks, p, q, joinPrev, joinNext), p, q, joinPrev, joinNext)
  {}

  /** `r` differs from `chunks` as freeing `p` and joining it with neighbours does. */
  ghost predicate IsFreed(chunks: Chunks, r: Chunks, p: int, q: int, joinPrev: bool, joinNext: bool)
    requires p in chunks && (joinPrev ==> q in chunks) && (joinNext ==> p + chunks[p].size in chunks)
  {
    && q in r && r[q] == Chunk(FreedSize(chunks, p, q, joinPrev, joinNext), false, chunks[p].area)
    && (forall x :: x in r && x != q ==>
      x in chunks && r[x] == chunks[x] && x != p && !(joinNext && x == p + chunks[p].size))
    && (forall x :: x in chunks && x != q && x != p && !(joinNext && x == p + chunks[p].size) ==> x in r)
  }

  lemma FreedSets(chunks: Chunks, p: int, q: int, joinPrev: bool, joinNext: bool)
    requires p in chunks && 0 < chunks[p].size && chunks[p].used
    requires if joinPrev then q in chunks && q < p && !chunks[q].used else q == p
    requires joinNext ==> p + chunks[p].size in chunks && !chunks[p + chunks[p].size].used
    ensures Live(Freed(chunks, p, q, joinPrev, joinNext)) == Live(chunks) - {p}
    ensures FreeSet(Freed(chunks, p, q, joinPrev, joinNext))
      == FreeSet(chunks) - (if joinNext then {p + chunks[p].size} else {}) + {q}
  {
    FreedIs(chunks, p, q, joinPrev, joinNext);
  }

  /** Freeing a chunk and joining it with the free chunks on both sides leaves no free neighbours. */
  lemma FreedCoalesced(chunks: Chunks, areas: Areas, p: int, q: int, joinPrev: bool, joinNext: bool)
    requires Joins(chunks, areas, p, q, joinPrev, joinNext)
    ensures Coalesced(Freed(chunks, p, q, joinPrev, joinNext))
  {
    var r := Freed(chunks, p, q, joinPrev, joinNext);
    var e := p + chunks[p].size;
    assert ChunkOk(chunks, areas, p);
    if joinPrev { assert ChunkOk(chunks, areas, q); }
    if joinNext { assert ChunkOk(chunks, areas, e); }
    FreedIs(chunks, p, q, joinPrev, joinNext);
    forall x | x in r ensures JoinedAfter(r, x) { FreedJoined(chunks, areas, r, p, q, joinPrev, joinNext, x); }
  }

  lemma FreedJoined(chunks: Chunks, areas: Areas, r: Chunks, p: int, q: int, joinPrev: bool, joinNext: bool, x: int)
    requires Joins(chunks, areas, p, q, joinPrev, joinNext) && IsFreed(chunks, r, p, q, joinPrev, joinNext) && x in r
    requires 0 < chunks[p].size && (joinPrev ==> 0 < chunks[q].size)
    ensures JoinedAfter(r, x)
  {
    var e := p + chunks[p].size;
    if x == q {
      if joinNext { assert JoinedAfter(chunks, e) && ChunkOk(chunks, areas, e); }
      assert x + r[x].size == if joinNext then e + chunks[e].size else e;
    } else {
      assert JoinedAfter(chunks, x);
    }
  }

  /** The chunks after live chunk `p` took over free neighbours. */
  function Absorbed(chunks: Chunks, p: int, q: int, joinPrev: bool, joinNext: bool): Chunks
    requires p in chunks && (joinPrev ==> q in chunks) && (joinNext ==> p + chunks[p].size in chunks)
  {
    Mark(Freed(chunks, p, q, joinPrev, joinNext), q, true)
  }

  lemma AbsorbedCoalesced(chunks: Chunks, areas: Areas, p: int, q: int, joinPrev: bool, joinNext: bool)
    requires Touches(chunks, areas, p, q, joinPrev, joinNext)
    ensures Coalesced(Absorbed(chunks, p, q, joinPrev, joinNext))
  {
    var r := Absorbed(chunks, p, q, joinPrev, joinNext);
    assert ChunkOk(chunks, areas, p);
    if joinPrev { assert ChunkOk(chunks, areas, q); }
    AbsorbedSets(chunks, p, q, joinPrev, joinNext);
    forall x | x in r ensures JoinedAfter(r, x) {
      assert x in chunks ==> JoinedAfter(chunks, x);
    }
  }

  lemma AbsorbedTiled(chunks: Chunks, areas: Areas, p: int, q: int, joinPrev: bool, joinNext: bool)
    requires Touches(chunks, areas, p, q, joinPrev, joinNext)
    ensures Tiled(Absorbed(chunks, p, q, joinPrev, joinNext), areas)
  {
    FreedTiled(chunks, areas, p, q, joinPrev, joinNext);
    MarkTiled(Freed(chunks, p, q, joinPrev, joinNext), areas, q, true);
  }

  lemma AbsorbedSets(chunks: Chunks, p: int, q: int, joinPrev: bool, joinNext: bool)
    requires p in chunks && 0 < chunks[p].size && chunks[p].used
    requires if joinPrev then q in chunks && q < p && !chunks[q].used else q == p
    requires joinNext ==> p + chunks[p].size in chunks && !chunks[p + chunks[p].size].used
    ensures var r := Absorbed(chunks, p, q, joinPrev, joinNext);
      && q in r && r[q] == Chunk(FreedSize(chunks, p, q, joinPrev, joinNext), true, chunks[p].area)
      && Live(r) == (Live(chunks) - {p})[q := r[q]]
      && FreeSet(r)
        == FreeSet(chunks) - (if joinPrev then {q} else {}) - (if joinNext then {p + chunks[p].size} else {})
      && (forall x :: x in r && x != q ==> x in chunks && r[x] == chunks[x] && x != p)
  {
    FreedIs(chunks, p, q, joinPrev, joinNext);
  }

  /** A live chunk between live neighbours is free on its own once it is freed. */
  lemma MarkedAlone(chunks: Chunks, areas: Areas, c: int, p: int)
    requires Tiled(chunks, areas) && Coalesced(chunks) && c in chunks && p in chunks && chunks[c].used && chunks[p].used
    requires c + chunks[c].size == p && c != p
    requires p + chunks[p].size in chunks ==> chunks[p + chunks[p].size].used
    ensures Coalesced(Mark(chunks, p, false)) && Live(Mark(chunks, p, false)) == Live(chunks) - {p}
  {
    var r := Mark(chunks, p, false);
    assert ChunkOk(chunks, areas, p) && ChunkOk(chunks, areas, c);
    forall x | x in r ensures JoinedAfter(r, x) {
      assert JoinedAfter(chunks, x) && ChunkOk(chunks, areas, x);
    }
  }

  lemma SplitLive(chunks: Chunks, q: int, size: int)
    requires q in chunks && chunks[q].used && 0 < size && q + size !in chunks
    ensures Live(Split(chunks, q, size, true)) - {q + size} == Live(chunks)[q := Chunk(size, true, chunks[q].area)]
  {}

  lemma RemoveFree(chunks: Chunks, p: int)
    requires p in chunks && !chunks[p].used
    ensures FreeSet(chunks - {p}) == FreeSet(chunks) - {p} && Live(chunks - {p}) == Live(chunks)
    ensures Coalesced(chunks) ==> Coalesced(chunks - {p})
  {
    if Coalesced(chunks) {
      forall x | x in chunks - {p} ensures JoinedAfter(chunks - {p}, x) { assert JoinedAfter(chunks, x); }
    }
  }

  /** No live chunk lies in area `a`. */
  ghost predicate AreaUnused(live: Chunks, a: int) {
    forall p :: p in live ==> live[p].area != a
  }

  /** A free chunk spans its area exactly when nothing in the area is in use. */
  lemma WholeAreaIff(chunks: Chunks, areas: Areas, p: int)
    requires Tiled(chunks, areas) && Coalesced(chunks) && p in chunks && !chunks[p].used
    ensures var a := chunks[p].area;
      (p == First(a) && p + chunks[p].size == End(areas, a)) <==> AreaUnused(Live(chunks), a)
  {
    var a := chunks[p].area;
    assert ChunkOk(chunks, areas, p);
    if p == First(a) && p + chunks[p].size == End(areas, a) {
      forall q | q in Live(chunks) ensures chunks[q].area != a { assert ChunkOk(chunks, areas, q); }
    }
    if AreaUnused(Live(chunks), a) {
      assert AreaOk(areas, a);
      forall q | q in Live(chunks) ensures q + chunks[q].size <= First(a) || End(areas, a) <= q {
        assert ChunkOk(chunks, areas, q) && AreaOk(areas, chunks[q].area);
      }
      GapIsFree(chunks, areas, a, First(a), areas[a]);
    }
  }

  /** Every area is one free chunk. */
  ghost predicate AreWhole(chunks: Chunks, areas: Areas) {
    && (forall a {:trigger First(a)} :: a in areas ==>
      First(a) in chunks && chunks[First(a)] == Chunk(areas[a], false, a))
    && (forall c :: c in chunks ==> c - AREA_HEADER in areas)
  }

  lemma WholeAreas(areas: Areas, some: seq<int>) returns (w: Chunks)
    requires forall a :: a in some ==> a in areas
    ensures forall a {:trigger First(a)} :: a in some ==> First(a) in w && w[First(a)] == Chunk(areas[a], false, a)
    ensures forall c :: c in w ==> c - AREA_HEADER in some
  {
    if some == [] {
      w := map[];
    } else {
      w := WholeAreas(areas, some[1..]);
      w := w[First(some[0]) := Chunk(areas[some[0]], false, some[0])];
    }
  }

  lemma WholeIsTiled(w: Chunks, areas: Areas)
    requires AreasOk(areas) && AreWhole(w, areas)
    ensures Tiled(w, areas) && Coalesced(w) && Live(w) == map[]
  {
    forall c | c in w ensures w[c] == Chunk(areas[c - AREA_HEADER], false, c - AREA_HEADER)
      && AreaOk(areas, c - AREA_HEADER) {
      assert c == First(c - AREA_HEADER);
    }
    forall c | c in w ensures ChunkOk(w, areas, c) && NextOk(w, areas, c) {}
    forall c | c in w ensures JoinedAfter(w, c) {}
  }

  // ----- conservation

  ghost function SizeSum(chunks: Chunks, s: set<int>): int
    requires s <= chunks.Keys
  {
    if s == {} then 0 else NotEmpty(s); var p :| p in s; chunks[p].size + SizeSum(chunks, s - {p})
  }

  ghost function AreaSum(areas: Areas): int {
    if areas.Keys == {} then 0 else NotEmpty(areas.Keys); var a :| a in areas.Keys; areas[a] + AreaSum(areas - {a})
  }

  lemma {:induction false} SizeSumRemove(chunks: Chunks, s: set<int>, p: int)
    requires s <= chunks.Keys && p in s
    ensures SizeSum(chunks, s) == chunks[p].size + SizeSum(chunks, s - {p})
    decreases s
  {
    var q :| q in s && SizeSum(chunks, s) == chunks[q].size + SizeSum(chunks, s - {q});
    if q != p {
      SizeSumRemove(chunks, s - {q}, p);
      SizeSumRemove(chunks, s - {p}, q);
      assert s - {q} - {p} == s - {p} - {q};
    }
  }

  lemma {:induction false} SizeSumSplit(chunks: Chunks, s: set<int>, t: set<int>)
    requires s <= chunks.Keys && t <= chunks.Keys && s !! t
    ensures SizeSum(chunks, s + t) == SizeSum(chunks, s) + SizeSum(chunks, t)
    decreases s
  {
    if s == {} {
      assert s + t == t;
    } else {
      var p := Pick(s);
      SizeSumRemove(chunks, s, p);
      SizeSumRemove(chunks, s + t, p);
      SizeSumSplit(chunks, s - {p}, t);
      assert s + t - {p} == (s - {p}) + t;
    }
  }

  /** The chunks of the area of `p` from `p` on. */
  ghost function From(chunks: Chunks, p: int): set<int>
    requires p in chunks
  {
    set q | q in chunks && chunks[q].area == chunks[p].area && p <= q
  }

  lemma {:induction false} FromSum(chunks: Chunks, areas: Areas, p: int)
    requires Tiled(chunks, areas) && p in chunks
    ensures SizeSum(chunks, From(chunks, p)) == End(areas, chunks[p].area) - p
    decreases End(areas, chunks[p].area) - p
  {
    assert ChunkOk(chunks, areas, p) && NextOk(chunks, areas, p);
    SizeSumRemove(chunks, From(chunks, p), p);
    var e := p + chunks[p].size;
    if e == End(areas, chunks[p].area) {
      forall q | q in From(chunks, p) ensures q == p { assert ChunkOk(chunks, areas, q); }
      assert From(chunks, p) - {p} == {};
    } else {
      FromSum(chunks, areas, e);
      assert From(chunks, p) - {p} == From(chunks, e);
    }
  }

  lemma {:induction false} AreaSumRemove(areas: Areas, a: int)
    requires a in areas
    ensures AreaSum(areas) == areas[a] + AreaSum(areas - {a})
    decreases |areas|
  {
    var b :| b in areas && AreaSum(areas) == areas[b] + AreaSum(areas - {b});
    if b != a {
      AreaSumRemove(areas - {b}, a);
      AreaSumRemove(areas - {a}, b);
      assert areas - {b} - {a} == areas - {a} - {b};
    }
  }

  ghost function InAreas(chunks: Chunks, some: set<int>): set<int> {
    set p | p in chunks && chunks[p].area in some
  }

  lemma {:induction false} SomeAreasSum(chunks: Chunks, areas: Areas, some: Areas)
    requires Tiled(chunks, areas) && some.Keys <= areas.Keys && forall a :: a in some ==> some[a] == areas[a]
    ensures SizeSum(chunks, InAreas(chunks, some.Keys)) == AreaSum(some)
    decreases |some|
  {
    if some.Keys == {} {
      assert InAreas(chunks, some.Keys) == {};
    } else {
      var a := Pick(some.Keys);
      AreaSumRemove(some, a);
      SomeAreasSum(chunks, areas, some - {a});
      var p := First(a);
      FromSum(chunks, areas, p);
      forall q | q in chunks && chunks[q].area == a ensures p <= q { assert ChunkOk(chunks, areas, q); }
      assert InAreas(chunks, some.Keys) == From(chunks, p) + InAreas(chunks, (some - {a}).Keys);
      SizeSumSplit(chunks, From(chunks, p), InAreas(chunks, (some - {a}).Keys));
    }
  }

  /** The free chunks and the live chunks together account for every byte of the areas. */
  lemma Conservation(chunks: Chunks, areas: Areas)
    requires Tiled(chunks, areas)
    ensures SizeSum(chunks, FreeSet(chunks)) + SizeSum(chunks, Live(chunks).Keys) == AreaSum(areas)
  {
    forall p | p in chunks ensures chunks[p].area in areas { assert ChunkOk(chunks, areas, p); }
    SomeAreasSum(chunks, areas, areas);
    assert InAreas(chunks, areas.Keys) == FreeSet(chunks) + Live(chunks).Keys;
    SizeSumSplit(chunks, FreeSet(chunks), Live(chunks).Keys);
  }
}

/** Two inputs on which the allocator does not do what it promises. `AllocPools` proves that it does on all others. */
module PoolFailures {
  import opened SizeClasses
  import opened ChunkMemory
  import opened ChunkTiling
  import opened FreeBins
  import opened PoolInvariant
  import opened AllocPools

  /** A pool that grows by 256 bytes is asked for 200: the new area is split with nothing left over, and the header of
      the remainder takes the place of the end marker. */
  method SplitsTheEndMarker(m: Memory, h: Headers) returns (pool: AllocPool, r: Result)
    ensures fresh(pool) && r.Returned? && !pool.Valid()
  {
    pool := new AllocPool(m, h, 0, 256, 0);
    InAreas(pool.g.chunks, pool.g.areas);
    assert pool.NoFit(256);
    r := pool.Alloc(200, 8192);
  }

  lemma InAreas(chunks: Chunks, areas: Areas)
    requires Tiled(chunks, areas)
    ensures forall p :: p in chunks ==> chunks[p].area in areas
  {
    forall p | p in chunks ensures chunks[p].area in areas { assert ChunkOk(chunks, areas, p); }
  }

  /** An area with nothing but a live chunk of size `n` at its front, or nothing at all, has one free chunk, behind
      it. */
  lemma OneGap(chunks: Chunks, areas: Areas, a: int, n: int, size: int)
    requires Tiled(chunks, areas) && Coalesced(chunks) && areas.Keys == {a} && 0 < size
      && First(a) + n + size == End(areas, a)
    requires Live(chunks) == if n == 0 then map[] else map[First(a) := Chunk(n, true, a)]
    ensures FreeSet(chunks) == {First(a) + n} && chunks[First(a) + n] == Chunk(size, false, a)
  {
    var p := First(a) + n;
    if n != 0 {
      assert First(a) in Live(chunks) && First(a) in chunks;
      assert ChunkOk(chunks, areas, First(a));
    }
    FreeIffGap(chunks, areas, a, p, size);
    forall f | f in FreeSet(chunks) ensures f == p {
      assert ChunkOk(chunks, areas, f) && ChunkOk(chunks, areas, p);
    }
    assert p in FreeSet(chunks);
  }

  /** With a free chunk of 256 bytes before it and the end of the area behind it, a block of 512 bytes grows
      backwards. */
  lemma GrowsBackwards(m: Memory, chunks: Chunks, areas: Areas, a: int)
    requires Framed(m, chunks, areas, {}) && Coalesced(chunks) && areas == map[a := 768]
    requires Live(chunks) == map[First(a) + 256 := Chunk(512, true, a)]
    ensures WayOf(m, First(a) + 256, 576) == Backward(First(a), 768)
  {
    var p := First(a) + 256;
    assert p in Live(chunks) && ChunkOk(chunks, areas, p);
    FreeIffGap(chunks, areas, a, First(a), 256);
    assert HeaderOk(m, chunks, First(a)) && HeaderOk(m, chunks, p) && MarkerOk(m, areas, a);
  }

  /** The pool of the second failure: one area of 768 bytes that cannot grow. */
  ghost predicate Small(pool: AllocPool)
    reads pool, pool.mBinBlocks
  {
    pool.Valid() && pool.g.areas == map[8192 := 768] && pool.mAreaMoreSize == 0
  }

  /** A request is served from the one free chunk, behind the first `n` bytes. */
  method TakeNext(pool: AllocPool, n: int, req: nat, size: int) returns (ptr: int)
    requires Small(pool) && req <= MAX_REQUEST && size == RequestToSize(req) && 0 <= n && n + size <= 768
    requires size == 768 - n || MIN_ALLOC <= 768 - n - size
    requires Live(pool.g.chunks) == if n == 0 then map[] else map[First(8192) := Chunk(n, true, 8192)]
    modifies pool`mem, pool`hdrs, pool`mAreas, pool`g, pool.mBinBlocks
    ensures Small(pool) && ptr == First(8192) + n + HEADER
    ensures Live(pool.g.chunks) == Live(old(pool.g).chunks)[First(8192) + n := Chunk(size, true, 8192)]
  {
    OneGap(pool.g.chunks, pool.g.areas, 8192, n, 768 - n);
    assert First(8192) + n in FreeSet(pool.g.chunks);
    assert !pool.NoFit(size) && forall c :: pool.BestFit(size, c) ==> c in FreeSet(pool.g.chunks);
    var r := pool.Alloc(req, 0);
    assert r.Returned?;
    ptr := First(8192) + n + HEADER;
    assert r == Returned(ptr);
  }

  /** Two blocks fill the pool. */
  method TwoBlocks(m: Memory, h: Headers) returns (pool: AllocPool, first: int, second: int)
    ensures fresh(pool) && fresh(pool.mBinBlocks) && Small(pool)
    ensures first == First(8192) + HEADER && second == First(8192) + 256 + HEADER
    ensures Live(pool.g.chunks) == map[First(8192) := Chunk(256, true, 8192),
      First(8192) + 256 := Chunk(512, true, 8192)]
  {
    pool := new AllocPool(m, h, 768, 0, 8192);
    first := TakeNext(pool, 0, 224, 256);
    assert Live(pool.g.chunks) == map[First(8192) := Chunk(256, true, 8192)];
    second := TakeNext(pool, 256, 480, 512);
  }

  /** `TwoBlocks`, with something written into the second. */
  method WrittenBlocks(m: Memory, h: Headers, cell: Cell) returns (pool: AllocPool, first: int, p: int)
    ensures fresh(pool) && fresh(pool.mBinBlocks) && Small(pool)
    ensures first == First(8192) + HEADER && p == First(8192) + 256 && At(pool.mem, p + 320) == cell
    ensures Live(pool.g.chunks) == map[First(8192) := Chunk(256, true, 8192), p := Chunk(512, true, 8192)]
  {
    var second;
    pool, first, second := TwoBlocks(m, h);
    p := second - HEADER;
    assert p in Live(pool.g.chunks) && first - HEADER in Live(pool.g.chunks);
    pool.WritePayload(second, p + 320, cell);
  }

  /** Of the two blocks the first is freed, and something written into the second. */
  method SecondBlock(m: Memory, h: Headers, cell: Cell) returns (pool: AllocPool, p: int)
    ensures fresh(pool) && fresh(pool.mBinBlocks) && Small(pool)
    ensures p == First(8192) + 256 && Live(pool.g.chunks) == map[p := Chunk(512, true, 8192)]
      && At(pool.mem, p + 320) == cell
  {
    var first;
    pool, first, p := WrittenBlocks(m, h, cell);
    assert p in Live(pool.g.chunks) && first - HEADER in Live(pool.g.chunks);
    InsideChunk(pool.g.chunks, pool.g.areas, p, p + 320);
    pool.Free(first);
    assert Live(pool.g.chunks) == map[p := Chunk(512, true, 8192)];
  }

  /** Two blocks of 256 and 512 bytes fill a pool; the first is freed, and the second wants 576 bytes. It is moved to
      the front of the first, and the header of the remainder, at an offset of 320 into the block, is written before
      that. */
  method OverwritesPayload(m: Memory, h: Headers, cell: Cell)
      returns (was: Memory, now: Memory, p: int, c: int)
    requires cell.size != 192
    ensures At(was, p + 320) == cell && At(now, c + 320).size == 192
    ensures !Carried(was, now, p, c, 512)
  {
    var pool;
    pool, p := SecondBlock(m, h, cell);
    was := pool.mem;
    assert p in Live(pool.g.chunks);
    GrowsBackwards(was, pool.g.chunks, pool.g.areas, 8192);
    assert RequestToSize(544) == 576;
    var moved := pool.Realloc(p + HEADER, 544, 0);
    c := First(8192);
    now := pool.mem;
    assert Source(p + 320, p, c) == c + 320;
  }
}

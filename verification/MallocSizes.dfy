/** Sizes and address arithmetic of the allocator, in the width of size_t. */
module MallocSizes {

  const SIZE_MOD: nat := 0x1_0000_0000_0000_0000
  const HEADER: nat := 24          // STRUCTSIZE: a size_t, a pointer and an int, rounded to 8
  const PAGE: nat := 4096
  const CHUNK: nat := 4 * 4096     // INITIAL_CHUNK_SIZE
  const BLOCK: nat := 4096         // payload of the blocks a chunk is cut into
  const SLOTS: nat := 64           // MAX_THREADS
  // User-space addresses end below this bound, so adding block lengths to them never wraps.
  const ADDRESS_LIMIT: nat := 0x8000_0000_0000_0000

  // The C type size_t.
  type Size = n: nat | n < SIZE_MOD

  /** `(n + 7) & ~7` on size_t. */
  function RoundUp8(n: Size): (r: Size)
    ensures r % 8 == 0
    ensures n <= SIZE_MOD - 8 ==> n <= r < n + 8
    ensures n > SIZE_MOD - 8 ==> r == 0
  {
    ((n + 7) % SIZE_MOD) / 8 * 8
  }

  /** Bytes asked of vmalloc when no free block fits: `((size + STRUCTSIZE + 4095) / 4096) * 4096` on size_t. */
  function FallbackLength(size: Size): (r: Size)
    ensures r % PAGE == 0
    ensures size + HEADER + 4095 < SIZE_MOD ==> size + HEADER <= r < size + HEADER + PAGE
  {
    ((size + HEADER + 4095) % SIZE_MOD) / PAGE * PAGE
  }

  /** What a block that serves the request must hold; vmalloc of zero bytes yields nothing. */
  predicate Covers(req: Size) {
    && RoundUp8(req) >= req
    && var len := FallbackLength(RoundUp8(req));
       len == 0 || len - HEADER >= req
  }

  /** Exactly which requests survive the wrap-around of both roundings. */
  lemma CoversExactly(req: Size)
    ensures Covers(req) <==> req <= SIZE_MOD - 24
  {
    var size := RoundUp8(req);
    if req <= SIZE_MOD - 8 && size + HEADER + 4095 >= SIZE_MOD {
      var x := size + HEADER + 4095 - SIZE_MOD;
      assert (size + HEADER + 4095) % SIZE_MOD == x;
      assert x < 2 * PAGE;
      assert FallbackLength(size) == if x < PAGE then 0 else PAGE;
    }
  }
}

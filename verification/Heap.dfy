/** The allocator proper: malloc, free and realloc over tagged memory and the free bins. */
module Heap {
  import opened Wrappers
  import opened Bits
  import opened BinMaps
  import opened AllocSizes
  import opened Bins
  import opened Tiling
  import opened Growth

  /** Free normal chunks are exactly top, the designated victim and the binned chunks. */
  ghost predicate Parted(chunks: Chunks, content: map<int, int>, dv: int, dvsize: int, top: int) {
    && (forall a :: FreeAt(chunks, a) ==> a == top || (dvsize > 0 && a == dv) || a in content)
    && (forall a :: a in content ==>
          FreeAt(chunks, a) && chunks[a].size == content[a] && a != top && !(dvsize > 0 && a == dv))
    && (if dvsize == 0 then dv == 0 else
          dvsize >= MIN_CHUNK_SIZE && FreeAt(chunks, dv) && chunks[dv].size == dvsize && dv != top)
  }

  ghost predicate OnlyChunkIn(chunks: Chunks, p: int, n: int) {
    forall b :: b in chunks && p <= b < n ==> b == p
  }

  lemma {:induction false} PartWhole(chunks: Chunks, chunks': Chunks, content: map<int, int>, dv: int, dvsize: int,
      top: int, p: int, n: int)
    requires Parted(chunks, content, dv, dvsize, top) && OnlyChunkIn(chunks, p, n)
    requires Retiled(chunks, chunks', p, n, n, true, true)
    ensures p in content ==> Parted(chunks', content - {p}, dv, dvsize, top)
    ensures p == dv && dvsize > 0 ==> Parted(chunks', content, 0, 0, top)
  {
    SameFree(chunks, chunks', p, n, n, true, true);
  }

  lemma {:induction false} PartFront(chunks: Chunks, chunks': Chunks, content: map<int, int>, dv: int, dvsize: int,
      top: int, p: int, m: int, n: int)
    requires Parted(chunks, content, dv, dvsize, top) && top in chunks && OnlyChunkIn(chunks, p, n)
    requires Retiled(chunks, chunks', p, m, n, true, false) && m < n && m !in chunks
    ensures p in content ==> Parted(chunks', (content - {p})[m := n - m], dv, dvsize, top)
    ensures p in content && n - m >= MIN_CHUNK_SIZE && dvsize == 0 ==> Parted(chunks', content - {p}, m, n - m, top)
    ensures p in content && n - m >= MIN_CHUNK_SIZE && dvsize > 0 ==>
      Parted(chunks', (content - {p})[dv := dvsize], m, n - m, top)
    ensures p == dv && dvsize > 0 && n - m >= MIN_CHUNK_SIZE ==> Parted(chunks', content, m, n - m, top)
    ensures p == top ==> Parted(chunks', content, dv, dvsize, m)
  {
    SameFree(chunks, chunks', p, m, n, true, false);
  }

  /** Free chunks outside the run stay; inside it only the new parts count. */
  lemma {:induction false} SameFree(chunks: Chunks, chunks': Chunks, p: int, m: int, n: int, c1: bool, c2: bool)
    requires Retiled(chunks, chunks', p, m, n, c1, c2)
    ensures forall a :: a < p || n <= a ==>
      (FreeAt(chunks', a) <==> FreeAt(chunks, a)) && (FreeAt(chunks, a) ==> chunks'[a].size == chunks[a].size)
    ensures forall a :: p <= a < n ==> (FreeAt(chunks', a) <==> (a == p && !c1) || (a == m && m < n && !c2))
  {
  }

  ghost function Outside(content: map<int, int>, q: int, n: int): map<int, int> {
    map a | a in content && !(q <= a < n) :: content[a]
  }

  lemma {:induction false} OutsideRun(chunks: Chunks, content: map<int, int>, dv: int, dvsize: int, top: int, q: int,
      p: int, next: int, n: int)
    requires Parted(chunks, content, dv, dvsize, top) && !FreeAt(chunks, p) && q <= p < next <= n
    requires forall b :: b in chunks && q <= b < n ==> b == q || b == p || b == next
    requires next == n ==> !FreeAt(chunks, next)
    ensures Outside(content, q, n) == content - {q} - {next}
  {
  }

  /**
   Consolidation: the one free chunk [t, n) of the new run joins top if the run held it, else dv
   if the run held it, else a bin.
   */
  lemma {:induction false} PartMerge(chunks: Chunks, chunks': Chunks, content: map<int, int>, dv: int, dvsize: int,
      top: int, q: int, m: int, n: int, c1: bool)
    requires Parted(chunks, content, dv, dvsize, top) && top in chunks
    requires Retiled(chunks, chunks', q, m, n, c1, false) && (c1 <==> m < n)
    ensures var t := if m < n then m else q;
      && (!(q <= top < n) && !(dvsize > 0 && q <= dv < n) ==>
            Parted(chunks', Outside(content, q, n)[t := n - t], dv, dvsize, top))
      && (!(q <= top < n) && dvsize > 0 && q <= dv < n && n - t >= MIN_CHUNK_SIZE ==>
            Parted(chunks', Outside(content, q, n), t, n - t, top))
      && (q <= top < n && dvsize > 0 && q <= dv < n ==> Parted(chunks', Outside(content, q, n), 0, 0, t))
      && (q <= top < n && !(dvsize > 0 && q <= dv < n) ==> Parted(chunks', Outside(content, q, n), dv, dvsize, t))
  {
    SameFree(chunks, chunks', q, m, n, c1, false);
  }

  /** What the partition says about a binned chunk and about dv. */
  lemma {:induction false} PartFacts(chunks: Chunks, content: map<int, int>, dv: int, dvsize: int, top: int, a: int)
    requires Parted(chunks, content, dv, dvsize, top)
    ensures a in content ==> FreeAt(chunks, a) && chunks[a].size == content[a] && a != top && (dvsize > 0 ==> a != dv)
    ensures dvsize >= 0
    ensures dvsize > 0 ==>
        dv in chunks && FreeAt(chunks, dv) && chunks[dv].size == dvsize && dv != top && dv !in content
    ensures FreeAt(chunks, a) ==> a == top || (dvsize > 0 && a == dv) || a in content
    ensures dvsize > 0 ==> dvsize >= MIN_CHUNK_SIZE
    ensures dvsize == 0 ==> dv == 0
  {
  }

  ghost predicate InuseAt(chunks: Chunks, a: int) {
    a in chunks && chunks[a].kind.Normal? && chunks[a].cinuse
  }

  /** All chunks in use. */
  ghost function Inuse(chunks: Chunks): set<int> {
    set a | a in chunks && InuseAt(chunks, a)
  }

  /** Chunks outside a retiled run stay in use; inside it only the new parts count. */
  lemma {:induction false} SameInuse(chunks: Chunks, chunks': Chunks, p: int, m: int, n: int, c1: bool, c2: bool)
    requires Retiled(chunks, chunks', p, m, n, c1, c2)
    ensures forall a :: a < p || n <= a ==> (InuseAt(chunks', a) <==> InuseAt(chunks, a))
    ensures forall a :: p <= a < n ==> (InuseAt(chunks', a) <==> (a == p && c1) || (a == m && m < n && c2))
  {
  }

  /** A free chunk, or its front, is taken. */
  lemma {:induction false} InuseTaken(chunks: Chunks, chunks': Chunks, p: int, m: int, n: int, c2: bool)
    requires Retiled(chunks, chunks', p, m, n, true, c2) && OnlyChunkIn(chunks, p, n) && FreeAt(chunks, p)
    requires m < n ==> !c2
    ensures Inuse(chunks') == Inuse(chunks) + {p}
  {
    SameInuse(chunks, chunks', p, m, n, true, c2);
    hide Retiled;
  }

  lemma {:induction false} Unused(chunks: Chunks, live: set<int>, p: int)
    requires LiveOk(chunks, live) && FreeAt(chunks, p)
    ensures p !in live
  {
  }

  lemma {:induction false} InuseLive(chunks: Chunks, live: set<int>)
    requires Inuse(chunks) == live
    ensures LiveOk(chunks, live)
  {
  }

  /** The run around p0 becomes one free chunk. */
  lemma {:induction false} InuseFreed(chunks: Chunks, chunks': Chunks, live: set<int>, p: int, p0: int, n: int)
    requires Retiled(chunks, chunks', p, n, n, false, false) && p <= p0 < n
    requires forall a :: a in live ==> a < p || n <= a
    requires Inuse(chunks) == live + {p0}
    ensures Inuse(chunks') == live
  {
    SameInuse(chunks, chunks', p, n, n, false, false);
    InuseEq(chunks, live + {p0});
    hide Retiled;
  }

  lemma {:induction false} InuseEq(chunks: Chunks, live: set<int>)
    requires Inuse(chunks) == live
    ensures forall a :: InuseAt(chunks, a) <==> a in live
  {
    forall a ensures InuseAt(chunks, a) <==> a in live {
      assert a in Inuse(chunks) <==> InuseAt(chunks, a);
    }
  }

  /** The run [p, n), of which only p was in use, is cut into a chunk in use and a free one. */
  lemma {:induction false} InuseCarved(chunks: Chunks, chunks': Chunks, live: set<int>, p: int, m: int, n: int)
    requires Retiled(chunks, chunks', p, m, n, true, false) && m < n
    requires forall a :: a in live ==> a < p || n <= a
    requires Inuse(chunks) == live + {p}
    ensures Inuse(chunks') == live + {p}
  {
    SameInuse(chunks, chunks', p, m, n, true, false);
    InuseEq(chunks, live + {p});
    hide Retiled;
  }

  lemma {:induction false} InuseGrown(chunks: Chunks, chunks': Chunks, p: int, m: int, n: int, top: int)
    requires Retiled(chunks, chunks', p, m, n, true, false) && m < n && InuseAt(chunks, p) && FreeAt(chunks, top)
    requires forall b :: b in chunks && p <= b < n ==> b == p || b == top
    ensures Inuse(chunks') == Inuse(chunks)
  {
    SameInuse(chunks, chunks', p, m, n, true, false);
    hide Retiled;
  }

  lemma {:induction false} InuseSplit(chunks: Chunks, chunks': Chunks, p: int, m: int, n: int)
    requires Retiled(chunks, chunks', p, m, n, true, true) && OnlyChunkIn(chunks, p, n) && m < n && InuseAt(chunks, p)
    ensures Inuse(chunks') == Inuse(chunks) + {m}
  {
    SameInuse(chunks, chunks', p, m, n, true, true);
    hide Retiled;
  }

  ghost predicate LiveOk(chunks: Chunks, live: set<int>) {
    forall a :: a in live ==> InuseAt(chunks, a)
  }

  /** Every chunk of live keeps its place, its size and all its payload words. */
  ghost predicate SameLive(mem: Words, mem': Words, chunks: Chunks, chunks': Chunks, live: set<int>) {
    forall a :: a in live ==>
      a in chunks && a in chunks' && chunks'[a].size == chunks[a].size && PayloadKept(mem, mem', a, chunks[a].size)
  }

  lemma {:induction false} SameLiveRefl(mem: Words, chunks: Chunks, live: set<int>)
    requires LiveOk(chunks, live)
    ensures SameLive(mem, mem, chunks, chunks, live)
  {
  }

  lemma {:induction false} SameLiveLess(mem: Words, mem': Words, chunks: Chunks, chunks': Chunks, live: set<int>,
      less: set<int>)
    requires SameLive(mem, mem', chunks, chunks', live) && less <= live
    ensures SameLive(mem, mem', chunks, chunks', less)
  {
  }

  lemma {:induction false} SameLiveTrans(m0: Words, m1: Words, m2: Words, c0: Chunks, c1: Chunks, c2: Chunks,
      live: set<int>)
    requires SameLive(m0, m1, c0, c1, live) && SameLive(m1, m2, c1, c2, live)
    ensures SameLive(m0, m2, c0, c2, live)
  {
  }

  lemma {:induction false} RetileSameLive(mem: Words, mem': Words, chunks: Chunks, segs: seq<Segment>, top: int,
      topsize: int, live: set<int>, q: int, m: int, n: int, c1: bool, c2: bool)
    requires Sound(mem, chunks, segs, top, topsize) && CanRetile(chunks, q, m, n, c1, c2)
    requires SameOutside(mem, mem', q, n)
    requires LiveOk(chunks, live)
    requires forall a :: a in live ==> a < q || n <= a
    ensures var c' := Retile(chunks, q, m, n, c1, c2);
      LiveOk(c', live) && SameLive(mem, mem', chunks, c', live)
  {
    hide Retile, TiledMem, AlignedOk, HeldOk, SegmentsOk, SegmentsApart, Linked, TopOk, SmallIsTop, Shaped,
        PayloadKept, SameOutside;
    forall a | a in live ensures PayloadKept(mem, mem', a, chunks[a].size) {
      RetileKeeps(mem, mem', chunks, q, n, a);
    }
  }

  /** Facts about a binned chunk, and about dv, that every path needs. */
  lemma {:induction false} Lookup(mem: Words, chunks: Chunks, segs: seq<Segment>, top: int, topsize: int,
      content: map<int, int>, dv: int, dvsize: int, a: int)
    requires Sound(mem, chunks, segs, top, topsize)
    requires SizesOk(content) && Parted(chunks, content, dv, dvsize, top)
    ensures a in content ==>
      && FreeAt(chunks, a) && chunks[a].size == content[a] && a != top && a > 0 && a % 8 == 0
      && content[a] % 8 == 0 && OnlyChunkIn(chunks, a, a + content[a])
    ensures dvsize == 0 || (dvsize % 8 == 0 && dv !in content && MIN_CHUNK_SIZE <= dvsize < MMAP_REGION_END)
    ensures dvsize == 0 || (FreeAt(chunks, dv) && chunks[dv].size == dvsize && dv != top && dv > 0 && dv % 8 == 0
      && OnlyChunkIn(chunks, dv, dv + dvsize))
    ensures dvsize == 0 ==> dv == 0
    ensures FreeAt(chunks, a) ==> a == top || (dvsize > 0 && a == dv) || a in content
    ensures top in chunks
  {
    TopChunk(mem, chunks, segs, top, topsize);
    hide Sound, Parted, Pack, PInuse, CInuse, ChunkSize, SetPInuse, ClearPInuse;
    PartFacts(chunks, content, dv, dvsize, top, a);
    if a in content {
      ReadHead(mem, chunks, segs, top, topsize, a);
      OneChunkRun(mem, chunks, segs, top, topsize, a);
    }
    if dvsize > 0 {
      ReadHead(mem, chunks, segs, top, topsize, dv);
      OneChunkRun(mem, chunks, segs, top, topsize, dv);
    }
  }

  /**
   Who is in the run [p, n): p itself, the chunk p0 that is not free, and a free chunk at next.
   The free ones are top, dv or binned, and leave the bins as stated.
   */
  lemma {:induction false} RunRoles(mem: Words, chunks: Chunks, segs: seq<Segment>, top: int, topsize: int,
      content: map<int, int>, dv: int, dvsize: int, p: int, p0: int, next: int, n: int)
    requires Sound(mem, chunks, segs, top, topsize) && SizesOk(content) && Parted(chunks, content, dv, dvsize, top)
    requires p in chunks && p <= p0 < next <= n && !FreeAt(chunks, p0) && p != top && next in chunks
    requires p == p0 || (dvsize > 0 && p == dv) || p in content
    requires if next == n then chunks[next].cinuse else FreeAt(chunks, next) && n == next + chunks[next].size
    requires forall b :: b in chunks && p <= b < n ==> b == p || b == p0 || b == next
    ensures Outside(content, p, n) == content - {p} - {next}
    ensures next !in content ==> content - {p} - {next} == content - {p}
    ensures top in chunks && (p <= top < n <==> next == top && next < n)
    ensures (next == top ==> next < n && n == top + topsize)
    ensures next < n ==>
      next == top || (next == dv && dvsize == n - next) || (next in content && content[next] == n - next)
    ensures next < n ==> (next == top ==> next !in content) && (next == dv ==> next !in content)
    ensures next == n ==> next !in content && next != dv && next != top
    ensures (dvsize > 0 && p <= dv < n) <==> (p == dv || next == dv)
    ensures next == dv ==> dvsize > 0 && p != dv && next != top
    ensures next < n && next != top ==> n in chunks && !chunks[n].kind.Trailer? && !chunks[n].pinuse
    ensures p > 0 && n <= MMAP_REGION_END && next < n ==> (n - next) % 8 == 0 && n - next >= 8
    ensures Rd(mem, next + 8) == Pack(chunks[next].size, chunks[next].pinuse, chunks[next].cinuse)
    ensures CInuse(Rd(mem, next + 8)) == chunks[next].cinuse && ChunkSize(Rd(mem, next + 8)) == chunks[next].size
    ensures p > 0 && n < MMAP_REGION_END
  {
    hide Sound, Parted, Pack, PInuse, CInuse, ChunkSize, SetPInuse, ClearPInuse, OnlyChunkIn, Outside;
    OutsideRun(chunks, content, dv, dvsize, top, p, p0, next, n);
    ReadHead(mem, chunks, segs, top, topsize, p);
    ReadHead(mem, chunks, segs, top, topsize, next);
    TopChunk(mem, chunks, segs, top, topsize);
    Lookup(mem, chunks, segs, top, topsize, content, dv, dvsize, next);
    if next < n {
      NextChunk(mem, chunks, segs, top, topsize, next);
      ReadHead(mem, chunks, segs, top, topsize, n);
    }
  }

  /** The run [p, n) around the chunk p0 being freed: a free predecessor, p0, and a free successor at next. */
  ghost predicate FreeReady(chunks: Chunks, content: map<int, int>, dv: int, dvsize: int, top: int, live: set<int>,
      p: int, p0: int, next: int, n: int) {
    && p in chunks && CanRetile(chunks, p, n, n, false, false) && chunks[p].pinuse
    && next - p >= MIN_CHUNK_SIZE && (next - p) % 8 == 0
    && p <= p0 < next <= n && !FreeAt(chunks, p0) && p != top
    && (p == p0 || (dvsize > 0 && p == dv) || p in content)
    && next in chunks && chunks[next].pinuse && !chunks[next].kind.Trailer?
    && (if next == n then chunks[next].cinuse else FreeAt(chunks, next) && n == next + chunks[next].size)
    && (forall b :: b in chunks && p <= b < n ==> b == p || b == p0 || b == next)
    && (forall a :: a in live ==> a < p || n <= a)
  }

  /** What free reads at p0, and the run it is about to merge. */
  lemma {:induction false} FreeStart(mem: Words, chunks: Chunks, segs: seq<Segment>, top: int, topsize: int,
      content: map<int, int>, dv: int, dvsize: int, live: set<int>, p0: int) returns (q: int, n: int)
    requires Sound(mem, chunks, segs, top, topsize) && SizesOk(content) && Parted(chunks, content, dv, dvsize, top)
    requires LiveOk(chunks, live) && p0 in live
    ensures p0 in chunks && ChunkSize(Rd(mem, p0 + 8)) == chunks[p0].size
    ensures PInuse(Rd(mem, p0 + 8)) == chunks[p0].pinuse
    ensures var next := p0 + chunks[p0].size;
      && FreeReady(chunks, content, dv, dvsize, top, live - {p0}, q, p0, next, n)
      && PInuse(Rd(mem, next + 8)) && CInuse(Rd(mem, next + 8)) == (n == next)
    ensures LiveOk(chunks, live - {p0}) && p0 !in content
    ensures if chunks[p0].pinuse then q == p0
      else
        && q == p0 - Rd(mem, p0) < p0
        && if q == dv then dvsize > 0 && q !in content else q in content && content[q] == Rd(mem, p0)
  {
    hide Sound, Parted, Pack, SetPInuse, ChunkSize, ClearPInuse, PInuse, CInuse, OnlyChunkIn, CanRetile, SizesOk;
    hide Mult8;
    assert p0 in chunks && chunks[p0].kind.Normal? && chunks[p0].cinuse;
    q, n := CanFree(mem, chunks, segs, top, topsize, p0);
    var next := p0 + chunks[p0].size;
    assert LiveOk(chunks, live - {p0});
    LiveAround(chunks, live - {p0}, q, p0, next, n);
    hide LiveOk;
    Lookup(mem, chunks, segs, top, topsize, content, dv, dvsize, q);
    PartFacts(chunks, content, dv, dvsize, top, p0);
    TopChunk(mem, chunks, segs, top, topsize);
    NextChunk(mem, chunks, segs, top, topsize, p0);
    ReadHead(mem, chunks, segs, top, topsize, p0);
    ReadHead(mem, chunks, segs, top, topsize, q);
    ReadHead(mem, chunks, segs, top, topsize, next);
    Mult8Apart(next, q);
  }

  lemma {:induction false} Mult8Apart(x: int, y: int)
    requires x % 8 == 0 && y % 8 == 0
    ensures (x - y) % 8 == 0
  {
  }

  lemma {:induction false} LiveAround(chunks: Chunks, live: set<int>, p: int, p0: int, next: int, n: int)
    requires LiveOk(chunks, live) && p0 !in live && (p == p0 || FreeAt(chunks, p))
    requires (next < n ==> FreeAt(chunks, next))
    requires forall b :: b in chunks && p <= b < n ==> b == p || b == p0 || b == next
    ensures forall a :: a in live ==> a < p || n <= a
  {
  }

  const MAX_SIZE_T: int := TWO_64 - 1

  /** sizeof(struct malloc_state) for 64-bit targets. */
  const STATE_SIZE := 864

  /** A region mmap may grant: aligned, above address 0 and inside the lower 2GB. */
  ghost predicate Region(base: int, size: int) {
    0 < base && base % 8 == 0 && base + size <= MMAP_REGION_END
  }

  /** The three chunks of a fresh heap. */
  ghost predicate Initial(a: int, chunks: Chunks, segs: seq<Segment>) {
    && (forall x :: x in chunks <==> x == a || x == a + 872 || x == a + 131008)
    && chunks[a] == Chunk(872, true, true, Normal)
    && chunks[a + 872] == Chunk(130136, true, false, Normal)
    && chunks[a + 131008] == Chunk(TOP_FOOT_SIZE, false, false, Trailer)
    && segs == [Segment(a, DEFAULT_GRANULARITY)]
  }

  lemma {:induction false} InitialTiled(a: int, chunks: Chunks, segs: seq<Segment>)
    requires Region(a, DEFAULT_GRANULARITY) && Initial(a, chunks, segs)
    ensures Tiled(chunks, segs, a + 872, 130136)
  {
    assert InSegment(segs[0], a, a + 880) && InSegment(segs[0], a + 872, a + 131016)
      && InSegment(segs[0], a + 131008, a + 131072);
    assert a % 8 == 0;
    assert Linked(chunks, segs) by {
      hide AlignedOk, Shaped, Disjoint, HeldOk;
      assert LinkedAt(chunks, segs, a) && LinkedAt(chunks, segs, a + 872) && LinkedAt(chunks, segs, a + 131008);
    }
  }

  lemma {:induction false} InitialMem(a: int, mem: Words, chunks: Chunks, segs: seq<Segment>)
    requires Region(a, DEFAULT_GRANULARITY) && Initial(a, chunks, segs)
    requires Rd(mem, a + 8) == Pack(872, true, true) && Rd(mem, a + 880) == Pack(130136, true, false)
    requires Rd(mem, a + 131016) == Pack(TOP_FOOT_SIZE, false, false)
    ensures TiledMem(mem, chunks) && Parted(chunks, map[], 0, 0, a + 872)
  {
  }

  /**
   When the bins serve a request: dv is too small, or they have an exact small fit (or the next size),
   or for a large request something smaller than dv.
   */
  ghost predicate BinsServe(content: map<int, int>, dvsize: int, nb: int, small: bool) {
    || (dvsize < nb && exists a :: Fits(content, nb, a))
    || if small then Exact(content, nb) || (Exact(content, nb + 8) && nb + 8 < MIN_LARGE_SIZE)
       else exists a :: Fits(content, nb, a) && content[a] < dvsize
  }

  /** Where an allocation comes from: a best fit in the bins, else dv, else top. */
  ghost predicate Chosen(content: map<int, int>, dv: int, dvsize: int, top: int, topsize: int, nb: int, small: bool,
      p: int) {
    if BinsServe(content, dvsize, nb, small) then BestFit(content, nb, p)
    else if nb <= dvsize then p == dv
    else nb < topsize ==> p == top
  }

  lemma {:induction false} ExactServes(content: map<int, int>, dvsize: int, nb: int, p: int)
    requires SizesOk(content) && nb % 8 == 0 && p in content
    requires content[p] == nb || (content[p] == nb + 8 < MIN_LARGE_SIZE && !Exact(content, nb))
    ensures BinsServe(content, dvsize, nb, true) && BestFit(content, nb, p)
  {
    NothingBetween(content, nb, p, content[p]);
  }

  /** Nothing exact, and p is the least of what is bigger. */
  lemma {:induction false} NextServes(content: map<int, int>, dvsize: int, nb: int, p: int)
    requires SizesOk(content) && nb % 8 == 0 && p in content && content[p] >= nb && dvsize < nb && !Exact(content, nb)
    requires forall a :: a in content && content[a] >= nb + 8 ==> content[a] >= content[p]
    ensures BinsServe(content, dvsize, nb, true) && BestFit(content, nb, p)
  {
    NothingBetween(content, nb, p, content[p]);
    assert Fits(content, nb, p);
  }

  lemma {:induction false} NothingServes(content: map<int, int>, dvsize: int, nb: int)
    requires SizesOk(content) && nb % 8 == 0 && !Exact(content, nb)
    requires forall a :: a in content && content[a] >= nb + 8 ==> content[a] >= MIN_LARGE_SIZE
    requires forall a :: a in content ==> content[a] < MIN_LARGE_SIZE
    ensures !BinsServe(content, dvsize, nb, true) && forall a :: !Fits(content, nb, a)
  {
    Gap(content, nb);
    hide SizesOk;
  }

  lemma {:induction false} DvServes(content: map<int, int>, dvsize: int, nb: int)
    requires nb <= dvsize && !Exact(content, nb) && !(Exact(content, nb + 8) && nb + 8 < MIN_LARGE_SIZE)
    ensures !BinsServe(content, dvsize, nb, true)
  {
  }

  /** What the search for a large request found, or did not. */
  lemma {:induction false} RoomInBins(content: map<int, int>, dvsize: int, topsize: int, nb: int, p: int)
    requires BestFit(content, nb, p)
    ensures Room(content, dvsize, topsize, nb)
  {
  }

  lemma {:induction false} LargeServes(content: map<int, int>, dvsize: int, nb: int, p: int)
    requires nb >= MIN_LARGE_SIZE
    requires p != 0 ==> p in content && content[p] >= nb && (dvsize >= nb ==> content[p] < dvsize)
    requires p != 0 ==> forall a :: a in content && content[a] >= nb ==> content[p] <= content[a]
    requires p == 0 ==> forall a :: a in content && content[a] >= nb ==> dvsize >= nb && dvsize <= content[a]
    ensures p != 0 ==> BinsServe(content, dvsize, nb, false) && BestFit(content, nb, p)
    ensures p == 0 ==> !BinsServe(content, dvsize, nb, false) && (dvsize < nb ==> forall a :: !Fits(content, nb, a))
  {
    if p != 0 { assert Fits(content, nb, p); }
  }

  /** Some free chunk can serve nb bytes. */
  ghost predicate Room(content: map<int, int>, dvsize: int, topsize: int, nb: int) {
    nb <= dvsize || nb < topsize || exists a :: Fits(content, nb, a)
  }

  /** A region at x would be appended to the segment that holds top. */
  ghost predicate JoinsTop(segs: seq<Segment>, top: int, x: int) {
    exists k :: 0 <= k < |segs| && EndsAt(segs[k], x) && segs[k].base <= top < x
  }

  ghost predicate EndsAt(s: Segment, x: int) { s.base + s.size == x }

  /** A region that ends at x lies right before a segment. */
  ghost predicate Precedes(segs: seq<Segment>, x: int) {
    exists k :: 0 <= k < |segs| && segs[k].base == x
  }

  /**
   A block served from a new region: it joins top, or it starts the region, which extends the segment
   behind it or becomes one of its own; n segments there are then.
   */
  ghost predicate FromSystem(segs: seq<Segment>, top: int, tbase: int, tsize: int, p: int, n: int) {
    if JoinsTop(segs, top, tbase) then p == top && n == |segs|
    else p == tbase && n == if Precedes(segs, tbase + tsize) then |segs| else |segs| + 1
  }

  lemma {:induction false} OneEnd(mem: Words, chunks: Chunks, segs: seq<Segment>, top: int, topsize: int, x: int,
      i: nat)
    requires Sound(mem, chunks, segs, top, topsize) && i <= |segs| && (i < |segs| ==> EndsAt(segs[i], x))
    requires forall j :: 0 <= j < i ==> !EndsAt(segs[j], x)
    ensures JoinsTop(segs, top, x) <==> i < |segs| && segs[i].base <= top < x
  {
    hide TiledMem, AlignedOk, Shaped, HeldOk, Disjoint, Linked, SmallIsTop, TopOk;
    if k :| 0 <= k < |segs| && EndsAt(segs[k], x) && segs[k].base <= top < x {
      assert SegmentOk(chunks, segs[i]) && SegmentOk(chunks, segs[k]);
      assert k == i;
    }
  }

  /** Fenceposts lie 8 bytes apart. */
  lemma {:induction false} FenceGap(csp: int, end: int, p: int)
    requires Mult8(p)
    ensures forall a :: IsFence(a, csp, end) ==> csp + 32 <= a <= end - 16 && (a <= p || p + 8 <= a)
  {
  }

  lemma {:induction false} Mult8Next(p: int, end: int)
    requires Mult8(p) && Mult8(end)
    ensures p + 16 < end ==> p + 24 <= end
  {
  }

  lemma {:induction false} OneStart(segs: seq<Segment>, x: int, j: nat)
    requires j <= |segs| && (j < |segs| ==> segs[j].base == x) && forall k :: 0 <= k < j ==> segs[k].base != x
    ensures Precedes(segs, x) <==> j < |segs|
  {
  }

  /** s is all that is in use, and the allocator has one record of its own for each segment. */
  ghost predicate Accounted(chunks: Chunks, segs: seq<Segment>, own: set<int>, inuse: set<int>, s: set<int>) {
    Inuse(chunks) == s && own <= inuse && |own| == |segs|
  }

  class Heap {
    var mem: Words
    const bins: FreeBins
    var dv: int
    var dvsize: int
    var top: int
    var topsize: int
    var segs: seq<Segment>
    ghost var chunks: Chunks
    /** All chunks in use: those handed out by malloc and the allocator's own records. */
    ghost var inuse: set<int>
    /** The state record and the record of every segment that was closed. */
    ghost var own: set<int>

    /** Chunks handed out by malloc and not yet freed. */
    ghost function Live(): set<int>
      reads this
    {
      inuse - own
    }

    ghost predicate Core()
      reads this
    {
      Sound(mem, chunks, segs, top, topsize) && LiveOk(chunks, inuse)
    }

    ghost predicate Valid()
      reads this, bins
    {
      && Core() && bins.Valid() && Parted(chunks, bins.content, dv, dvsize, top)
      && Accounted(chunks, segs, own, inuse, inuse)
    }

    /** lj_alloc_create on a granted first region: the state record, then top, then the trailer. */
    constructor (tbase: int)
      requires Region(tbase, DEFAULT_GRANULARITY)
      ensures Valid() && Live() == {} && fresh(bins) && bins.content == map[] && dvsize == 0
      ensures segs == [Segment(tbase, DEFAULT_GRANULARITY)] && topsize == 130136
    {
      hide PadRequest, Tiled, TiledMem, Parted, Pack, SizesOk, SmallOk, TreesOk;
      var msize := PadRequest(STATE_SIZE);
      assert msize == 872;
      var tp := tbase + msize;
      var tsz := DEFAULT_GRANULARITY - msize - TOP_FOOT_SIZE;
      mem := map[tbase + 8 := Pack(msize, true, true), tp + 8 := Pack(tsz, true, false),
                 tp + tsz + 8 := Pack(TOP_FOOT_SIZE, false, false)];
      bins := new FreeBins();
      dv, dvsize, top, topsize := 0, 0, tp, tsz;
      segs := [Segment(tbase, DEFAULT_GRANULARITY)];
      chunks := map[tbase := Chunk(msize, true, true, Normal), tp := Chunk(tsz, true, false, Normal),
                    tp + tsz := Chunk(TOP_FOOT_SIZE, false, false, Trailer)];
      inuse, own := {tbase}, {tbase};
      new;
      assert Initial(tbase, chunks, segs);
      InitialTiled(tbase, chunks, segs);
      InitialMem(tbase, mem, chunks, segs);
    }

    // -------------------------------------------------------------- tag updates

    /**
     The ghost step behind every tag update: once the words are written, the run [q, n) is retiled.
     */
    ghost method Commit(mem0: Words, q: int, m: int, n: int, c1: bool, c2: bool)
      requires Sound(mem0, chunks, segs, top, topsize) && LiveOk(chunks, inuse)
      requires CanRetile(chunks, q, m, n, c1, c2) && TagsWritten(mem0, mem, chunks, q, m, n, c1, c2)
      requires forall a :: a in inuse ==> a < q || n <= a
      modifies this`chunks
      ensures Retiled(old(chunks), chunks, q, m, n, c1, c2)
      ensures LiveOk(chunks, inuse) && SameLive(mem0, mem, old(chunks), chunks, inuse)
      ensures var t := if m < n then m else q;
        if old(chunks)[n].kind.Trailer? then Sound(mem, chunks, segs, t, n - t)
            else Sound(mem, chunks, segs, top, topsize)
    {
      hide Sound, Retile, Retiled, LiveOk, SameLive, SameOutside;
      RetileSound(mem0, mem, chunks, segs, top, topsize, q, m, n, c1, c2);
      RetileSameLive(mem0, mem, chunks, segs, top, topsize, inuse, q, m, n, c1, c2);
      chunks := Retile(chunks, q, m, n, c1, c2);
    }

    /** set_inuse_and_pinuse: a whole free chunk becomes allocated. */
    method TakeWhole(p: int, s: int)
      requires Core() && FreeAt(chunks, p) && chunks[p].size == s && p != top
      modifies this`mem, this`chunks
      ensures Retiled(old(chunks), chunks, p, p + s, p + s, true, true)
      ensures Core() && SameLive(old(mem), mem, old(chunks), chunks, inuse)
    {
      hide Sound, Retiled, SameLive, Pack, SetPInuse, ChunkSize, ClearPInuse, PInuse, CInuse;
      var n := p + s;
      CanTake(mem, chunks, segs, top, topsize, p, 0);
      OneChunkRun(mem, chunks, segs, top, topsize, p);
      ReadHead(mem, chunks, segs, top, topsize, n);
      var head := Rd(mem, n + 8);
      mem := mem[p + 8 := Pack(s, true, true)];
      mem := mem[n + 8 := SetPInuse(head)];
      Commit(old(mem), p, n, n, true, true);
    }

    /** Allocate the front of a free chunk: set_size_and_pinuse_of_inuse_chunk, then head and foot of the rest. */
    method TakeFront(p: int, s: int, nb: int)
      requires Core() && FreeAt(chunks, p) && chunks[p].size == s && p != top
      requires nb % 8 == 0 && MIN_CHUNK_SIZE <= nb <= s - MIN_CHUNK_SIZE
      modifies this`mem, this`chunks
      ensures Retiled(old(chunks), chunks, p, p + nb, p + s, true, false)
      ensures Core() && SameLive(old(mem), mem, old(chunks), chunks, inuse)
    {
      hide Sound, Retiled, SameLive, Pack, SetPInuse, ChunkSize, ClearPInuse, PInuse, CInuse;
      var n, r := p + s, p + nb;
      CanTake(mem, chunks, segs, top, topsize, p, nb);
      OneChunkRun(mem, chunks, segs, top, topsize, p);
      ReadHead(mem, chunks, segs, top, topsize, n);
      ReadHead(mem, chunks, segs, top, topsize, p);
      mem := mem[p + 8 := Pack(nb, true, true)];
      mem := mem[r + 8 := Pack(s - nb, true, false)];
      mem := mem[r + (s - nb) := s - nb];
      Commit(old(mem), p, r, n, true, false);
    }

    /** Split top: the front is allocated, the rest is the new top. */
    method TakeTop(nb: int) returns (p: int)
      requires Core() && nb % 8 == 0 && MIN_CHUNK_SIZE <= nb < topsize
      modifies this`mem, this`chunks, this`top, this`topsize
      ensures p == old(top) && top == p + nb && topsize == old(topsize) - nb
      ensures Retiled(old(chunks), chunks, p, p + nb, p + old(topsize), true, false)
      ensures Core() && SameLive(old(mem), mem, old(chunks), chunks, inuse)
    {
      hide Sound, Retiled, SameLive, Pack, SetPInuse, ChunkSize, ClearPInuse, PInuse, CInuse;
      CanTakeTop(mem, chunks, segs, top, topsize, nb);
      TopChunk(mem, chunks, segs, top, topsize);
      OneChunkRun(mem, chunks, segs, top, topsize, top);
      ReadHead(mem, chunks, segs, top, topsize, top + topsize);
      p := top;
      var rsize := topsize - nb;
      var r := p + nb;
      mem := mem[r + 8 := Pack(rsize, true, false)];
      mem := mem[p + 8 := Pack(nb, true, true)];
      Commit(old(mem), p, r, p + topsize, true, false);
      top, topsize := r, rsize;
    }

    // -------------------------------------------------------------- malloc

    /** What an allocation of nb bytes at chunk p promises. */
    twostate predicate Granted(p: int, nb: int)
      reads this
    {
      && p !in old(inuse) && Live() == old(Live()) + {p} && old(own) <= own && old(inuse) <= inuse
      && p in chunks && p > 0 && p % 8 == 0 && nb <= chunks[p].size < nb + MIN_CHUNK_SIZE
      && SameLive(old(mem), mem, old(chunks), chunks, old(inuse))
    }

    /** Remainderless fit from a small bin. */
    method TakeSmall(i: nat) returns (p: int)
      requires Valid() && i < 32 && bins.smallmap[i]
      modifies this`mem, this`chunks, this`inuse, bins
      ensures Valid() && Granted(p, 8 * i) && chunks[p].size == 8 * i
      ensures p in old(bins.content) && old(bins.content)[p] == 8 * i
    {
      hide Sound, Parted, SmallOk, TreesOk, SameLive, OnlyChunkIn;
      p := bins.PopSmall(i);
      Lookup(mem, chunks, segs, top, topsize, old(bins.content), dv, dvsize, p);
      TakeWhole(p, 8 * i);
      PartWhole(old(chunks), chunks, old(bins.content), dv, dvsize, top, p, p + 8 * i);
      InuseTaken(old(chunks), chunks, p, p + 8 * i, p + 8 * i, true);
      inuse := inuse + {p};
    }

    /** replace_dv: bin the old designated victim, install the new one. */
    method ReplaceDv(p: int, s: int)
      requires bins.Valid()
      requires (dvsize != 0 ==> dv !in bins.content && MIN_CHUNK_SIZE <= dvsize < MIN_LARGE_SIZE && dvsize % 8 == 0)
      modifies this`dv, this`dvsize, bins
      ensures bins.Valid() && dv == p && dvsize == s
      ensures bins.content == if old(dvsize) == 0 then old(bins.content) else old(bins.content)[old(dv) := old(dvsize)]
    {
      if dvsize != 0 { bins.InsertChunk(dv, dvsize); }
      dvsize := s;
      dv := p;
    }

    /** Cut nb bytes off the unlinked chunk p of s bytes; a usable remainder becomes the designated victim. */
    method CutToDv(p: int, s: int, nb: int, ghost content: map<int, int>)
      requires Core() && bins.Valid() && SizesOk(content) && Parted(chunks, content, dv, dvsize, top)
      requires Accounted(chunks, segs, own, inuse, inuse)
      requires p in content && content[p] == s && bins.content == content - {p}
      requires nb % 8 == 0 && MIN_CHUNK_SIZE <= nb <= s && dvsize < nb < MIN_LARGE_SIZE
      modifies this`mem, this`chunks, this`inuse, this`dv, this`dvsize, bins
      ensures Valid() && Granted(p, nb)
      ensures s - nb >= MIN_CHUNK_SIZE ==> dv == p + nb && dvsize == s - nb
    {
      hide Sound, Parted, SmallOk, TreesOk, SameLive, OnlyChunkIn;
      Lookup(mem, chunks, segs, top, topsize, content, dv, dvsize, p);
      if s - nb < MIN_CHUNK_SIZE {
        TakeWhole(p, s);
        PartWhole(old(chunks), chunks, content, dv, dvsize, top, p, p + s);
        InuseTaken(old(chunks), chunks, p, p + s, p + s, true);
      } else {
        NotAChunk(mem, chunks, segs, top, topsize, p, p + nb);
        TakeFront(p, s, nb);
        PartFront(old(chunks), chunks, content, dv, dvsize, top, p, p + nb, p + s);
        InuseTaken(old(chunks), chunks, p, p + nb, p + s, false);
        ReplaceDv(p + nb, s - nb);
      }
      inuse := inuse + {p};
    }

    /** Use a chunk of the next non-empty small bin. */
    method SplitSmall(i: nat, nb: int) returns (p: int)
      requires Valid() && i < 32 && bins.smallmap[i]
      requires nb % 8 == 0 && MIN_CHUNK_SIZE <= nb < 8 * i && dvsize < nb
      modifies this`mem, this`chunks, this`inuse, this`dv, this`dvsize, bins
      ensures Valid() && Granted(p, nb)
      ensures p in old(bins.content) && old(bins.content)[p] == 8 * i
    {
      hide Sound, Parted, SmallOk, TreesOk, SameLive;
      p := bins.PopSmall(i);
      CutToDv(p, 8 * i, nb, old(bins.content));
    }

    /** tmalloc_small: split the smallest tree chunk. */
    method TmallocSmall(nb: int) returns (p: int)
      requires Valid() && !IsZero(bins.treemap)
      requires nb % 8 == 0 && MIN_CHUNK_SIZE <= nb < MIN_LARGE_SIZE && dvsize < nb
      modifies this`mem, this`chunks, this`inuse, this`dv, this`dvsize, bins
      ensures Valid() && Granted(p, nb)
      ensures p in old(bins.content) && old(bins.content)[p] >= MIN_LARGE_SIZE
      ensures forall a :: a in old(bins.content) && old(bins.content)[a] >= MIN_LARGE_SIZE ==>
        MIN_LARGE_SIZE <= old(bins.content)[p] <= old(bins.content)[a]
    {
      hide Sound, Parted, SmallOk, TreesOk, SameLive;
      var v, rsize := bins.SmallestLarge(nb);
      p := v.ring[0];
      bins.UnlinkChunk(p, v.size);
      CutToDv(p, v.size, nb, old(bins.content));
    }

    /**
     tmalloc_large: take the best fitting tree chunk unless dv fits at least as well. The test on
     dvsize - nb is an unsigned comparison, so a dv smaller than nb never wins.
     */
    method TmallocLarge(nb: int) returns (p: int)
      requires Valid() && nb % 8 == 0 && MIN_LARGE_SIZE <= nb < TWO_64
      modifies this`mem, this`chunks, this`inuse, bins
      ensures Valid()
      ensures p != 0 ==> Granted(p, nb)
      ensures p == 0 ==> unchanged(this) && unchanged(bins)
      ensures p == 0 && dvsize < nb ==> forall a :: a in bins.content ==> bins.content[a] < nb
      ensures p == 0 && dvsize >= nb ==>
        forall a :: a in bins.content && bins.content[a] >= nb ==> dvsize <= bins.content[a]
      ensures p != 0 ==> p in old(bins.content) && nb <= old(bins.content)[p]
      ensures p != 0 && dvsize >= nb ==> old(bins.content)[p] < dvsize
      ensures p != 0 ==> forall a :: a in old(bins.content) && old(bins.content)[a] >= nb ==>
        old(bins.content)[p] <= old(bins.content)[a]
    {
      hide Sound, Parted, SmallOk, TreesOk, SameLive, OnlyChunkIn;
      var v, rsize := bins.BestLarge(nb);
      ghost var content := bins.content;
      Lookup(mem, chunks, segs, top, topsize, content, dv, dvsize, if v.Node? then v.ring[0] else 0);
      if v.Nil? || rsize >= WrapSub(dvsize, nb) { return 0; }
      p := v.ring[0];
      var s := v.size;
      bins.UnlinkChunk(p, s);
      CutToBin(p, s, nb, rsize, content);
    }

    /** Cut nb bytes off the unlinked chunk p of s bytes; a usable remainder goes into its bin. */
    method CutToBin(p: int, s: int, nb: int, rsize: int, ghost content: map<int, int>)
      requires Core() && bins.Valid() && SizesOk(content) && Parted(chunks, content, dv, dvsize, top)
      requires Accounted(chunks, segs, own, inuse, inuse)
      requires p in content && content[p] == s && bins.content == content - {p}
      requires nb % 8 == 0 && MIN_CHUNK_SIZE <= nb <= s && rsize == s - nb
      modifies this`mem, this`chunks, this`inuse, bins
      ensures Valid() && Granted(p, nb)
      ensures bins.content == if rsize < MIN_CHUNK_SIZE then content - {p} else (content - {p})[p + nb := rsize]
    {
      hide Sound, Parted, SmallOk, TreesOk, SameLive, OnlyChunkIn, Inuse, LiveOk;
      Lookup(mem, chunks, segs, top, topsize, content, dv, dvsize, p);
      Unused(chunks, inuse, p);
      if rsize < MIN_CHUNK_SIZE {
        TakeWhole(p, s);
        PartWhole(old(chunks), chunks, content, dv, dvsize, top, p, p + s);
        InuseTaken(old(chunks), chunks, p, p + s, p + s, true);
      } else {
        NotAChunk(mem, chunks, segs, top, topsize, p, p + nb);
        PartFacts(chunks, content, dv, dvsize, top, p + nb);
        TakeFront(p, s, nb);
        PartFront(old(chunks), chunks, content, dv, dvsize, top, p, p + nb, p + s);
        InuseTaken(old(chunks), chunks, p, p + nb, p + s, false);
        bins.InsertChunk(p + nb, rsize);
      }
      InuseLive(chunks, inuse + {p});
      inuse := inuse + {p};
    }

    /** Allocate from the designated victim: split it, or use it up. */
    method TakeDv(nb: int) returns (p: int)
      requires Valid() && nb % 8 == 0 && MIN_CHUNK_SIZE <= nb <= dvsize
      modifies this`mem, this`chunks, this`inuse, this`dv, this`dvsize
      ensures Valid() && Granted(p, nb) && p == old(dv)
    {
      hide Sound, Parted, SmallOk, TreesOk, SameLive, OnlyChunkIn;
      var rsize := dvsize - nb;
      p := dv;
      Lookup(mem, chunks, segs, top, topsize, bins.content, dv, dvsize, p);
      if rsize >= MIN_CHUNK_SIZE {
        NotAChunk(mem, chunks, segs, top, topsize, p, p + nb);
        TakeFront(p, dvsize, nb);
        PartFront(old(chunks), chunks, bins.content, dv, dvsize, top, p, p + nb, p + dvsize);
        InuseTaken(old(chunks), chunks, p, p + nb, p + dvsize, false);
        dv, dvsize := p + nb, rsize;
      } else {
        TakeWhole(p, dvsize);
        PartWhole(old(chunks), chunks, bins.content, dv, dvsize, top, p, p + dvsize);
        InuseTaken(old(chunks), chunks, p, p + dvsize, p + dvsize, true);
        dv, dvsize := 0, 0;
      }
      inuse := inuse + {p};
    }

    method MallocTop(nb: int) returns (p: int)
      requires Valid() && nb % 8 == 0 && MIN_CHUNK_SIZE <= nb < topsize
      modifies this`mem, this`chunks, this`inuse, this`top, this`topsize
      ensures Valid() && Granted(p, nb) && p == old(top)
    {
      hide Sound, Parted, SmallOk, TreesOk, SameLive, OnlyChunkIn;
      TopChunk(mem, chunks, segs, top, topsize);
      NotAChunk(mem, chunks, segs, top, topsize, top, top + nb);
      p := TakeTop(nb);
      PartFront(old(chunks), chunks, bins.content, dv, dvsize, p, p, p + nb, p + old(topsize));
      InuseTaken(old(chunks), chunks, p, p + nb, p + old(topsize), false);
      inuse := inuse + {p};
    }

    // -------------------------------------------------------------- free

    /** set_free_with_pinuse: one free chunk over the run [q, n); n learns that it follows a free chunk. */
    method SetFreeWithPinuse(q: int, n: int)
      requires Core() && CanRetile(chunks, q, n, n, false, false) && chunks[q].pinuse && !chunks[n].kind.Trailer?
      requires forall a :: a in inuse ==> a < q || n <= a
      modifies this`mem, this`chunks
      ensures Retiled(old(chunks), chunks, q, n, n, false, false)
      ensures Core() && SameLive(old(mem), mem, old(chunks), chunks, inuse)
    {
      hide Sound, Retiled, SameLive, LiveOk, Pack, SetPInuse, ChunkSize, ClearPInuse, PInuse, CInuse;
      ReadHead(mem, chunks, segs, top, topsize, n);
      mem := mem[n + 8 := ClearPInuse(Rd(mem, n + 8))];
      mem := mem[q + 8 := Pack(n - q, true, false)];
      mem := mem[n := n - q];
      Commit(old(mem), q, n, n, false, false);
    }

    /** set_size_and_pinuse_of_free_chunk: as above when n already follows a free chunk. */
    method SetFree(q: int, n: int)
      requires Core() && CanRetile(chunks, q, n, n, false, false) && chunks[q].pinuse
      requires !chunks[n].kind.Trailer? && !chunks[n].pinuse
      requires forall a :: a in inuse ==> a < q || n <= a
      modifies this`mem, this`chunks
      ensures Retiled(old(chunks), chunks, q, n, n, false, false)
      ensures Core() && SameLive(old(mem), mem, old(chunks), chunks, inuse)
    {
      hide Sound, Retiled, SameLive, LiveOk, Pack, SetPInuse, ChunkSize, ClearPInuse, PInuse, CInuse;
      ReadHead(mem, chunks, segs, top, topsize, n);
      mem := mem[q + 8 := Pack(n - q, true, false)];
      mem := mem[n := n - q];
      Commit(old(mem), q, n, n, false, false);
    }

    /** The run [q, n) up to the trailer becomes the new top. */
    method MergeTop(q: int)
      requires Core() && CanRetile(chunks, q, top + topsize, top + topsize, false, false) && chunks[q].pinuse
      requires forall a :: a in inuse ==> a < q || top + topsize <= a
      modifies this`mem, this`chunks, this`top, this`topsize
      ensures Retiled(old(chunks), chunks, q, old(top + topsize), old(top + topsize), false, false)
      ensures top == q && topsize == old(top + topsize) - q
      ensures Core() && SameLive(old(mem), mem, old(chunks), chunks, inuse)
    {
      hide Sound, Retiled, SameLive, LiveOk, Pack, SetPInuse, ChunkSize, ClearPInuse, PInuse, CInuse;
      var n := top + topsize;
      TopChunk(mem, chunks, segs, top, topsize);
      ReadHead(mem, chunks, segs, top, topsize, n);
      mem := mem[q + 8 := Pack(n - q, true, false)];
      Commit(old(mem), q, n, n, false, false);
      top, topsize := q, n - q;
    }

    /**
     The second half of free: [p, next) is the chunk being freed together with a free predecessor,
     which has left its bin. Merge with what follows and file the result.
     */
    method FreeForward(p: int, psize: int, next: int, ghost p0: int, ghost n: int, ghost content: map<int, int>)
      requires Core() && bins.Valid() && SizesOk(content) && Parted(chunks, content, dv, dvsize, top)
      requires bins.content == content - {p} && psize == next - p
      requires FreeReady(chunks, content, dv, dvsize, top, inuse, p, p0, next, n)
      requires Accounted(chunks, segs, own, inuse, inuse + {p0})
      modifies this`mem, this`chunks, this`top, this`topsize, this`dv, this`dvsize, bins
      ensures Valid()
      ensures SameLive(old(mem), mem, old(chunks), chunks, inuse)
    {
      hide Sound, Parted, SmallOk, TreesOk, Pack, SetPInuse, ChunkSize, ClearPInuse, PInuse, CInuse, Retiled, SameLive;
      hide OnlyChunkIn, CanRetile, LiveOk, Outside, Inuse;
      RunRoles(mem, chunks, segs, top, topsize, content, dv, dvsize, p, p0, next, n);
      if !CInuse(Rd(mem, next + 8)) {  // consolidate forward
        if next == top {
          MergeTop(p);
          PartMerge(old(chunks), chunks, content, dv, dvsize, next, p, n, n, false);
          InuseFreed(old(chunks), chunks, inuse, p, p0, n);
          if p == dv { dv, dvsize := 0, 0; }
        } else if next == dv {
          SetFree(p, p + (dvsize + psize));
          PartMerge(old(chunks), chunks, content, dv, dvsize, top, p, n, n, false);
          InuseFreed(old(chunks), chunks, inuse, p, p0, n);
          dvsize := dvsize + psize;
          dv := p;
        } else {
          var nsize := ChunkSize(Rd(mem, next + 8));
          bins.UnlinkChunk(next, nsize);
          SetFree(p, p + (psize + nsize));
          PartMerge(old(chunks), chunks, content, dv, dvsize, top, p, n, n, false);
          InuseFreed(old(chunks), chunks, inuse, p, p0, n);
          FileFree(p, psize + nsize);
        }
      } else {
        SetFreeWithPinuse(p, next);
        PartMerge(old(chunks), chunks, content, dv, dvsize, top, p, n, n, false);
        InuseFreed(old(chunks), chunks, inuse, p, p0, n);
        FileFree(p, psize);
      }
    }

    /** The merged chunk stays the designated victim, or goes into a bin. */
    method FileFree(p: int, s: int)
      requires bins.Valid() && p !in bins.content && MIN_CHUNK_SIZE <= s < MMAP_REGION_END && s % 8 == 0
      modifies this`dvsize, bins
      ensures bins.Valid()
      ensures p == dv ==> dvsize == s && bins.content == old(bins.content)
      ensures p != dv ==> dvsize == old(dvsize) && bins.content == old(bins.content)[p := s]
    {
      if p == dv { dvsize := s; } else { bins.InsertChunk(p, s); }
    }

    /** The freed chunk follows dv and precedes a chunk in use: dv grows over it. */
    method FreeIntoDv(psize: int, next: int, ghost p0: int)
      requires Core() && bins.Valid() && Parted(chunks, bins.content, dv, dvsize, top) && dvsize > 0
      requires FreeReady(chunks, bins.content, dv, dvsize, top, inuse, dv, p0, next, next) && psize == next - dv
      requires Accounted(chunks, segs, own, inuse, inuse + {p0})
      modifies this`mem, this`chunks, this`dvsize
      ensures Valid() && SameLive(old(mem), mem, old(chunks), chunks, inuse)
    {
      hide Sound, Parted, SmallOk, TreesOk, Retiled, SameLive, OnlyChunkIn, LiveOk, CanRetile, Outside, Inuse;
      ghost var content := bins.content;
      RunRoles(mem, chunks, segs, top, topsize, content, dv, dvsize, dv, p0, next, next);
      PartFacts(chunks, content, dv, dvsize, top, dv);
      assert content - {dv} == content;
      SetFreeWithPinuse(dv, next);
      PartMerge(old(chunks), chunks, content, dv, dvsize, top, dv, next, next, false);
      InuseFreed(old(chunks), chunks, inuse, dv, p0, next);
      dvsize := psize;
    }

    /** lj_alloc_free on an ordinary chunk. Trimming top is not part of this model. */
    method Free(ptr: int)
      requires Valid() && (ptr != 0 ==> ptr - TWO_SIZE_T_SIZES in Live())
      modifies this`mem, this`chunks, this`inuse, this`top, this`topsize, this`dv, this`dvsize, bins
      ensures Valid()
      ensures inuse == if ptr == 0 then old(inuse) else old(inuse) - {ptr - TWO_SIZE_T_SIZES}
      ensures SameLive(old(mem), mem, old(chunks), chunks, inuse)
    {
      hide Sound, Parted, SmallOk, TreesOk, Pack, SetPInuse, ChunkSize, ClearPInuse, PInuse, CInuse, Retiled, SameLive;
      hide FreeReady, LiveOk, Inuse;
      if ptr == 0 {
        SameLiveRefl(mem, chunks, inuse);
        return;
      }
      var p0 := ptr - TWO_SIZE_T_SIZES;
      ghost var content := bins.content;
      ghost var q, n := FreeStart(mem, chunks, segs, top, topsize, content, dv, dvsize, inuse, p0);
      inuse := inuse - {p0};
      assert inuse + {p0} == old(inuse);
      var p, psize := p0, ChunkSize(Rd(mem, p0 + 8));
      var next := p + psize;
      if !PInuse(Rd(mem, p + 8)) {
        var prevsize := Rd(mem, p);
        psize := psize + prevsize;
        p := p - prevsize;
        if p != dv {  // consolidate backward
          bins.UnlinkChunk(p, prevsize);
        } else if PInuse(Rd(mem, next + 8)) && CInuse(Rd(mem, next + 8)) {
          FreeIntoDv(psize, next, p0);
          return;
        }
      }
      assert bins.content == content - {p};
      FreeForward(p, psize, next, p0, n, content);
    }

    // -------------------------------------------------------------- growing the heap

    /** First segment that ends at x, or |segs|. */
    method SegmentEndingAt(x: int) returns (i: nat)
      ensures i <= |segs| && (i < |segs| ==> segs[i].base + segs[i].size == x)
      ensures forall j :: 0 <= j < i ==> segs[j].base + segs[j].size != x
    {
      i := 0;
      while i < |segs| && x != segs[i].base + segs[i].size
        invariant i <= |segs| && forall j :: 0 <= j < i ==> segs[j].base + segs[j].size != x
      {
        i := i + 1;
      }
    }

    /** First segment that starts at x, or |segs|. */
    method SegmentStartingAt(x: int) returns (i: nat)
      ensures i <= |segs| && (i < |segs| ==> segs[i].base == x)
      ensures forall j :: 0 <= j < i ==> segs[j].base != x
    {
      i := 0;
      while i < |segs| && segs[i].base != x
        invariant i <= |segs| && forall j :: 0 <= j < i ==> segs[j].base != x
      {
        i := i + 1;
      }
    }

    /** Append the region to the segment of top: top grows, the trailer moves. */
    method AppendRegion(i: nat, tsize: int)
      requires Valid() && i < |segs| && segs[i].base <= top < segs[i].base + segs[i].size
      requires FreshRegion(segs, segs[i].base + segs[i].size, tsize)
      modifies this`mem, this`chunks, this`topsize, this`segs
      ensures Valid() && topsize == old(topsize) + tsize && Grown() && |segs| == old(|segs|)
    {
      hide Sound, Parted, LiveOk, SameLive, SizesOk, SmallOk, TreesOk, PayloadKept, Pack, FreshRegion, Inuse;
      hide Appended, AppendTop;
      var t := top + topsize;
      TopChunk(mem, chunks, segs, top, topsize);
      mem := mem[top + 8 := Pack(topsize + tsize, true, false)];
      mem := mem[t + tsize + 8 := Pack(TOP_FOOT_SIZE, false, false)];
      AppendClear(old(mem), chunks, segs, top, topsize, i, tsize);
      ghost var c' := AppendTop(chunks, top, topsize, tsize);
      AppendSound(old(mem), mem, chunks, c', segs, top, topsize, i, tsize);
      AppendKeeps(old(mem), mem, chunks, c', bins.content, dv, dvsize, top, topsize, tsize, inuse);
      chunks := c';
      segs := segs[i := Segment(segs[i].base, segs[i].size + tsize)];
      topsize := topsize + tsize;
    }

    /**
     prepend_alloc: the region lies right before segment j. Its front serves the request, the rest
     joins the first chunk of the segment if that is free.
     */
    method PrependAlloc(j: nat, tbase: int, tsize: int, nb: int) returns (p: int)
      requires Valid() && j < |segs| && segs[j].base == tbase + tsize && FreshRegion(segs, tbase, tsize)
      requires nb % 8 == 0 && MIN_CHUNK_SIZE <= nb <= tsize - MIN_CHUNK_SIZE
      modifies this, bins
      ensures Valid() && Granted(p, nb) && p == tbase > 0 && |segs| == old(|segs|)
    {
      hide Sound, Parted, SmallOk, TreesOk, LiveOk, SameLive, Pack, PayloadKept, FreshRegion;
      var first := segs[j].base;
      FrontSound(mem, chunks, segs, top, topsize, j, tbase, tsize);
      FrontKeeps(mem, chunks, bins.content, dv, dvsize, top, tbase, tsize, inuse);
      segs := segs[j := Segment(tbase, segs[j].size + tsize)];
      ghost var mem0 := mem[tbase + 8 := Pack(tsize, true, true)];
      chunks := chunks[tbase := Chunk(tsize, true, true, Normal)];
      ghost var c0 := chunks;
      p := tbase;
      CarveFront(p, first, nb, mem0);
      SameLiveTrans(old(mem), mem0, mem, old(chunks), c0, chunks, old(inuse));
    }

    /** The tags of prepend_alloc: [p, q) in use and [q, n) free; a foot unless [q, n) becomes top. */
    method FrontTags(p: int, q: int, n: int, newTop: bool, clear: bool, ghost mem0: Words)
      requires Sound(mem0, chunks, segs, top, topsize) && LiveOk(chunks, inuse)
      requires CanRetile(chunks, p, q, n, true, false) && q < n && chunks[p].pinuse
      requires mem0 == mem[p + 8 := Rd(mem0, p + 8)]
      requires newTop <==> chunks[n].kind.Trailer?
      requires !clear ==> !chunks[n].pinuse
      requires forall a :: a in inuse ==> a < p || n <= a
      modifies this`mem, this`chunks, this`top, this`topsize
      ensures Retiled(old(chunks), chunks, p, q, n, true, false)
      ensures if newTop then top == q && topsize == n - q else top == old(top) && topsize == old(topsize)
      ensures Core() && SameLive(mem0, mem, old(chunks), chunks, inuse)
    {
      hide Sound, Retiled, SameLive, LiveOk, Pack, SetPInuse, ChunkSize, ClearPInuse, PInuse, CInuse;
      ReadHead(mem0, chunks, segs, top, topsize, n);
      if newTop { TrailerIsLast(mem0, chunks, segs, top, topsize, n); TopChunk(mem0, chunks, segs, top, topsize); }
      FrontWords(p, q, n, newTop, clear, mem0);
      Commit(mem0, p, q, n, true, false);
      if newTop { top, topsize := q, n - q; }
    }

    /** Heads and foot around a block carved from the front. */
    method FrontWords(p: int, q: int, n: int, newTop: bool, clear: bool, ghost mem0: Words)
      requires CanRetile(chunks, p, q, n, true, false) && q < n && chunks[p].pinuse
      requires mem0 == mem[p + 8 := Rd(mem0, p + 8)]
      requires Rd(mem0, n + 8) == Pack(chunks[n].size, chunks[n].pinuse, chunks[n].cinuse)
      requires ClearPInuse(Rd(mem0, n + 8)) == Pack(chunks[n].size, false, chunks[n].cinuse)
      requires (newTop <==> chunks[n].kind.Trailer?) && (newTop || !clear ==> !chunks[n].pinuse)
      modifies this`mem
      ensures TagsWritten(mem0, mem, chunks, p, q, n, true, false)
    {
      hide Pack, ClearPInuse, Disjoint;
      mem := mem[p + 8 := Pack(q - p, true, true)];
      if clear && !newTop { mem := mem[n + 8 := ClearPInuse(Rd(mem, n + 8))]; }
      mem := mem[q + 8 := Pack(n - q, true, false)];
      if !newTop { mem := mem[n := n - q]; }
    }

    /** The body of prepend_alloc, on the region taken as one chunk [p, first) not yet in anybody's hands. */
    method CarveFront(p: int, first: int, nb: int, ghost mem0: Words)
      requires Sound(mem0, chunks, segs, top, topsize) && LiveOk(chunks, inuse) && p !in inuse
      requires mem0 == mem[p + 8 := Pack(first - p, true, true)]
      requires bins.Valid() && Parted(chunks, bins.content, dv, dvsize, top)
      requires p in chunks && first in chunks && chunks[p] == Chunk(first - p, true, true, Normal)
      requires chunks[first].pinuse
      requires nb % 8 == 0 && MIN_CHUNK_SIZE <= nb <= first - p - MIN_CHUNK_SIZE
      requires Accounted(chunks, segs, own, inuse, inuse + {p})
      modifies this`mem, this`chunks, this`inuse, this`top, this`topsize, this`dv, this`dvsize, bins
      ensures Valid() && inuse == old(inuse) + {p} && p > 0 && p % 8 == 0
      ensures p in chunks && chunks[p].size == nb && SameLive(mem0, mem, old(chunks), chunks, old(inuse))
    {
      hide Sound, Parted, SmallOk, TreesOk, SameLive, Pack, PInuse, CInuse, ChunkSize, SetPInuse, ClearPInuse,
          OnlyChunkIn;
      hide Outside, CanRetile, Retiled, LiveOk, FreeAt, Inuse;
      var q, qsize := p + nb, first - p - nb;
      ghost var content := bins.content;
      ghost var n := FrontStart(mem, mem0, chunks, segs, top, topsize, content, dv, dvsize, inuse, p, q, first);
      if first == top {
        FrontTags(p, q, q + (topsize + qsize), true, false, mem0);
        PartMerge(old(chunks), chunks, content, dv, dvsize, first, p, q, n, true);
      } else if first == dv {
        var dsize := dvsize + qsize;
        FrontTags(p, q, q + dsize, false, false, mem0);
        PartMerge(old(chunks), chunks, content, dv, dvsize, top, p, q, n, true);
        dv, dvsize := q, dsize;
      } else {
        if !CInuse(Rd(mem, first + 8)) {
          var nsize := ChunkSize(Rd(mem, first + 8));
          bins.UnlinkChunk(first, nsize);
          qsize := qsize + nsize;
        }
        FrontTags(p, q, q + qsize, false, true, mem0);
        PartMerge(old(chunks), chunks, content, dv, dvsize, top, p, q, n, true);
        bins.InsertChunk(q, qsize);
      }
      FrontLive(old(chunks), chunks, inuse, p, q, n);
      InuseCarved(old(chunks), chunks, inuse, p, q, n);
      inuse := inuse + {p};
    }

    /** Fenceposts from p up to the end of the old segment. */
    method WriteFences(csp: int, end: int)
      requires Mult8(csp) && Mult8(end) && csp + 32 <= end - 16
      modifies this`mem
      ensures forall a :: IsFence(a, csp, end) ==> Rd(mem, a + 8) == Pack(SIZE_T_SIZE, true, true)
      ensures forall x :: x < csp + 40 || end <= x ==> Rd(mem, x) == Rd(old(mem), x)
    {
      assert Mult8(8) && Mult8(32);
      hide Pack, IsFence, Mult8;
      var p := csp + 32;
      Mult8Sums(csp, 32);
      FenceGap(csp, end, p);
      while true
        invariant csp + 32 <= p <= end - 16 && Mult8(p)
        invariant forall a :: IsFence(a, csp, end) && a < p ==> Rd(mem, a + 8) == Pack(SIZE_T_SIZE, true, true)
        invariant forall x :: x < csp + 40 || end <= x ==> Rd(mem, x) == Rd(old(mem), x)
        decreases end - p
      {
        FenceGap(csp, end, p);
        Mult8Sums(p, 8);
        Mult8Next(p, end);
        FenceGap(csp, end, p + 8);
        mem := mem[p + 8 := Pack(SIZE_T_SIZE, true, true)];
        if p + 16 < end { p := p + 8; } else { break; }
      }
    }

    /** The words of add_segment. */
    method WriteSegment(tbase: int, tsize: int)
      requires top % 8 == 0 && topsize % 8 == 0 && topsize >= 8 && tsize > TOP_FOOT_SIZE
      requires top + topsize + TOP_FOOT_SIZE <= tbase || tbase + tsize <= top
      requires Rd(mem, top + 8) == Pack(topsize, true, false)
      modifies this`mem
      ensures OpenedWords(old(mem), mem, top, topsize, tbase, tsize)
    {
      hide Pack;
      var end := top + topsize + TOP_FOOT_SIZE;
      var csp := RecordAt(top, topsize);
      WriteHeads(tbase, tsize, csp);
      WriteFences(csp, end);
      if csp != top { CloseTop(csp); }
    }

    /** Heads of the new top, its trailer and the segment record. */
    method WriteHeads(tbase: int, tsize: int, csp: int)
      requires tsize > TOP_FOOT_SIZE && (csp < tbase || tbase + tsize <= csp)
      modifies this`mem
      ensures Rd(mem, tbase + 8) == Pack(tsize - TOP_FOOT_SIZE, true, false) && Rd(mem, csp + 8) == Pack(32, true, true)
      ensures Rd(mem, tbase + tsize - TOP_FOOT_SIZE + 8) == Pack(TOP_FOOT_SIZE, false, false)
      ensures forall x :: x != tbase + 8 && x != tbase + tsize - TOP_FOOT_SIZE + 8 && x != csp + 8 ==>
          Rd(mem, x) == Rd(old(mem), x)
    {
      hide Pack;
      mem := mem[tbase + 8 := Pack(tsize - TOP_FOOT_SIZE, true, false)];
      mem := mem[tbase + tsize - TOP_FOOT_SIZE + 8 := Pack(TOP_FOOT_SIZE, false, false)];
      mem := mem[csp + 8 := Pack(32, true, true)];
    }

    /** The rest of the old top becomes a free chunk in front of the record. */
    method CloseTop(csp: int)
      requires Rd(mem, csp + 8) == Pack(32, true, true) && Rd(mem, top + 8) == Pack(topsize, true, false)
      requires top + 8 < csp
      modifies this`mem
      ensures Rd(mem, csp + 8) == Pack(32, false, true) && Rd(mem, csp) == topsize
      ensures forall x :: x != csp + 8 && x != csp ==> Rd(mem, x) == Rd(old(mem), x)
    {
      Unpack(32, true, true);
      hide Pack, ClearPInuse;
      mem := mem[csp + 8 := ClearPInuse(Rd(mem, csp + 8))];
      mem := mem[top + 8 := Pack(topsize, true, false)];
      mem := mem[csp := topsize];
    }

    /** What growing the heap promises: only records of the allocator itself come into use. */
    twostate predicate Grown()
      reads this
    {
      && Live() == old(Live()) && old(own) <= own && old(inuse) <= inuse
      && SameLive(old(mem), mem, old(chunks), chunks, old(inuse))
    }

    /** add_segment: close the old segment behind its record and fenceposts, open the new one as top. */
    method AddSegment(tbase: int, tsize: int, ghost i: nat)
      requires Valid() && FreshRegion(segs, tbase, tsize)
      requires i < |segs| && segs[i].base <= top < segs[i].base + segs[i].size
      modifies this`mem, this`chunks, this`segs, this`top, this`topsize, this`inuse, this`own, bins
      ensures Valid() && topsize == tsize - TOP_FOOT_SIZE && top == tbase
      ensures Grown() && |segs| == old(|segs|) + 1
    {
      hide Sound, Parted, LiveOk, SameLive, SizesOk, SmallOk, TreesOk, PayloadKept, Pack, FreshRegion, OpenedAs,
          Opened, OpenedWords;
      hide PInuse, CInuse, ChunkSize, SetPInuse, ClearPInuse, Inuse, RecordAt;
      hide Accounted;
      TopChunk(mem, chunks, segs, top, topsize);
      ReadHead(mem, chunks, segs, top, topsize, top);
      OpenPlace(mem, chunks, segs, top, topsize, tbase, tsize);
      WriteSegment(tbase, tsize);
      OpenDone(old(mem), mem, chunks, segs, bins.content, dv, dvsize, top, topsize, tbase, tsize, i, inuse);
      if RecordAt(top, topsize) != top { bins.InsertChunk(top, topsize); }
      AddRecord(tbase, tsize);
      top, topsize := tbase, tsize - TOP_FOOT_SIZE;
    }

    /** The new segment heads the list; the record of the old one is the allocator's own. */
    method AddRecord(tbase: int, tsize: int)
      requires Accounted(chunks, segs, own, inuse, inuse)
      requires var c', r := Opened(chunks, top, topsize, tbase, tsize), RecordAt(top, topsize);
        Inuse(c') == Inuse(chunks) + {r} && r !in Inuse(chunks)
      modifies this`chunks, this`segs, this`inuse, this`own
      ensures chunks == old(Opened(chunks, top, topsize, tbase, tsize)) && segs == [Segment(tbase, tsize)] + old(segs)
      ensures inuse - own == old(inuse - own) && old(own) <= own && inuse == old(inuse) + {old(RecordAt(top, topsize))}
      ensures Accounted(chunks, segs, own, inuse, inuse)
    {
      hide Inuse, Opened, RecordAt;
      RecordAdded(inuse, own, RecordAt(top, topsize));
      chunks := Opened(chunks, top, topsize, tbase, tsize);
      inuse, own := inuse + {RecordAt(top, topsize)}, own + {RecordAt(top, topsize)};
      segs := [Segment(tbase, tsize)] + segs;
    }

    /** The size mmap is asked for: room for nb, the top footer and one more byte, rounded up, modulo 2^64. */
    static function SysSize(nb: int): int {
      var req := (nb + TOP_FOOT_SIZE + 1) % TWO_64;
      (req + DEFAULT_GRANULARITY - 1) % TWO_64 / DEFAULT_GRANULARITY * DEFAULT_GRANULARITY
    }

    /**
     alloc_sys without direct mapping. grant is the answer of mmap for SysSize(nb) bytes; it fails
     only when mmap does, or when the size wraps around.
     */
    method AllocSys(nb: int, grant: Option<int>) returns (p: int)
      requires Valid() && 0 <= nb < TWO_64 && (SysSize(nb) > nb ==> nb % 8 == 0 && nb >= MIN_CHUNK_SIZE)
      requires grant.Some? && SysSize(nb) > nb ==> FreshRegion(segs, grant.value, SysSize(nb))
      modifies this, bins
      ensures Valid()
      ensures p != 0 <==> grant.Some? && SysSize(nb) > nb
      ensures p != 0 ==> Granted(p, nb)
      ensures p != 0 ==> FromSystem(old(segs), old(top), grant.value, SysSize(nb), p, |segs|)
      ensures p == 0 ==> unchanged(this) && unchanged(bins)
    {
      hide Sound, Parted, SizesOk, SmallOk, TreesOk, FreshRegion, SameLive, LiveOk, SysSize, Accounted, Live,
          JoinsTop, Precedes, PayloadKept;
      var tsize := SysSize(nb);
      SysSizeFits(nb);
      if tsize <= nb || grant.None? { return 0; }
      var tbase := grant.value;
      var i := SegmentEndingAt(tbase);
      OneEnd(mem, chunks, segs, top, topsize, tbase, i);
      if i < |segs| && segs[i].base <= top < segs[i].base + segs[i].size {
        p := AppendAlloc(i, tsize, nb);
      } else {
        var j := SegmentStartingAt(tbase + tsize);
        OneStart(segs, tbase + tsize, j);
        if j < |segs| {
          p := PrependAlloc(j, tbase, tsize, nb);
        } else {
          p := SegmentAlloc(tbase, tsize, nb);
        }
      }
    }

    /** Append the region, then serve the request from top. */
    method AppendAlloc(i: nat, tsize: int, nb: int) returns (p: int)
      requires Valid() && i < |segs| && segs[i].base <= top < segs[i].base + segs[i].size
      requires FreshRegion(segs, segs[i].base + segs[i].size, tsize)
      requires nb % 8 == 0 && MIN_CHUNK_SIZE <= nb < tsize - TOP_FOOT_SIZE
      modifies this`mem, this`chunks, this`inuse, this`top, this`topsize, this`segs
      ensures Valid() && Granted(p, nb) && p == old(top) > 0 && |segs| == old(|segs|)
    {
      hide Sound, Parted, SizesOk, SmallOk, TreesOk, FreshRegion, SameLive, LiveOk, Accounted, Live;
      TopChunk(mem, chunks, segs, top, topsize);
      AppendRegion(i, tsize);
      ghost var mem1, chunks1, inuse1 := mem, chunks, inuse;
      p := MallocTop(nb);
      SameLiveLess(mem1, mem, chunks1, chunks, inuse1, old(inuse));
      SameLiveTrans(old(mem), mem1, mem, old(chunks), chunks1, chunks, old(inuse));
    }

    /** Open a segment, then serve the request from the new top. */
    method SegmentAlloc(tbase: int, tsize: int, nb: int) returns (p: int)
      requires Valid() && FreshRegion(segs, tbase, tsize)
      requires nb % 8 == 0 && MIN_CHUNK_SIZE <= nb < tsize - TOP_FOOT_SIZE
      modifies this`mem, this`chunks, this`segs, this`top, this`topsize, this`inuse, this`own, bins
      ensures Valid() && Granted(p, nb) && p == tbase > 0 && |segs| == old(|segs|) + 1
    {
      hide Sound, Parted, SizesOk, SmallOk, TreesOk, FreshRegion, SameLive, LiveOk, Accounted, Live;
      ghost var k := SegmentOfTop(mem, chunks, segs, top, topsize);
      AddSegment(tbase, tsize, k);
      ghost var mem1, chunks1, inuse1 := mem, chunks, inuse;
      p := MallocTop(nb);
      SameLiveLess(mem1, mem, chunks1, chunks, inuse1, old(inuse));
      SameLiveTrans(old(mem), mem1, mem, old(chunks), chunks1, chunks, old(inuse));
    }

    /**
     Where the block of a request comes from. Free memory serves it if any chunk can, then no segment
     changes; else the system does, if it grants a region.
     */
    twostate predicate Served(nsize: nat, grant: Option<int>, r: int)
      reads this, bins
    {
      var nb := Request2Size(nsize);
      && (nsize < MAX_REQUEST && old(Room(bins.content, dvsize, topsize, nb)) ==> r != 0 && segs == old(segs))
      && (r != 0 ==>
            old(Chosen(bins.content, dv, dvsize, top, topsize, nb, nsize <= MAX_SMALL_REQUEST, r - TWO_SIZE_T_SIZES)))
      && (r != 0 && !old(Room(bins.content, dvsize, topsize, nb)) ==>
            grant.Some? && FromSystem(old(segs), old(top), grant.value, SysSize(nb), r - TWO_SIZE_T_SIZES, |segs|))
    }

    /**
     lj_alloc_malloc. The result is the payload address, 16 bytes into its chunk, or 0 when the
     request is too big or the system has no memory left.
     */
    method Malloc(nsize: nat, grant: Option<int>) returns (mem': int)
      requires Valid() && nsize < TWO_64
      requires grant.Some? && nsize < MAX_REQUEST ==> FreshRegion(segs, grant.value, SysSize(Request2Size(nsize)))
      modifies this, bins
      ensures Valid()
      ensures mem' == 0 ==> unchanged(this) && unchanged(bins)
      ensures mem' == 0 ==> nsize >= MAX_REQUEST || grant.None? || SysSize(Request2Size(nsize)) <= Request2Size(nsize)
      ensures mem' != 0 ==> nsize < MAX_REQUEST && Granted(mem' - TWO_SIZE_T_SIZES, Request2Size(nsize))
      ensures Served(nsize, grant, mem')
    {
      hide Sound, Parted, SmallOk, TreesOk, FreshRegion, SameLive, LiveOk, OnlyChunkIn, IsZero, Accounted;
      HugeWraps();
      hide SysSize, BestFit, BinsServe, Fits, FromSystem;
      Lookup(mem, chunks, segs, top, topsize, bins.content, dv, dvsize, 0);
      TopChunk(mem, chunks, segs, top, topsize);
      var nb := MAX_SIZE_T;  // too big to allocate, unless the request says otherwise
      var p := 0;
      if nsize <= MAX_SMALL_REQUEST {
        nb := Request2Size(nsize);
        p := SmallFromBins(nb);
      } else if nsize < MAX_REQUEST {
        nb := PadRequest(nsize);
        p := LargeFromBins(nb);
      }
      if p != 0 { RoomInBins(old(bins.content), old(dvsize), old(topsize), nb, p); }
      if p == 0 {
        if nb <= dvsize { p := TakeDv(nb); }
        else if nb < topsize { p := MallocTop(nb); }
        else { p := AllocSys(nb, grant); }
      }
      mem' := if p == 0 then 0 else p + TWO_SIZE_T_SIZES;
    }

    /** The part of malloc that serves a small request from the bins, or finds that it should not. */
    method SmallFromBins(nb: int) returns (p: int)
      requires Valid() && nb % 8 == 0 && MIN_CHUNK_SIZE <= nb < MIN_LARGE_SIZE
      modifies this`mem, this`chunks, this`inuse, this`dv, this`dvsize, bins
      ensures Valid()
      ensures p == 0 ==> unchanged(this) && unchanged(bins) && !BinsServe(bins.content, dvsize, nb, true)
      ensures p == 0 && dvsize < nb ==> forall a :: !Fits(bins.content, nb, a)
      ensures p != 0 ==> Granted(p, nb)
      ensures p != 0 ==> old(BinsServe(bins.content, dvsize, nb, true) && BestFit(bins.content, nb, p))
    {
      hide Sound, Parted, SmallOk, TreesOk, SameLive, LiveOk, OnlyChunkIn, IsZero, LeftBits, LowestSet, Accounted;
      hide Exact, Fits, BestFit, BinsServe;
      bins.Shape();
      bins.MapsTell(nb);
      ghost var content, dvsize0 := bins.content, dvsize;
      var idx := nb / 8;
      var smallbits := ShiftDown(bins.smallmap, idx);
      if smallbits[0] || smallbits[1] {
        idx := if smallbits[0] then idx else idx + 1;
        p := TakeSmall(idx);
        ExactServes(content, dvsize0, nb, p);
      } else if nb > dvsize {
        NextSmallBin(bins.smallmap, idx);
        if !IsZero(smallbits) {
          var leftbits := And(ShiftUp(smallbits, idx), LeftBits(Idx2Bit(idx)));
          p := SplitSmall(Ffs(leftbits), nb);
          NextServes(content, dvsize0, nb, p);
        } else if !IsZero(bins.treemap) {
          p := TmallocSmall(nb);
          NextServes(content, dvsize0, nb, p);
        } else {
          p := 0;
          bins.TreesTell();
          NothingServes(content, dvsize0, nb);
        }
      } else {
        p := 0;
        DvServes(content, dvsize0, nb);
      }
    }

    /** The same for a large request. */
    method LargeFromBins(nb: int) returns (p: int)
      requires Valid() && nb % 8 == 0 && MIN_LARGE_SIZE <= nb < TWO_64
      modifies this`mem, this`chunks, this`inuse, bins
      ensures Valid()
      ensures p == 0 ==> unchanged(this) && unchanged(bins) && !BinsServe(bins.content, dvsize, nb, false)
      ensures p == 0 && dvsize < nb ==> forall a :: !Fits(bins.content, nb, a)
      ensures p != 0 ==> Granted(p, nb)
      ensures p != 0 ==> old(BinsServe(bins.content, dvsize, nb, false) && BestFit(bins.content, nb, p))
    {
      hide Sound, Parted, SmallOk, TreesOk, SameLive, LiveOk, OnlyChunkIn, IsZero, Accounted, Fits, BestFit, BinsServe;
      ghost var content := bins.content;
      p := 0;
      if !IsZero(bins.treemap) { p := TmallocLarge(nb); } else { bins.TreesTell(); }
      LargeServes(content, dvsize, nb, p);
    }

    // -------------------------------------------------------------- realloc

    /** A store by the owner of a live chunk, anywhere in its payload, disturbs nothing. */
    method Store(c: int, x: int, v: int)
      requires Core() && c in inuse && c + 16 <= x <= c + chunks[c].size
      modifies this`mem
      ensures Core() && mem == old(mem)[x := v]
      ensures SameLive(old(mem), mem, chunks, chunks, inuse - {c})
    {
      PayloadStore(mem, chunks, segs, top, topsize, inuse, c, x, v);
      mem := mem[x := v];
    }

    /** memcpy by words between two live chunks. */
    method CopyPayload(src: int, dst: int, len: int)
      requires Core() && src in inuse && dst in inuse && src != dst
      requires len <= chunks[src].size - 8 && len <= chunks[dst].size - 8
      modifies this`mem
      ensures Core() && PrefixKept(old(mem), mem, src, dst, len)
      ensures SameLive(old(mem), mem, chunks, chunks, inuse - {dst})
    {
      hide Sound, LiveOk, SameLive, PayloadKept;
      LiveSizes(mem, chunks, segs, top, topsize, inuse, src, dst);
      SameLiveRefl(mem, chunks, inuse - {dst});
      var k := 0;
      while k < len
        invariant 0 <= k && k % 8 == 0 && Core()
        invariant PrefixKept(old(mem), mem, src, dst, if k < len then k else len)
        invariant SameLive(old(mem), mem, chunks, chunks, inuse - {dst})
      {
        LiveWord(old(mem), mem, chunks, inuse - {dst}, src, src + 16 + k);
        ghost var m1 := mem;
        Store(dst, dst + 16 + k, Rd(mem, src + 16 + k));
        SameLiveTrans(old(mem), m1, mem, chunks, chunks, chunks, inuse - {dst});
        k := k + 8;
      }
    }

    /** set_inuse on both parts: the chunk oldp is split into two chunks in use. */
    method SplitInuse(oldp: int, nb: int, oldsize: int)
      requires Core() && oldp in inuse && chunks[oldp].size == oldsize
      requires nb % 8 == 0 && MIN_CHUNK_SIZE <= nb <= oldsize - MIN_CHUNK_SIZE
      modifies this`mem, this`chunks, this`inuse
      ensures Core() && Retiled(old(chunks), chunks, oldp, oldp + nb, oldp + oldsize, true, true)
      ensures inuse == old(inuse) + {oldp + nb} && oldp + nb !in old(inuse)
      ensures SameLive(old(mem), mem, old(chunks), chunks, old(inuse) - {oldp}) && PayloadKept(old(mem), mem, oldp, nb)
    {
      hide Sound, SameLive, Retiled, Pack, PInuse, CInuse, ChunkSize, SetPInuse, ClearPInuse, LiveOk, CanRetile,
          TagsWritten;
      hide PayloadKept;
      var rem, n := oldp + nb, oldp + oldsize;
      CanSplit(mem, chunks, segs, top, topsize, inuse, oldp, nb);
      mem := mem[oldp + 8 := Pack(nb, PInuse(Rd(mem, oldp + 8)), true)];
      SetThenRead(Rd(mem, rem + 8));
      mem := mem[rem + 8 := SetPInuse(Rd(mem, rem + 8))];
      mem := mem[rem + 8 := Pack(oldsize - nb, PInuse(Rd(mem, rem + 8)), true)];
      mem := mem[n + 8 := SetPInuse(Rd(mem, n + 8))];
      SplitWords(old(mem), mem, chunks, oldp, rem, n);
      inuse := inuse - {oldp};
      Commit(old(mem), oldp, rem, n, true, true);
      SplitLive(old(chunks), chunks, inuse, oldp, rem, n, true);
      inuse := inuse + {oldp} + {rem};
    }

    /** Expand into top: the chunk takes over the front of top. */
    method GrowIntoTop(oldp: int, nb: int)
      requires Core() && oldp in inuse && oldp + chunks[oldp].size == top
      requires nb % 8 == 0 && chunks[oldp].size < nb < chunks[oldp].size + topsize
      modifies this`mem, this`chunks, this`inuse, this`top, this`topsize
      ensures inuse == old(inuse)
      ensures Core() && Retiled(old(chunks), chunks, oldp, oldp + nb, old(top + topsize), true, false)
      ensures top == oldp + nb && topsize == old(top + topsize) - top
      ensures SameLive(old(mem), mem, old(chunks), chunks, inuse - {oldp})
      ensures PayloadKept(old(mem), mem, oldp, old(chunks)[oldp].size)
    {
      hide Sound, SameLive, Retiled, Pack, PInuse, CInuse, ChunkSize, SetPInuse, ClearPInuse, LiveOk, CanRetile,
          TagsWritten;
      hide PayloadKept;
      var n, newTop := top + topsize, oldp + nb;
      var newSize := n - newTop;
      CanGrow(mem, chunks, segs, top, topsize, inuse, oldp, nb);
      mem := mem[oldp + 8 := Pack(nb, PInuse(Rd(mem, oldp + 8)), true)];
      mem := mem[newTop + 8 := SetPInuse(Rd(mem, newTop + 8))];
      mem := mem[newTop + 8 := Pack(newSize, true, false)];
      GrowWords(old(mem), mem, chunks, oldp, newTop, n);
      inuse := inuse - {oldp};
      Commit(old(mem), oldp, newTop, n, true, false);
      SplitLive(old(chunks), chunks, inuse, oldp, newTop, n, false);
      inuse := inuse + {oldp};
      assert inuse == old(inuse);
      top, topsize := newTop, newSize;
    }

    /** What a reallocation of chunk c to nsize bytes promises when it returns chunk c'. */
    twostate predicate Moved(c: int, c': int, nsize: int)
      reads this
      requires nsize >= 0
    {
      && c in old(chunks) && (c' == c || c' !in old(inuse)) && Live() == old(Live()) - {c} + {c'} && old(own) <= own
      && c' in chunks && c' > 0 && c' % 8 == 0 && Request2Size(nsize) <= chunks[c'].size < Request2Size(nsize) +
          MIN_CHUNK_SIZE
      && PrefixKept(old(mem), mem, c, c', Min(old(chunks)[c].size - CHUNK_OVERHEAD, nsize))
      && SameLive(old(mem), mem, old(chunks), chunks, old(inuse) - {c})
    }

    /**
     A block stays where it is exactly if it is big enough or top behind it makes it so; then no segment
     changes, and a block that grows gets exactly what it needs. Any other is served like a new request.
     */
    twostate predicate StaysOrMoves(c: int, nsize: nat, grant: Option<int>, r: int)
      reads this, bins
    {
      var nb := Request2Size(nsize);
      if nsize < MAX_REQUEST && old(InPlace(chunks, top, topsize, c, nb)) then
        && r == c + TWO_SIZE_T_SIZES && segs == old(segs) && c in chunks
        && (old(chunks)[c].size < nb ==> chunks[c].size == nb)
      else r != c + TWO_SIZE_T_SIZES && (nsize < MAX_REQUEST ==> Served(nsize, grant, r))
    }

    /** Shrink in place: split off and free what is big enough to be a chunk. */
    method Shrink(oldp: int, nsize: nat)
      requires Valid() && oldp in Live() && chunks[oldp].size >= Request2Size(nsize)
      modifies this, bins
      ensures Valid() && Moved(oldp, oldp, nsize) && segs == old(segs)
    {
      hide Sound, Parted, SmallOk, TreesOk, SameLive, LiveOk, PayloadKept, Retiled;
      var nb := Request2Size(nsize);
      LiveSizes(mem, chunks, segs, top, topsize, inuse, oldp, oldp);
      ReadHead(mem, chunks, segs, top, topsize, oldp);
      var oldsize := ChunkSize(Rd(mem, oldp + 8));
      if oldsize - nb >= MIN_CHUNK_SIZE {
        LiveInuse(chunks, inuse, oldp);
        NotAChunk(mem, chunks, segs, top, topsize, oldp, oldp + nb);
        SplitInuse(oldp, nb, oldsize);
        ghost var m1, c1 := mem, chunks;
        PartSame(old(chunks), chunks, bins.content, dv, dvsize, top, oldp, oldp + nb, oldp + oldsize);
        InuseSplit(old(chunks), chunks, oldp, oldp + nb, oldp + oldsize);
        Free(oldp + nb + TWO_SIZE_T_SIZES);
        assert inuse == old(inuse);
        ShrinkKeeps(old(mem), m1, mem, old(chunks), c1, chunks, inuse, oldp, oldp + nb, oldp + oldsize);
        LivePrefix(old(mem), mem, oldp, nb, Min(oldsize - CHUNK_OVERHEAD, nsize));
      } else {
        SameLiveRefl(mem, chunks, inuse - {oldp});
      }
      assert inuse - {oldp} + {oldp} == inuse;
    }

    /**
     lj_alloc_realloc on an ordinary chunk: shrink in place, grow into top, or move. On failure the
     old block is untouched.
     */
    method Realloc(ptr: int, nsize: nat, grant: Option<int>) returns (r: int)
      requires Valid() && ptr - TWO_SIZE_T_SIZES in Live() && nsize < TWO_64
      requires grant.Some? && nsize < MAX_REQUEST ==> FreshRegion(segs, grant.value, SysSize(Request2Size(nsize)))
      modifies this, bins
      ensures Valid()
      ensures r == 0 ==> unchanged(this) && unchanged(bins)
      ensures r == 0 ==> nsize >= MAX_REQUEST || grant.None? || SysSize(Request2Size(nsize)) <= Request2Size(nsize)
      ensures r != 0 ==> nsize < MAX_REQUEST && Moved(ptr - TWO_SIZE_T_SIZES, r - TWO_SIZE_T_SIZES, nsize)
      ensures StaysOrMoves(ptr - TWO_SIZE_T_SIZES, nsize, grant, r)
    {
      hide Sound, Parted, SmallOk, TreesOk, SameLive, LiveOk, PayloadKept, Retiled, PrefixKept, FreshRegion, SysSize,
          Outside, Served;
      var oldp := ptr - TWO_SIZE_T_SIZES;
      LiveSizes(mem, chunks, segs, top, topsize, inuse, oldp, oldp);
      ReadHead(mem, chunks, segs, top, topsize, oldp);
      LiveInuse(chunks, inuse, oldp);
      if nsize >= MAX_REQUEST { return 0; }
      var oldsize := ChunkSize(Rd(mem, oldp + 8));
      var next := oldp + oldsize;
      var nb := Request2Size(nsize);
      if oldsize >= nb {
        Shrink(oldp, nsize);
        r := ptr;
      } else if next == top && oldsize + topsize > nb {
        r := GrowInPlace(oldp, nsize);
      } else {
        r := MoveBlock(oldp, oldsize, nsize, grant);
      }
    }

    method GrowInPlace(oldp: int, nsize: nat) returns (r: int)
      requires Valid() && oldp in Live() && oldp + chunks[oldp].size == top
      requires chunks[oldp].size < Request2Size(nsize) < chunks[oldp].size + topsize
      modifies this, bins
      ensures Valid() && r == oldp + TWO_SIZE_T_SIZES && Moved(oldp, oldp, nsize)
      ensures chunks[oldp].size == Request2Size(nsize) && segs == old(segs)
    {
      hide Sound, Parted, SmallOk, TreesOk, SameLive, LiveOk, PayloadKept, Retiled, PrefixKept, Outside;
      LiveSizes(mem, chunks, segs, top, topsize, inuse, oldp, oldp);
      ReadHead(mem, chunks, segs, top, topsize, oldp);
      LiveInuse(chunks, inuse, oldp);
      ghost var content, n, oldsize := bins.content, top + topsize, chunks[oldp].size;
      GrowRun(mem, chunks, segs, top, topsize, content, dv, dvsize, oldp);
      GrowIntoTop(oldp, Request2Size(nsize));
      PartMerge(old(chunks), chunks, content, dv, dvsize, old(top), oldp, top, n, true);
      RetiledFront(old(chunks), chunks, oldp, top, n, false);
      InuseGrown(old(chunks), chunks, oldp, top, n, old(top));
      LivePrefix(old(mem), mem, oldp, oldsize, Min(oldsize - CHUNK_OVERHEAD, nsize));
      assert inuse - {oldp} + {oldp} == inuse;
      r := oldp + TWO_SIZE_T_SIZES;
    }

    /** malloc, copy, free. */
    method MoveBlock(oldp: int, oldsize: int, nsize: nat, grant: Option<int>) returns (r: int)
      requires Valid() && oldp in Live() && oldp in chunks && oldsize == chunks[oldp].size && oldsize >= CHUNK_OVERHEAD
      requires nsize < MAX_REQUEST
      requires grant.Some? && nsize < MAX_REQUEST ==> FreshRegion(segs, grant.value, SysSize(Request2Size(nsize)))
      modifies this, bins
      ensures Valid()
      ensures r == 0 ==> unchanged(this) && unchanged(bins)
      ensures r == 0 ==> grant.None? || SysSize(Request2Size(nsize)) <= Request2Size(nsize)
      ensures r != 0 ==> Moved(oldp, r - TWO_SIZE_T_SIZES, nsize) && r - TWO_SIZE_T_SIZES != oldp
      ensures Served(nsize, grant, r)
    {
      hide Sound, Parted, SmallOk, TreesOk, LiveOk, PayloadKept, Retiled, FreshRegion, SysSize, Chosen, FromSystem,
          Room;
      ReadHead(mem, chunks, segs, top, topsize, oldp);
      r := Malloc(nsize, grant);
      if r != 0 {
        LiveSizes(mem, chunks, segs, top, topsize, inuse, oldp, r - TWO_SIZE_T_SIZES);
        var newp := r - TWO_SIZE_T_SIZES;
        var oc := oldsize - CHUNK_OVERHEAD;
        ghost var m1, c1, inuse1 := mem, chunks, inuse;
        assert old(inuse) <= inuse1;
        var len := Min(oc, nsize);
        CopyPayload(oldp, newp, len);
        ghost var m2 := mem;
        Free(oldp + TWO_SIZE_T_SIZES);
        SameLiveLess(m1, m2, c1, c1, inuse1 - {newp}, old(inuse));
        SameLiveLess(m2, mem, c1, chunks, inuse, old(inuse) - {oldp} + {newp});
        MoveKeeps(old(mem), m1, m2, mem, old(chunks), c1, chunks, old(inuse), oldp, newp, oldsize, len);
      }
    }

    /** lj_alloc_f, the allocation function: free, malloc or realloc by its arguments. */
    method Alloc(ptr: int, nsize: nat, grant: Option<int>) returns (r: int)
      requires Valid() && nsize < TWO_64 && (ptr != 0 ==> ptr - TWO_SIZE_T_SIZES in Live())
      requires grant.Some? && nsize < MAX_REQUEST ==> FreshRegion(segs, grant.value, SysSize(Request2Size(nsize)))
      modifies this, bins
      ensures Valid()
      ensures nsize == 0 ==> r == 0 && SameLive(old(mem), mem, old(chunks), chunks, inuse)
      ensures nsize == 0 ==>
          own == old(own) && inuse == if ptr == 0 then old(inuse) else old(inuse) - {ptr - TWO_SIZE_T_SIZES}
      ensures nsize > 0 && r == 0 ==> unchanged(this) && unchanged(bins)
      ensures nsize > 0 && r == 0 ==>
        nsize >= MAX_REQUEST || grant.None? || SysSize(Request2Size(nsize)) <= Request2Size(nsize)
      ensures nsize > 0 && r != 0 && ptr == 0 ==> Granted(r - TWO_SIZE_T_SIZES, Request2Size(nsize))
      ensures nsize > 0 && ptr == 0 ==> Served(nsize, grant, r)
      ensures nsize > 0 && ptr != 0 ==>
        StaysOrMoves(ptr - TWO_SIZE_T_SIZES, nsize, grant, r)
      ensures nsize > 0 && r != 0 && ptr != 0 ==>
        Moved(ptr - TWO_SIZE_T_SIZES, r - TWO_SIZE_T_SIZES, nsize)
    {
      hide Sound, Parted, SizesOk, SmallOk, TreesOk, FreshRegion, SameLive, LiveOk, SysSize, PrefixKept, Served,
          StaysOrMoves;
      r := 0;
      if nsize == 0 { Free(ptr); }
      else if ptr == 0 { r := Malloc(nsize, grant); }
      else { r := Realloc(ptr, nsize, grant); }
    }
  }

  /** Reallocation works in place exactly if the chunk is big enough, or with top behind it would be. */
  ghost predicate InPlace(chunks: Chunks, top: int, topsize: int, c: int, nb: int)
  {
    c in chunks && (chunks[c].size >= nb || (c + chunks[c].size == top && chunks[c].size + topsize > nb))
  }

  function Min(a: int, b: int): int { if a < b then a else b }

  lemma {:induction false} LiveInuse(chunks: Chunks, live: set<int>, a: int)
    requires LiveOk(chunks, live) && a in live
    ensures a in chunks && chunks[a].kind.Normal? && chunks[a].cinuse
  {
  }

  lemma {:induction false} PartSame(chunks: Chunks, chunks': Chunks, content: map<int, int>, dv: int, dvsize: int,
      top: int, p: int, m: int, n: int)
    requires Parted(chunks, content, dv, dvsize, top) && OnlyChunkIn(chunks, p, n) && !FreeAt(chunks, p)
    requires Retiled(chunks, chunks', p, m, n, true, true)
    ensures Parted(chunks', content, dv, dvsize, top)
  {
    SameFree(chunks, chunks', p, m, n, true, true);
  }

  lemma {:induction false} RetiledFront(chunks: Chunks, chunks': Chunks, p: int, m: int, n: int, c2: bool)
    requires Retiled(chunks, chunks', p, m, n, true, c2)
    ensures p in chunks' && chunks'[p].size == m - p
  {
  }

  /** A chunk in use right before top may take over the front of top. */
  lemma {:induction false} CanGrow(mem: Words, chunks: Chunks, segs: seq<Segment>, top: int, topsize: int,
      live: set<int>, p: int, nb: int)
    requires Sound(mem, chunks, segs, top, topsize) && LiveOk(chunks, live) && p in live && p + chunks[p].size == top
    requires nb % 8 == 0 && chunks[p].size < nb < chunks[p].size + topsize
    ensures CanRetile(chunks, p, p + nb, top + topsize, true, false) && top + topsize in chunks
    ensures chunks[top + topsize] == Chunk(TOP_FOOT_SIZE, false, false, Trailer)
    ensures Rd(mem, top + topsize + 8) == Pack(TOP_FOOT_SIZE, false, false)
    ensures PInuse(Rd(mem, p + 8)) == chunks[p].pinuse && chunks[p].size >= 8
    ensures LiveOk(chunks, live - {p}) && forall a :: a in live - {p} ==> a < p || top + topsize <= a
  {
    hide Sound, Pack, PInuse, CInuse, ChunkSize, SetPInuse, ClearPInuse;
    ReadHead(mem, chunks, segs, top, topsize, p);
    TopChunk(mem, chunks, segs, top, topsize);
    ReadHead(mem, chunks, segs, top, topsize, top + topsize);
    NextChunk(mem, chunks, segs, top, topsize, p);
    OneChunkRun(mem, chunks, segs, top, topsize, p);
    OneChunkRun(mem, chunks, segs, top, topsize, top);
    assert (p + nb) % 8 == 0 by { hide LiveOk; Mult8Sums(p, nb); }
    GrowRetile(chunks, p, p + nb, top, top + topsize);
    hide CanRetile;
  }

  lemma {:induction false} GrowRetile(chunks: Chunks, p: int, m: int, top: int, n: int)
    requires p in chunks && n in chunks && p + 32 <= m < n && m % 8 == 0 && n - m >= 8
    requires chunks[n] == Chunk(TOP_FOOT_SIZE, false, false, Trailer)
    requires forall a :: a in chunks && p <= a < n ==> a == p || a == top
    requires chunks[p].kind.Normal? && (top in chunks ==> chunks[top].kind.Normal?)
    ensures CanRetile(chunks, p, m, n, true, false)
  {
  }

  /** A chunk in use may be split in two. */
  lemma {:induction false} CanSplit(mem: Words, chunks: Chunks, segs: seq<Segment>, top: int, topsize: int,
      live: set<int>, p: int, nb: int)
    requires Sound(mem, chunks, segs, top, topsize) && LiveOk(chunks, live) && p in live
    requires nb % 8 == 0 && MIN_CHUNK_SIZE <= nb <= chunks[p].size - MIN_CHUNK_SIZE
    ensures var n := p + chunks[p].size;
      && CanRetile(chunks, p, p + nb, n, true, true) && n in chunks && !chunks[n].kind.Trailer?
      && SetPInuse(Rd(mem, n + 8)) == Pack(chunks[n].size, true, chunks[n].cinuse)
      && PInuse(Rd(mem, p + 8)) == chunks[p].pinuse && p + nb !in live
      && LiveOk(chunks, live - {p}) && forall a :: a in live - {p} ==> a < p || n <= a
  {
    hide Sound, Pack, PInuse, CInuse, ChunkSize, SetPInuse, ClearPInuse;
    ReadHead(mem, chunks, segs, top, topsize, p);
    NextChunk(mem, chunks, segs, top, topsize, p);
    ReadHead(mem, chunks, segs, top, topsize, p + chunks[p].size);
    TopChunk(mem, chunks, segs, top, topsize);
    NotAChunk(mem, chunks, segs, top, topsize, p, p + nb);
  }

  lemma {:induction false} SplitWords(mem: Words, mem': Words, chunks: Chunks, p: int, m: int, n: int)
    requires CanRetile(chunks, p, m, n, true, true) && m < n && n == p + chunks[p].size
    requires Rd(mem', p + 8) == Pack(m - p, chunks[p].pinuse, true) && Rd(mem', m + 8) == Pack(n - m, true, true)
    requires Rd(mem', n + 8) == Pack(chunks[n].size, true, chunks[n].cinuse)
    requires forall x :: x != p + 8 && x != m + 8 && x != n + 8 ==> Rd(mem', x) == Rd(mem, x)
    ensures TagsWritten(mem, mem', chunks, p, m, n, true, true) && PayloadKept(mem, mem', p, m - p)
  {
    hide Pack;
  }

  lemma {:induction false} GrowWords(mem: Words, mem': Words, chunks: Chunks, p: int, m: int, n: int)
    requires CanRetile(chunks, p, m, n, true, false) && m < n
    requires chunks[n] == Chunk(TOP_FOOT_SIZE, false, false, Trailer)
    requires Rd(mem, n + 8) == Pack(TOP_FOOT_SIZE, false, false)
    requires Rd(mem', p + 8) == Pack(m - p, chunks[p].pinuse, true) && Rd(mem', m + 8) == Pack(n - m, true, false)
    requires forall x :: x != p + 8 && x != m + 8 ==> Rd(mem', x) == Rd(mem, x)
    ensures TagsWritten(mem, mem', chunks, p, m, n, true, false)
    ensures p + chunks[p].size < m ==> PayloadKept(mem, mem', p, chunks[p].size)
  {
    hide Pack;
  }

  lemma {:induction false} GrowRun(mem: Words, chunks: Chunks, segs: seq<Segment>, top: int, topsize: int,
      content: map<int, int>, dv: int, dvsize: int, p: int)
    requires Sound(mem, chunks, segs, top, topsize) && SizesOk(content) && Parted(chunks, content, dv, dvsize, top)
    requires p in chunks && chunks[p].kind.Normal? && chunks[p].cinuse && p + chunks[p].size == top
    ensures var n := top + topsize;
      Outside(content, p, n) == content && top in chunks && p < top < n && !(dvsize > 0 && p <= dv < n)
    ensures FreeAt(chunks, top) && forall b :: b in chunks && p <= b < top + topsize ==> b == p || b == top
  {
    hide Sound, Parted;
    TopChunk(mem, chunks, segs, top, topsize);
    OneChunkRun(mem, chunks, segs, top, topsize, p);
    OneChunkRun(mem, chunks, segs, top, topsize, top);
    ReadHead(mem, chunks, segs, top, topsize, p);
    var n := top + topsize;
    PartFacts(chunks, content, dv, dvsize, top, p);
    forall a | a in content ensures !(p <= a < n) { PartFacts(chunks, content, dv, dvsize, top, a); }
  }

  lemma {:induction false} LivePrefix(mem: Words, mem': Words, a: int, size: int, len: int)
    requires PayloadKept(mem, mem', a, size) && len <= size - 8 && size % 8 == 0
    ensures PrefixKept(mem, mem', a, a, len)
  {
  }

  lemma {:induction false} ShrinkKeeps(m0: Words, m1: Words, m2: Words, c0: Chunks, c1: Chunks, c2: Chunks,
      live: set<int>, p: int, m: int, n: int)
    requires p in live && m !in live
    requires SameLive(m0, m1, c0, c1, live - {p}) && PayloadKept(m0, m1, p, m - p)
    requires Retiled(c0, c1, p, m, n, true, true) && SameLive(m1, m2, c1, c2, live)
    ensures SameLive(m0, m2, c0, c2, live - {p}) && PayloadKept(m0, m2, p, m - p) && p in c2 && c2[p].size == m - p
  {
    assert PayloadKept(m1, m2, p, c1[p].size);
  }

  lemma {:induction false} MoveKeeps(m0: Words, m1: Words, m2: Words, m3: Words, c0: Chunks, c1: Chunks, c3: Chunks,
      live: set<int>, oldp: int, newp: int, oldsize: int, len: int)
    requires oldp in live && newp !in live && oldp in c0 && c0[oldp].size == oldsize && len <= oldsize - 8
    requires newp in c1 && newp in c3 && len <= c1[newp].size - 8 && c1[newp].size % 8 == 0 && oldsize % 8 == 0
    requires SameLive(m0, m1, c0, c1, live)
    requires PrefixKept(m1, m2, oldp, newp, len) && SameLive(m1, m2, c1, c1, live)
    requires SameLive(m2, m3, c1, c3, live - {oldp} + {newp})
    ensures PrefixKept(m0, m3, oldp, newp, len) && SameLive(m0, m3, c0, c3, live - {oldp})
    ensures c3[newp].size == c1[newp].size
  {
    assert newp in live - {oldp} + {newp};
    assert PayloadKept(m2, m3, newp, c1[newp].size) && PayloadKept(m0, m1, oldp, oldsize);
    forall k | 0 <= k < len && k % 8 == 0 ensures Rd(m3, newp + 16 + k) == Rd(m0, oldp + 16 + k) {
      assert oldp + 16 + k <= oldp + oldsize && newp + 16 + k <= newp + c1[newp].size;
    }
  }

  lemma {:induction false} SetThenRead(head: int)
    ensures PInuse(SetPInuse(head))
  {
  }

  lemma {:induction false} SplitLive(chunks: Chunks, chunks': Chunks, live: set<int>, p: int, m: int, n: int, c2: bool)
    requires Retiled(chunks, chunks', p, m, n, true, c2) && LiveOk(chunks', live)
    ensures LiveOk(chunks', live + {p}) && (c2 && m < n ==> LiveOk(chunks', live + {p} + {m}))
  {
  }

  /** The words holding the first len payload bytes of chunk a are those of chunk a' now. */
  ghost predicate PrefixKept(mem: Words, mem': Words, a: int, a': int, len: int) {
    forall k :: 0 <= k < len && k % 8 == 0 ==> Rd(mem', a' + 16 + k) == Rd(mem, a + 16 + k)
  }

  lemma {:induction false} LiveWord(mem: Words, mem': Words, chunks: Chunks, live: set<int>, a: int, x: int)
    requires SameLive(mem, mem', chunks, chunks, live) && a in live && a in chunks && a + 16 <= x <= a + chunks[a].size
    ensures Rd(mem', x) == Rd(mem, x)
  {
  }

  lemma {:induction false} LiveSizes(mem: Words, chunks: Chunks, segs: seq<Segment>, top: int, topsize: int,
      live: set<int>, a: int, b: int)
    requires Sound(mem, chunks, segs, top, topsize) && LiveOk(chunks, live) && a in live && b in live
    ensures a in chunks && b in chunks && chunks[a].size % 8 == 0 && chunks[b].size % 8 == 0
    ensures LiveOk(chunks, live - {b})
  {
    hide Sound;
    ReadHead(mem, chunks, segs, top, topsize, a);
    ReadHead(mem, chunks, segs, top, topsize, b);
  }

  /** Payload words are nobody's head, and nobody's foot while their chunk is in use. */
  lemma {:induction false} PayloadStore(mem: Words, chunks: Chunks, segs: seq<Segment>, top: int, topsize: int,
      live: set<int>, c: int, x: int, v: int)
    requires Sound(mem, chunks, segs, top, topsize) && LiveOk(chunks, live) && c in live
    requires c + 16 <= x <= c + chunks[c].size
    ensures Sound(mem[x := v], chunks, segs, top, topsize)
    ensures SameLive(mem, mem[x := v], chunks, chunks, live - {c})
  {
    hide AlignedOk, HeldOk, SegmentsOk, SegmentsApart, SmallIsTop, TopOk;
    var mem' := mem[x := v];
    assert LinkedAt(chunks, segs, c);
    assert HeadsOk(mem', chunks);
    forall b | b in chunks && !chunks[b].pinuse && !chunks[b].kind.Trailer? ensures FootAt(mem', chunks, b) {
      assert FootAt(mem, chunks, b);
    }
  }

  lemma {:induction false} HugeWraps()
    ensures Heap.SysSize(MAX_SIZE_T) <= MAX_SIZE_T
  {
  }

  lemma {:induction false} RoundDown(x: int)
    requires x >= 0
    ensures x - DEFAULT_GRANULARITY < x / DEFAULT_GRANULARITY * DEFAULT_GRANULARITY <= x
    ensures x / DEFAULT_GRANULARITY * DEFAULT_GRANULARITY % 8 == 0
  {
    var k := x / DEFAULT_GRANULARITY;
    assert k * DEFAULT_GRANULARITY == 8 * (16384 * k);
  }

  /** If the padded size did not wrap around, it leaves room for the top footer. */
  lemma {:induction false} SysSizeFits(nb: int)
    requires 0 <= nb < TWO_64
    ensures Heap.SysSize(nb) > nb ==> Heap.SysSize(nb) > nb + TOP_FOOT_SIZE && Heap.SysSize(nb) % 8 == 0
  {
    var req := (nb + TOP_FOOT_SIZE + 1) % TWO_64;
    var x := (req + DEFAULT_GRANULARITY - 1) % TWO_64;
    RoundDown(x);
    assert req == if nb + 65 < TWO_64 then nb + 65 else nb + 65 - TWO_64;
    assert x == if req + 131071 < TWO_64 then req + 131071 else req + 131071 - TWO_64;
  }

  /**
   What the system is asked for: the least multiple of the granularity with room for the request, the
   top footer and one byte. The size is taken as too big exactly if that, rounded up, passes 2^64.
   */
  lemma {:induction false} SysSizeExact(nb: int)
    requires 0 <= nb < TWO_64
    ensures Heap.SysSize(nb) > nb <==> nb + 65 + 131071 < TWO_64
    ensures Heap.SysSize(nb) > nb ==> Heap.SysSize(nb) % 131072 == 0 && nb + 65 <= Heap.SysSize(nb) < nb + 65 + 131072
  {
    var req := (nb + TOP_FOOT_SIZE + 1) % TWO_64;
    var x := (req + DEFAULT_GRANULARITY - 1) % TWO_64;
    RoundDown(x);
    assert req == if nb + 65 < TWO_64 then nb + 65 else nb + 65 - TWO_64;
    assert x == if req + 131071 < TWO_64 then req + 131071 else req + 131071 - TWO_64;
  }

  lemma {:induction false} SegmentOfTop(mem: Words, chunks: Chunks, segs: seq<Segment>, top: int, topsize: int)
      returns (k: nat)
    requires Sound(mem, chunks, segs, top, topsize)
    ensures k < |segs| && segs[k].base <= top < segs[k].base + segs[k].size
  {
    hide TiledMem, AlignedOk, Linked, SmallIsTop, Disjoint, SegmentsOk, SegmentsApart;
    k :| 0 <= k < |segs| && InSegment(segs[k], top, top + Extent(chunks[top]));
  }

  lemma {:induction false} OpenClear(mem: Words, chunks: Chunks, segs: seq<Segment>, top: int, topsize: int,
      tbase: int, tsize: int)
    requires Sound(mem, chunks, segs, top, topsize) && FreshRegion(segs, tbase, tsize)
    ensures top + topsize + TOP_FOOT_SIZE <= tbase || tbase + tsize <= top
    ensures tsize > TOP_FOOT_SIZE && tsize % 8 == 0 && tbase % 8 == 0
    ensures tbase !in chunks && tbase + tsize - TOP_FOOT_SIZE !in chunks
    ensures tbase < RecordAt(top, topsize) || top + topsize + TOP_FOOT_SIZE <= tbase
    ensures forall a :: a in chunks && a != top && a != top + topsize ==>
      a < RecordAt(top, topsize) || top + topsize + TOP_FOOT_SIZE <= a
  {
    hide TiledMem, Linked, HeldOk, AlignedOk, SegmentsOk, SegmentsApart, SmallIsTop, TopOk;
    ChunkApart(mem, chunks, segs, top, topsize, tbase, tsize);
    TopChunk(mem, chunks, segs, top, topsize);
    var end := top + topsize + TOP_FOOT_SIZE;
    forall a | a in chunks && a != top && a != top + topsize ensures a < RecordAt(top, topsize) || end <= a {
      if top < a { assert top + topsize <= a; assert end <= a; }
    }
  }

  lemma {:induction false} OpenPlace(mem: Words, chunks: Chunks, segs: seq<Segment>, top: int, topsize: int,
      tbase: int, tsize: int)
    requires Sound(mem, chunks, segs, top, topsize) && FreshRegion(segs, tbase, tsize)
    ensures top + topsize + TOP_FOOT_SIZE <= tbase || tbase + tsize <= top
    ensures tsize > TOP_FOOT_SIZE
  {
    hide Sound, FreshRegion;
    OpenClear(mem, chunks, segs, top, topsize, tbase, tsize);
  }

  /** Everything add_segment keeps, once its words are written. */
  lemma {:induction false} OpenDone(mem: Words, mem': Words, chunks: Chunks, segs: seq<Segment>, content: map<int,
      int>, dv: int, dvsize: int, top: int, topsize: int, tbase: int, tsize: int, i: int, live: set<int>)
    requires Sound(mem, chunks, segs, top, topsize) && FreshRegion(segs, tbase, tsize)
    requires 0 <= i < |segs| && segs[i].base <= top < segs[i].base + segs[i].size
    requires OpenedWords(mem, mem', top, topsize, tbase, tsize)
    requires Parted(chunks, content, dv, dvsize, top) && LiveOk(chunks, live)
    ensures var c', r := Opened(chunks, top, topsize, tbase, tsize), RecordAt(top, topsize);
      && Sound(mem', c', [Segment(tbase, tsize)] + segs, tbase, tsize - TOP_FOOT_SIZE)
      && Parted(c', if topsize < MIN_CHUNK_SIZE then content else content[top := topsize], dv, dvsize, tbase)
      && LiveOk(c', live + {r}) && SameLive(mem, mem', chunks, c', live)
      && Inuse(c') == Inuse(chunks) + {r} && r !in Inuse(chunks)
      && (r != top <==> topsize >= MIN_CHUNK_SIZE) && top !in content
  {
    hide Sound, Parted, LiveOk, SameLive, PayloadKept, FreshRegion, OpenedAs, Opened, OpenedWords, Inuse, RecordAt;
    TopChunk(mem, chunks, segs, top, topsize);
    OpenClear(mem, chunks, segs, top, topsize, tbase, tsize);
    OpenSound(mem, mem', chunks, segs, top, topsize, tbase, tsize, i);
    OpenKeeps(mem, mem', chunks, Opened(chunks, top, topsize, tbase, tsize), content, dv, dvsize,
              top, topsize, tbase, tsize, live);
  }

  lemma {:induction false} RecordAdded(inuse: set<int>, own: set<int>, r: int)
    requires own <= inuse && r !in inuse
    ensures own + {r} <= inuse + {r} && |own + {r}| == |own| + 1 && (inuse + {r}) - (own + {r}) == inuse - own
  {
  }

  lemma {:induction false} OpenKeeps(mem: Words, mem': Words, chunks: Chunks, c': Chunks, content: map<int, int>,
      dv: int, dvsize: int, top: int, topsize: int, tbase: int, tsize: int, live: set<int>)
    requires Parted(chunks, content, dv, dvsize, top) && LiveOk(chunks, live)
    requires OpenedAs(chunks, c', top, topsize, tbase, tsize)
    requires FreeAt(chunks, top) && chunks[top].size == topsize
    requires top + topsize in chunks && chunks[top + topsize] == Chunk(TOP_FOOT_SIZE, false, false, Trailer)
    requires forall a :: a in chunks && a != top && a != top + topsize ==>
      a < RecordAt(top, topsize) || top + topsize + TOP_FOOT_SIZE <= a
    requires tbase !in chunks && tbase + tsize - TOP_FOOT_SIZE !in chunks && topsize >= 8 && tsize > TOP_FOOT_SIZE
    requires tbase < RecordAt(top, topsize) || top + topsize + TOP_FOOT_SIZE <= tbase
    requires forall a :: a in chunks && a != top && a != top + topsize ==> PayloadKept(mem, mem', a, chunks[a].size)
    ensures Parted(c', if topsize < MIN_CHUNK_SIZE then content else content[top := topsize], dv, dvsize, tbase)
    ensures RecordAt(top, topsize) != top <==> topsize >= MIN_CHUNK_SIZE
    ensures top !in content && LiveOk(c', live + {RecordAt(top, topsize)}) && SameLive(mem, mem', chunks, c', live)
    ensures Inuse(c') == Inuse(chunks) + {RecordAt(top, topsize)} && RecordAt(top, topsize) !in Inuse(chunks)
  {
    hide PayloadKept;
    var csp, end := RecordAt(top, topsize), top + topsize + TOP_FOOT_SIZE;
    OpenFree(chunks, c', top, topsize, tbase, tsize);
    OpenInuse(chunks, c', top, topsize, tbase, tsize);
    hide OpenedAs, Inuse;
    PartFacts(chunks, content, dv, dvsize, top, top);
    assert Parted(c', if topsize < MIN_CHUNK_SIZE then content else content[top := topsize], dv, dvsize,
        tbase) by { hide LiveOk; }
  }

  lemma {:induction false} OpenInuse(chunks: Chunks, c': Chunks, top: int, topsize: int, tbase: int, tsize: int)
    requires OpenedAs(chunks, c', top, topsize, tbase, tsize)
    requires FreeAt(chunks, top) && top + topsize in chunks && chunks[top + topsize].kind.Trailer?
    requires forall a :: a in chunks && a != top && a != top + topsize ==>
      a < RecordAt(top, topsize) || top + topsize + TOP_FOOT_SIZE <= a
    requires tbase < RecordAt(top, topsize) || top + topsize + TOP_FOOT_SIZE <= tbase
    requires tbase !in chunks && tbase + tsize - TOP_FOOT_SIZE !in chunks && topsize >= 8
    ensures Inuse(c') == Inuse(chunks) + {RecordAt(top, topsize)} && RecordAt(top, topsize) !in Inuse(chunks)
  {
    var r := RecordAt(top, topsize);
    assert !InuseAt(chunks, r);
    forall a ensures InuseAt(c', a) <==> InuseAt(chunks, a) || a == r {
    }
    hide OpenedAs, InuseAt;
  }

  /** After add_segment exactly tbase is newly free, and a top too small to be a chunk is gone. */
  lemma {:induction false} OpenFree(chunks: Chunks, c': Chunks, top: int, topsize: int, tbase: int, tsize: int)
    requires OpenedAs(chunks, c', top, topsize, tbase, tsize)
    requires FreeAt(chunks, top) && top + topsize in chunks && chunks[top + topsize].kind.Trailer?
    requires forall a :: a in chunks && a != top && a != top + topsize ==>
      a < RecordAt(top, topsize) || top + topsize + TOP_FOOT_SIZE <= a
    requires tbase !in chunks && topsize >= 8
    ensures forall a :: FreeAt(c', a) <==> a == tbase || (FreeAt(chunks, a) && (a != top || topsize >= MIN_CHUNK_SIZE))
    ensures forall a :: a in chunks && a != top && a != top + topsize ==> a in c' && c'[a] == chunks[a]
    ensures topsize >= MIN_CHUNK_SIZE ==> top in c' && c'[top] == chunks[top]
  {
  }

  /** What prepend_alloc finds at the old first chunk, and the run it is about to carve. */
  lemma {:induction false} FrontStart(mem: Words, mem0: Words, chunks: Chunks, segs: seq<Segment>, top: int,
      topsize: int, content: map<int, int>, dv: int, dvsize: int, live: set<int>, p: int, q: int, first: int)
      returns (n: int)
    requires Sound(mem0, chunks, segs, top, topsize) && LiveOk(chunks, live) && p !in live
    requires SizesOk(content) && Parted(chunks, content, dv, dvsize, top)
    requires mem0 == mem[p + 8 := Pack(first - p, true, true)]
    requires p in chunks && first in chunks && chunks[p] == Chunk(first - p, true, true, Normal) && chunks[first].pinuse
    requires (q - p) % 8 == 0 && p + MIN_CHUNK_SIZE <= q <= first - MIN_CHUNK_SIZE
    ensures CanRetile(chunks, p, q, n, true, false) && first <= n && n in chunks
    ensures (chunks[n].kind.Trailer? <==> first == top)
    ensures forall a :: a in live ==> a < p || n <= a
    ensures Outside(content, p, n) == content - {first} && q !in content && q !in chunks && top in chunks && p > 0
    ensures p % 8 == 0
    ensures p <= top < n <==> first == top
    ensures (dvsize > 0 && p <= dv < n) <==> first == dv
    ensures if first == top then n == top + topsize && first !in content && first != dv
      else if first == dv then dvsize > 0 && n == first + dvsize && first !in content
      else if CInuse(Rd(mem, first + 8)) then n == first && first !in content
      else first in content && content[first] == ChunkSize(Rd(mem, first + 8)) && n == first + content[first]
    ensures first < n ==> !chunks[n].pinuse
    ensures first !in content ==> content - {first} == content
    ensures (n - q) % 8 == 0 && MIN_CHUNK_SIZE <= n - q < MMAP_REGION_END
    ensures mem0 == mem[p + 8 := Rd(mem0, p + 8)]
  {
    hide Sound, Parted, Pack, SetPInuse, ChunkSize, ClearPInuse, PInuse, CInuse, OnlyChunkIn, CanRetile, Outside;
    ReadHead(mem0, chunks, segs, top, topsize, p);
    ReadHead(mem0, chunks, segs, top, topsize, first);
    NotAChunk(mem0, chunks, segs, top, topsize, p, q);
    TopChunk(mem0, chunks, segs, top, topsize);
    n := CanPrepend(mem0, chunks, segs, top, topsize, p, q, first);
    RunRoles(mem0, chunks, segs, top, topsize, content, dv, dvsize, p, p, first, n);
    PartFacts(chunks, content, dv, dvsize, top, p);
    PartFacts(chunks, content, dv, dvsize, top, q);
    LiveOutside(chunks, live, p, first, n);
    assert content - {p} == content;
  }

  lemma {:induction false} FrontLive(chunks: Chunks, chunks': Chunks, live: set<int>, p: int, q: int, n: int)
    requires Retiled(chunks, chunks', p, q, n, true, false) && LiveOk(chunks', live)
    ensures LiveOk(chunks', live + {p}) && p in chunks' && chunks'[p].size == q - p
  {
  }

  lemma {:induction false} LiveOutside(chunks: Chunks, live: set<int>, p: int, first: int, n: int)
    requires LiveOk(chunks, live) && p !in live && (first < n ==> FreeAt(chunks, first))
    requires forall b :: b in chunks && p <= b < n ==> b == p || b == first
    ensures forall a :: a in live ==> a < p || n <= a
  {
  }

  lemma {:induction false} FrontKeeps(mem: Words, chunks: Chunks, content: map<int, int>, dv: int, dvsize: int,
      top: int, tbase: int, tsize: int, live: set<int>)
    requires Parted(chunks, content, dv, dvsize, top) && LiveOk(chunks, live) && tbase !in chunks
    requires forall a :: a in chunks ==> PayloadKept(mem, mem[tbase + 8 := Pack(tsize, true, true)], a, chunks[a].size)
    ensures var c' := chunks[tbase := Chunk(tsize, true, true, Normal)];
      Parted(c', content, dv, dvsize, top) && LiveOk(c', live) && Inuse(c') == Inuse(chunks) + {tbase}
      && SameLive(mem, mem[tbase + 8 := Pack(tsize, true, true)], chunks, c', live) && tbase !in live
  {
    hide PayloadKept, Pack;
  }

  /** The region chunk [p, first) and a free first chunk after it form a run [p, n). */
  lemma {:induction false} CanPrepend(mem: Words, chunks: Chunks, segs: seq<Segment>, top: int, topsize: int, p: int,
      q: int, first: int) returns (n: int)
    requires Sound(mem, chunks, segs, top, topsize) && p in chunks && first in chunks
    requires chunks[p] == Chunk(first - p, true, true, Normal) && chunks[first].pinuse
    requires q % 8 == 0 && p + MIN_CHUNK_SIZE <= q <= first - MIN_CHUNK_SIZE
    ensures CanRetile(chunks, p, q, n, true, false)
    ensures n == if chunks[first].cinuse then first else first + chunks[first].size
    ensures chunks[n].kind.Trailer? <==> first == top
    ensures if n == first then chunks[first].cinuse else FreeAt(chunks, first) && !chunks[n].pinuse
    ensures forall b :: b in chunks && p <= b < n ==> b == p || b == first
    ensures first == top ==> n == top + topsize
  {
    hide Sound, PInuse, CInuse, ChunkSize, SetPInuse, ClearPInuse, Pack;
    ReadHead(mem, chunks, segs, top, topsize, p);
    OneChunkRun(mem, chunks, segs, top, topsize, p);
    TopChunk(mem, chunks, segs, top, topsize);
    TrailerIsLast(mem, chunks, segs, top, topsize, first);
    ReadHead(mem, chunks, segs, top, topsize, first);
    n := first;
    if !chunks[first].cinuse {
      NextChunk(mem, chunks, segs, top, topsize, first);
      OneChunkRun(mem, chunks, segs, top, topsize, first);
      n := first + chunks[first].size;
      ReadHead(mem, chunks, segs, top, topsize, n);
    }
  }

  lemma {:induction false} AppendKeeps(mem: Words, mem': Words, chunks: Chunks, c': Chunks, content: map<int, int>,
      dv: int, dvsize: int, top: int, topsize: int, tsize: int, live: set<int>)
    requires Parted(chunks, content, dv, dvsize, top) && LiveOk(chunks, live)
    requires Appended(chunks, c', top, topsize, tsize)
    requires FreeAt(chunks, top) && top + topsize in chunks && chunks[top + topsize].kind.Trailer?
    requires top + topsize + tsize !in chunks
    requires forall a :: a in chunks && a != top && a != top + topsize ==> PayloadKept(mem, mem', a, chunks[a].size)
    ensures Parted(c', content, dv, dvsize, top) && LiveOk(c', live) && SameLive(mem, mem', chunks, c', live)
    ensures Inuse(c') == Inuse(chunks)
  {
    hide PayloadKept;
  }

  lemma {:induction false} AppendClear(mem: Words, chunks: Chunks, segs: seq<Segment>, top: int, topsize: int, i: int,
      tsize: int)
    requires Sound(mem, chunks, segs, top, topsize) && 0 <= i < |segs|
    requires segs[i].base <= top < segs[i].base + segs[i].size
    requires FreshRegion(segs, segs[i].base + segs[i].size, tsize)
    ensures top + topsize + tsize !in chunks && tsize > 0
  {
    hide Sound;
    TopSegment(mem, chunks, segs, top, topsize, i);
    TopChunk(mem, chunks, segs, top, topsize);
    ChunkApart(mem, chunks, segs, top, topsize, segs[i].base + segs[i].size, tsize);
    if top + topsize + tsize in chunks { ReadHead(mem, chunks, segs, top, topsize, top + topsize + tsize); }
  }

  lemma {:induction false} NotAChunk(mem: Words, chunks: Chunks, segs: seq<Segment>, top: int, topsize: int, p: int,
      m: int)
    requires Sound(mem, chunks, segs, top, topsize) && p in chunks && chunks[p].kind.Normal?
    requires p < m < p + chunks[p].size
    ensures m !in chunks && OnlyChunkIn(chunks, p, p + chunks[p].size)
  {
    hide Sound;
    OneChunkRun(mem, chunks, segs, top, topsize, p);
  }

  // ---------------------------------------------------------------- what the invariant means

  /** In every valid heap, live payloads [c + 16, c + size + 8) are aligned and pairwise disjoint. */
  lemma {:induction false} LivePayloadsDisjoint(h: Heap, c: int, d: int)
    requires h.Valid() && c in h.inuse && d in h.inuse && c != d
    ensures c in h.chunks && d in h.chunks && (c + 16) % 8 == 0 && (d + 16) % 8 == 0
    ensures c + 16 + (h.chunks[c].size - 8) <= d + 16 || d + 16 + (h.chunks[d].size - 8) <= c + 16
  {
    hide TiledMem, Linked, HeldOk, SegmentsOk, SegmentsApart, SmallIsTop, TopOk, Parted, SizesOk, SmallOk, TreesOk;
  }

  /** Boundary tags read the heap correctly: next_chunk and, for free predecessors, prev_chunk are chunks. */
  lemma {:induction false} TagsAgree(h: Heap, a: int)
    requires h.Valid() && a in h.chunks && h.chunks[a].kind.Normal?
    ensures var n := a + ChunkSize(Rd(h.mem, a + 8));
      n in h.chunks && PInuse(Rd(h.mem, n + 8)) == CInuse(Rd(h.mem, a + 8))
    ensures !PInuse(Rd(h.mem, a + 8)) ==> FreeAt(h.chunks, a - Rd(h.mem, a)) && CInuse(Rd(h.mem, a + 8))
  {
    hide Sound, Parted, SizesOk, SmallOk, TreesOk, ChunkSize, PInuse, CInuse, Pack, SetPInuse, ClearPInuse;
    ReadHead(h.mem, h.chunks, h.segs, h.top, h.topsize, a);
    NextChunk(h.mem, h.chunks, h.segs, h.top, h.topsize, a);
    ReadHead(h.mem, h.chunks, h.segs, h.top, h.topsize, a + h.chunks[a].size);
    if !h.chunks[a].pinuse { PrevChunk(h.mem, h.chunks, h.segs, h.top, h.topsize, a); }
  }

  /** What a normal chunk may be: top, the designated victim, binned, handed out, or a record of the allocator. */
  ghost function Roles(h: Heap, a: int): seq<bool>
    reads h, h.bins
  {
    [a == h.top, h.dvsize > 0 && a == h.dv, a in h.bins.content, a in h.Live(), a in h.own]
  }

  /** Nothing is lost and nothing is owned twice: every normal chunk of a valid heap has exactly one role. */
  lemma {:induction false} OneRole(h: Heap, a: int) returns (i: nat)
    requires h.Valid() && a in h.chunks && h.chunks[a].kind.Normal?
    ensures i < 5 && Roles(h, a)[i] && forall j :: 0 <= j < 5 && j != i ==> !Roles(h, a)[j]
    ensures |h.own| == |h.segs|
  {
    TopChunk(h.mem, h.chunks, h.segs, h.top, h.topsize);
    hide Sound, SizesOk, SmallOk, TreesOk;
    InuseEq(h.chunks, h.inuse);
    assert InuseAt(h.chunks, a) <==> !FreeAt(h.chunks, a);
    i := if a in h.own then 4 else if a in h.inuse then 3 else if a == h.top then 0 else if a in h.bins.content then 2
        else 1;
  }

  /** No two free chunks are adjacent. */
  lemma {:induction false} NoAdjacentFree(h: Heap, a: int)
    requires h.Valid() && FreeAt(h.chunks, a)
    ensures !FreeAt(h.chunks, a + h.chunks[a].size)
  {
    hide Sound, Parted, SizesOk, SmallOk, TreesOk;
    NextChunk(h.mem, h.chunks, h.segs, h.top, h.topsize, a);
  }

  /** Every byte of a segment, up to its closing word, lies in exactly one chunk. */
  lemma {:induction false} ChunksTileSegment(h: Heap, i: nat, x: int) returns (a: int)
    requires h.Valid() && i < |h.segs| && h.segs[i].base <= x < h.segs[i].base + h.segs[i].size - 8
    ensures a in h.chunks && a <= x < a + h.chunks[a].size
    ensures forall b :: b in h.chunks && b <= x < b + h.chunks[b].size ==> b == a
  {
    hide TiledMem, AlignedOk, SmallIsTop, TopOk, Parted, SizesOk, SmallOk, TreesOk;
    assert SegmentOk(h.chunks, h.segs[i]);
    a := CoverFrom(h.chunks, h.segs, i, h.segs[i].base, x);
  }

  lemma {:induction false} CoverFrom(chunks: Chunks, segs: seq<Segment>, i: nat, a: int, x: int) returns (b: int)
    requires Shaped(chunks) && HeldOk(chunks, segs) && Linked(chunks, segs) && SegmentsApart(segs)
    requires i < |segs| && a in chunks && segs[i].base <= a <= x < segs[i].base + segs[i].size - 8
    ensures b in chunks && b <= x < b + chunks[b].size
    decreases x - a
  {
    var n := a + chunks[a].size;
    if x < n { return a; }
    RunGoesOn(chunks, segs, i, a);
    b := CoverFrom(chunks, segs, i, n, x);
  }

  /** A chunk is followed by another one unless it reaches the closing word of its segment. */
  lemma {:induction false} RunGoesOn(chunks: Chunks, segs: seq<Segment>, i: nat, a: int)
    requires Shaped(chunks) && HeldOk(chunks, segs) && Linked(chunks, segs) && SegmentsApart(segs)
    requires i < |segs| && a in chunks && segs[i].base <= a && a + 8 <= segs[i].base + segs[i].size
    ensures (a + chunks[a].size in chunks && !chunks[a].kind.Trailer?)
        || a + chunks[a].size >= segs[i].base + segs[i].size - 8
  {
    var n := a + chunks[a].size;
    assert LinkedAt(chunks, segs, a);
    if chunks[a].kind.Trailer? || n !in chunks {
      var slack := if chunks[a].kind.Trailer? then 0 else 8;
      var k :| 0 <= k < |segs| && InSegment(segs[k], a, n) && n + slack == segs[k].base + segs[k].size;
      SameSegment(segs, i, k, a);
    }
  }
}

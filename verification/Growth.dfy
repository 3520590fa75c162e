/** Growing the heap: a region granted by mmap is appended, prepended or becomes a segment of its own. */
module Growth {
  import opened AllocSizes
  import opened Tiling

  ghost predicate Apart(s: Segment, base: int, size: int) {
    s.base + s.size <= base || base + size <= s.base
  }

  /** A granted region: aligned, in the lower 2GB, and disjoint from every segment. */
  ghost predicate FreshRegion(segs: seq<Segment>, base: int, size: int) {
    && 0 < base && base % 8 == 0 && size % 8 == 0 && size > TOP_FOOT_SIZE && base + size <= MMAP_REGION_END
    && forall i :: 0 <= i < |segs| ==> Apart(segs[i], base, size)
  }

  /** No chunk touches a fresh region. */
  lemma {:induction false} ChunkApart(mem: Words, chunks: Chunks, segs: seq<Segment>, top: int, topsize: int,
      base: int, size: int)
    requires Sound(mem, chunks, segs, top, topsize) && FreshRegion(segs, base, size)
    ensures forall a :: a in chunks ==> a + chunks[a].size <= base || base + size <= a
  {
    hide TiledMem, AlignedOk, Linked, TopOk, SmallIsTop, Disjoint, SegmentsOk, SegmentsApart;
    forall a | a in chunks ensures a + chunks[a].size <= base || base + size <= a {
      var i :| 0 <= i < |segs| && InSegment(segs[i], a, a + Extent(chunks[a]));
      assert Apart(segs[i], base, size);
    }
  }

  // ---------------------------------------------------------------- append

  /** The segment found by the append test is the one whose end closes top's run. */
  lemma {:induction false} TopSegment(mem: Words, chunks: Chunks, segs: seq<Segment>, top: int, topsize: int, i: int)
    requires Sound(mem, chunks, segs, top, topsize) && 0 <= i < |segs|
    requires segs[i].base <= top < segs[i].base + segs[i].size
    ensures segs[i].base + segs[i].size == top + topsize + TOP_FOOT_SIZE
    ensures InSegment(segs[i], top, top + topsize + TOP_FOOT_SIZE)
  {
    hide TiledMem, AlignedOk, SmallIsTop, SegmentsOk, HeadsOk, FeetOk;
    var t := top + topsize;
    var j :| 0 <= j < |segs| && InSegment(segs[j], top, t + 8);
    if i < j {} else if j < i {}
    assert i == j;
    assert LinkedAt(chunks, segs, t);
    var k :| 0 <= k < |segs| && InSegment(segs[k], t, t + 64) && t + 64 == segs[k].base + segs[k].size;
    SameSegment(segs, j, k, t);
  }

  ghost predicate Appended(chunks: Chunks, chunks': Chunks, top: int, topsize: int, tsize: int) {
    && (forall a :: a in chunks' <==> (a in chunks && a != top + topsize) || a == top + topsize + tsize)
    && (forall a :: a in chunks && a != top && a != top + topsize ==> chunks'[a] == chunks[a])
    && top in chunks && top in chunks' && chunks'[top] == chunks[top].(size := topsize + tsize)
    && chunks'[top + topsize + tsize] == Chunk(TOP_FOOT_SIZE, false, false, Trailer)
  }

  /** The chunks after a region of tsize bytes joined top. */
  ghost function AppendTop(chunks: Chunks, top: int, topsize: int, tsize: int): (chunks': Chunks)
    requires top in chunks && tsize > 0 && topsize > 0 && top + topsize + tsize !in chunks
    ensures Appended(chunks, chunks', top, topsize, tsize)
  {
    map a | a in chunks.Keys - {top + topsize} + {top + topsize + tsize} ::
      if a == top then chunks[top].(size := topsize + tsize)
      else if a == top + topsize + tsize then Chunk(TOP_FOOT_SIZE, false, false, Trailer)
      else chunks[a]
  }

  lemma {:induction false} AppendTiled(mem: Words, chunks: Chunks, chunks': Chunks, segs: seq<Segment>, top: int,
      topsize: int, i: int, tsize: int)
    requires Sound(mem, chunks, segs, top, topsize) && 0 <= i < |segs|
    requires segs[i].base <= top < segs[i].base + segs[i].size
    requires FreshRegion(segs, segs[i].base + segs[i].size, tsize)
    requires Appended(chunks, chunks', top, topsize, tsize)
    ensures Tiled(chunks', segs[i := Segment(segs[i].base, segs[i].size + tsize)], top, topsize + tsize)
  {
    TopSegment(mem, chunks, segs, top, topsize, i);
    var end := segs[i].base + segs[i].size;
    ChunkApart(mem, chunks, segs, top, topsize, end, tsize);
    TopChunk(mem, chunks, segs, top, topsize);
    var segs' := segs[i := Segment(segs[i].base, segs[i].size + tsize)];
    AppendShape(mem, chunks, chunks', segs, top, topsize, i, tsize);
    AppendHeld(chunks, chunks', segs, segs', top, topsize, i, tsize);
    AppendSegments(chunks, chunks', segs, segs', top, topsize, i, tsize);
    AppendLinked(mem, chunks, chunks', segs, segs', top, topsize, i, tsize);
    hide Appended, TiledMem, HeldOk, Linked, AlignedOk, Shaped, Disjoint, SmallIsTop, TopOk;
    assert SegmentsApart(segs') by {
      forall a, b | 0 <= a < b < |segs'|
        ensures segs'[a].base + segs'[a].size <= segs'[b].base || segs'[b].base + segs'[b].size <= segs'[a].base {
        assert SegmentOk(chunks, segs[a]) && SegmentOk(chunks, segs[b]);
        if a == i { assert Apart(segs[b], end, tsize); }
        if b == i { assert Apart(segs[a], end, tsize); }
      }
    }
  }

  lemma {:induction false} AppendShape(mem: Words, chunks: Chunks, chunks': Chunks, segs: seq<Segment>, top: int,
      topsize: int, i: int, tsize: int)
    requires Sound(mem, chunks, segs, top, topsize) && 0 <= i < |segs|
    requires FreshRegion(segs, segs[i].base + segs[i].size, tsize)
    requires segs[i].base + segs[i].size == top + topsize + TOP_FOOT_SIZE
    requires forall a :: a in chunks ==>
        a + chunks[a].size <= top + topsize + TOP_FOOT_SIZE || top + topsize + TOP_FOOT_SIZE + tsize <= a
    requires Appended(chunks, chunks', top, topsize, tsize)
    ensures AlignedOk(chunks') && Shaped(chunks') && Disjoint(chunks') && SmallIsTop(chunks', top)
    ensures TopOk(chunks', top, topsize + tsize)
  {
    hide TiledMem, HeldOk, Linked, SegmentsOk, SegmentsApart, Disjoint, AlignedOk, Shaped, SmallIsTop, Appended;
    assert chunks[top + topsize].size == TOP_FOOT_SIZE by { TopChunk(mem, chunks, segs, top, topsize); }
    AppendAligned(chunks, chunks', top, topsize, tsize);
    AppendDisjoint(chunks, chunks', top, topsize, tsize);
  }

  lemma {:induction false} AppendAligned(chunks: Chunks, chunks': Chunks, top: int, topsize: int, tsize: int)
    requires AlignedOk(chunks) && Shaped(chunks) && SmallIsTop(chunks, top) && TopOk(chunks, top, topsize)
    requires Appended(chunks, chunks', top, topsize, tsize) && tsize > 0 && tsize % 8 == 0
    requires top + topsize + TOP_FOOT_SIZE + tsize <= MMAP_REGION_END
    ensures AlignedOk(chunks') && Shaped(chunks') && SmallIsTop(chunks', top) && TopOk(chunks', top, topsize + tsize)
  {
    AppendMultiples(chunks, chunks', top, topsize, tsize);
    hide AlignedOk;
    forall a | a in chunks' ensures a > 0 && ChunkOk(chunks'[a]) && a + chunks'[a].size <= MMAP_REGION_END {
      if a == top { assert ChunkOk(chunks[top]); }
    }
    assert SmallIsTop(chunks', top);
    hide Shaped, SmallIsTop, ChunkOk;
  }

  lemma {:induction false} AppendMultiples(chunks: Chunks, chunks': Chunks, top: int, topsize: int, tsize: int)
    requires AlignedOk(chunks) && TopOk(chunks, top, topsize) && Appended(chunks, chunks', top, topsize, tsize)
    requires tsize % 8 == 0
    ensures AlignedOk(chunks')
  {
    assert Mult8(tsize) && Mult8(TOP_FOOT_SIZE);
    hide Mult8;
    Mult8Sums(topsize, tsize);
    Mult8Sums(top, topsize + tsize);
  }

  lemma {:induction false} AppendDisjoint(chunks: Chunks, chunks': Chunks, top: int, topsize: int, tsize: int)
    requires Disjoint(chunks) && TopOk(chunks, top, topsize) && Shaped(chunks)
    requires chunks[top + topsize].size == TOP_FOOT_SIZE
    requires Appended(chunks, chunks', top, topsize, tsize) && tsize > 0
    requires forall a :: a in chunks ==>
        a + chunks[a].size <= top + topsize + TOP_FOOT_SIZE || top + topsize + TOP_FOOT_SIZE + tsize <= a
    ensures Disjoint(chunks')
  {
  }

  lemma {:induction false} AppendHeld(chunks: Chunks, chunks': Chunks, segs: seq<Segment>, segs': seq<Segment>,
      top: int, topsize: int, i: int, tsize: int)
    requires HeldOk(chunks, segs) && TopOk(chunks, top, topsize)
    requires 0 <= i < |segs| && tsize > 0 && segs[i].base <= top && topsize >= 0
    requires segs' == segs[i := Segment(segs[i].base, segs[i].size + tsize)]
    requires segs[i].base + segs[i].size == top + topsize + TOP_FOOT_SIZE
    requires Appended(chunks, chunks', top, topsize, tsize)
    ensures HeldOk(chunks', segs')
  {
    forall a | a in chunks' ensures Held(segs', a, a + Extent(chunks'[a])) {
      if a == top || a == top + topsize + tsize {
        assert InSegment(segs'[i], a, a + Extent(chunks'[a]));
      } else {
        var j :| 0 <= j < |segs| && InSegment(segs[j], a, a + Extent(chunks[a]));
        assert InSegment(segs'[j], a, a + Extent(chunks[a]));
      }
    }
  }

  lemma {:induction false} AppendSegments(chunks: Chunks, chunks': Chunks, segs: seq<Segment>, segs': seq<Segment>,
      top: int, topsize: int, i: int, tsize: int)
    requires SegmentsOk(chunks, segs) && 0 <= i < |segs| && tsize > 0 && tsize % 8 == 0
    requires segs' == segs[i := Segment(segs[i].base, segs[i].size + tsize)]
    requires Appended(chunks, chunks', top, topsize, tsize) && top + topsize in chunks && !chunks[top + topsize].pinuse
    ensures SegmentsOk(chunks', segs')
  {
    forall s | s in segs' ensures SegmentOk(chunks', s) {
      var j :| 0 <= j < |segs'| && segs'[j] == s;
      assert segs[j] in segs;
      assert SegmentOk(chunks, segs[j]);
    }
  }

  lemma {:induction false} AppendLinked(mem: Words, chunks: Chunks, chunks': Chunks, segs: seq<Segment>,
      segs': seq<Segment>, top: int, topsize: int, i: int, tsize: int)
    requires Sound(mem, chunks, segs, top, topsize) && 0 <= i < |segs| && tsize > 0 && segs[i].base <= top
    requires topsize >= 0
    requires segs' == segs[i := Segment(segs[i].base, segs[i].size + tsize)]
    requires segs[i].base + segs[i].size == top + topsize + TOP_FOOT_SIZE
    requires Appended(chunks, chunks', top, topsize, tsize)
    requires forall a :: a in chunks ==>
        a + chunks[a].size <= top + topsize + TOP_FOOT_SIZE || top + topsize + TOP_FOOT_SIZE + tsize <= a
    ensures Linked(chunks', segs')
  {
    hide TiledMem, HeldOk, AlignedOk, SegmentsOk;
    forall a | a in chunks' ensures LinkedAt(chunks', segs', a) {
      if a == top + topsize + tsize {
        assert InSegment(segs'[i], a, a + TOP_FOOT_SIZE);
      } else if a != top {
        assert LinkedAt(chunks, segs, a);
        var n := a + chunks[a].size;
        assert !chunks[a].kind.Trailer?;
        assert n != top + topsize by { if a < top { assert n <= top; } else { assert top + topsize <= a; } }
        if n !in chunks {
          var j :| 0 <= j < |segs| && InSegment(segs[j], a, n) && n + 8 == segs[j].base + segs[j].size;
          assert j != i;
          assert InSegment(segs'[j], a, n);
        }
      }
    }
  }

  ghost predicate AppendWords(mem: Words, mem': Words, top: int, topsize: int, tsize: int) {
    mem' == mem[top + 8 := Pack(topsize + tsize, true, false)][top + topsize + tsize + 8 := Pack(TOP_FOOT_SIZE, false,
        false)]
  }

  lemma {:induction false} AppendHeads(mem: Words, mem': Words, chunks: Chunks, chunks': Chunks, top: int,
      topsize: int, tsize: int)
    requires HeadsOk(mem, chunks) && TopOk(chunks, top, topsize) && chunks[top].pinuse
    requires Appended(chunks, chunks', top, topsize, tsize) && AppendWords(mem, mem', top, topsize, tsize)
    ensures HeadsOk(mem', chunks')
  {
    hide Pack;
  }

  lemma {:induction false} AppendFeet(mem: Words, mem': Words, chunks: Chunks, chunks': Chunks, top: int, topsize: int,
      tsize: int)
    requires FeetOk(mem, chunks) && Disjoint(chunks) && TopOk(chunks, top, topsize) && Shaped(chunks) && tsize > 0
    requires Appended(chunks, chunks', top, topsize, tsize) && AppendWords(mem, mem', top, topsize, tsize)
    requires forall a :: a in chunks ==>
        a + chunks[a].size <= top + topsize + TOP_FOOT_SIZE || top + topsize + TOP_FOOT_SIZE + tsize <= a
    ensures FeetOk(mem', chunks')
  {
    hide Pack;
    forall b | b in chunks' && !chunks'[b].pinuse && !chunks'[b].kind.Trailer? ensures FootAt(mem', chunks', b) {
      assert FootAt(mem, chunks, b);
      assert b - Rd(mem, b) != top;
      if top < b { assert top + topsize <= b; }
      assert b != top + 8 && b != top + topsize + tsize + 8;
    }
  }

  lemma {:induction false} AppendPayload(mem: Words, mem': Words, chunks: Chunks, top: int, topsize: int, tsize: int,
      a: int)
    requires Disjoint(chunks) && Shaped(chunks) && TopOk(chunks, top, topsize)
    requires AppendWords(mem, mem', top, topsize, tsize)
    requires a in chunks && a != top && a != top + topsize && tsize > 0
    requires a + chunks[a].size <= top + topsize + TOP_FOOT_SIZE || top + topsize + TOP_FOOT_SIZE + tsize <= a
    ensures PayloadKept(mem, mem', a, chunks[a].size)
  {
    if a < top { assert a + chunks[a].size <= top; }
    else { assert top + topsize <= a; assert top + topsize + TOP_FOOT_SIZE <= a; }
  }

  /** Appending a region to the segment of top keeps the heap sound and every payload. */
  lemma {:induction false} AppendSound(mem: Words, mem': Words, chunks: Chunks, chunks': Chunks, segs: seq<Segment>,
      top: int, topsize: int, i: int, tsize: int)
    requires Sound(mem, chunks, segs, top, topsize) && 0 <= i < |segs|
    requires segs[i].base <= top < segs[i].base + segs[i].size
    requires FreshRegion(segs, segs[i].base + segs[i].size, tsize)
    requires Appended(chunks, chunks', top, topsize, tsize) && AppendWords(mem, mem', top, topsize, tsize)
    ensures Sound(mem', chunks', segs[i := Segment(segs[i].base, segs[i].size + tsize)], top, topsize + tsize)
    ensures forall a :: a in chunks && a != top && a != top + topsize ==> PayloadKept(mem, mem', a, chunks[a].size)
  {
    hide Linked, HeldOk, AlignedOk, SegmentsOk, SegmentsApart, SmallIsTop, TopOk, Disjoint, Shaped, HeadsOk, FeetOk;
    hide AppendWords, Appended, PayloadKept;
    AppendTiled(mem, chunks, chunks', segs, top, topsize, i, tsize);
    TopSegment(mem, chunks, segs, top, topsize, i);
    ChunkApart(mem, chunks, segs, top, topsize, segs[i].base + segs[i].size, tsize);
    TopChunk(mem, chunks, segs, top, topsize);
    AppendHeads(mem, mem', chunks, chunks', top, topsize, tsize);
    AppendFeet(mem, mem', chunks, chunks', top, topsize, tsize);
    forall a | a in chunks && a != top && a != top + topsize ensures PayloadKept(mem, mem', a, chunks[a].size) {
      AppendPayload(mem, mem', chunks, top, topsize, tsize, a);
    }
  }

  // ---------------------------------------------------------------- prepend

  /** A region put in front of segment j, seen as one chunk in use, keeps the heap sound and every payload. */
  lemma {:induction false} FrontSound(mem: Words, chunks: Chunks, segs: seq<Segment>, top: int, topsize: int, j: int,
      tbase: int, tsize: int)
    requires Sound(mem, chunks, segs, top, topsize) && 0 <= j < |segs|
    requires FreshRegion(segs, tbase, tsize) && segs[j].base == tbase + tsize
    ensures Sound(mem[tbase + 8 := Pack(tsize, true, true)], chunks[tbase := Chunk(tsize, true, true, Normal)],
                  segs[j := Segment(tbase, segs[j].size + tsize)], top, topsize)
    ensures forall a :: a in chunks ==> PayloadKept(mem, mem[tbase + 8 := Pack(tsize, true, true)], a, chunks[a].size)
    ensures tbase !in chunks && tbase + tsize in chunks && chunks[tbase + tsize].pinuse
  {
    hide Linked, HeldOk, AlignedOk, SegmentsApart, SmallIsTop, TopOk, Disjoint, HeadsOk, FeetOk, Pack;
    ChunkApart(mem, chunks, segs, top, topsize, tbase, tsize);
    assert SegmentOk(chunks, segs[j]);
    var chunks' := chunks[tbase := Chunk(tsize, true, true, Normal)];
    var mem' := mem[tbase + 8 := Pack(tsize, true, true)];
    var segs' := segs[j := Segment(tbase, segs[j].size + tsize)];
    FrontShape(chunks, chunks', top, topsize, tbase, tsize);
    FrontMem(mem, mem', chunks, chunks', top, topsize, tbase, tsize);
    FrontHeld(chunks, chunks', segs, segs', j, tbase, tsize);
    FrontLinked(chunks, chunks', segs, segs', j, tbase, tsize);
    FrontApart(chunks, segs, segs', j, tbase, tsize);
  }

  ghost predicate ClearOf(chunks: Chunks, tbase: int, tsize: int) {
    forall a :: a in chunks ==> a + chunks[a].size <= tbase || tbase + tsize <= a
  }

  lemma {:induction false} FrontShape(chunks: Chunks, chunks': Chunks, top: int, topsize: int, tbase: int, tsize: int)
    requires Shaped(chunks) && AlignedOk(chunks) && Disjoint(chunks) && SmallIsTop(chunks, top)
    requires TopOk(chunks, top, topsize)
    requires ClearOf(chunks, tbase, tsize) && tbase > 0 && tbase % 8 == 0 && tsize % 8 == 0 && tsize >= 64
    requires tbase + tsize <= MMAP_REGION_END
    requires chunks' == chunks[tbase := Chunk(tsize, true, true, Normal)]
    ensures Shaped(chunks') && AlignedOk(chunks') && Disjoint(chunks') && SmallIsTop(chunks', top)
    ensures TopOk(chunks', top, topsize)
  {
    FrontChunk(chunks, chunks', top, tbase, tsize);
    hide AlignedOk, SmallIsTop;
    FrontDisjoint(chunks, chunks', tbase, tsize);
    hide Disjoint;
    assert tbase != top && tbase != top + topsize;
    hide Shaped, ClearOf;
  }

  lemma {:induction false} FrontChunk(chunks: Chunks, chunks': Chunks, top: int, tbase: int, tsize: int)
    requires Shaped(chunks) && AlignedOk(chunks) && SmallIsTop(chunks, top)
    requires tbase > 0 && tbase % 8 == 0 && tsize % 8 == 0 && tsize >= 64 && tbase + tsize <= MMAP_REGION_END
    requires chunks' == chunks[tbase := Chunk(tsize, true, true, Normal)]
    ensures Shaped(chunks') && AlignedOk(chunks') && SmallIsTop(chunks', top)
  {
  }

  lemma {:induction false} FrontDisjoint(chunks: Chunks, chunks': Chunks, tbase: int, tsize: int)
    requires Disjoint(chunks) && ClearOf(chunks, tbase, tsize) && Shaped(chunks) && tsize > 0
    requires chunks' == chunks[tbase := Chunk(tsize, true, true, Normal)]
    ensures Disjoint(chunks')
  {
    forall a, b | a in chunks' && b in chunks' && a < b ensures a + chunks'[a].size <= b {
      if b == tbase { assert a in chunks; }
      else if a == tbase { assert b + chunks[b].size <= tbase || tbase + tsize <= b; }
    }
  }

  lemma {:induction false} FrontMem(mem: Words, mem': Words, chunks: Chunks, chunks': Chunks, top: int, topsize: int,
      tbase: int, tsize: int)
    requires Shaped(chunks) && HeadsOk(mem, chunks) && FeetOk(mem, chunks) && ClearOf(chunks, tbase, tsize)
    requires tsize >= 64
    requires chunks' == chunks[tbase := Chunk(tsize, true, true, Normal)]
    requires mem' == mem[tbase + 8 := Pack(tsize, true, true)]
    ensures TiledMem(mem', chunks')
    ensures forall a :: a in chunks ==> PayloadKept(mem, mem', a, chunks[a].size)
  {
    hide Pack;
    forall b | b in chunks' && !chunks'[b].pinuse && !chunks'[b].kind.Trailer? ensures FootAt(mem', chunks', b) {
      assert FootAt(mem, chunks, b);
    }
  }

  lemma {:induction false} FrontHeld(chunks: Chunks, chunks': Chunks, segs: seq<Segment>, segs': seq<Segment>, j: int,
      tbase: int, tsize: int)
    requires HeldOk(chunks, segs) && SegmentsOk(chunks, segs) && 0 <= j < |segs| && segs[j].base == tbase + tsize
    requires tbase > 0 && tbase % 8 == 0 && tsize % 8 == 0 && tsize >= 64 && tbase !in chunks
    requires chunks' == chunks[tbase := Chunk(tsize, true, true, Normal)]
    requires segs' == segs[j := Segment(tbase, segs[j].size + tsize)]
    ensures HeldOk(chunks', segs') && SegmentsOk(chunks', segs')
  {
    assert segs[j] in segs;
    assert SegmentOk(chunks, segs[j]);
    forall a | a in chunks' ensures Held(segs', a, a + Extent(chunks'[a])) {
      if a == tbase {
        assert InSegment(segs'[j], a, a + Extent(chunks'[a]));
      } else {
        var k :| 0 <= k < |segs| && InSegment(segs[k], a, a + Extent(chunks[a]));
        assert InSegment(segs'[k], a, a + Extent(chunks[a]));
      }
    }
    forall s | s in segs' ensures SegmentOk(chunks', s) {
      var k :| 0 <= k < |segs'| && segs'[k] == s;
      assert segs[k] in segs;
      assert SegmentOk(chunks, segs[k]);
    }
  }

  lemma {:induction false} FrontLinked(chunks: Chunks, chunks': Chunks, segs: seq<Segment>, segs': seq<Segment>,
      j: int, tbase: int, tsize: int)
    requires Linked(chunks, segs) && 0 <= j < |segs| && segs[j].base == tbase + tsize && tsize > 0
    requires ClearOf(chunks, tbase, tsize) && tbase + tsize in chunks && chunks[tbase + tsize].pinuse
    requires forall k :: 0 <= k < |segs| ==> Apart(segs[k], tbase, tsize)
    requires Shaped(chunks) && HeldOk(chunks, segs)
    requires chunks' == chunks[tbase := Chunk(tsize, true, true, Normal)]
    requires segs' == segs[j := Segment(tbase, segs[j].size + tsize)]
    ensures Linked(chunks', segs')
  {
    forall a | a in chunks' ensures LinkedAt(chunks', segs', a) {
      if a != tbase {
        assert LinkedAt(chunks, segs, a);
        var n := a + chunks[a].size;
        if chunks[a].kind.Trailer? {
          var k :| 0 <= k < |segs| && InSegment(segs[k], a, n) && n + 0 == segs[k].base + segs[k].size;
          assert InSegment(segs'[k], a, n);
        } else if n !in chunks {
          var k :| 0 <= k < |segs| && InSegment(segs[k], a, n) && n + 8 == segs[k].base + segs[k].size;
          assert Apart(segs[k], tbase, tsize);
          assert InSegment(segs'[k], a, n);
        } else {
          assert n != tbase;
        }
      }
    }
  }

  lemma {:induction false} FrontApart(chunks: Chunks, segs: seq<Segment>, segs': seq<Segment>, j: int, tbase: int,
      tsize: int)
    requires SegmentsApart(segs) && SegmentsOk(chunks, segs) && 0 <= j < |segs| && segs[j].base == tbase + tsize
    requires tsize > 0
    requires forall k :: 0 <= k < |segs| ==> Apart(segs[k], tbase, tsize)
    requires segs' == segs[j := Segment(tbase, segs[j].size + tsize)]
    ensures SegmentsApart(segs')
  {
    forall a, b | 0 <= a < b < |segs'|
      ensures segs'[a].base + segs'[a].size <= segs'[b].base || segs'[b].base + segs'[b].size <= segs'[a].base {
      assert SegmentOk(chunks, segs[a]) && SegmentOk(chunks, segs[b]);
      assert Apart(segs[a], tbase, tsize) && Apart(segs[b], tbase, tsize);
    }
  }

  // ---------------------------------------------------------------- a segment of its own

  /** Where add_segment puts the record of the old segment: over top if top is too small to be a chunk. */
  function RecordAt(top: int, topsize: int): int {
    if topsize < MIN_CHUNK_SIZE then top else top + topsize
  }

  ghost predicate IsFence(a: int, csp: int, end: int) {
    csp + 32 <= a <= end - 16 && a % 8 == 0
  }

  /** The chunks after add_segment: record and fenceposts close the old segment, top moves to the new one. */
  ghost function Opened(chunks: Chunks, top: int, topsize: int, tbase: int, tsize: int): Chunks {
    var csp := RecordAt(top, topsize);
    var end := top + topsize + TOP_FOOT_SIZE;
    var t' := tbase + tsize - TOP_FOOT_SIZE;
    map a | a in chunks.Keys + {csp, tbase, t'} + (set x | csp + 32 <= x <= end - 16 && x % 8 == 0)
            && (a != top + topsize || a == csp) ::
      if a == csp then Chunk(32, csp == top, true, Normal)
      else if a == tbase then Chunk(tsize - TOP_FOOT_SIZE, true, false, Normal)
      else if a == t' then Chunk(TOP_FOOT_SIZE, false, false, Trailer)
      else if IsFence(a, csp, end) then Chunk(SIZE_T_SIZE, true, true, Fence)
      else chunks[a]
  }

  /** The situation in which add_segment is called. */
  ghost predicate CanOpen(chunks: Chunks, top: int, topsize: int, tbase: int, tsize: int) {
    && Shaped(chunks) && AlignedOk(chunks) && Disjoint(chunks) && TopOk(chunks, top, topsize) && chunks[top].pinuse
    && ClearOf(chunks, tbase, tsize)
    && tbase > 0 && tbase % 8 == 0 && tsize % 8 == 0 && tsize > TOP_FOOT_SIZE && tbase + tsize <= MMAP_REGION_END
  }

  /** What Opened means, without its comprehension. */
  ghost predicate OpenedAs(chunks: Chunks, c': Chunks, top: int, topsize: int, tbase: int, tsize: int) {
    var csp := RecordAt(top, topsize);
    var end := top + topsize + TOP_FOOT_SIZE;
    && csp in c' && c'[csp] == Chunk(32, csp == top, true, Normal)
    && tbase in c' && c'[tbase] == Chunk(tsize - TOP_FOOT_SIZE, true, false, Normal)
    && tbase + tsize - TOP_FOOT_SIZE in c' && c'[tbase + tsize - TOP_FOOT_SIZE] == Chunk(TOP_FOOT_SIZE, false, false,
        Trailer)
    && (forall a :: IsFence(a, csp, end) ==> a in c' && c'[a] == Chunk(SIZE_T_SIZE, true, true, Fence))
    && (forall a :: a in chunks && (a < csp || end <= a) ==> a in c' && c'[a] == chunks[a])
    && (forall a :: a in c' ==>
          (a == csp || IsFence(a, csp, end) || a == tbase || a == tbase + tsize - TOP_FOOT_SIZE
          || (a in chunks && (a < csp || end <= a))))
  }

  lemma {:induction false} OpenedMeans(chunks: Chunks, top: int, topsize: int, tbase: int, tsize: int)
    requires CanOpen(chunks, top, topsize, tbase, tsize)
    ensures OpenedAs(chunks, Opened(chunks, top, topsize, tbase, tsize), top, topsize, tbase, tsize)
  {
    OpenApart(chunks, top, topsize, tbase, tsize);
    hide AlignedOk, Shaped, Disjoint, ClearOf, TopOk;
  }

  /** The old top, the record and the fenceposts lie clear of the new region and of the other chunks. */
  lemma {:induction false} OpenApart(chunks: Chunks, top: int, topsize: int, tbase: int, tsize: int)
    requires CanOpen(chunks, top, topsize, tbase, tsize)
    ensures var csp, t := RecordAt(top, topsize), top + topsize;
      && (t + TOP_FOOT_SIZE <= tbase || tbase + tsize <= top) && top <= csp && csp + 32 <= t + TOP_FOOT_SIZE
      && (forall a :: a in chunks ==> a < csp || t + TOP_FOOT_SIZE <= a || a == t || a == csp)
      && (forall a :: a in chunks ==> a < tbase || tbase + tsize <= a)
  {
    var csp := RecordAt(top, topsize);
    var t := top + topsize;
    assert t in chunks;
    forall a | a in chunks ensures a < csp || t + TOP_FOOT_SIZE <= a || a == t || a == csp {
      if top < a && a != t { assert t <= a; assert t + TOP_FOOT_SIZE <= a; }
    }
  }

  lemma {:induction false} OpenedShape(chunks: Chunks, c': Chunks, top: int, topsize: int, tbase: int, tsize: int)
    requires CanOpen(chunks, top, topsize, tbase, tsize) && OpenedAs(chunks, c', top, topsize, tbase, tsize)
    requires SmallIsTop(chunks, top)
    ensures Shaped(c') && AlignedOk(c') && SmallIsTop(c', tbase) && TopOk(c', tbase, tsize - TOP_FOOT_SIZE)
  {
    OpenedAligned(chunks, c', top, topsize, tbase, tsize);
    OpenedTop(chunks, c', top, topsize, tbase, tsize);
    OpenedSmall(chunks, c', top, topsize, tbase, tsize);
    hide CanOpen, OpenedAs, AlignedOk, SmallIsTop, TopOk;
    forall a | a in c' ensures a > 0 && ChunkOk(c'[a]) && a + c'[a].size <= MMAP_REGION_END {
      OpenedShapeAt(chunks, c', top, topsize, tbase, tsize, a);
    }
  }

  lemma {:induction false} OpenedAligned(chunks: Chunks, c': Chunks, top: int, topsize: int, tbase: int, tsize: int)
    requires CanOpen(chunks, top, topsize, tbase, tsize) && OpenedAs(chunks, c', top, topsize, tbase, tsize)
    ensures AlignedOk(c')
  {
    assert Mult8(32) && Mult8(SIZE_T_SIZE) && Mult8(TOP_FOOT_SIZE) && Mult8(tbase) && Mult8(tsize);
    var csp := RecordAt(top, topsize);
    assert forall a :: IsFence(a, csp, top + topsize + TOP_FOOT_SIZE) ==> Mult8(a);
    hide Disjoint, Shaped, ClearOf, Mult8, IsFence;
    assert top + topsize in chunks;
    Mult8Sums(tsize, TOP_FOOT_SIZE);
    Mult8Sums(tbase, tsize - TOP_FOOT_SIZE);
    assert Mult8(csp);
    hide TopOk;
  }

  lemma {:induction false} OpenedTop(chunks: Chunks, c': Chunks, top: int, topsize: int, tbase: int, tsize: int)
    requires CanOpen(chunks, top, topsize, tbase, tsize) && OpenedAs(chunks, c', top, topsize, tbase, tsize)
    ensures TopOk(c', tbase, tsize - TOP_FOOT_SIZE)
  {
    hide Disjoint, AlignedOk, ClearOf;
    assert top + topsize in chunks;
    assert chunks[top + topsize].size == TOP_FOOT_SIZE;
    hide Shaped;
    forall a | a in c' && c'[a].kind.Trailer? ensures a == tbase + tsize - TOP_FOOT_SIZE {
      assert RecordAt(top, topsize) <= top + topsize;
    }
  }

  lemma {:induction false} OpenedSmall(chunks: Chunks, c': Chunks, top: int, topsize: int, tbase: int, tsize: int)
    requires CanOpen(chunks, top, topsize, tbase, tsize) && OpenedAs(chunks, c', top, topsize, tbase, tsize)
    requires SmallIsTop(chunks, top)
    ensures SmallIsTop(c', tbase)
  {
    hide Disjoint, AlignedOk, ClearOf, Shaped;
    forall a | a in c' && c'[a].kind.Normal? && a != tbase ensures c'[a].size >= MIN_CHUNK_SIZE {
      if a == top && a != RecordAt(top, topsize) { assert c'[a] == chunks[top]; }
    }
  }

  lemma {:induction false} OpenedShapeAt(chunks: Chunks, c': Chunks, top: int, topsize: int, tbase: int, tsize: int,
      a: int)
    requires CanOpen(chunks, top, topsize, tbase, tsize) && OpenedAs(chunks, c', top, topsize, tbase, tsize) && a in c'
    ensures a > 0 && ChunkOk(c'[a]) && a + c'[a].size <= MMAP_REGION_END
  {
    hide Disjoint, AlignedOk, ClearOf;
    assert top in chunks && top + topsize in chunks && topsize >= 8;
    assert top + topsize + TOP_FOOT_SIZE <= MMAP_REGION_END;
  }

  lemma {:induction false} OpenedDisjoint(chunks: Chunks, c': Chunks, top: int, topsize: int, tbase: int, tsize: int)
    requires CanOpen(chunks, top, topsize, tbase, tsize) && OpenedAs(chunks, c', top, topsize, tbase, tsize)
    ensures Disjoint(c')
  {
    OpenedNear(chunks, c', top, topsize, tbase, tsize);
    hide AlignedOk, Shaped, TopOk;
    forall a, b | a in c' && b in c' && a < b ensures a + c'[a].size <= b {
      OpenedDisjointAt(chunks, c', top, topsize, tbase, tsize, a, b);
    }
  }

  /** Which chunks other than the new ones lie where. */
  lemma {:induction false} OpenedNear(chunks: Chunks, c': Chunks, top: int, topsize: int, tbase: int, tsize: int)
    requires CanOpen(chunks, top, topsize, tbase, tsize) && OpenedAs(chunks, c', top, topsize, tbase, tsize)
    ensures topsize >= 8 && ClearBelow(chunks, RecordAt(top, topsize))
    ensures top + topsize + TOP_FOOT_SIZE <= tbase || tbase + tsize <= top
  {
    hide AlignedOk, OpenedAs;
    var t := top + topsize;
    assert t in chunks && chunks[t].size == TOP_FOOT_SIZE;
    forall a | a in chunks && a < RecordAt(top, topsize) ensures a + chunks[a].size <= RecordAt(top, topsize) {
      if a < top { assert a + chunks[a].size <= top; }
    }
  }

  ghost predicate ClearBelow(chunks: Chunks, csp: int) {
    forall a :: a in chunks && a < csp ==> a + chunks[a].size <= csp
  }

  lemma {:induction false} OpenedDisjointAt(chunks: Chunks, c': Chunks, top: int, topsize: int, tbase: int, tsize: int,
      a: int, b: int)
    requires CanOpen(chunks, top, topsize, tbase, tsize) && OpenedAs(chunks, c', top, topsize, tbase, tsize)
    requires topsize >= 8 && ClearBelow(chunks, RecordAt(top, topsize))
    requires top + topsize + TOP_FOOT_SIZE <= tbase || tbase + tsize <= top
    requires a in c' && b in c' && a < b
    ensures a + c'[a].size <= b
  {
    hide AlignedOk, TopOk;
    var csp := RecordAt(top, topsize);
    if a == csp {
    } else if IsFence(a, csp, top + topsize + TOP_FOOT_SIZE) {
    } else if a == tbase {
    } else if a == tbase + tsize - TOP_FOOT_SIZE {
    } else {
      assert a in chunks && c'[a] == chunks[a];
    }
  }

  lemma {:induction false} OpenedHeld(chunks: Chunks, c': Chunks, segs: seq<Segment>, segs': seq<Segment>, top: int,
      topsize: int, tbase: int, tsize: int, i: int)
    requires CanOpen(chunks, top, topsize, tbase, tsize) && OpenedAs(chunks, c', top, topsize, tbase, tsize)
    requires HeldOk(chunks, segs) && 0 <= i < |segs| && InSegment(segs[i], top, top + topsize + TOP_FOOT_SIZE)
    requires segs' == [Segment(tbase, tsize)] + segs
    ensures HeldOk(c', segs')
  {
    hide CanOpen, OpenedAs, Held;
    forall a | a in c' ensures Held(segs', a, a + Extent(c'[a])) {
      if a in chunks { assert Held(segs, a, a + Extent(chunks[a])); }
      OpenedHeldAt(chunks, c', segs, segs', top, topsize, tbase, tsize, i, a);
    }
  }

  lemma {:induction false} OpenedHeldAt(chunks: Chunks, c': Chunks, segs: seq<Segment>, segs': seq<Segment>, top: int,
      topsize: int, tbase: int, tsize: int, i: int, a: int)
    requires CanOpen(chunks, top, topsize, tbase, tsize) && OpenedAs(chunks, c', top, topsize, tbase, tsize)
    requires 0 <= i < |segs| && InSegment(segs[i], top, top + topsize + TOP_FOOT_SIZE)
    requires segs' == [Segment(tbase, tsize)] + segs && a in c'
    requires a in chunks ==> Held(segs, a, a + Extent(chunks[a]))
    ensures Held(segs', a, a + Extent(c'[a]))
  {
    hide Disjoint, AlignedOk, ClearOf;
    assert segs'[i + 1] == segs[i] && segs'[0] == Segment(tbase, tsize);
    assert top + topsize in chunks && chunks[top].size == topsize;
    if a == tbase || a == tbase + tsize - TOP_FOOT_SIZE {
      assert InSegment(segs'[0], a, a + Extent(c'[a]));
    } else if a == RecordAt(top, topsize) || IsFence(a, RecordAt(top, topsize), top + topsize + TOP_FOOT_SIZE) {
      assert InSegment(segs'[i + 1], a, a + Extent(c'[a]));
    } else {
      var k :| 0 <= k < |segs| && InSegment(segs[k], a, a + Extent(chunks[a]));
      assert segs'[k + 1] == segs[k];
      assert InSegment(segs'[k + 1], a, a + Extent(c'[a]));
    }
  }

  lemma {:induction false} OpenedSegments(chunks: Chunks, c': Chunks, segs: seq<Segment>, segs': seq<Segment>,
      top: int, topsize: int, tbase: int, tsize: int)
    requires CanOpen(chunks, top, topsize, tbase, tsize) && OpenedAs(chunks, c', top, topsize, tbase, tsize)
    requires SegmentsOk(chunks, segs) && SegmentsApart(segs)
    requires forall k :: 0 <= k < |segs| ==> Apart(segs[k], tbase, tsize)
    requires segs' == [Segment(tbase, tsize)] + segs
    ensures SegmentsOk(c', segs') && SegmentsApart(segs')
  {
    hide AlignedOk, ClearOf;
    var t := top + topsize;
    assert t in chunks && !chunks[t].pinuse;
    forall s | s in segs' ensures SegmentOk(c', s) {
      if s in segs {
        assert SegmentOk(chunks, s);
        if top < s.base { assert t <= s.base; assert s.base != t; assert t + chunks[t].size <= s.base; }
      }
    }
    forall a, b | 0 <= a < b < |segs'|
      ensures segs'[a].base + segs'[a].size <= segs'[b].base || segs'[b].base + segs'[b].size <= segs'[a].base {
      assert segs'[b] == segs[b - 1];
      assert Apart(segs[b - 1], tbase, tsize);
      if a > 0 { assert segs'[a] == segs[a - 1]; }
    }
  }

  lemma {:induction false} OpenedLinked(chunks: Chunks, c': Chunks, segs: seq<Segment>, segs': seq<Segment>, top: int,
      topsize: int, tbase: int, tsize: int, i: int)
    requires CanOpen(chunks, top, topsize, tbase, tsize) && OpenedAs(chunks, c', top, topsize, tbase, tsize)
    requires Linked(chunks, segs) && 0 <= i < |segs| && InSegment(segs[i], top, top + topsize + TOP_FOOT_SIZE)
    requires segs[i].base + segs[i].size == top + topsize + TOP_FOOT_SIZE
    requires segs' == [Segment(tbase, tsize)] + segs
    requires SegmentsOk(chunks, segs) && HeldOk(chunks, segs)
    requires forall k :: 0 <= k < |segs| ==> Apart(segs[k], tbase, tsize)
    ensures Linked(c', segs')
  {
    forall a | a in c' ensures LinkedAt(c', segs', a) {
      OpenedLinkedAt(chunks, c', segs, segs', top, topsize, tbase, tsize, i, a);
    }
  }

  lemma {:induction false} OpenedLinkedAt(chunks: Chunks, c': Chunks, segs: seq<Segment>, segs': seq<Segment>,
      top: int, topsize: int, tbase: int, tsize: int, i: int, a: int)
    requires CanOpen(chunks, top, topsize, tbase, tsize) && OpenedAs(chunks, c', top, topsize, tbase, tsize)
    requires Linked(chunks, segs) && 0 <= i < |segs| && InSegment(segs[i], top, top + topsize + TOP_FOOT_SIZE)
    requires segs[i].base + segs[i].size == top + topsize + TOP_FOOT_SIZE
    requires segs' == [Segment(tbase, tsize)] + segs && a in c'
    requires forall k :: 0 <= k < |segs| ==> Apart(segs[k], tbase, tsize)
    ensures LinkedAt(c', segs', a)
  {
    hide Linked, Disjoint, AlignedOk;
    var csp, end := RecordAt(top, topsize), top + topsize + TOP_FOOT_SIZE;
    if a == csp {
      FirstFence(chunks, top, topsize, tbase, tsize);
    } else if a == tbase {
    } else if a == tbase + tsize - TOP_FOOT_SIZE {
      assert segs'[0] == Segment(tbase, tsize);
      assert InSegment(segs'[0], a, tbase + tsize);
    } else if IsFence(a, csp, end) {
      assert segs'[i + 1] == segs[i];
      LastGap(chunks, c', segs, top, topsize, tbase, tsize, i);
      FenceLinked(c', segs', csp, end, a, i + 1);
    } else {
      OldLinked(chunks, c', segs, segs', top, topsize, tbase, tsize, a);
    }
  }

  lemma {:induction false} FirstFence(chunks: Chunks, top: int, topsize: int, tbase: int, tsize: int)
    requires CanOpen(chunks, top, topsize, tbase, tsize)
    ensures IsFence(RecordAt(top, topsize) + 32, RecordAt(top, topsize), top + topsize + TOP_FOOT_SIZE)
  {
    assert top + topsize in chunks;
  }

  /** The last fencepost is followed by a word that heads no chunk. */
  lemma {:induction false} LastGap(chunks: Chunks, c': Chunks, segs: seq<Segment>, top: int, topsize: int, tbase: int,
      tsize: int, i: int)
    requires CanOpen(chunks, top, topsize, tbase, tsize) && OpenedAs(chunks, c', top, topsize, tbase, tsize)
    requires 0 <= i < |segs| && InSegment(segs[i], top, top + topsize + TOP_FOOT_SIZE)
    requires segs[i].base + segs[i].size == top + topsize + TOP_FOOT_SIZE && Apart(segs[i], tbase, tsize)
    ensures (top + topsize + TOP_FOOT_SIZE) % 8 == 0 && top + topsize + TOP_FOOT_SIZE - 8 !in c'
  {
    var end := top + topsize + TOP_FOOT_SIZE;
    assert top + topsize in chunks && chunks[top + topsize].size == TOP_FOOT_SIZE by { hide AlignedOk, Disjoint,
        ClearOf, OpenedAs; }
    assert Mult8(TOP_FOOT_SIZE);
    assert Mult8(end) by { hide Mult8, Shaped, Disjoint, ClearOf, OpenedAs; Mult8Sums(top + topsize, TOP_FOOT_SIZE); }
    hide AlignedOk;
  }

  lemma {:induction false} FenceLinked(c': Chunks, segs': seq<Segment>, csp: int, end: int, a: int, k: int)
    requires a in c' && IsFence(a, csp, end) && c'[a] == Chunk(SIZE_T_SIZE, true, true, Fence)
    requires forall b :: IsFence(b, csp, end) ==> b in c' && c'[b] == Chunk(SIZE_T_SIZE, true, true, Fence)
    requires end % 8 == 0 && end - 8 !in c'
    requires 0 <= k < |segs'| && segs'[k].base <= csp && segs'[k].base + segs'[k].size == end
    ensures LinkedAt(c', segs', a)
  {
    if a < end - 16 { assert IsFence(a + 8, csp, end); }
    else { assert a + 8 == end - 8; assert InSegment(segs'[k], a, a + 8); }
  }

  lemma {:induction false} OldLinked(chunks: Chunks, c': Chunks, segs: seq<Segment>, segs': seq<Segment>, top: int,
      topsize: int, tbase: int, tsize: int, a: int)
    requires CanOpen(chunks, top, topsize, tbase, tsize) && OpenedAs(chunks, c', top, topsize, tbase, tsize)
    requires Linked(chunks, segs) && segs' == [Segment(tbase, tsize)] + segs
    requires forall k :: 0 <= k < |segs| ==> Apart(segs[k], tbase, tsize)
    requires a in chunks && a in c' && c'[a] == chunks[a]
    requires a < RecordAt(top, topsize) || top + topsize + TOP_FOOT_SIZE <= a
    ensures LinkedAt(c', segs', a)
  {
    var csp, end := RecordAt(top, topsize), top + topsize + TOP_FOOT_SIZE;
    assert LinkedAt(chunks, segs, a);
    var n := a + chunks[a].size;
    assert !chunks[a].kind.Trailer?;
    if n in chunks {
      if a < top { assert n <= top; }
      else if top < a { assert end <= n; }
      assert n != tbase;
    } else {
      var k :| 0 <= k < |segs| && InSegment(segs[k], a, n) && n + 8 == segs[k].base + segs[k].size;
      assert segs'[k + 1] == segs[k];
      assert InSegment(segs'[k + 1], a, n);
      assert Apart(segs[k], tbase, tsize);
      assert n !in c' by {
        if a < top { assert n <= top; assert n != top; } else { assert end <= a; }
      }
    }
  }

  /** The words add_segment writes: new top and trailer, record, fenceposts, and the foot of the old top. */
  ghost predicate OpenedWords(mem: Words, mem': Words, top: int, topsize: int, tbase: int, tsize: int) {
    var csp := RecordAt(top, topsize);
    var end := top + topsize + TOP_FOOT_SIZE;
    && Rd(mem', csp + 8) == Pack(32, csp == top, true)
    && (forall a :: IsFence(a, csp, end) ==> Rd(mem', a + 8) == Pack(SIZE_T_SIZE, true, true))
    && Rd(mem', tbase + 8) == Pack(tsize - TOP_FOOT_SIZE, true, false)
    && Rd(mem', tbase + tsize - TOP_FOOT_SIZE + 8) == Pack(TOP_FOOT_SIZE, false, false)
    && (csp != top ==> Rd(mem', csp) == topsize)
    && (forall x :: (x < csp || (x == csp && csp == top) || end <= x) && (x <= tbase || tbase + tsize <= x) ==>
          Rd(mem', x) == Rd(mem, x))
  }

  lemma {:induction false} OpenedHeads(mem: Words, mem': Words, chunks: Chunks, c': Chunks, top: int, topsize: int,
      tbase: int, tsize: int)
    requires CanOpen(chunks, top, topsize, tbase, tsize) && OpenedAs(chunks, c', top, topsize, tbase, tsize)
    requires HeadsOk(mem, chunks) && OpenedWords(mem, mem', top, topsize, tbase, tsize)
    ensures HeadsOk(mem', c')
  {
    hide Pack, AlignedOk;
    assert top + topsize in chunks;
    forall a | a in chunks && a < RecordAt(top, topsize) ensures a + chunks[a].size <= RecordAt(top, topsize) {
      if a < top { assert a + chunks[a].size <= top; }
    }
  }

  lemma {:induction false} OpenedFeet(mem: Words, mem': Words, chunks: Chunks, c': Chunks, top: int, topsize: int,
      tbase: int, tsize: int)
    requires CanOpen(chunks, top, topsize, tbase, tsize) && OpenedAs(chunks, c', top, topsize, tbase, tsize)
    requires FeetOk(mem, chunks) && OpenedWords(mem, mem', top, topsize, tbase, tsize)
    ensures FeetOk(mem', c')
  {
    hide Pack, AlignedOk;
    var csp, end := RecordAt(top, topsize), top + topsize + TOP_FOOT_SIZE;
    assert top + topsize in chunks;
    forall b | b in c' && !c'[b].pinuse && !c'[b].kind.Trailer? ensures FootAt(mem', c', b) {
      if b == csp {
        assert csp != top && top in c';
      } else {
        assert b in chunks && c'[b] == chunks[b];
        assert FootAt(mem, chunks, b);
        var p := b - Rd(mem, b);
        if b < top { assert b + chunks[b].size <= top; } else if top < b { assert end <= b; }
        if p < top { assert p + chunks[p].size <= top; } else if top < p { assert end <= p; }
        assert p != top;
      }
    }
  }

  lemma {:induction false} OpenedPayload(mem: Words, mem': Words, chunks: Chunks, top: int, topsize: int, tbase: int,
      tsize: int, a: int)
    requires CanOpen(chunks, top, topsize, tbase, tsize) && OpenedWords(mem, mem', top, topsize, tbase, tsize)
    requires a in chunks && a != top && a != top + topsize
    ensures PayloadKept(mem, mem', a, chunks[a].size)
  {
    hide Pack, AlignedOk;
    assert top + topsize in chunks;
    if a < top { assert a + chunks[a].size <= top; } else { assert top + topsize + TOP_FOOT_SIZE <= a; }
  }

  lemma {:induction false} OpenReady(mem: Words, chunks: Chunks, segs: seq<Segment>, top: int, topsize: int,
      tbase: int, tsize: int)
    requires Sound(mem, chunks, segs, top, topsize) && FreshRegion(segs, tbase, tsize)
    ensures CanOpen(chunks, top, topsize, tbase, tsize)
    ensures forall k :: 0 <= k < |segs| ==> Apart(segs[k], tbase, tsize)
  {
    hide Linked, HeldOk, AlignedOk, SegmentsOk, SegmentsApart, SmallIsTop, Disjoint, Shaped, TiledMem;
    ChunkApart(mem, chunks, segs, top, topsize, tbase, tsize);
    TopChunk(mem, chunks, segs, top, topsize);
  }

  /** Opening a segment of its own keeps the heap sound and every payload. */
  lemma {:induction false} OpenSound(mem: Words, mem': Words, chunks: Chunks, segs: seq<Segment>, top: int,
      topsize: int, tbase: int, tsize: int, i: int)
    requires Sound(mem, chunks, segs, top, topsize) && 0 <= i < |segs|
    requires segs[i].base <= top < segs[i].base + segs[i].size
    requires FreshRegion(segs, tbase, tsize) && OpenedWords(mem, mem', top, topsize, tbase, tsize)
    ensures var c' := Opened(chunks, top, topsize, tbase, tsize);
      Sound(mem', c', [Segment(tbase, tsize)] + segs, tbase, tsize - TOP_FOOT_SIZE)
          && OpenedAs(chunks, c', top, topsize, tbase, tsize)
    ensures forall a :: a in chunks && a != top && a != top + topsize ==> PayloadKept(mem, mem', a, chunks[a].size)
  {
    hide Linked, HeldOk, AlignedOk, SegmentsOk, SegmentsApart, SmallIsTop, TopOk, Disjoint, Shaped, HeadsOk, FeetOk;
    hide OpenedWords, OpenedAs, Opened, PayloadKept, CanOpen, FreshRegion;
    TopSegment(mem, chunks, segs, top, topsize, i);
    OpenReady(mem, chunks, segs, top, topsize, tbase, tsize);
    var c', segs' := Opened(chunks, top, topsize, tbase, tsize), [Segment(tbase, tsize)] + segs;
    OpenedMeans(chunks, top, topsize, tbase, tsize);
    OpenedShape(chunks, c', top, topsize, tbase, tsize);
    OpenedDisjoint(chunks, c', top, topsize, tbase, tsize);
    OpenedHeld(chunks, c', segs, segs', top, topsize, tbase, tsize, i);
    OpenedSegments(chunks, c', segs, segs', top, topsize, tbase, tsize);
    OpenedLinked(chunks, c', segs, segs', top, topsize, tbase, tsize, i);
    OpenedHeads(mem, mem', chunks, c', top, topsize, tbase, tsize);
    OpenedFeet(mem, mem', chunks, c', top, topsize, tbase, tsize);
    forall a | a in chunks && a != top && a != top + topsize ensures PayloadKept(mem, mem', a, chunks[a].size) {
      OpenedPayload(mem, mem', chunks, top, topsize, tbase, tsize, a);
    }
  }
}

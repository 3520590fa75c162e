/**
 Boundary tags: memory segments tiled by chunks. The words of memory are the authority; `chunks`
 is the ghost picture of where chunks start, and TiledMem ties the two together.
 */
module Tiling {
  import opened AllocSizes

  /** Normal chunks hold payload or are free; Fence and Trailer close a segment. */
  datatype Kind = Normal | Fence | Trailer
  datatype Chunk = Chunk(size: int, pinuse: bool, cinuse: bool, kind: Kind)
  datatype Segment = Segment(base: int, size: int)
  type Chunks = map<int, Chunk>
  /** Memory by 8-byte words; untouched words of a fresh mapping read as zero. */
  type Words = map<int, int>

  function Rd(mem: Words, x: int): int { if x in mem then mem[x] else 0 }

  // ---------------------------------------------------------------- head words

  /** size | pinuse | cinuse, for sizes that are multiples of 8. */
  function Pack(size: int, pinuse: bool, cinuse: bool): int {
    size + (if pinuse then 1 else 0) + (if cinuse then 2 else 0)
  }

  function ChunkSize(head: int): int { head - head % 4 }
  predicate PInuse(head: int) { head % 2 == 1 }
  predicate CInuse(head: int) { head / 2 % 2 == 1 }
  function SetPInuse(head: int): int { if PInuse(head) then head else head + 1 }
  function ClearPInuse(head: int): int { if PInuse(head) then head - 1 else head }

  /** The fields of a packed head word read back, and the pinuse bit can be flipped in place. */
  lemma {:induction false} Unpack(size: int, pinuse: bool, cinuse: bool)
    requires size % 8 == 0
    ensures ChunkSize(Pack(size, pinuse, cinuse)) == size
    ensures PInuse(Pack(size, pinuse, cinuse)) == pinuse
    ensures CInuse(Pack(size, pinuse, cinuse)) == cinuse
    ensures SetPInuse(Pack(size, pinuse, cinuse)) == Pack(size, true, cinuse)
    ensures ClearPInuse(Pack(size, pinuse, cinuse)) == Pack(size, false, cinuse)
  {
    HeadBits(size / 8, (if pinuse then 1 else 0) + (if cinuse then 2 else 0));
  }

  lemma {:induction false} HeadBits(q: int, k: int)
    requires 0 <= k < 4
    ensures (8 * q + k) % 4 == k && (8 * q + k) % 2 == k % 2 && (8 * q + k) / 2 % 2 == k / 2
  {
    Mod4(2 * q, k);
    Mod2(4 * q + k / 2, k % 2);
    Mod2(2 * q, k / 2);
  }

  lemma {:induction false} Mod4(a: int, r: int)
    requires 0 <= r < 4
    ensures (4 * a + r) % 4 == r
  {
  }

  lemma {:induction false} Mod2(a: int, r: int)
    requires 0 <= r < 2
    ensures (2 * a + r) % 2 == r && (2 * a + r) / 2 == a
  {
  }

  // ---------------------------------------------------------------- the tiling invariant

  ghost predicate InSegment(s: Segment, lo: int, hi: int) {
    s.base <= lo && hi <= s.base + s.size
  }

  ghost predicate Held(segs: seq<Segment>, lo: int, hi: int) {
    exists i :: 0 <= i < |segs| && InSegment(segs[i], lo, hi)
  }

  ghost predicate ChunkOk(c: Chunk) {
    && c.size >= 8
    && (c.kind.Normal? && c.cinuse ==> c.size >= MIN_CHUNK_SIZE)
    && (c.kind.Normal? && !c.cinuse ==> c.pinuse)
    && (c.kind.Fence? ==> c.size == SIZE_T_SIZE && c.cinuse)
    && (c.kind.Trailer? ==> c.size == TOP_FOOT_SIZE && !c.cinuse && !c.pinuse)
  }

  /** Bytes of its own segment a chunk needs: itself, and a word of a successor if it is Normal. */
  ghost function Extent(c: Chunk): int {
    if c.kind.Normal? then c.size + 8 else c.size
  }

  ghost predicate AlignedOk(chunks: Chunks) {
    forall a :: a in chunks ==> Mult8(a) && Mult8(chunks[a].size)
  }

  predicate Mult8(x: int) { x % 8 == 0 }

  lemma {:induction false} Mult8Sums(x: int, y: int)
    requires Mult8(x) && Mult8(y)
    ensures Mult8(x + y) && Mult8(x - y)
  {
  }

  ghost predicate Shaped(chunks: Chunks) {
    forall a :: a in chunks ==> a > 0 && ChunkOk(chunks[a]) && a + chunks[a].size <= MMAP_REGION_END
  }

  ghost predicate HeldOk(chunks: Chunks, segs: seq<Segment>) {
    forall a :: a in chunks ==> Held(segs, a, a + Extent(chunks[a]))
  }

  ghost predicate Disjoint(chunks: Chunks) {
    forall a, b :: a in chunks && b in chunks && a < b ==> a + chunks[a].size <= b
  }

  /** The chunk after a knows whether a is in use; only closing chunks have no successor. */
  ghost predicate LinkedAt(chunks: Chunks, segs: seq<Segment>, a: int)
    requires a in chunks
  {
    var n := a + chunks[a].size;
    if chunks[a].kind.Trailer? then RunEnd(segs, a, n, 0)
    else if n in chunks then chunks[n].pinuse == chunks[a].cinuse
    else chunks[a].kind.Fence? && RunEnd(segs, a, n, SIZE_T_SIZE)
  }

  /** n closes the run of chunks in a's segment, slack bytes before its end. */
  ghost predicate RunEnd(segs: seq<Segment>, a: int, n: int, slack: int) {
    exists i :: 0 <= i < |segs| && InSegment(segs[i], a, n) && n + slack == segs[i].base + segs[i].size
  }

  ghost predicate Linked(chunks: Chunks, segs: seq<Segment>) {
    forall a {:trigger LinkedAt(chunks, segs, a)} :: a in chunks ==> LinkedAt(chunks, segs, a)
  }

  /** Only top may be smaller than the minimum. */
  ghost predicate SmallIsTop(chunks: Chunks, top: int) {
    forall a :: a in chunks && chunks[a].kind.Normal? && a != top ==> chunks[a].size >= MIN_CHUNK_SIZE
  }

  ghost predicate TopOk(chunks: Chunks, top: int, topsize: int) {
    && top in chunks && chunks[top].kind.Normal? && !chunks[top].cinuse && chunks[top].size == topsize
    && top + topsize in chunks && chunks[top + topsize].kind.Trailer?
    && (forall a :: a in chunks && chunks[a].kind.Trailer? ==> a == top + topsize)
  }

  /** A segment starts with a chunk that has nothing before it. */
  ghost predicate SegmentOk(chunks: Chunks, s: Segment) {
    && s.base > 0 && s.base % 8 == 0 && s.size % 8 == 0 && s.size > 0
    && s.base in chunks && chunks[s.base].pinuse
  }

  ghost predicate SegmentsOk(chunks: Chunks, segs: seq<Segment>) {
    forall s {:trigger SegmentOk(chunks, s)} :: s in segs ==> SegmentOk(chunks, s)
  }

  ghost predicate SegmentsApart(segs: seq<Segment>) {
    forall i, j :: 0 <= i < j < |segs| ==>
      segs[i].base + segs[i].size <= segs[j].base || segs[j].base + segs[j].size <= segs[i].base
  }

  ghost predicate Tiled(chunks: Chunks, segs: seq<Segment>, top: int, topsize: int) {
    && AlignedOk(chunks) && Shaped(chunks) && HeldOk(chunks, segs) && Disjoint(chunks) && Linked(chunks, segs)
    && SmallIsTop(chunks, top) && TopOk(chunks, top, topsize) && SegmentsOk(chunks, segs) && SegmentsApart(segs)
  }

  // ---------------------------------------------------------------- memory words

  ghost predicate HeadsOk(mem: Words, chunks: Chunks) {
    forall a :: a in chunks ==>
      Rd(mem, a + 8) == Pack(chunks[a].size, chunks[a].pinuse, chunks[a].cinuse)
  }

  /** A clear pinuse bit means prev_foot is the size of the free chunk right before. */
  ghost predicate FootAt(mem: Words, chunks: Chunks, b: int) {
    && b - Rd(mem, b) in chunks && chunks[b - Rd(mem, b)].size == Rd(mem, b)
    && !chunks[b - Rd(mem, b)].cinuse && chunks[b - Rd(mem, b)].kind.Normal?
  }

  ghost predicate FeetOk(mem: Words, chunks: Chunks) {
    forall b {:trigger FootAt(mem, chunks, b)} ::
      b in chunks && !chunks[b].pinuse && !chunks[b].kind.Trailer? ==> FootAt(mem, chunks, b)
  }

  ghost predicate TiledMem(mem: Words, chunks: Chunks) {
    HeadsOk(mem, chunks) && FeetOk(mem, chunks)
  }

  /** Only words above q and up to n + 8 differ. */
  ghost predicate SameOutside(mem: Words, mem': Words, q: int, n: int) {
    forall x :: x <= q || n + 8 < x ==> Rd(mem', x) == Rd(mem, x)
  }

  // ---------------------------------------------------------------- retiling a run

  /**
   Replace the run of chunks in [q, n) by a chunk [q, m) and, when m < n, a second one [m, n).
   */
  ghost function Retile(chunks: Chunks, q: int, m: int, n: int, c1: bool, c2: bool): (chunks': Chunks)
    requires q in chunks && n in chunks && q < m <= n
    ensures Retiled(chunks, chunks', q, m, n, c1, c2)
  {
    map a | a in chunks.Keys + {m} && (a <= q || n <= a || a == m) ::
      if a == q then Chunk(m - q, chunks[q].pinuse, c1, Normal)
      else if a == m && m < n then Chunk(n - m, c1, c2, Normal)
      else if a == n then chunks[n].(pinuse := if m < n then c2 else c1)
      else chunks[a]
  }

  /** chunks' is chunks with the run [q, n) replaced; what callers need to know about it. */
  ghost predicate Retiled(chunks: Chunks, chunks': Chunks, q: int, m: int, n: int, c1: bool, c2: bool) {
    && q in chunks && n in chunks && n in chunks' && q < m <= n
    && q in chunks' && chunks'[q] == Chunk(m - q, chunks[q].pinuse, c1, Normal)
    && (m < n ==> m in chunks' && chunks'[m] == Chunk(n - m, c1, c2, Normal))
    && chunks'[n] == chunks[n].(pinuse := if m < n then c2 else c1)
    && (forall a :: a in chunks' && q < a < n ==> a == m)
    && (forall a :: a < q || n < a ==> (a in chunks <==> a in chunks'))
    && (forall a :: a in chunks' && (a < q || n < a) ==> chunks'[a] == chunks[a])
  }

  ghost predicate CanRetile(chunks: Chunks, q: int, m: int, n: int, c1: bool, c2: bool) {
    && q in chunks && n in chunks && q < m <= n
    && (forall a :: a in chunks && q <= a < n ==> chunks[a].kind.Normal?)
    && m % 8 == 0
    && ChunkOk(Chunk(m - q, chunks[q].pinuse, c1, Normal))
    && (m < n ==> c1 && ChunkOk(Chunk(n - m, c1, c2, Normal)))
    && (if chunks[n].kind.Trailer? then !(if m < n then c2 else c1)
        else
          && ((if m < n then c2 else c1) || chunks[n].cinuse)
          && n - (if m < n then m else q) >= MIN_CHUNK_SIZE)
  }

  lemma {:induction false} SameSegment(segs: seq<Segment>, i: int, j: int, x: int)
    requires SegmentsApart(segs) && 0 <= i < |segs| && 0 <= j < |segs|
    requires InSegment(segs[i], x, x + 8) && InSegment(segs[j], x, x + 8)
    ensures i == j
  {
  }

  lemma {:induction false} RunStep(chunks: Chunks, segs: seq<Segment>, q: int, n: int, i: int)
    requires Shaped(chunks) && HeldOk(chunks, segs) && Disjoint(chunks) && Linked(chunks, segs) && SegmentsApart(segs)
    requires q in chunks && n in chunks && q < n && chunks[q].kind.Normal?
    requires 0 <= i < |segs| && InSegment(segs[i], q, q + 8)
    ensures var s := q + chunks[q].size; q < s <= n && s in chunks && InSegment(segs[i], s, s + 8)
  {
    hide ChunkOk;
    var s := q + chunks[q].size;
    assert LinkedAt(chunks, segs, q);
    var j :| 0 <= j < |segs| && InSegment(segs[j], q, s + 8);
    assert ChunkOk(chunks[q]) && chunks[q].size >= 8 by { OkSize(chunks[q]); }
    SameSegment(segs, i, j, q);
  }

  lemma {:induction false} OkSize(c: Chunk)
    requires ChunkOk(c)
    ensures c.size >= 8
  {
  }

  /** A run of normal chunks never leaves its segment. */
  lemma {:induction false} RunHeld(chunks: Chunks, segs: seq<Segment>, q: int, n: int, i: int)
    requires Shaped(chunks) && HeldOk(chunks, segs) && Disjoint(chunks) && Linked(chunks, segs) && SegmentsApart(segs)
    requires q in chunks && n in chunks && q <= n
    requires forall a :: a in chunks && q <= a < n ==> chunks[a].kind.Normal?
    requires 0 <= i < |segs| && InSegment(segs[i], q, q + 8)
    ensures InSegment(segs[i], q, n + 8)
    decreases n - q
  {
    if q < n {
      RunStep(chunks, segs, q, n, i);
      hide HeldOk, Disjoint, Linked, SegmentsApart, Shaped;
      RunHeld(chunks, segs, q + chunks[q].size, n, i);
    }
  }

  lemma {:induction false} RunSegment(chunks: Chunks, segs: seq<Segment>, top: int, topsize: int, q: int, m: int,
      n: int, c1: bool, c2: bool) returns (i: int)
    requires Tiled(chunks, segs, top, topsize) && CanRetile(chunks, q, m, n, c1, c2)
    ensures 0 <= i < |segs| && InSegment(segs[i], q, n + 8)
  {
    hide AlignedOk, Linked, Disjoint, SmallIsTop, TopOk, SegmentsOk, SegmentsApart;
    i :| 0 <= i < |segs| && InSegment(segs[i], q, q + Extent(chunks[q]));
    RunHeld(chunks, segs, q, n, i);
  }

  lemma {:induction false} RetileAligned(chunks: Chunks, q: int, m: int, n: int, c1: bool, c2: bool)
    requires AlignedOk(chunks) && CanRetile(chunks, q, m, n, c1, c2)
    ensures AlignedOk(Retile(chunks, q, m, n, c1, c2))
  {
    assert Mult8(m);
    hide Retile, ChunkOk, Mult8, CanRetile;
    var c' := Retile(chunks, q, m, n, c1, c2);
    Mult8Sums(m, q);
    Mult8Sums(n, m);
  }

  lemma {:induction false} RetileShaped(chunks: Chunks, q: int, m: int, n: int, c1: bool, c2: bool)
    requires Shaped(chunks) && CanRetile(chunks, q, m, n, c1, c2)
    ensures Shaped(Retile(chunks, q, m, n, c1, c2))
  {
    assert n + chunks[n].size <= MMAP_REGION_END;
  }

  lemma {:induction false} RetileHeld(chunks: Chunks, segs: seq<Segment>, q: int, m: int, n: int, c1: bool, c2: bool,
      i: int)
    requires HeldOk(chunks, segs) && CanRetile(chunks, q, m, n, c1, c2)
    requires 0 <= i < |segs| && InSegment(segs[i], q, n + 8)
    ensures HeldOk(Retile(chunks, q, m, n, c1, c2), segs)
  {
    var c' := Retile(chunks, q, m, n, c1, c2);
    forall a | a in c' ensures Held(segs, a, a + Extent(c'[a])) {
      if a == q { assert InSegment(segs[i], q, m + 8); }
      else if a == m && m < n { assert InSegment(segs[i], m, n + 8); }
    }
  }

  lemma {:induction false} RetileDisjoint(chunks: Chunks, q: int, m: int, n: int, c1: bool, c2: bool)
    requires Disjoint(chunks) && CanRetile(chunks, q, m, n, c1, c2)
    ensures Disjoint(Retile(chunks, q, m, n, c1, c2))
  {
  }

  lemma {:induction false} RetileLinked(chunks: Chunks, segs: seq<Segment>, q: int, m: int, n: int, c1: bool, c2: bool)
    requires Disjoint(chunks) && Linked(chunks, segs) && CanRetile(chunks, q, m, n, c1, c2)
    requires Shaped(chunks)
    ensures Linked(Retile(chunks, q, m, n, c1, c2), segs)
  {
    hide Disjoint, Shaped, LinkedAt, Retile, Retiled, ChunkOk;
    var c' := Retile(chunks, q, m, n, c1, c2);
    assert Retiled(chunks, c', q, m, n, c1, c2);
    forall a | a in c' ensures LinkedAt(c', segs, a) {
      if q <= a < n {
        NewLinked(chunks, c', segs, q, m, n, c1, c2, a);
      } else {
        OutsideIn(chunks, c', q, m, n, c1, c2, a);
        assert LinkedAt(chunks, segs, a);
        OldLinked(chunks, c', segs, q, m, n, c1, c2, a);
      }
    }
  }

  lemma {:induction false} OutsideIn(chunks: Chunks, c': Chunks, q: int, m: int, n: int, c1: bool, c2: bool, a: int)
    requires Retiled(chunks, c', q, m, n, c1, c2) && a in c' && !(q <= a < n)
    ensures a in chunks
  {
  }

  /** The chunks of a retiled run know each other. */
  lemma {:induction false} NewLinked(chunks: Chunks, c': Chunks, segs: seq<Segment>, q: int, m: int, n: int, c1: bool,
      c2: bool, a: int)
    requires Retiled(chunks, c', q, m, n, c1, c2) && a in c' && q <= a < n
    ensures LinkedAt(c', segs, a)
  {
    assert a == q || a == m;
  }

  /** A chunk outside a retiled run still leads to its successor. */
  lemma {:induction false} OldLinked(chunks: Chunks, c': Chunks, segs: seq<Segment>, q: int, m: int, n: int, c1: bool,
      c2: bool, a: int)
    requires Retiled(chunks, c', q, m, n, c1, c2) && a in c' && a in chunks && !(q <= a < n)
    requires Disjoint(chunks) && Shaped(chunks) && LinkedAt(chunks, segs, a)
    ensures LinkedAt(c', segs, a)
  {
    hide RunEnd;
    var s := a + chunks[a].size;
    assert c'[a].kind == chunks[a].kind && c'[a].size == chunks[a].size && c'[a].cinuse == chunks[a].cinuse;
    if a < q { assert s <= q; } else { assert s > n; }
    assert s in c' <==> s in chunks;
  }

  ghost predicate LastInuse(m: int, n: int, c1: bool, c2: bool) {
    if m < n then c2 else c1
  }

  lemma {:induction false} RetileHeads(mem: Words, mem': Words, chunks: Chunks, q: int, m: int, n: int, c1: bool,
      c2: bool)
    requires Shaped(chunks) && Disjoint(chunks) && HeadsOk(mem, chunks)
    requires CanRetile(chunks, q, m, n, c1, c2) && SameOutside(mem, mem', q, n)
    requires Rd(mem', q + 8) == Pack(m - q, chunks[q].pinuse, c1)
    requires m < n ==> Rd(mem', m + 8) == Pack(n - m, c1, c2)
    requires Rd(mem', n + 8) == Pack(chunks[n].size, LastInuse(m, n, c1, c2), chunks[n].cinuse)
    ensures HeadsOk(mem', Retile(chunks, q, m, n, c1, c2))
  {
    hide Retile, Retiled, ChunkOk, Pack, Shaped, Disjoint, SameOutside;
    var c' := Retile(chunks, q, m, n, c1, c2);
    assert Retiled(chunks, c', q, m, n, c1, c2);
    forall a | a in c' ensures Rd(mem', a + 8) == Pack(c'[a].size, c'[a].pinuse, c'[a].cinuse) {
      if q <= a <= n {
        NewHead(mem', chunks, c', q, m, n, c1, c2, a);
      } else {
        OldHead(mem, mem', chunks, c', q, m, n, c1, c2, a);
      }
    }
  }

  lemma {:induction false} NewHead(mem': Words, chunks: Chunks, c': Chunks, q: int, m: int, n: int, c1: bool, c2: bool,
      a: int)
    requires Retiled(chunks, c', q, m, n, c1, c2) && a in c' && q <= a <= n
    requires Rd(mem', q + 8) == Pack(m - q, chunks[q].pinuse, c1)
    requires m < n ==> Rd(mem', m + 8) == Pack(n - m, c1, c2)
    requires Rd(mem', n + 8) == Pack(chunks[n].size, LastInuse(m, n, c1, c2), chunks[n].cinuse)
    ensures Rd(mem', a + 8) == Pack(c'[a].size, c'[a].pinuse, c'[a].cinuse)
  {
    hide Pack, Rd;
    assert a == q || a == m || a == n;
  }

  lemma {:induction false} OldHead(mem: Words, mem': Words, chunks: Chunks, c': Chunks, q: int, m: int, n: int,
      c1: bool, c2: bool, a: int)
    requires Shaped(chunks) && Disjoint(chunks) && HeadsOk(mem, chunks) && SameOutside(mem, mem', q, n)
    requires Retiled(chunks, c', q, m, n, c1, c2) && a in c' && (a < q || n < a)
    ensures Rd(mem', a + 8) == Pack(c'[a].size, c'[a].pinuse, c'[a].cinuse)
  {
    hide Pack, Rd;
    assert a in chunks && c'[a] == chunks[a];
    if a < q { assert a + chunks[a].size <= q; }
  }

  /** Every foot outside the retiled run is untouched. */
  lemma {:induction false} RetileFeet(mem: Words, mem': Words, chunks: Chunks, segs: seq<Segment>, top: int,
      topsize: int, q: int, m: int, n: int, c1: bool, c2: bool)
    requires Shaped(chunks) && Disjoint(chunks) && Linked(chunks, segs) && FeetOk(mem, chunks)
    requires SmallIsTop(chunks, top) && TopOk(chunks, top, topsize)
    requires CanRetile(chunks, q, m, n, c1, c2) && SameOutside(mem, mem', q, n)
    requires !LastInuse(m, n, c1, c2) && !chunks[n].kind.Trailer? ==>
      Rd(mem', n) == n - (if m < n then m else q)
    ensures FeetOk(mem', Retile(chunks, q, m, n, c1, c2))
  {
    hide Shaped, Disjoint, Linked, SmallIsTop, TopOk, SameOutside, Retile, Retiled, FootAt, LastInuse, ChunkOk;
    var c' := Retile(chunks, q, m, n, c1, c2);
    assert Retiled(chunks, c', q, m, n, c1, c2);
    forall b | b in c' && !c'[b].pinuse && !c'[b].kind.Trailer? ensures FootAt(mem', c', b) {
      if b <= q || n < b {
        OldPinuse(chunks, c', q, m, n, c1, c2, b);
        assert FootAt(mem, chunks, b);
        FootKept(mem, mem', chunks, segs, top, topsize, q, n, b);
        FootMoves(mem', chunks, c', q, m, n, c1, c2, b);
      } else {
        NewFoot(mem', chunks, c', q, m, n, c1, c2, b);
      }
    }
  }

  lemma {:induction false} OldPinuse(chunks: Chunks, c': Chunks, q: int, m: int, n: int, c1: bool, c2: bool, b: int)
    requires Retiled(chunks, c', q, m, n, c1, c2) && b in c' && (b <= q || n < b)
    ensures b in chunks && c'[b].pinuse == chunks[b].pinuse && (b != q ==> c'[b].kind == chunks[b].kind)
  {
  }

  lemma {:induction false} FootMoves(mem': Words, chunks: Chunks, c': Chunks, q: int, m: int, n: int, c1: bool,
      c2: bool, b: int)
    requires Retiled(chunks, c', q, m, n, c1, c2) && FootAt(mem', chunks, b)
    requires b - Rd(mem', b) < q || n <= b - Rd(mem', b)
    ensures FootAt(mem', c', b)
  {
  }

  /** The foot behind a retiled run; inside it every chunk follows one in use. */
  lemma {:induction false} NewFoot(mem': Words, chunks: Chunks, c': Chunks, q: int, m: int, n: int, c1: bool, c2: bool,
      b: int)
    requires Retiled(chunks, c', q, m, n, c1, c2) && CanRetile(chunks, q, m, n, c1, c2)
    requires b in c' && !c'[b].pinuse && !c'[b].kind.Trailer? && q < b <= n
    requires !LastInuse(m, n, c1, c2) && !chunks[n].kind.Trailer? ==> Rd(mem', n) == n - (if m < n then m else q)
    ensures FootAt(mem', c', b)
  {
    assert b == n;
  }

  lemma {:induction false} FootKept(mem: Words, mem': Words, chunks: Chunks, segs: seq<Segment>, top: int,
      topsize: int, q: int, n: int, b: int)
    requires Shaped(chunks) && Disjoint(chunks) && Linked(chunks, segs)
    requires SmallIsTop(chunks, top) && TopOk(chunks, top, topsize)
    requires q in chunks && n in chunks && q < n && SameOutside(mem, mem', q, n)
    requires b in chunks && !chunks[b].kind.Trailer? && FootAt(mem, chunks, b) && !chunks[b].pinuse && (b <= q || n < b)
    ensures FootAt(mem', chunks, b) && Rd(mem', b) == Rd(mem, b)
    ensures b - Rd(mem, b) < q || n <= b - Rd(mem, b)
  {
    if n < b {
      assert LinkedAt(chunks, segs, n);
      assert n + chunks[n].size <= b;
    }
  }

  /** The free normal chunks after retiling: those outside the run, and the new free ones. */
  ghost predicate FreeAt(chunks: Chunks, a: int) {
    a in chunks && chunks[a].kind.Normal? && !chunks[a].cinuse
  }

  lemma {:induction false} RetileTop(chunks: Chunks, top: int, topsize: int, q: int, m: int, n: int, c1: bool, c2: bool)
    requires Shaped(chunks) && Disjoint(chunks) && TopOk(chunks, top, topsize) && CanRetile(chunks, q, m, n, c1, c2)
    ensures var c' := Retile(chunks, q, m, n, c1, c2);
      if chunks[n].kind.Trailer? then TopOk(c', if m < n then m else q, n - if m < n then m else q)
      else TopOk(c', top, topsize)
  {
    hide Retile, Retiled, Disjoint, Shaped, TopOk, ChunkOk;
    var c' := Retile(chunks, q, m, n, c1, c2);
    assert Retiled(chunks, c', q, m, n, c1, c2);
    if chunks[n].kind.Trailer? {
      TopMoves(chunks, c', top, topsize, q, m, n, c1, c2);
    } else {
      TopStays(chunks, c', top, topsize, q, m, n, c1, c2);
    }
  }

  lemma {:induction false} TopMoves(chunks: Chunks, c': Chunks, top: int, topsize: int, q: int, m: int, n: int,
      c1: bool, c2: bool)
    requires TopOk(chunks, top, topsize) && CanRetile(chunks, q, m, n, c1, c2) && Retiled(chunks, c', q, m, n, c1, c2)
    requires chunks[n].kind.Trailer?
    ensures TopOk(c', if m < n then m else q, n - if m < n then m else q)
  {
    hide ChunkOk;
  }

  lemma {:induction false} TopStays(chunks: Chunks, c': Chunks, top: int, topsize: int, q: int, m: int, n: int,
      c1: bool, c2: bool)
    requires Shaped(chunks) && Disjoint(chunks) && TopOk(chunks, top, topsize)
    requires CanRetile(chunks, q, m, n, c1, c2) && Retiled(chunks, c', q, m, n, c1, c2)
    requires !chunks[n].kind.Trailer?
    ensures TopOk(c', top, topsize)
  {
    assert top + topsize < q || n < top + topsize;
    assert top < q || n <= top;
    hide ChunkOk, Shaped, Disjoint;
    forall a | a in c' && c'[a].kind.Trailer? ensures a == top + topsize {
      assert a < q || n < a;
    }
  }

  lemma {:induction false} RetileSmall(chunks: Chunks, top: int, topsize: int, q: int, m: int, n: int, c1: bool,
      c2: bool)
    requires Disjoint(chunks) && Shaped(chunks) && TopOk(chunks, top, topsize) && SmallIsTop(chunks, top)
    requires CanRetile(chunks, q, m, n, c1, c2)
    ensures SmallIsTop(Retile(chunks, q, m, n, c1, c2),
                       if chunks[n].kind.Trailer? then if m < n then m else q else top)
  {
    hide Retile;
  }

  lemma {:induction false} RetileSegments(chunks: Chunks, segs: seq<Segment>, q: int, m: int, n: int, c1: bool,
      c2: bool, i: int)
    requires SegmentsOk(chunks, segs) && SegmentsApart(segs) && CanRetile(chunks, q, m, n, c1, c2)
    requires 0 <= i < |segs| && InSegment(segs[i], q, n + 8)
    ensures SegmentsOk(Retile(chunks, q, m, n, c1, c2), segs)
  {
    var c' := Retile(chunks, q, m, n, c1, c2);
    forall s | s in segs ensures SegmentOk(c', s) {
      var j :| 0 <= j < |segs| && segs[j] == s;
      assert SegmentOk(chunks, s);
      if j != i { assert i < j || j < i; }
    }
  }

  /**
   The retiling theorem: rewriting the tags of one run of chunks keeps the whole tiling, and
   top moves along exactly when the run ends at the trailer.
   */
  lemma {:induction false} RetileTiled(chunks: Chunks, segs: seq<Segment>, top: int, topsize: int, q: int, m: int,
      n: int, c1: bool, c2: bool)
    requires Tiled(chunks, segs, top, topsize) && CanRetile(chunks, q, m, n, c1, c2)
    ensures var c' := Retile(chunks, q, m, n, c1, c2);
      if chunks[n].kind.Trailer? then
        var t := if m < n then m else q;
        Tiled(c', segs, t, n - t)
      else Tiled(c', segs, top, topsize)
  {
    hide AlignedOk, Shaped, Linked, Disjoint, HeldOk, SmallIsTop, TopOk, SegmentsOk, SegmentsApart, Retile;
    var i := RunSegment(chunks, segs, top, topsize, q, m, n, c1, c2);
    RetileAligned(chunks, q, m, n, c1, c2);
    RetileShaped(chunks, q, m, n, c1, c2);
    RetileHeld(chunks, segs, q, m, n, c1, c2, i);
    RetileDisjoint(chunks, q, m, n, c1, c2);
    RetileLinked(chunks, segs, q, m, n, c1, c2);
    RetileTop(chunks, top, topsize, q, m, n, c1, c2);
    RetileSmall(chunks, top, topsize, q, m, n, c1, c2);
    RetileSegments(chunks, segs, q, m, n, c1, c2, i);
  }

  ghost predicate Sound(mem: Words, chunks: Chunks, segs: seq<Segment>, top: int, topsize: int) {
    Tiled(chunks, segs, top, topsize) && TiledMem(mem, chunks)
  }

  /** The head and foot words that a retiling has to write. */
  ghost predicate TagsWritten(mem: Words, mem': Words, chunks: Chunks, q: int, m: int, n: int, c1: bool, c2: bool)
    requires CanRetile(chunks, q, m, n, c1, c2)
  {
    var last := LastInuse(m, n, c1, c2);
    && SameOutside(mem, mem', q, n)
    && Rd(mem', q + 8) == Pack(m - q, chunks[q].pinuse, c1)
    && (m < n ==> Rd(mem', m + 8) == Pack(n - m, c1, c2))
    && Rd(mem', n + 8) == Pack(chunks[n].size, last, chunks[n].cinuse)
    && (!last && !chunks[n].kind.Trailer? ==> Rd(mem', n) == n - (if m < n then m else q))
  }

  /** Tiling and memory words together survive a retiling. */
  lemma {:induction false} RetileSound(mem: Words, mem': Words, chunks: Chunks, segs: seq<Segment>, top: int,
      topsize: int, q: int, m: int, n: int, c1: bool, c2: bool)
    requires Sound(mem, chunks, segs, top, topsize)
    requires CanRetile(chunks, q, m, n, c1, c2) && TagsWritten(mem, mem', chunks, q, m, n, c1, c2)
    ensures var c' := Retile(chunks, q, m, n, c1, c2);
      var t := if m < n then m else q;
      if chunks[n].kind.Trailer? then Sound(mem', c', segs, t, n - t) else Sound(mem', c', segs, top, topsize)
  {
    hide AlignedOk, Shaped, Linked, Disjoint, HeldOk, SmallIsTop, TopOk, SegmentsOk, SegmentsApart, HeadsOk, FeetOk,
        Retile;
    hide SameOutside, CanRetile;
    RetileTiled(chunks, segs, top, topsize, q, m, n, c1, c2);
    RetileHeads(mem, mem', chunks, q, m, n, c1, c2);
    RetileFeet(mem, mem', chunks, segs, top, topsize, q, m, n, c1, c2);
  }

  // ---------------------------------------------------------------- payloads

  /** The payload words of a chunk in use: up to and including the next chunk's prev_foot. */
  ghost predicate PayloadKept(mem: Words, mem': Words, a: int, size: int) {
    forall x :: a + 16 <= x <= a + size ==> Rd(mem', x) == Rd(mem, x)
  }

  lemma {:induction false} RetileKeeps(mem: Words, mem': Words, chunks: Chunks, q: int, n: int, a: int)
    requires Disjoint(chunks) && q in chunks && n in chunks && q < n && a in chunks && (a < q || n <= a)
    requires SameOutside(mem, mem', q, n)
    ensures PayloadKept(mem, mem', a, chunks[a].size)
  {
  }

  // ---------------------------------------------------------------- reading tags

  /** What the tag macros read at a chunk. */
  lemma {:induction false} ReadHead(mem: Words, chunks: Chunks, segs: seq<Segment>, top: int, topsize: int, a: int)
    requires Sound(mem, chunks, segs, top, topsize) && a in chunks
    ensures Rd(mem, a + 8) == Pack(chunks[a].size, chunks[a].pinuse, chunks[a].cinuse)
    ensures ChunkSize(Rd(mem, a + 8)) == chunks[a].size
    ensures PInuse(Rd(mem, a + 8)) == chunks[a].pinuse
    ensures CInuse(Rd(mem, a + 8)) == chunks[a].cinuse
    ensures SetPInuse(Rd(mem, a + 8)) == Pack(chunks[a].size, true, chunks[a].cinuse)
    ensures ClearPInuse(Rd(mem, a + 8)) == Pack(chunks[a].size, false, chunks[a].cinuse)
    ensures a > 0 && a % 8 == 0 && chunks[a].size % 8 == 0
    ensures 8 <= chunks[a].size && a + chunks[a].size <= MMAP_REGION_END
  {
    hide Linked, Disjoint, HeldOk, SmallIsTop, TopOk, SegmentsOk, SegmentsApart, FeetOk, Pack, ChunkSize, PInuse,
        CInuse;
    hide SetPInuse, ClearPInuse;
    Unpack(chunks[a].size, chunks[a].pinuse, chunks[a].cinuse);
  }

  /** The chunk after a normal chunk. */
  lemma {:induction false} NextChunk(mem: Words, chunks: Chunks, segs: seq<Segment>, top: int, topsize: int, a: int)
    requires Sound(mem, chunks, segs, top, topsize) && a in chunks && chunks[a].kind.Normal?
    ensures a + chunks[a].size in chunks
    ensures chunks[a + chunks[a].size].pinuse == chunks[a].cinuse
    ensures chunks[a + chunks[a].size].kind.Trailer? <==> a == top
    ensures !chunks[a].cinuse && a != top ==> chunks[a + chunks[a].size].cinuse
    ensures a != top ==> chunks[a].size >= MIN_CHUNK_SIZE
    ensures !chunks[a].cinuse ==> chunks[a].pinuse
  {
    hide TiledMem, AlignedOk, HeldOk, SegmentsOk, SegmentsApart;
    assert LinkedAt(chunks, segs, a);
    if a < top { assert a + chunks[a].size <= top; }
    if top < a { assert top + topsize <= a; }
  }

  /** Nothing starts strictly inside a chunk, so one chunk is a run. */
  lemma {:induction false} OneChunkRun(mem: Words, chunks: Chunks, segs: seq<Segment>, top: int, topsize: int, a: int)
    requires Sound(mem, chunks, segs, top, topsize) && a in chunks && chunks[a].kind.Normal?
    ensures forall b :: b in chunks && a <= b < a + chunks[a].size ==> b == a
  {
    hide TiledMem, AlignedOk, HeldOk, SegmentsOk, SegmentsApart, Linked, TopOk, SmallIsTop, Shaped;
  }

  /** The free chunk before b, found through prev_foot. */
  lemma {:induction false} PrevChunk(mem: Words, chunks: Chunks, segs: seq<Segment>, top: int, topsize: int, b: int)
    requires Sound(mem, chunks, segs, top, topsize) && b in chunks && !chunks[b].pinuse && !chunks[b].kind.Trailer?
    ensures FreeAt(chunks, b - Rd(mem, b)) && chunks[b - Rd(mem, b)].size == Rd(mem, b)
    ensures b - Rd(mem, b) != top
  {
    hide HeadsOk, AlignedOk, HeldOk, SegmentsOk, SegmentsApart, Linked, SmallIsTop, Shaped;
    assert FootAt(mem, chunks, b);
  }

  lemma {:induction false} TopChunk(mem: Words, chunks: Chunks, segs: seq<Segment>, top: int, topsize: int)
    requires Sound(mem, chunks, segs, top, topsize)
    ensures FreeAt(chunks, top) && chunks[top].size == topsize && chunks[top].pinuse
    ensures top + topsize in chunks && chunks[top + topsize] == Chunk(TOP_FOOT_SIZE, false, false, Trailer)
    ensures top > 0 && top % 8 == 0 && topsize % 8 == 0 && topsize >= 8
    ensures top + topsize + TOP_FOOT_SIZE <= MMAP_REGION_END
  {
    hide TiledMem, HeldOk, SegmentsOk, SegmentsApart, Linked, SmallIsTop, Disjoint;
  }

  // ---------------------------------------------------------------- which runs may be retiled

  /** A free chunk other than top can be allocated whole, or split if both parts are big enough. */
  lemma {:induction false} CanTake(mem: Words, chunks: Chunks, segs: seq<Segment>, top: int, topsize: int, p: int,
      nb: int)
    requires Sound(mem, chunks, segs, top, topsize) && FreeAt(chunks, p) && p != top && nb % 8 == 0
    ensures var n := p + chunks[p].size;
      && CanRetile(chunks, p, n, n, true, true)
      && (MIN_CHUNK_SIZE <= nb <= chunks[p].size - MIN_CHUNK_SIZE ==> CanRetile(chunks, p, p + nb, n, true, false))
      && !chunks[n].kind.Trailer? && !chunks[n].pinuse && chunks[p].pinuse
  {
    hide Sound;
    ReadHead(mem, chunks, segs, top, topsize, p);
    NextChunk(mem, chunks, segs, top, topsize, p);
    ReadHead(mem, chunks, segs, top, topsize, p + chunks[p].size);
    OneChunkRun(mem, chunks, segs, top, topsize, p);
  }

  lemma {:induction false} CanTakeTop(mem: Words, chunks: Chunks, segs: seq<Segment>, top: int, topsize: int, nb: int)
    requires Sound(mem, chunks, segs, top, topsize) && nb % 8 == 0 && MIN_CHUNK_SIZE <= nb < topsize
    ensures CanRetile(chunks, top, top + nb, top + topsize, true, false)
  {
    hide Sound;
    TopChunk(mem, chunks, segs, top, topsize);
    OneChunkRun(mem, chunks, segs, top, topsize, top);
  }

  /**
   Consolidation: an allocated chunk p with the free chunk before it (if any) and the free chunk
   after it (if any) form a run [q, n) that may become one free chunk.
   */
  lemma {:induction false} CanFree(mem: Words, chunks: Chunks, segs: seq<Segment>, top: int, topsize: int, p: int)
      returns (q: int, n: int)
    requires Sound(mem, chunks, segs, top, topsize)
    requires p in chunks && chunks[p].kind.Normal? && chunks[p].cinuse
    ensures CanRetile(chunks, q, n, n, false, false) && chunks[q].pinuse
    ensures !(chunks[n].kind.Trailer? && n != top + topsize)
    ensures q == (if chunks[p].pinuse then p else p - Rd(mem, p))
    ensures var next := p + chunks[p].size;
      next in chunks && chunks[next].pinuse && !chunks[next].kind.Trailer? &&
      n == (if chunks[next].cinuse then next else next + chunks[next].size)
    ensures forall b :: b in chunks && q <= b < n ==> b == q || b == p || b == p + chunks[p].size
    ensures n != p + chunks[p].size ==> FreeAt(chunks, p + chunks[p].size)
    ensures q != p ==> FreeAt(chunks, q) && chunks[q].size == p - q && q != top
    ensures chunks[n].kind.Trailer? <==> n == top + topsize
  {
    hide Sound, PInuse, CInuse, ChunkSize, SetPInuse, ClearPInuse, Pack;
    ReadHead(mem, chunks, segs, top, topsize, p);
    var next := p + chunks[p].size;
    NextChunk(mem, chunks, segs, top, topsize, p);
    OneChunkRun(mem, chunks, segs, top, topsize, p);
    TopChunk(mem, chunks, segs, top, topsize);
    q, n := p, next;
    ReadHead(mem, chunks, segs, top, topsize, next);
    TrailerIsLast(mem, chunks, segs, top, topsize, next);
    if !chunks[p].pinuse {
      PrevChunk(mem, chunks, segs, top, topsize, p);
      q := p - Rd(mem, p);
      NextChunk(mem, chunks, segs, top, topsize, q);
      OneChunkRun(mem, chunks, segs, top, topsize, q);
      ReadHead(mem, chunks, segs, top, topsize, q);
    }
    if !chunks[next].cinuse {
      NextChunk(mem, chunks, segs, top, topsize, next);
      OneChunkRun(mem, chunks, segs, top, topsize, next);
      n := next + chunks[next].size;
      ReadHead(mem, chunks, segs, top, topsize, n);
    }
    TrailerIsLast(mem, chunks, segs, top, topsize, n);
  }

  lemma {:induction false} TrailerIsLast(mem: Words, chunks: Chunks, segs: seq<Segment>, top: int, topsize: int, n: int)
    requires Sound(mem, chunks, segs, top, topsize) && n in chunks
    ensures chunks[n].kind.Trailer? <==> n == top + topsize
    ensures chunks[n].kind.Fence? ==> chunks[n].cinuse
  {
    hide TiledMem, HeldOk, SegmentsOk, SegmentsApart, Linked, SmallIsTop, Disjoint, AlignedOk;
  }
}

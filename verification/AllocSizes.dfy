/**
 Size arithmetic of the bundled allocator: request padding, bin indexes and the bit selection
 of the tree bins, for 64-bit size_t. Sizes and addresses are byte counts.
 */
module AllocSizes {
  import opened Bits

  const MALLOC_ALIGNMENT := 8
  const SIZE_T_SIZE := 8
  const TWO_SIZE_T_SIZES := 16
  const MIN_CHUNK_SIZE := 32
  const CHUNK_OVERHEAD := 8
  const MAX_REQUEST: int := TWO_64 - 128
  const MIN_REQUEST := 23
  const NSMALLBINS := 32
  const NTREEBINS := 32
  const MIN_LARGE_SIZE := 256
  const MAX_SMALL_REQUEST := 240
  const TOP_FOOT_SIZE := 64
  const DEFAULT_GRANULARITY := 131072
  /** CALL_MMAP only hands out memory in the lower 2GB on 64-bit targets. */
  const MMAP_REGION_END: int := 0x8000_0000
  /** First size whose size>>8 no longer fits the 32-bit X of compute_tree_index. */
  const TREE_INDEX_LIMIT: int := 0x100_0000_0000

  /** First size of the last tree bin. */
  const LAST_BIN_START := 12582912

  function PadRequest(req: nat): (nb: nat)
    ensures nb % 8 == 0 && req + CHUNK_OVERHEAD <= nb < req + CHUNK_OVERHEAD + MALLOC_ALIGNMENT
  {
    (req + CHUNK_OVERHEAD + 7) / 8 * 8
  }

  /** The chunk size serving a request: aligned, at least the minimum, and at most 7 bytes of slack. */
  function Request2Size(req: nat): (nb: nat)
    ensures nb % 8 == 0 && nb >= MIN_CHUNK_SIZE && nb - CHUNK_OVERHEAD >= req
    ensures nb > MIN_CHUNK_SIZE ==> nb < req + CHUNK_OVERHEAD + MALLOC_ALIGNMENT
  {
    if req < MIN_REQUEST then MIN_CHUNK_SIZE else PadRequest(req)
  }

  /** Unsigned 64-bit subtraction. */
  function WrapSub(a: int, b: int): (r: int)
    requires 0 <= a < TWO_64 && 0 <= b < TWO_64
    ensures 0 <= r < TWO_64 && (a >= b <==> r + b < TWO_64)
  {
    if a >= b then a - b else a - b + TWO_64
  }

  predicate IsSmall(s: nat) { s / 8 < NSMALLBINS }

  /** compute_tree_index, including the truncation of size>>8 to an unsigned int. */
  function TreeIndex(s: nat): (i: nat)
    ensures i < NTREEBINS
  {
    var x := s / 256 % TWO_32;
    if x == 0 then 0
    else if x > 0xFFFF then NTREEBINS - 1
    else
      var k := Fls(x);
      assert k < 16 by { Pow2Values(); Pow2Monotone(16, k); }
      2 * k + BitAt(s, k + 7)
  }

  /** Number of size bits left to resolve at the root of tree bin i (one above bit_for_tree_index). */
  function RootBits(i: nat): (k: nat)
    requires i < NTREEBINS
  {
    if i == NTREEBINS - 1 then 64 else i / 2 + 7
  }

  /** The common value of size >> RootBits(i) for all sizes of tree bin i. */
  function RootPrefix(i: nat): (p: nat)
    requires i < NTREEBINS
  {
    if i == NTREEBINS - 1 then 0 else 2 + i % 2
  }

  lemma {:induction false} ShrTwoOrThree(s: nat, k: nat)
    requires 2 * Pow2(k) <= s < 4 * Pow2(k)
    ensures Shr(s, k) == if s < 3 * Pow2(k) then 2 else 3
  {
    if k > 0 {
      ShrTwoOrThree(s / 2, k - 1);
      ShrHalf(s, k);
    }
  }

  lemma {:induction false} OctaveBounds(s: nat, k: nat)
    requires MIN_LARGE_SIZE <= s < 0x100_0000 && k == Fls(s / 256)
    ensures k < 16 && 2 * Pow2(k + 7) <= s < 4 * Pow2(k + 7)
  {
    Pow2Values();
    Pow2Monotone(16, k);
    Pow2Add(k, 7);
  }

  lemma {:induction false} TreeIndexOf(s: nat, k: nat)
    requires MIN_LARGE_SIZE <= s < 0x100_0000 && k == Fls(s / 256)
    ensures TreeIndex(s) == 2 * k + BitAt(s, k + 7)
  {
    assert 0 < s / 256 <= 0xFFFF;
    assert s / 256 % TWO_32 == s / 256;
  }

  /** A size between 256 and 2^24 lies in [2d, 4d) for d = 2^(k+7); its index tells k and the half. */
  lemma {:induction false} Octave(s: nat) returns (k: nat, d: nat)
    requires MIN_LARGE_SIZE <= s < 0x100_0000
    ensures k < 16 && d == Pow2(k + 7)
    ensures 2 * d <= s < 4 * d
    ensures TreeIndex(s) == if s < 3 * d then 2 * k else 2 * k + 1
    ensures Shr(s, k + 7) == if s < 3 * d then 2 else 3
  {
    k := Fls(s / 256);
    d := Pow2(k + 7);
    OctaveBounds(s, k);
    TreeIndexOf(s, k);
    ShrTwoOrThree(s, k + 7);
  }

  lemma {:induction false} TopOctave(k: nat, d: nat)
    requires k < 16 && d == Pow2(k + 7)
    ensures k == 15 ==> d == 4194304
    ensures k < 15 ==> d <= 2097152
  {
    Pow2Values();
    Pow2Monotone(k + 7, 21);
  }

  /** All large sizes of a tree bin agree on the bits above RootBits; the last bin takes the rest. */
  lemma {:induction false} TreeIndexPrefix(s: nat)
    requires MIN_LARGE_SIZE <= s < TREE_INDEX_LIMIT
    ensures TreeIndex(s) < NTREEBINS - 1 ==> Shr(s, RootBits(TreeIndex(s))) == RootPrefix(TreeIndex(s))
    ensures TreeIndex(s) == NTREEBINS - 1 <==> s >= LAST_BIN_START
  {
    if s < 0x100_0000 {
      var k, d := Octave(s);
      TopOctave(k, d);
      var i := TreeIndex(s);
      assert i / 2 == k;
      assert i == 31 <==> k == 15 && s >= 3 * d;
    } else {
      assert s / 256 > 0xFFFF;
      assert s / 256 % TWO_32 == s / 256;
    }
  }

  /** The prefix fact for every tree bin, the last one included. */
  lemma {:induction false} LargePrefix(s: nat)
    requires MIN_LARGE_SIZE <= s < TREE_INDEX_LIMIT
    ensures Shr(s, RootBits(TreeIndex(s))) == RootPrefix(TreeIndex(s))
  {
    hide TreeIndex, Shr, Pow2;
    TreeIndexPrefix(s);
    LimitBelow64();
    ShrZero(s, 64);
  }

  lemma {:induction false} LimitBelow64()
    ensures TREE_INDEX_LIMIT <= Pow2(64)
  {
    Pow2Values();
    hide Pow2;
    Pow2Add(21, 21);
    Pow2Monotone(42, 64);
  }

  /** Larger tree bins hold strictly larger sizes, for every size the 32-bit index can see. */
  lemma {:induction false} TreeIndexMonotone(s: nat, s': nat)
    requires MIN_LARGE_SIZE <= s < TREE_INDEX_LIMIT && MIN_LARGE_SIZE <= s' < TREE_INDEX_LIMIT
    ensures TreeIndex(s) < TreeIndex(s') ==> s < s'
  {
    hide TreeIndex, Shr, Pow2;
    if s < 0x100_0000 && s' < 0x100_0000 {
      var k, d := Octave(s);
      var k', d' := Octave(s');
      if k < k' { OctavesApart(k, k'); }
    } else {
      TreeIndexPrefix(s);
      TreeIndexPrefix(s');
    }
  }

  lemma {:induction false} OctavesApart(k: nat, k': nat)
    requires k < k'
    ensures 2 * Pow2(k + 7) <= Pow2(k' + 7)
  {
    Pow2Monotone(k + 8, k' + 7);
    assert Pow2(k + 8) == 2 * Pow2(k + 7);
  }

  /** The index that compute_tree_index is meant to give: without the truncation. */
  function IdealIndex(s: nat): (i: nat)
    requires s >= MIN_LARGE_SIZE
    ensures i < NTREEBINS
  {
    if s / 256 > 0xFFFF then NTREEBINS - 1
    else
      var k := Fls(s / 256);
      assert k < 16 by { Pow2Values(); Pow2Monotone(16, k); }
      2 * k + BitAt(s, k + 7)
  }

  lemma {:induction false} IdealBelowLimit(s: nat)
    requires MIN_LARGE_SIZE <= s < TREE_INDEX_LIMIT
    ensures IdealIndex(s) == TreeIndex(s)
  {
    assert s / 256 % TWO_32 == s / 256;
  }

  /** The ideal index orders all sizes, and its last bin takes exactly those from 12 MB on. */
  lemma {:induction false} IdealMonotone(s: nat, s': nat)
    requires MIN_LARGE_SIZE <= s <= s'
    ensures IdealIndex(s) <= IdealIndex(s')
    ensures IdealIndex(s) == NTREEBINS - 1 <==> s >= LAST_BIN_START
  {
    if s < TREE_INDEX_LIMIT {
      IdealBelowLimit(s);
      TreeIndexPrefix(s);
      if s' < TREE_INDEX_LIMIT {
        IdealBelowLimit(s');
        TreeIndexMonotone(s', s);
      }
    }
  }

  lemma {:induction false} LimitIsPow2()
    ensures TREE_INDEX_LIMIT == Pow2(40)
  {
    Pow2Values();
    hide Pow2;
    Pow2Add(32, 8);
  }

  lemma {:induction false} LowPart(s: nat)
    ensures s / 256 % TWO_32 == s % TREE_INDEX_LIMIT / 256
  {
    var q, r := s / TREE_INDEX_LIMIT, s % TREE_INDEX_LIMIT;
    assert s == 256 * (TWO_32 * q) + r;
    assert s / 256 == TWO_32 * q + r / 256;
    assert 0 <= r / 256 < TWO_32;
  }

  /** The index is a function of the size modulo 2^40, for every size. */
  lemma {:induction false} TreeIndexWraps(s: nat)
    ensures TreeIndex(s) == TreeIndex(s % TREE_INDEX_LIMIT)
  {
    hide Fls, BitAt, Shr, Pow2;
    var q, r := s / TREE_INDEX_LIMIT, s % TREE_INDEX_LIMIT;
    LowPart(s);
    LowPart(r);
    var x := r / 256;
    if 0 < x <= 0xFFFF {
      var k := Fls(x);
      assert k < 16 by { Pow2Values(); Pow2Monotone(16, k); }
      LimitIsPow2();
      BitOfSum(q, 40, r, k + 7);
    }
  }

  /**
   Exactly which sizes the truncation misfiles: those from 2^40 on whose remainder modulo 2^40
   is less than 12 MB. All others get the index they are meant to have.
   */
  lemma {:induction false} TreeIndexExact(s: nat)
    requires s >= MIN_LARGE_SIZE
    ensures TreeIndex(s) == IdealIndex(s) <==> s < TREE_INDEX_LIMIT || s % TREE_INDEX_LIMIT >= LAST_BIN_START
    ensures s >= TREE_INDEX_LIMIT ==> IdealIndex(s) == NTREEBINS - 1
  {
    if s < TREE_INDEX_LIMIT {
      IdealBelowLimit(s);
    } else {
      var r := s % TREE_INDEX_LIMIT;
      TreeIndexWraps(s);
      if r < MIN_LARGE_SIZE { assert TreeIndex(r) == 0; } else { TreeIndexPrefix(r); }
    }
  }

  /** Both happen beyond 2^40: the first such size gets the smallest tree bin, 16 MB more the right one. */
  lemma {:induction false} TreeIndexTruncates()
    ensures TreeIndex(TREE_INDEX_LIMIT) == 0 && IdealIndex(TREE_INDEX_LIMIT) == NTREEBINS - 1
    ensures TreeIndex(TREE_INDEX_LIMIT + 0x100_0000) == NTREEBINS - 1
  {
    TreeIndexExact(TREE_INDEX_LIMIT + 0x100_0000);
  }
}

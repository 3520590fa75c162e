/**
 The free store of the allocator: 32 small bins (rings of one chunk size each) and 32 tree bins,
 with a bitmap for each. A ring is kept as the sequence met by following fd from the bin.
 */
module Bins {
  import opened Bits
  import opened BinMaps
  import opened AllocSizes
  import opened Trie
  import opened TrieSearch

  ghost predicate SizesOk(content: map<int, int>) {
    forall a :: a in content ==> MIN_CHUNK_SIZE <= content[a] < MMAP_REGION_END && content[a] % 8 == 0
  }

  /** Small bin i holds exactly the free chunks of 8 * i bytes, and its bit says whether there are any. */
  ghost predicate SmallOk(smallmap: seq<bool>, bins: seq<seq<int>>, content: map<int, int>) {
    && |smallmap| == 32 && |bins| == 32
    && (forall i :: 0 <= i < 32 ==> (smallmap[i] <==> bins[i] != []) && NoDup(bins[i]))
    && (forall i, a :: 0 <= i < 32 && a in bins[i] ==> a in content && content[a] == 8 * i)
    && (forall a :: a in content && content[a] < MIN_LARGE_SIZE ==>
        0 <= content[a] / 8 < 32 && a in bins[content[a] / 8])
  }

  /** Tree bin i is a trie of exactly the large free chunks with that index. */
  ghost predicate TreesOk(treemap: seq<bool>, bins: seq<Tree>, content: map<int, int>) {
    && |treemap| == 32 && |bins| == 32
    && (forall i :: 0 <= i < 32 ==> (treemap[i] <==> bins[i].Node?) && TreeOk(bins[i], RootPrefix(i), RootBits(i)))
    && (forall i, a, s: nat {:trigger Has(bins[i], a, s)} :: 0 <= i < 32 && Has(bins[i], a, s) ==>
          a in content && content[a] == s && s >= MIN_LARGE_SIZE && TreeIndex(s) == i)
    && (forall a :: a in content && content[a] >= MIN_LARGE_SIZE ==> Has(bins[TreeIndex(content[a])], a, content[a]))
  }

  lemma {:induction false} SizeHasChunk(t: Tree, prefix: nat, k: nat, s: nat) returns (a: int)
    requires TreeOk(t, prefix, k) && HasSize(t, s)
    ensures Has(t, a, s)
    decreases t
  {
    if t.size == s { a := t.ring[0]; }
    else if HasSize(t.left, s) { a := SizeHasChunk(t.left, 2 * prefix, k - 1, s); }
    else { a := SizeHasChunk(t.right, 2 * prefix + 1, k - 1, s); }
  }

  lemma {:induction false} BinSizes(treemap: seq<bool>, bins: seq<Tree>, content: map<int, int>, i: nat)
    requires SizesOk(content) && TreesOk(treemap, bins, content) && i < 32
    ensures forall x: nat :: HasSize(bins[i], x) ==> MIN_LARGE_SIZE <= x < MMAP_REGION_END && TreeIndex(x) == i
  {
    forall x: nat ensures HasSize(bins[i], x) ==> MIN_LARGE_SIZE <= x < MMAP_REGION_END && TreeIndex(x) == i {
      if HasSize(bins[i], x) {
        var a := SizeHasChunk(bins[i], RootPrefix(i), RootBits(i), x);
        assert content[a] == x;
      }
    }
  }

  lemma {:induction false} SmallInsert(m: seq<bool>, bins: seq<seq<int>>, content: map<int, int>, a: int, s: nat)
    requires SizesOk(content) && SmallOk(m, bins, content) && a !in content
    requires s % 8 == 0 && s < MIN_LARGE_SIZE
    ensures SmallOk(m[s / 8 := true], bins[s / 8 := [a] + bins[s / 8]], content[a := s])
  {
    var i := s / 8;
    var bins' := bins[i := [a] + bins[i]];
    assert NoDup(bins[i]) && a !in bins[i];
    assert NoDup(bins'[i]);
    forall b | b in content ensures content[b] < MIN_LARGE_SIZE ==> b in bins'[content[b] / 8] {}
  }

  lemma {:induction false} SmallUnlink(m: seq<bool>, bins: seq<seq<int>>, content: map<int, int>, a: int, s: nat)
    requires SizesOk(content) && SmallOk(m, bins, content) && a in content && content[a] == s < MIN_LARGE_SIZE
    ensures var r := Without(bins[s / 8], a);
            SmallOk(m[s / 8 := r != []], bins[s / 8 := r], content - {a})
  {
    WithoutOk(bins[s / 8], a);
  }

  /** Large chunks do not concern the small bins, nor small ones the trees. */
  lemma {:induction false} SmallSkips(m: seq<bool>, bins: seq<seq<int>>, content: map<int, int>, a: int, s: nat)
    requires SmallOk(m, bins, content)
    requires s >= MIN_LARGE_SIZE
    ensures a !in content ==> SmallOk(m, bins, content[a := s])
    ensures a in content && content[a] == s ==> SmallOk(m, bins, content - {a})
  {
  }

  lemma {:induction false} TreesSkip(m: seq<bool>, bins: seq<Tree>, content: map<int, int>, a: int, s: nat)
    requires TreesOk(m, bins, content)
    requires s < MIN_LARGE_SIZE
    ensures a !in content ==> TreesOk(m, bins, content[a := s])
    ensures a in content && content[a] == s ==> TreesOk(m, bins, content - {a})
  {
  }

  lemma {:induction false} TreesInsert(m: seq<bool>, bins: seq<Tree>, content: map<int, int>, a: int, s: nat)
    requires TreesOk(m, bins, content) && a !in content
    requires MIN_LARGE_SIZE <= s < TREE_INDEX_LIMIT
    ensures var i := TreeIndex(s);
            TreesOk(m[i := true], bins[i := Insert(bins[i], s, a, RootBits(i))], content[a := s])
  {
    var i := TreeIndex(s);
    LargePrefix(s);
    InsertOk(bins[i], RootPrefix(i), s, a, RootBits(i));
    assert Has(Insert(bins[i], s, a, RootBits(i)), a, s);
  }

  lemma {:induction false} TreesUnlink(m: seq<bool>, bins: seq<Tree>, content: map<int, int>, a: int, s: nat)
    requires TreesOk(m, bins, content) && a in content && content[a] == s >= MIN_LARGE_SIZE
    ensures var i := TreeIndex(s);
            var t := Unlink(bins[i], s, a, RootBits(i));
            TreesOk(m[i := t.Node?], bins[i := t], content - {a})
  {
    var i := TreeIndex(s);
    UnlinkOk(bins[i], RootPrefix(i), s, a, RootBits(i));
  }

  // ---------------------------------------------------------------- what the maps tell about sizes

  ghost predicate Fits(content: map<int, int>, nb: int, a: int) { a in content && content[a] >= nb }

  /** Some binned chunk has exactly s bytes. */
  ghost predicate Exact(content: map<int, int>, s: int) {
    exists a :: a in content && content[a] == s
  }

  /** p is a smallest binned chunk of at least nb bytes. */
  ghost predicate BestFit(content: map<int, int>, nb: int, p: int) {
    Fits(content, nb, p) && forall a :: Fits(content, nb, a) ==> content[p] <= content[a]
  }

  /** A chunk of s bytes is a best fit if nothing lies between. */
  lemma {:induction false} NothingBetween(content: map<int, int>, nb: int, p: int, s: int)
    requires SizesOk(content) && nb % 8 == 0 && p in content && content[p] == s >= nb
    requires s == nb || (!Exact(content, nb) && forall a :: a in content && content[a] >= nb + 8 ==> content[a] >= s)
    ensures BestFit(content, nb, p)
  {
    Gap(content, nb);
    hide SizesOk;
  }

  lemma {:induction false} Gap(content: map<int, int>, nb: int)
    requires SizesOk(content) && nb % 8 == 0
    ensures forall a :: a in content ==> content[a] <= nb || content[a] >= nb + 8
  {
  }

  lemma {:induction false} SmallBit(smallmap: seq<bool>, bins: seq<seq<int>>, content: map<int, int>, i: nat)
    requires SmallOk(smallmap, bins, content) && i < 32
    ensures smallmap[i] <==> Exact(content, 8 * i)
  {
    assert smallmap[i] <==> bins[i] != [];
    if bins[i] != [] {
      var b := bins[i][0];
      assert b in bins[i];
      assert b in content && content[b] == 8 * i;
    }
    if a :| a in content && content[a] == 8 * i {
      assert content[a] / 8 == i;
      assert a in bins[i];
    }
  }

  /** From the lowest marked bin at or above i on. */
  lemma {:induction false} LowestSmall(smallmap: seq<bool>, bins: seq<seq<int>>, content: map<int, int>, i: nat)
    requires SmallOk(smallmap, bins, content) && SizesOk(content) && i <= 32
    ensures forall a :: a in content && content[a] >= 8 * i ==> content[a] >= 8 * LowestSet(smallmap, i)
  {
    hide LowestSet;
    forall a | a in content && content[a] >= 8 * i ensures content[a] >= 8 * LowestSet(smallmap, i) {
      if content[a] < MIN_LARGE_SIZE { assert a in bins[content[a] / 8]; }
    }
  }

  lemma {:induction false} NoTrees(treemap: seq<bool>, bins: seq<Tree>, content: map<int, int>)
    requires TreesOk(treemap, bins, content) && IsZero(treemap)
    ensures forall a :: a in content ==> content[a] < MIN_LARGE_SIZE
  {
    forall a | a in content && content[a] >= MIN_LARGE_SIZE ensures treemap[TreeIndex(content[a])] {
      assert Has(bins[TreeIndex(content[a])], a, content[a]);
    }
  }

  class FreeBins {
    var smallmap: seq<bool>
    var treemap: seq<bool>
    var smallbins: seq<seq<int>>
    var treebins: seq<Tree>
    /** The binned free chunks: address to size. */
    ghost var content: map<int, int>

    ghost predicate Valid()
      reads this
    {
      SizesOk(content) && SmallOk(smallmap, smallbins, content) && TreesOk(treemap, treebins, content)
    }

    lemma {:induction false} Shape()
      requires Valid()
      ensures |smallmap| == 32 && |treemap| == 32 && |smallbins| == 32 && |treebins| == 32
    {
    }

    /** What the shifted small map and the tree map tell about the binned sizes. */
    lemma {:induction false} MapsTell(nb: nat)
      requires Valid() && nb % 8 == 0 && nb < MIN_LARGE_SIZE
      ensures var idx := nb / 8;
        && (ShiftDown(smallmap, idx)[0] <==> Exact(content, nb))
        && (ShiftDown(smallmap, idx)[1] <==> Exact(content, nb + 8) && nb + 8 < MIN_LARGE_SIZE)
        && forall a :: a in content && content[a] >= nb + 8 ==> content[a] >= 8 * LowestSet(smallmap, idx + 1)
    {
      hide SizesOk, SmallOk, TreesOk, LowestSet, Exact;
      Shape();
      var idx := nb / 8;
      SmallBit(smallmap, smallbins, content, idx);
      if idx < 31 { SmallBit(smallmap, smallbins, content, idx + 1); }
      LowestSmall(smallmap, smallbins, content, idx + 1);
    }

    lemma {:induction false} TreesTell()
      requires Valid() && IsZero(treemap)
      ensures forall a :: a in content ==> content[a] < MIN_LARGE_SIZE
    {
      hide SizesOk, SmallOk;
      NoTrees(treemap, treebins, content);
    }

    /** init_bins: all rings and trees empty. */
    constructor ()
      ensures Valid() && content == map[]
    {
      smallmap := seq(32, i => false);
      treemap := seq(32, i => false);
      smallbins := seq(32, i => []);
      treebins := seq(32, i => Nil);
      content := map[];
      new;
      assert forall i :: 0 <= i < 32 ==> treebins[i].Nil?;
    }

    /** insert_chunk. */
    method InsertChunk(p: int, s: nat)
      requires Valid() && p !in content
      requires MIN_CHUNK_SIZE <= s < MMAP_REGION_END && s % 8 == 0
      modifies this
      ensures Valid() && content == old(content)[p := s]
    {
      if IsSmall(s) {
        SmallInsert(smallmap, smallbins, content, p, s);
        TreesSkip(treemap, treebins, content, p, s);
        var i := s / 8;
        smallmap := smallmap[i := true];
        smallbins := smallbins[i := [p] + smallbins[i]];
      } else {
        TreesInsert(treemap, treebins, content, p, s);
        SmallSkips(smallmap, smallbins, content, p, s);
        var i := TreeIndex(s);
        treemap := treemap[i := true];
        treebins := treebins[i := Insert(treebins[i], s, p, RootBits(i))];
      }
      content := content[p := s];
    }

    /** unlink_chunk; the bitmap bit goes when the ring or tree becomes empty. */
    method UnlinkChunk(p: int, s: nat)
      requires Valid() && p in content && content[p] == s
      modifies this
      ensures Valid() && content == old(content) - {p}
    {
      if IsSmall(s) {
        SmallUnlink(smallmap, smallbins, content, p, s);
        TreesSkip(treemap, treebins, content, p, s);
        var i := s / 8;
        var r := Without(smallbins[i], p);
        smallmap := smallmap[i := r != []];
        smallbins := smallbins[i := r];
      } else {
        TreesUnlink(treemap, treebins, content, p, s);
        SmallSkips(smallmap, smallbins, content, p, s);
        var i := TreeIndex(s);
        var t := Unlink(treebins[i], s, p, RootBits(i));
        treemap := treemap[i := t.Node?];
        treebins := treebins[i := t];
      }
      content := content - {p};
    }

    /** unlink_first_small_chunk: pop the front of a non-empty small bin. */
    method PopSmall(i: nat) returns (p: int)
      requires Valid() && i < 32 && smallmap[i]
      modifies this
      ensures Valid() && p in old(content) && old(content)[p] == 8 * i
      ensures content == old(content) - {p}
    {
      p := smallbins[i][0];
      assert p in smallbins[i];
      SmallUnlink(smallmap, smallbins, content, p, 8 * i);
      TreesSkip(treemap, treebins, content, p, 8 * i);
      var r := smallbins[i][1..];
      smallmap := smallmap[i := r != []];
      smallbins := smallbins[i := r];
      content := content - {p};
    }

    /** Where the leftmost walk starts: in the request's own bin, or at the root of the next non-empty one. */
    ghost predicate Started(nb: nat, v: Tree, t: Tree, i: nat)
      reads this
      requires Valid()
    {
      var idx := TreeIndex(nb);
      if i == idx then
        && SubTree(t, treebins[idx]) && (v.Nil? || FromTree(treebins[idx], v))
        && (nb < TREE_INDEX_LIMIT ==> Settled(treebins[idx], nb, v, t) && (v.Node? || t.Node?))
      else
        && v.Nil? && idx < i <= 32 && t == (if i < 32 then treebins[i] else Nil) && (i < 32 ==> t.Node?)
        && (nb < TREE_INDEX_LIMIT ==> AllFit(t, nb) && AllBeaten(treebins[idx], nb, Nil))
        && (forall j :: idx < j < i ==> !treemap[j])
    }

    method StartLarge(nb: nat) returns (v: Tree, rsize: int, t: Tree, ghost i: nat, ghost p: nat, ghost k: nat)
      requires Valid() && MIN_LARGE_SIZE <= nb < TWO_64
      ensures RsizeOk(v, rsize, nb) && TreeOk(t, p, k) && SizesBelow(t, TWO_64)
      ensures Uniform(t, nb, v) && Started(nb, v, t, i)
    {
      hide IsZero, LeftBits, LowestSet, Ffs;
      var idx := TreeIndex(nb);
      v, rsize, t := Nil, TWO_64 - nb, treebins[idx];
      i, p, k := idx, RootPrefix(idx), RootBits(idx);
      if t.Node? {
        BinSizes(treemap, treebins, content, idx);
        if nb < TREE_INDEX_LIMIT { LargePrefix(nb); }
        v, rsize, t, p, k := DescendFor(treebins[idx], nb, RootBits(idx), RootPrefix(idx));
      }
      if t.Nil? && v.Nil? {
        NextBin(treemap, idx);
        var leftbits := And(LeftBits(Idx2Bit(idx)), treemap);
        i := LowestSet(treemap, idx + 1);
        if !IsZero(leftbits) {
          var next := Ffs(leftbits);
          t := treebins[next];
          p, k := RootPrefix(next), RootBits(next);
          BinSizes(treemap, treebins, content, next);
          NextBinFits(t, nb, next, v);
        }
      }
    }

    /**
     The search of tmalloc_large: v is the smallest large chunk of at least nb bytes over all
     tree bins, or Nil when there is none.
     */
    method BestLarge(nb: nat) returns (v: Tree, rsize: int)
      requires Valid() && MIN_LARGE_SIZE <= nb < TWO_64
      ensures RsizeOk(v, rsize, nb)
      ensures v.Node? ==> v.ring != [] && v.ring[0] in content && content[v.ring[0]] == v.size >= MIN_LARGE_SIZE
      ensures forall a :: a in content && content[a] >= MIN_LARGE_SIZE ==> Beaten(v, nb, content[a])
    {
      var v0, rsize0, t, i, p, k := StartLarge(nb);
      v, rsize := SmallestOnPath(t, nb, v0, rsize0, p, k);
      BestOfAll(this, nb, v0, t, i, v);
    }

    /** The search of tmalloc_small: the smallest large chunk of all. */
    method SmallestLarge(nb: nat) returns (v: Tree, rsize: int)
      requires Valid() && 0 < nb < MIN_LARGE_SIZE && !IsZero(treemap)
      ensures v.Node? && RsizeOk(v, rsize, nb)
      ensures v.ring != [] && v.ring[0] in content && content[v.ring[0]] == v.size >= MIN_LARGE_SIZE
      ensures forall a :: a in content && content[a] >= MIN_LARGE_SIZE ==> v.size <= content[a]
    {
      hide SmallOk, TreeIndex, RootPrefix, BitAt, Shr;
      var i := Ffs(treemap);
      var t := treebins[i];
      BinSizes(treemap, treebins, content, i);
      assert HasSize(t, t.size) && Has(t, t.ring[0], t.size);
      ChildrenSubTree(t, t);
      var c := if t.left.Node? then t.left else t.right;
      assert AllFit(c, nb);
      v, rsize := SmallestOnPath(c, nb, t, t.size - nb,
        2 * RootPrefix(i) + (if t.left.Node? then 0 else 1), RootBits(i) - 1);
      RootOrChild(t, RootPrefix(i), RootBits(i));
      LeastOfAll(this, v, i);
    }
  }

  lemma {:induction false} RootOrChild(t: Tree, prefix: nat, k: nat)
    requires t.Node? && TreeOk(t, prefix, k)
    ensures var c := if t.left.Node? then t.left else t.right;
            forall x: nat :: HasSize(t, x) ==> t.size <= x || (c.Node? && HasSize(c, MinSize(c)) && MinSize(c) <= x)
  {
    var c := if t.left.Node? then t.left else t.right;
    if c.Node? { MinSizePresent(c); }
    forall x: nat | HasSize(t, x) ensures t.size <= x || (c.Node? && MinSize(c) <= x) {
      MinSizeLeast(t, prefix, k, x);
    }
  }

  lemma {:induction false} LeastOfAll(b: FreeBins, v: Tree, i: nat)
    requires b.Valid() && i < 32 && (forall j :: 0 <= j < i ==> !b.treemap[j])
    requires v.Node? && v.ring != [] && Has(b.treebins[i], v.ring[0], v.size)
    requires forall x: nat :: HasSize(b.treebins[i], x) ==> v.size <= x
    ensures forall a :: a in b.content && b.content[a] >= MIN_LARGE_SIZE ==> v.size <= b.content[a]
  {
    assert v.ring[0] in b.content && b.content[v.ring[0]] == v.size;
    forall a | a in b.content && b.content[a] >= MIN_LARGE_SIZE ensures v.size <= b.content[a] {
      var j := TreeIndex(b.content[a]);
      assert Has(b.treebins[j], a, b.content[a]);
      HasImpliesSize(b.treebins[j], a, b.content[a]);
      TreeIndexMonotone(v.size, b.content[a]);
    }
  }

  lemma {:induction false} BestOfAll(b: FreeBins, nb: nat, v0: Tree, t: Tree, i: nat, v: Tree)
    requires b.Valid() && MIN_LARGE_SIZE <= nb && b.Started(nb, v0, t, i)
    requires v == v0 || FromTree(t, v)
    requires v.Node? ==> nb <= v.size
    requires forall x: nat :: HasSize(t, x) || Beaten(v0, nb, x) ==> Beaten(v, nb, x)
    ensures v.Node? ==> v.ring != [] && v.ring[0] in b.content && b.content[v.ring[0]] == v.size >= MIN_LARGE_SIZE
    ensures forall a :: a in b.content && b.content[a] >= MIN_LARGE_SIZE ==> Beaten(v, nb, b.content[a])
  {
    var idx := TreeIndex(nb);
    var home := if i < 32 then i else idx;
    if v.Node? {
      assert FromTree(b.treebins[home], v);
      HasImpliesSize(b.treebins[home], v.ring[0], v.size);
    }
    if nb < TREE_INDEX_LIMIT {
      if t.Node? { MinSizePresent(t); }
      if v0.Node? { assert Beaten(v0, nb, v0.size); }
      if i == idx {
        OwnBinBeaten(b.treebins[idx], nb, v0, t, v);
        BestOfOwnBin(b, nb, v, idx);
      } else {
        BestOfNextBin(b, nb, v, idx, i);
      }
    }
  }

  lemma {:induction false} OwnBinBeaten(t0: Tree, nb: nat, v0: Tree, t: Tree, v: Tree)
    requires Settled(t0, nb, v0, t) && (t.Node? ==> HasSize(t, MinSize(t)))
    requires forall x: nat :: HasSize(t, x) || Beaten(v0, nb, x) ==> Beaten(v, nb, x)
    ensures AllBeaten(t0, nb, v)
  {
  }

  lemma {:induction false} NextBinFits(t: Tree, nb: nat, i: nat, v: Tree)
    requires MIN_LARGE_SIZE <= nb && TreeIndex(nb) < i
    requires forall x: nat :: HasSize(t, x) ==> MIN_LARGE_SIZE <= x < MMAP_REGION_END && TreeIndex(x) == i
    ensures Uniform(t, nb, v)
    ensures nb < TREE_INDEX_LIMIT ==> AllFit(t, nb)
  {
    if nb < TREE_INDEX_LIMIT {
      forall x: nat ensures HasSize(t, x) ==> nb <= x { if HasSize(t, x) { TreeIndexMonotone(nb, x); } }
      assert AllFit(t, nb);
    } else {
      assert AllBeaten(t, nb, v);
    }
  }

  /** The best of the request's own bin is the best of all: other bins are below nb or above the bin. */
  lemma {:induction false} BestOfOwnBin(b: FreeBins, nb: nat, v: Tree, idx: nat)
    requires b.Valid() && MIN_LARGE_SIZE <= nb < TREE_INDEX_LIMIT && idx == TreeIndex(nb)
    requires v.Node? && nb <= v.size && HasSize(b.treebins[idx], v.size) && AllBeaten(b.treebins[idx], nb, v)
    ensures forall a :: a in b.content && b.content[a] >= MIN_LARGE_SIZE ==> Beaten(v, nb, b.content[a])
  {
    BinSizes(b.treemap, b.treebins, b.content, idx);
    forall a | a in b.content && b.content[a] >= MIN_LARGE_SIZE ensures Beaten(v, nb, b.content[a]) {
      var x := b.content[a];
      var j := TreeIndex(x);
      HasImpliesSize(b.treebins[j], a, x);
      TreeIndexMonotone(x, nb);
      TreeIndexMonotone(v.size, x);
    }
  }

  /** With nothing suitable in its own bin, the least size of the next non-empty bin is the best of all. */
  lemma {:induction false} BestOfNextBin(b: FreeBins, nb: nat, v: Tree, idx: nat, i: nat)
    requires b.Valid() && MIN_LARGE_SIZE <= nb < TREE_INDEX_LIMIT && idx == TreeIndex(nb)
    requires AllBeaten(b.treebins[idx], nb, Nil)
    requires idx < i <= 32 && forall j :: idx < j < i ==> !b.treemap[j]
    requires i < 32 ==> v.Node? && nb <= v.size && HasSize(b.treebins[i], v.size) && AllBeaten(b.treebins[i], nb, v)
    ensures forall a :: a in b.content && b.content[a] >= MIN_LARGE_SIZE ==> Beaten(v, nb, b.content[a])
  {
    if i < 32 { BinSizes(b.treemap, b.treebins, b.content, i); }
    forall a | a in b.content && b.content[a] >= MIN_LARGE_SIZE ensures Beaten(v, nb, b.content[a]) {
      var x := b.content[a];
      var j := TreeIndex(x);
      assert Has(b.treebins[j], a, x);
      HasImpliesSize(b.treebins[j], a, x);
      TreeIndexMonotone(x, nb);
      if i < 32 { TreeIndexMonotone(v.size, x); }
    }
  }
}

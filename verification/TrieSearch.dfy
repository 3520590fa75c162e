/** The two search loops of tmalloc_large and the one of tmalloc_small, over one tree bin. */
module TrieSearch {
  import opened Bits
  import opened AllocSizes
  import opened Trie

  /** Smallest size on the leftmost path; MinSizeLeast shows it is the smallest of the whole tree. */
  function MinSize(t: Tree): nat
    requires t.Node?
  {
    var c := if t.left.Node? then t.left else t.right;
    if c.Nil? then t.size else if MinSize(c) < t.size then MinSize(c) else t.size
  }

  lemma {:induction false} MinSizePresent(t: Tree)
    requires t.Node?
    ensures HasSize(t, MinSize(t))
  {
    if t.left.Node? { MinSizePresent(t.left); } else if t.right.Node? { MinSizePresent(t.right); }
  }

  lemma {:induction false} MinSizeLeast(t: Tree, prefix: nat, k: nat, x: nat)
    requires t.Node? && TreeOk(t, prefix, k)
    ensures HasSize(t, x) ==> MinSize(t) <= x
    decreases t
  {
    assert t.left.Nil? ==> !HasSize(t.left, x);
    assert t.right.Nil? ==> !HasSize(t.right, x);
    if k > 0 {
      if t.left.Node? {
        MinSizeLeast(t.left, 2 * prefix, k - 1, x);
        MinSizePresent(t.left);
        LeftBelowRight(t, prefix, k, MinSize(t.left), x);
      } else if t.right.Node? {
        MinSizeLeast(t.right, 2 * prefix + 1, k - 1, x);
      }
    }
  }

  lemma {:induction false} LeftBelowRight(t: Tree, prefix: nat, k: nat, x: nat, y: nat)
    requires t.Node? && k > 0 && TreeOk(t, prefix, k)
    ensures HasSize(t.left, x) && HasSize(t.right, y) ==> x < y
  {
    SizePrefix(t.left, 2 * prefix, k - 1, x);
    SizePrefix(t.right, 2 * prefix + 1, k - 1, y);
    ShrMonotone(y, x, k - 1);
  }

  /** Size x is no better than the candidate v for a request of nb bytes. */
  ghost predicate Beaten(v: Tree, nb: nat, x: nat) {
    x < nb || (v.Node? && nb <= v.size <= x)
  }

  /** rsize is what the search keeps beside v: the leftover of v, or the negated request. */
  predicate RsizeOk(v: Tree, rsize: int, nb: nat) {
    if v.Nil? then rsize == TWO_64 - nb else nb <= v.size < TWO_64 && rsize == v.size - nb
  }

  /** v is a node of the tree: its ring head is one of the tree's chunks of that size. */
  ghost predicate FromTree(t: Tree, v: Tree) {
    v.Node? && v.ring != [] && Has(t, v.ring[0], v.size)
  }

  /** The sizes of t are all candidates, or none of them improves on v. */
  ghost predicate Uniform(t: Tree, nb: nat, v: Tree) {
    AllFit(t, nb) || AllBeaten(t, nb, v)
  }

  ghost predicate AllFit(t: Tree, nb: nat) {
    forall y: nat :: HasSize(t, y) ==> y >= nb
  }

  ghost predicate AllBeaten(t: Tree, nb: nat, v: Tree) {
    forall y: nat :: HasSize(t, y) ==> Beaten(v, nb, y)
  }

  ghost predicate SubTree(t: Tree, t0: Tree) {
    && (forall a, s: nat :: Has(t, a, s) ==> Has(t0, a, s))
    && (forall x: nat :: HasSize(t, x) ==> HasSize(t0, x))
  }

  ghost predicate SizesBelow(t: Tree, limit: int) {
    forall x: nat :: HasSize(t, x) ==> x < limit
  }

  /** Walk down the leftmost path keeping the smallest leftover. */
  method SmallestOnPath(t0: Tree, nb: nat, v0: Tree, rsize0: int, ghost prefix: nat, ghost k: nat)
    returns (v: Tree, rsize: int)
    requires 0 < nb < TWO_64 && RsizeOk(v0, rsize0, nb)
    requires TreeOk(t0, prefix, k) && SizesBelow(t0, TWO_64)
    requires Uniform(t0, nb, v0)
    ensures RsizeOk(v, rsize, nb)
    ensures v == v0 || FromTree(t0, v)
    ensures forall x: nat :: HasSize(t0, x) || Beaten(v0, nb, x) ==> Beaten(v, nb, x)
  {
    v, rsize := v0, rsize0;
    var t := t0;
    ghost var p: nat, j: nat := prefix, k;
    forall x: nat | HasSize(t0, x) ensures MinSize(t0) <= x { MinSizeLeast(t0, prefix, k, x); }
    while t.Node?
      invariant RsizeOk(v, rsize, nb)
      invariant v == v0 || FromTree(t0, v)
      invariant TreeOk(t, p, j)
      invariant SubTree(t, t0)
      invariant forall x: nat :: Beaten(v0, nb, x) ==> Beaten(v, nb, x)
      invariant forall x: nat :: HasSize(t0, x) ==> Beaten(v, nb, x) || (t.Node? && MinSize(t) <= x)
      decreases t
    {
      assert HasSize(t, t.size) && Has(t, t.ring[0], t.size);
      var trem := WrapSub(t.size, nb);
      if trem < rsize {
        rsize := trem;
        v := t;
      }
      if t.size < nb { assert HasSize(t0, t.size); assert AllBeaten(t0, nb, v0); }
      if t.left.Node? {
        t, p, j := t.left, 2 * p, j - 1;
      } else {
        t, p, j := t.right, 2 * p + 1, if j > 0 then j - 1 else 0;
      }
    }
  }

  /** Everything the descent has not ruled out is in t, or at least as large as the least size in rst. */
  ghost predicate Frontier(t0: Tree, nb: nat, v: Tree, t: Tree, rst: Tree) {
    forall x: nat :: HasSize(t0, x) ==>
      Beaten(v, nb, x) || HasSize(t, x) || (rst.Node? && MinSize(rst) <= x)
  }

  /** rst, the deepest untaken right subtree, lies above nb and above all of t. */
  ghost predicate RstOk(nb: nat, t: Tree, rst: Tree) {
    && (forall x: nat :: HasSize(rst, x) ==> nb < x)
    && (rst.Node? ==> forall x: nat :: HasSize(t, x) ==> x < MinSize(rst))
  }

  ghost predicate Reached(t0: Tree, nb: nat, v: Tree, t: Tree) {
    forall x: nat :: HasSize(t0, x) ==> Beaten(v, nb, x) || (t.Node? && MinSize(t) <= x)
  }

  /** Either the walk from t finds the best of t0, or v is already it. */
  ghost predicate Settled(t0: Tree, nb: nat, v: Tree, t: Tree) {
    (AllFit(t, nb) && Reached(t0, nb, v, t)) || (v.Node? && AllBeaten(t0, nb, v))
  }

  /**
   The descent along the bits of nb; t is where the leftmost walk has to continue. The tree either
   carries the prefix of nb, or (for an nb whose index was truncated) holds only smaller sizes.
   */
  method DescendFor(t0: Tree, nb: nat, k0: nat, ghost p0: nat)
    returns (v: Tree, rsize: int, t: Tree, ghost prefix: nat, ghost k: nat)
    requires t0.Node? && 0 < nb < TWO_64
    requires TreeOk(t0, p0, k0) && SizesBelow(t0, TWO_64)
    requires p0 == Shr(nb, k0) || SizesBelow(t0, nb)
    ensures RsizeOk(v, rsize, nb) && (v.Nil? || FromTree(t0, v))
    ensures TreeOk(t, prefix, k) && SubTree(t, t0)
    ensures Uniform(t, nb, v)
    ensures p0 == Shr(nb, k0) ==> Settled(t0, nb, v, t)
  {
    ghost var matched := p0 == Shr(nb, k0);
    v, rsize, t := Nil, TWO_64 - nb, t0;
    prefix, k := p0, k0;
    var rst := Nil;
    ghost var rp: nat, rk: nat := 0, 0;
    var j := k0;
    while true
      invariant t.Node? && TreeOk(t, prefix, j) && TreeOk(rst, rp, rk) && k == j
      invariant RsizeOk(v, rsize, nb) && (v.Nil? || FromTree(t0, v))
      invariant SubTree(t, t0) && SubTree(rst, t0)
      invariant if matched then prefix == Shr(nb, j) && RstOk(nb, t, rst) else SizesBelow(t0, nb)
      invariant Frontier(t0, nb, v, t, rst)
      decreases t
    {
      NodeFromTree(t0, t);
      var trem := WrapSub(t.size, nb);
      if trem < rsize {
        FrontierMonotone(t0, nb, v, t, t, rst);
        v := t;
        rsize := trem;
        if rsize == 0 {
          AllBeatenByExact(t0, nb, t);
          return;
        }
      }
      if j == 0 {  // no bits left: both children are empty
        LastLevel(t0, nb, v, t, rst, matched);
        t, prefix, k := rst, rp, rk;
        return;
      }
      DescendStep(t0, nb, v, t, rst, prefix, j, matched);
      if t.right.Node? && BitAt(nb, j - 1) == 0 {
        rst, rp, rk := t.right, 2 * prefix + 1, j - 1;
      }
      t := if BitAt(nb, j - 1) == 1 then t.right else t.left;
      if t.Nil? {
        t, prefix, k := rst, rp, rk;
        return;
      }
      prefix, j, k := 2 * prefix + BitAt(nb, j - 1), j - 1, j - 1;
    }
  }

  lemma {:induction false} NodeFromTree(t0: Tree, t: Tree)
    requires t.Node? && SubTree(t, t0) && t.ring != []
    ensures FromTree(t0, t) && HasSize(t0, t.size)
  {
    assert Has(t, t.ring[0], t.size);
    assert HasSize(t, t.size);
  }

  lemma {:induction false} FrontierMonotone(t0: Tree, nb: nat, v: Tree, v': Tree, t: Tree, rst: Tree)
    requires Frontier(t0, nb, v, t, rst)
    requires v'.Node? && nb <= v'.size && (v.Node? ==> v'.size <= v.size)
    ensures Frontier(t0, nb, v', t, rst)
  {
  }

  lemma {:induction false} AllBeatenByExact(t0: Tree, nb: nat, t: Tree)
    requires t.Node? && t.size == nb && SubTree(t, t0)
    ensures AllBeaten(t, nb, t) && AllBeaten(t0, nb, t)
  {
  }

  lemma {:induction false} LastLevel(t0: Tree, nb: nat, v: Tree, t: Tree, rst: Tree, matched: bool)
    requires t.Node? && t.left.Nil? && t.right.Nil? && Beaten(v, nb, t.size)
    requires SubTree(rst, t0) && Frontier(t0, nb, v, t, rst) && if matched then RstOk(nb, t, rst)
        else SizesBelow(t0, nb)
    ensures Uniform(rst, nb, v)
    ensures matched ==> Settled(t0, nb, v, rst)
  {
    if !matched { assert AllBeaten(rst, nb, v); return; }
    forall x: nat ensures HasSize(t, x) ==> x == t.size {
      assert !HasSize(t.left, x) && !HasSize(t.right, x);
    }
    assert AllFit(rst, nb);
  }

  function NextChild(t: Tree, nb: nat, j: nat): Tree
    requires t.Node? && j > 0
  {
    if BitAt(nb, j - 1) == 1 then t.right else t.left
  }

  function NextRst(t: Tree, rst: Tree, nb: nat, j: nat): Tree
    requires t.Node? && j > 0
  {
    if t.right.Node? && BitAt(nb, j - 1) == 0 then t.right else rst
  }

  lemma {:induction false} DescendStep(t0: Tree, nb: nat, v: Tree, t: Tree, rst: Tree, p: nat, j: nat, matched: bool)
    requires t.Node? && j > 0 && TreeOk(t, p, j) && SubTree(t, t0) && SubTree(rst, t0)
    requires Frontier(t0, nb, v, t, rst) && Beaten(v, nb, t.size)
    requires if matched then p == Shr(nb, j) && RstOk(nb, t, rst) else SizesBelow(t0, nb)
    ensures SubTree(NextChild(t, nb, j), t0) && SubTree(NextRst(t, rst, nb, j), t0)
    ensures matched ==>
      2 * p + BitAt(nb, j - 1) == Shr(nb, j - 1) && RstOk(nb, NextChild(t, nb, j), NextRst(t, rst, nb, j))
    ensures Frontier(t0, nb, v, NextChild(t, nb, j), NextRst(t, rst, nb, j))
    ensures Uniform(NextRst(t, rst, nb, j), nb, v)
    ensures matched && NextChild(t, nb, j).Nil? ==> Settled(t0, nb, v, NextRst(t, rst, nb, j))
  {
    ChildrenSubTree(t, t0);
    if !matched { assert AllBeaten(NextRst(t, rst, nb, j), nb, v); return; }
    SplitAt(t, nb, j);
    if t.right.Node? { MinSizePresent(t.right); }
    forall x: nat ensures HasSize(t.left, x) || HasSize(t.right, x) || x == t.size <==> HasSize(t, x) {}
    if t.right.Node? { assert HasSize(t, MinSize(t.right)); }
    assert AllFit(NextRst(t, rst, nb, j), nb);
  }

  lemma {:induction false} ChildrenSubTree(t: Tree, t0: Tree)
    requires t.Node? && SubTree(t, t0)
    ensures SubTree(t.left, t0) && SubTree(t.right, t0)
  {
    forall x: nat ensures HasSize(t.left, x) || HasSize(t.right, x) ==> HasSize(t, x) {}
    forall a, s: nat ensures Has(t.left, a, s) || Has(t.right, a, s) ==> Has(t, a, s) {}
  }

  lemma {:induction false} FrontierDone(t: Tree, prefix: nat, k: nat)
    requires t.Node? && TreeOk(t, prefix, k)
    ensures forall x: nat :: HasSize(t, x) ==> MinSize(t) <= x
  {
    forall x: nat ensures HasSize(t, x) ==> MinSize(t) <= x { MinSizeLeast(t, prefix, k, x); }
  }

  /** One descent step: the side not taken is below nb, or is an untaken right side above nb and all of the left. */
  lemma {:induction false} SplitAt(t: Tree, nb: nat, j: nat)
    requires t.Node? && j > 0 && TreeOk(t, Shr(nb, j), j)
    ensures BitAt(nb, j - 1) == 0 ==> TreeOk(t.left, Shr(nb, j - 1), j - 1)
    ensures BitAt(nb, j - 1) == 1 ==> TreeOk(t.right, Shr(nb, j - 1), j - 1)
    ensures BitAt(nb, j - 1) == 0 ==> forall x: nat :: HasSize(t.right, x) ==> nb < x
    ensures BitAt(nb, j - 1) == 1 ==> forall x: nat :: HasSize(t.left, x) ==> x < nb
    ensures t.right.Node? ==> forall x: nat :: HasSize(t.left, x) ==> x < MinSize(t.right)
    ensures t.right.Node? ==> forall x: nat :: HasSize(t.right, x) ==> MinSize(t.right) <= x
  {
    var p := Shr(nb, j);
    forall x: nat ensures HasSize(t.right, x) && BitAt(nb, j - 1) == 0 ==> nb < x
            ensures HasSize(t.left, x) && BitAt(nb, j - 1) == 1 ==> x < nb {
      SizePrefix(t.left, 2 * p, j - 1, x);
      SizePrefix(t.right, 2 * p + 1, j - 1, x);
      ShrMonotone(x, nb, j - 1);
      ShrMonotone(nb, x, j - 1);
    }
    if t.right.Node? {
      MinSizePresent(t.right);
      forall x: nat ensures HasSize(t.left, x) ==>
          x < MinSize(t.right) { LeftBelowRight(t, p, j, x, MinSize(t.right)); }
      FrontierDone(t.right, 2 * p + 1, j - 1);
    }
  }
}

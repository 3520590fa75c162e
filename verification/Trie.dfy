/**
 The tree bins of the allocator: bitwise tries keyed by chunk size. Every node heads a ring of free
 chunks of one size; the chunk that sits in the tree is ring[0] and ring[i].fd is ring[i + 1].
 A node k bits above the leaves holds sizes that share the prefix size >> k; its children split
 on bit k - 1.
 */
module Trie {
  import opened Bits
  import opened AllocSizes

  datatype Tree = Nil | Node(size: nat, ring: seq<int>, left: Tree, right: Tree)

  ghost predicate NoDup(s: seq<int>) {
    forall i, j :: 0 <= i < j < |s| ==> s[i] != s[j]
  }

  /** Chunk a of size s is somewhere in the tree. */
  ghost predicate Has(t: Tree, a: int, s: nat) {
    t.Node? && ((t.size == s && a in t.ring) || Has(t.left, a, s) || Has(t.right, a, s))
  }

  ghost predicate HasSize(t: Tree, s: nat) {
    t.Node? && (t.size == s || HasSize(t.left, s) || HasSize(t.right, s))
  }

  /** The trie invariant. */
  ghost predicate TreeOk(t: Tree, prefix: nat, k: nat)
    decreases t
  {
    t.Node? ==>
      && Shr(t.size, k) == prefix
      && t.ring != [] && NoDup(t.ring)
      && !HasSize(t.left, t.size) && !HasSize(t.right, t.size)
      && (k == 0 ==> t.left.Nil? && t.right.Nil?)
      && (k > 0 ==> TreeOk(t.left, 2 * prefix, k - 1) && TreeOk(t.right, 2 * prefix + 1, k - 1))
  }

  lemma {:induction false} HasImpliesSize(t: Tree, a: int, s: nat)
    ensures Has(t, a, s) ==> HasSize(t, s)
  {
    if t.Node? {
      HasImpliesSize(t.left, a, s);
      HasImpliesSize(t.right, a, s);
    }
  }

  /** Every size in a well-formed tree carries the tree's prefix. */
  lemma {:induction false} SizePrefix(t: Tree, prefix: nat, k: nat, s: nat)
    requires TreeOk(t, prefix, k)
    ensures HasSize(t, s) ==> Shr(s, k) == prefix
    decreases t
  {
    if t.Node? && k > 0 {
      SizePrefix(t.left, 2 * prefix, k - 1, s);
      SizePrefix(t.right, 2 * prefix + 1, k - 1, s);
    } else if t.Node? {
      assert !HasSize(t.left, s) && !HasSize(t.right, s);
    }
  }

  // ---------------------------------------------------------------- insertion

  /** insert_large_chunk below a subtree with k bits left to resolve. */
  function Insert(t: Tree, s: nat, a: int, k: nat): Tree
    decreases t
  {
    match t
    case Nil => Node(s, [a], Nil, Nil)
    case Node(size, ring, left, right) =>
      if size == s && ring != [] then Node(size, [ring[0], a] + ring[1..], left, right)
      else if k == 0 then t
      else if BitAt(s, k - 1) == 0 then Node(size, ring, Insert(left, s, a, k - 1), right)
      else Node(size, ring, left, Insert(right, s, a, k - 1))
  }

  lemma {:induction false} InsertAfterHead(r: seq<int>, a: int)
    requires r != [] && NoDup(r) && a !in r
    ensures NoDup([r[0], a] + r[1..])
    ensures forall b :: b in [r[0], a] + r[1..] <==> b == a || b in r
  {
    var n := [r[0], a] + r[1..];
    assert r == [r[0]] + r[1..];
    forall i, j | 0 <= i < j < |n| ensures n[i] != n[j] {
      if i > 1 { assert n[i] == r[i - 1]; }
      if j > 1 { assert n[j] == r[j - 1]; }
    }
  }

  lemma {:induction false} InsertSizes(t: Tree, prefix: nat, s: nat, a: int, k: nat, x: nat)
    requires TreeOk(t, prefix, k) && Shr(s, k) == prefix
    ensures HasSize(Insert(t, s, a, k), x) <==> x == s || HasSize(t, x)
    decreases t
  {
    if t.Node? {
      if k > 0 && t.size != s {
        if BitAt(s, k - 1) == 0 { InsertSizes(t.left, 2 * prefix, s, a, k - 1, x); }
        else { InsertSizes(t.right, 2 * prefix + 1, s, a, k - 1, x); }
      }
    }
  }

  /** Insertion keeps the trie invariant and adds exactly the chunk. */
  lemma {:induction false} InsertOk(t: Tree, prefix: nat, s: nat, a: int, k: nat)
    requires TreeOk(t, prefix, k) && Shr(s, k) == prefix
    requires !Has(t, a, s)
    ensures TreeOk(Insert(t, s, a, k), prefix, k)
    ensures forall b, x :: Has(Insert(t, s, a, k), b, x) <==> Has(t, b, x) || (b == a && x == s)
    decreases t
  {
    if t.Node? {
      if t.size == s {
        InsertAfterHead(t.ring, a);
      } else if k > 0 {
        if BitAt(s, k - 1) == 0 {
          InsertOk(t.left, 2 * prefix, s, a, k - 1);
          InsertSizes(t.left, 2 * prefix, s, a, k - 1, t.size);
        } else {
          InsertOk(t.right, 2 * prefix + 1, s, a, k - 1);
          InsertSizes(t.right, 2 * prefix + 1, s, a, k - 1, t.size);
        }
      }
    }
  }

  // ---------------------------------------------------------------- unlinking

  /** The replacement chosen by unlink_large_chunk: descend, preferring child 1, to a leaf. */
  function Leaf(t: Tree): (r: Tree)
    requires t.Node?
    ensures r.Node?
  {
    if t.right.Node? then Leaf(t.right) else if t.left.Node? then Leaf(t.left) else t
  }

  function DropLeaf(t: Tree): Tree
    requires t.Node?
  {
    if t.right.Node? then t.(right := DropLeaf(t.right))
    else if t.left.Node? then t.(left := DropLeaf(t.left))
    else Nil
  }

  function RemoveRoot(t: Tree): Tree
    requires t.Node?
  {
    if t.left.Nil? && t.right.Nil? then Nil
    else
      var rest := DropLeaf(t);
      if rest.Nil? then Nil
      else Node(Leaf(t).size, Leaf(t).ring, rest.left, rest.right)
  }

  function Without(r: seq<int>, a: int): seq<int> {
    if r == [] then [] else if r[0] == a then r[1..] else [r[0]] + Without(r[1..], a)
  }

  /** Take chunk a out of a ring of at least two: if it is the head, the head's bk takes its place. */
  function UnlinkRing(r: seq<int>, a: int): seq<int>
    requires |r| > 1
  {
    if r[0] == a then [r[|r| - 1]] + r[1..|r| - 1] else [r[0]] + Without(r[1..], a)
  }

  /** unlink_large_chunk for chunk a of size s. */
  function Unlink(t: Tree, s: nat, a: int, k: nat): Tree
    decreases t
  {
    match t
    case Nil => Nil
    case Node(size, ring, left, right) =>
      if size == s then
        if |ring| > 1 then Node(size, UnlinkRing(ring, a), left, right) else RemoveRoot(t)
      else if k == 0 then t
      else if BitAt(s, k - 1) == 0 then Node(size, ring, Unlink(left, s, a, k - 1), right)
      else Node(size, ring, left, Unlink(right, s, a, k - 1))
  }

  lemma {:induction false} WithoutOk(r: seq<int>, a: int)
    requires NoDup(r)
    ensures NoDup(Without(r, a))
    ensures forall b :: b in Without(r, a) <==> b in r && b != a
  {
    if r != [] {
      var rest := r[1..];
      assert r == [r[0]] + rest;
      assert forall b :: b in r <==> b == r[0] || b in rest;
      assert forall i :: 0 <= i < |rest| ==> rest[i] == r[i + 1];
      assert r[0] !in rest;
      WithoutOk(rest, a);
    }
  }

  lemma {:induction false} UnlinkRingOk(r: seq<int>, a: int)
    requires NoDup(r) && |r| > 1 && a in r
    ensures UnlinkRing(r, a) != [] && NoDup(UnlinkRing(r, a))
    ensures forall b :: b in UnlinkRing(r, a) <==> b in r && b != a
  {
    var rest := r[1..];
    Uncons(r);
    if r[0] == a {
      Unsnoc(rest);
    } else {
      WithoutOk(rest, a);
    }
  }

  lemma {:induction false} Uncons(r: seq<int>)
    requires NoDup(r) && r != []
    ensures r == [r[0]] + r[1..] && NoDup(r[1..]) && r[0] !in r[1..]
    ensures forall b :: b in r <==> b == r[0] || b in r[1..]
  {
    assert r == [r[0]] + r[1..];
    assert forall i :: 0 <= i < |r[1..]| ==> r[1..][i] == r[i + 1];
  }

  lemma {:induction false} Unsnoc(r: seq<int>)
    requires NoDup(r) && r != []
    ensures var l := |r| - 1; r == r[..l] + [r[l]] && NoDup(r[..l]) && r[l] !in r[..l]
    ensures forall b :: b in r <==> b == r[|r| - 1] || b in r[..|r| - 1]
  {
    assert r == r[..|r| - 1] + [r[|r| - 1]];
  }

  /** Dropping the leaf removes its node and nothing else. */
  lemma {:induction false} DropLeafOk(t: Tree, prefix: nat, k: nat)
    requires t.Node? && TreeOk(t, prefix, k)
    ensures TreeOk(DropLeaf(t), prefix, k)
    ensures forall x :: HasSize(DropLeaf(t), x) <==> HasSize(t, x) && x != Leaf(t).size
    ensures HasSize(t, Leaf(t).size) && Leaf(t).ring != [] && NoDup(Leaf(t).ring)
    ensures forall b, x :: Has(t, b, x) <==> Has(DropLeaf(t), b, x) || (x == Leaf(t).size && b in Leaf(t).ring)
    decreases t
  {
    if t.right.Node? {
      DropLeafOk(t.right, 2 * prefix + 1, k - 1);
      OtherSide(t, prefix, k, Leaf(t).size);
    } else if t.left.Node? {
      DropLeafOk(t.left, 2 * prefix, k - 1);
      OtherSide(t, prefix, k, Leaf(t).size);
    }
  }

  /** A size is on at most one side of a node. */
  lemma {:induction false} OtherSide(t: Tree, prefix: nat, k: nat, x: nat)
    requires t.Node? && k > 0 && TreeOk(t, prefix, k)
    ensures !(HasSize(t.left, x) && HasSize(t.right, x))
    ensures HasSize(t.left, x) ==> BitAt(x, k - 1) == 0
    ensures HasSize(t.right, x) ==> BitAt(x, k - 1) == 1
  {
    SizePrefix(t.left, 2 * prefix, k - 1, x);
    SizePrefix(t.right, 2 * prefix + 1, k - 1, x);
  }

  lemma {:induction false} RemoveRootOk(t: Tree, prefix: nat, k: nat)
    requires t.Node? && TreeOk(t, prefix, k)
    ensures TreeOk(RemoveRoot(t), prefix, k)
    ensures forall x :: HasSize(RemoveRoot(t), x) <==> HasSize(t, x) && x != t.size
    ensures forall b, x :: Has(RemoveRoot(t), b, x) <==> Has(t, b, x) && x != t.size
  {
    forall b, x ensures Has(t.left, b, x) ==> HasSize(t.left, x)
            ensures Has(t.right, b, x) ==> HasSize(t.right, x) {
      HasImpliesSize(t.left, b, x);
      HasImpliesSize(t.right, b, x);
    }
    if t.left.Node? || t.right.Node? {
      DropLeafOk(t, prefix, k);
      var leaf := Leaf(t);
      SizePrefix(t, prefix, k, leaf.size);
      var sub := if t.right.Node? then t.right else t.left;
      DropLeafOk(sub, if t.right.Node? then 2 * prefix + 1 else 2 * prefix, k - 1);
      OtherSide(t, prefix, k, leaf.size);
    }
  }

  lemma {:induction false} UnlinkOk(t: Tree, prefix: nat, s: nat, a: int, k: nat)
    requires TreeOk(t, prefix, k) && Has(t, a, s)
    ensures TreeOk(Unlink(t, s, a, k), prefix, k)
    ensures forall x :: HasSize(Unlink(t, s, a, k), x) ==> HasSize(t, x)
    ensures forall b, x :: Has(Unlink(t, s, a, k), b, x) <==> Has(t, b, x) && !(b == a && x == s)
    decreases t
  {
    HasImpliesSize(t.left, a, s);
    HasImpliesSize(t.right, a, s);
    if t.size == s {
      if |t.ring| > 1 { UnlinkRingOk(t.ring, a); }
      else {
        RemoveRootOk(t, prefix, k);
        assert t.ring == [a];
        forall b ensures Has(t, b, s) ==> b == a {
          HasImpliesSize(t.left, b, s);
          HasImpliesSize(t.right, b, s);
        }
      }
    } else {
      assert k > 0;
      OtherSide(t, prefix, k, s);
      if BitAt(s, k - 1) == 0 { UnlinkOk(t.left, 2 * prefix, s, a, k - 1); }
      else { UnlinkOk(t.right, 2 * prefix + 1, s, a, k - 1); }
      forall b ensures Has(t.left, b, s) ==> HasSize(t.left, s) ensures Has(t.right, b, s) ==> HasSize(t.right, s) {
        HasImpliesSize(t.left, b, s);
        HasImpliesSize(t.right, b, s);
      }
    }
  }
}

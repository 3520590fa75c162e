/**
 table.sort: an in-place quicksort that takes the median of three as its pivot, calls itself on the
 smaller part and loops over the larger one.
 */
module Sort {
  import opened Bits

  /** sort_comp: whether x is to come before y. */
  function Less<T>(lt: (T, T) -> bool, x: T, y: T): bool { lt(x, y) }

  /** What a comparison function must be for sorting to make sense. */
  ghost predicate StrictWeakOrder<T(!new)>(lt: (T, T) -> bool) {
    && (forall x :: !Less(lt, x, x))
    && (forall x, y, z :: Less(lt, x, y) && Less(lt, y, z) ==> Less(lt, x, z))
    && (forall x, y, z :: !Less(lt, x, y) && !Less(lt, y, z) ==> !Less(lt, x, z))
  }

  lemma {:induction false} Asymmetric<T(!new)>(lt: (T, T) -> bool, x: T, y: T)
    requires Less(lt, x, y)
    ensures StrictWeakOrder(lt) ==> !Less(lt, y, x)
  {
  }

  lemma {:induction false} Irreflexive<T(!new)>(lt: (T, T) -> bool, x: T)
    ensures StrictWeakOrder(lt) ==> !Less(lt, x, x)
  {
  }

  // ---------------------------------------------------------------- permutations of a range

  /** t is s with the elements from l to below u rearranged. */
  ghost predicate Permuted<T>(s: seq<T>, t: seq<T>, l: int, u: int) {
    && |s| == |t| && 0 <= l <= u <= |s| && s[..l] == t[..l] && s[u..] == t[u..]
        && multiset(s[l..u]) == multiset(t[l..u])
  }

  lemma {:induction false} PermSwap<T>(s: seq<T>, l: int, u: int, i: int, j: int)
    requires 0 <= l <= i < u <= |s| && l <= j < u
    ensures Permuted(s, s[i := s[j]][j := s[i]], l, u)
  {
    var t := s[i := s[j]][j := s[i]];
    var r := s[l..u];
    assert t[l..u] == r[i - l := r[j - l]][j - l := r[i - l]];
    assert multiset(r[i - l := r[j - l]][j - l := r[i - l]]) == multiset(r);
  }

  lemma {:induction false} PermSelf<T>(s: seq<T>, l: int, u: int)
    requires 0 <= l <= u <= |s|
    ensures Permuted(s, s, l, u)
  {
  }

  lemma {:induction false} PermLength<T>(s: seq<T>, t: seq<T>, l: int, u: int)
    requires Permuted(s, t, l, u)
    ensures |s| == |t|
  {
  }

  lemma {:induction false} PermTrans<T>(s: seq<T>, t: seq<T>, r: seq<T>, l: int, u: int)
    requires Permuted(s, t, l, u) && Permuted(t, r, l, u)
    ensures Permuted(s, r, l, u)
  {
  }

  lemma {:induction false} PermWiden<T>(s: seq<T>, t: seq<T>, l: int, u: int, l': int, u': int)
    requires Permuted(s, t, l, u) && 0 <= l' <= l && u <= u' <= |s|
    ensures Permuted(s, t, l', u')
  {
    assert s[l'..u'] == s[l'..l] + s[l..u] + s[u..u'];
    assert t[l'..u'] == t[l'..l] + t[l..u] + t[u..u'];
    assert s[l'..l] == s[..l][l'..] && t[l'..l] == t[..l][l'..];
    assert s[u..u'] == s[u..][..u' - u] && t[u..u'] == t[u..][..u' - u];
    assert s[..l'] == s[..l][..l'] && t[..l'] == t[..l][..l'];
    assert s[u'..] == s[u..][u' - u..] && t[u'..] == t[u..][u' - u..];
  }

  /** Every element of the rearranged range was there before. */
  lemma {:induction false} PermFrom<T>(s: seq<T>, t: seq<T>, l: int, u: int, k: int) returns (j: int)
    requires Permuted(s, t, l, u) && l <= k < u
    ensures l <= j < u && s[j] == t[k]
  {
    assert t[l..u][k - l] == t[k];
    assert t[k] in multiset(t[l..u]);
    assert t[k] in s[l..u];
    var i :| 0 <= i < |s[l..u]| && s[l..u][i] == t[k];
    j := l + i;
  }

  // ---------------------------------------------------------------- order

  /** Elements from l to below u are not above p. */
  ghost predicate Below<T(!new)>(lt: (T, T) -> bool, s: seq<T>, l: int, u: int, p: T) {
    0 <= l && u <= |s| && forall k {:trigger s[k]} :: l <= k < u ==> !Less(lt, p, s[k])
  }

  ghost predicate Above<T(!new)>(lt: (T, T) -> bool, s: seq<T>, l: int, u: int, p: T) {
    0 <= l && u <= |s| && forall k {:trigger s[k]} :: l <= k < u ==> !Less(lt, s[k], p)
  }

  ghost predicate Sorted<T(!new)>(lt: (T, T) -> bool, s: seq<T>, l: int, u: int) {
    0 <= l && u <= |s| && forall i, j {:trigger s[i], s[j]} :: l <= i < j < u ==> !Less(lt, s[j], s[i])
  }

  lemma {:induction false} PermBelow<T(!new)>(lt: (T, T) -> bool, s: seq<T>, t: seq<T>, l: int, u: int, p: T)
    requires Permuted(s, t, l, u) && Below(lt, s, l, u, p)
    ensures Below(lt, t, l, u, p)
  {
    forall k {:trigger t[k]} | l <= k < u ensures !Less(lt, p, t[k]) { var j := PermFrom(s, t, l, u, k); }
  }

  lemma {:induction false} PermAbove<T(!new)>(lt: (T, T) -> bool, s: seq<T>, t: seq<T>, l: int, u: int, p: T)
    requires Permuted(s, t, l, u) && Above(lt, s, l, u, p)
    ensures Above(lt, t, l, u, p)
  {
    forall k {:trigger t[k]} | l <= k < u ensures !Less(lt, t[k], p) { var j := PermFrom(s, t, l, u, k); }
  }

  // ---------------------------------------------------------------- the algorithm

  /** Exchanges two elements of the range from l to u. */
  method Swap<T>(a: array<T>, i: nat, j: nat, ghost l: nat, ghost u: nat)
    requires l <= i <= u < a.Length && l <= j <= u
    modifies a
    ensures a[..] == old(a[..])[i := old(a[j])][j := old(a[i])] && Permuted(old(a[..]), a[..], l, u + 1)
    ensures a[i] == old(a[j]) && a[j] == old(a[i]) && forall k :: 0 <= k < a.Length && k != i && k != j ==>
        a[k] == old(a[k])
  {
    hide Permuted;
    PermSwap(a[..], l, u + 1, i, j);
    a[i], a[j] := a[j], a[i];
    assert a[..] == old(a[..])[i := old(a[j])][j := old(a[i])];
  }

  /** Orders a[l], a[m] and a[u], where m lies in between or is one of them. */
  method Median<T(!new)>(a: array<T>, l: nat, m: nat, u: nat, lt: (T, T) -> bool)
    requires l < m < u < a.Length && (StrictWeakOrder(lt) ==> !Less(lt, a[u], a[l]))
    modifies a
    ensures Permuted(old(a[..]), a[..], l, u + 1)
    ensures StrictWeakOrder(lt) ==> !Less(lt, a[m], a[l]) && !Less(lt, a[u], a[m])
  {
    hide Less, Permuted, StrictWeakOrder;
    PermSelf(a[..], l, u + 1);
    if Less(lt, a[m], a[l]) {
      Asymmetric(lt, a[m], a[l]);
      Swap(a, m, l, l, u);
    } else if Less(lt, a[u], a[m]) {
      Asymmetric(lt, a[u], a[m]);
      Swap(a, m, u, l, u);
    }
  }

  /** Upward scan: first position from i + 1 on whose element is not below the pivot. */
  method ScanUp<T(!new)>(a: array<T>, i0: int, u: int, p: T, lt: (T, T) -> bool) returns (ok: bool, i: int)
    requires 0 <= i0 < u < a.Length
    ensures i0 < i <= u && forall k {:trigger a[k]} :: i0 < k < i ==> Less(lt, a[k], p)
    ensures ok ==> !Less(lt, a[i], p)
    ensures !ok ==> i == u && Less(lt, a[u], p)
  {
    hide Less;
    i := i0 + 1;
    while Less(lt, a[i], p)
      invariant i0 < i <= u && forall k {:trigger a[k]} :: i0 < k < i ==> Less(lt, a[k], p)
      decreases u - i
    {
      if i >= u { return false, i; }
      i := i + 1;
    }
    ok := true;
  }

  method ScanDown<T(!new)>(a: array<T>, j0: int, l: int, p: T, lt: (T, T) -> bool) returns (ok: bool, j: int)
    requires 0 <= l < j0 < a.Length
    ensures l <= j < j0 && forall k {:trigger a[k]} :: j < k < j0 ==> Less(lt, p, a[k])
    ensures ok ==> !Less(lt, p, a[j])
    ensures !ok ==> j == l && Less(lt, p, a[l])
  {
    hide Less;
    j := j0 - 1;
    while Less(lt, p, a[j])
      invariant l <= j < j0 && forall k {:trigger a[k]} :: j < k < j0 ==> Less(lt, p, a[k])
      decreases j
    {
      if j <= l { return false, j; }
      j := j - 1;
    }
    ok := true;
  }

  /** Where the scans stand: everything before i is at most the pivot, everything behind j at least. */
  ghost predicate Parted<T(!new)>(lt: (T, T) -> bool, s: seq<T>, l: int, i: int, j: int, u: int, p: T) {
    StrictWeakOrder(lt) ==> Below(lt, s, l, i + 1, p) && Above(lt, s, j, u + 1, p)
  }

  lemma {:induction false} ScannedUp<T(!new)>(lt: (T, T) -> bool, s: seq<T>, l: int, i: int, i': int, p: T)
    requires StrictWeakOrder(lt) && Below(lt, s, l, i + 1, p) && l - 1 <= i < i' <= |s|
        && forall k {:trigger s[k]} :: i < k < i' ==> Less(lt, s[k], p)
    ensures Below(lt, s, l, i', p)
  {
    forall k {:trigger s[k]} | l <= k < i' ensures !Less(lt, p, s[k]) { if k > i { Asymmetric(lt, s[k], p); } }
  }

  lemma {:induction false} ScannedDown<T(!new)>(lt: (T, T) -> bool, s: seq<T>, u: int, j: int, j': int, p: T)
    requires StrictWeakOrder(lt) && Above(lt, s, j, u + 1, p) && 0 <= j' < j <= |s|
        && forall k {:trigger s[k]} :: j' < k < j ==> Less(lt, p, s[k])
    ensures Above(lt, s, j' + 1, u + 1, p)
  {
    forall k {:trigger s[k]} | j' < k < u + 1 ensures !Less(lt, s[k], p) { if k < j { Asymmetric(lt, p, s[k]); } }
  }

  lemma {:induction false} SwappedIn<T(!new)>(lt: (T, T) -> bool, s: seq<T>, l: int, i: int, j: int, u: int, p: T)
    requires 0 <= l < i <= j < u < |s| && Below(lt, s, l, i, p) && Above(lt, s, j + 1, u + 1, p) && !Less(lt, s[i], p)
    requires !Less(lt, p, s[j])
    ensures var t := s[i := s[j]][j := s[i]]; Below(lt, t, l, i + 1, p) && Above(lt, t, j, u + 1, p)
  {
  }

  /**
   The partition around the pivot p at u - 1: scans from both ends and swaps. Without a proper order
   it may give up, but it stays inside the range.
   */
  method Partition<T(!new)>(a: array<T>, l: nat, u: nat, lt: (T, T) -> bool, p: T) returns (ok: bool, i: int)
    requires l + 3 <= u < a.Length && a[u - 1] == p
    requires (StrictWeakOrder(lt) ==> !Less(lt, p, a[l]) && !Less(lt, a[u], p))
    modifies a
    ensures Permuted(old(a[..]), a[..], l, u + 1) && a[u - 1] == p
    ensures ok ==> l < i <= u
    ensures StrictWeakOrder(lt) ==> ok && i < u && Below(lt, a[..], l, i, p) && Above(lt, a[..], i, u + 1, p)
  {
    hide Less, Permuted, StrictWeakOrder, Below, Above, Parted;
    ghost var s0 := a[..];
    PermSelf(s0, l, u + 1);
    i := l;
    var j := u - 1;
    PartedStart(lt, a[..], l, u, p);
    while true
      invariant l <= i <= j < u && l < j && a[u - 1] == p && (i > l ==> j < u - 1)
      invariant Permuted(s0, a[..], l, u + 1) && Parted(lt, a[..], l, i, j, u, p)
      invariant StrictWeakOrder(lt) ==> !Less(lt, p, a[l])
      decreases j - i
    {
      ghost var i0, j0 := i, j;
      ok, i := ScanUp(a, i, u, p, lt);
      UpInside(lt, a[..], i0, u, p, i, ok);
      if !ok { return; }
      ok, j := ScanDown(a, j, l, p, lt);
      if !ok { return; }
      Narrowed(lt, a[..], l, i0, i, j0, j, u, p);
      if j < i { return; }
      ghost var s1 := a[..];
      Swap(a, i, j, l, u);
      PermTrans(s0, s1, a[..], l, u + 1);
    }
  }

  lemma {:induction false} PartedStart<T(!new)>(lt: (T, T) -> bool, s: seq<T>, l: int, u: int, p: T)
    requires 0 <= l < u - 1 && u < |s| && s[u - 1] == p
    requires (StrictWeakOrder(lt) ==> !Less(lt, p, s[l]) && !Less(lt, s[u], p))
    ensures Parted(lt, s, l, l, u - 1, u, p)
  {
    Irreflexive(lt, p);
  }

  lemma {:induction false} UpInside<T(!new)>(lt: (T, T) -> bool, s: seq<T>, i0: int, u: int, p: T, i: int, ok: bool)
    requires 0 <= i0 < u - 1 && u < |s| && s[u - 1] == p && i0 < i <= u
    requires forall k {:trigger s[k]} :: i0 < k < i ==> Less(lt, s[k], p)
    requires !ok ==> i == u && Less(lt, s[u], p)
    ensures StrictWeakOrder(lt) ==> ok && i < u
  {
    Irreflexive(lt, p);
  }

  /** After both scans: either they have crossed, or the next swap puts both elements in place. */
  lemma {:induction false} Narrowed<T(!new)>(lt: (T, T) -> bool, s: seq<T>, l: int, i0: int, i: int, j0: int, j: int,
      u: int, p: T)
    requires 0 <= l <= i0 < i <= u < |s| && l <= j < j0 < u && Parted(lt, s, l, i0, j0, u, p)
    requires forall k {:trigger s[k]} :: i0 < k < i ==> Less(lt, s[k], p)
    requires forall k {:trigger s[k]} :: j < k < j0 ==> Less(lt, p, s[k])
    requires !Less(lt, s[i], p) && !Less(lt, p, s[j])
    ensures j < i ==> (StrictWeakOrder(lt) ==> Below(lt, s, l, i, p) && Above(lt, s, i, u + 1, p))
    ensures i <= j ==> Parted(lt, s[i := s[j]][j := s[i]], l, i, j, u, p)
  {
    if StrictWeakOrder(lt) {
      ScannedUp(lt, s, l, i0, i, p);
      ScannedDown(lt, s, u, j0, j, p);
      if i <= j { SwappedIn(lt, s, l, i, j, u, p); }
    }
  }

  /** Orders the ends and the middle, moves the pivot to u - 1, partitions and puts the pivot in its place. */
  method Split<T(!new)>(a: array<T>, l: nat, m: nat, u: nat, lt: (T, T) -> bool) returns (ok: bool, i: int)
    requires l + 3 <= u < a.Length && l < m < u
    requires (StrictWeakOrder(lt) ==> !Less(lt, a[m], a[l]) && !Less(lt, a[u], a[m]))
    modifies a
    ensures Permuted(old(a[..]), a[..], l, u + 1)
    ensures ok ==> l < i <= u
    ensures StrictWeakOrder(lt) ==> ok && i < u && Below(lt, a[..], l, i, a[i]) && Above(lt, a[..], i + 1, u + 1, a[i])
  {
    hide Less, Permuted, StrictWeakOrder, Below, Above;
    ghost var s0 := a[..];
    var p := PivotAway(a, l, m, u, lt);
    ghost var s1 := a[..];
    ok, i := Partition(a, l, u, lt, p);
    ghost var s2 := a[..];
    PermTrans(s0, s1, s2, l, u + 1);
    if !ok { return; }
    PlacePivot(a, l, i, u, lt, p);
    PermTrans(s0, s2, a[..], l, u + 1);
  }

  /** The pivot, moved out of the way to u - 1. */
  method PivotAway<T(!new)>(a: array<T>, l: nat, m: nat, u: nat, lt: (T, T) -> bool) returns (p: T)
    requires l + 3 <= u < a.Length && l < m < u
    requires (StrictWeakOrder(lt) ==> !Less(lt, a[m], a[l]) && !Less(lt, a[u], a[m]))
    modifies a
    ensures Permuted(old(a[..]), a[..], l, u + 1) && a[u - 1] == p
    ensures StrictWeakOrder(lt) ==> !Less(lt, p, a[l]) && !Less(lt, a[u], p)
  {
    hide Less, Permuted, StrictWeakOrder;
    p := a[m];
    Swap(a, m, u - 1, l, u);
  }

  /** The pivot changes places with the first element that is not below it. */
  method PlacePivot<T(!new)>(a: array<T>, l: nat, i: nat, u: nat, lt: (T, T) -> bool, p: T)
    requires l < i <= u < a.Length && l < u - 1 && a[u - 1] == p
    requires StrictWeakOrder(lt) ==> i < u && Below(lt, a[..], l, i, p) && Above(lt, a[..], i, u + 1, p)
    modifies a
    ensures Permuted(old(a[..]), a[..], l, u + 1)
    ensures StrictWeakOrder(lt) ==> Below(lt, a[..], l, i, a[i]) && Above(lt, a[..], i + 1, u + 1, a[i])
  {
    hide Less, Permuted, StrictWeakOrder, Below, Above;
    PivotPlaced(lt, a[..], l, u, i, p);
    Swap(a, u - 1, i, l, u);
  }

  lemma {:induction false} PivotPlaced<T(!new)>(lt: (T, T) -> bool, s: seq<T>, l: int, u: int, i: int, p: T)
    requires 0 <= l < i <= u < |s| && l < u - 1 && s[u - 1] == p
    requires StrictWeakOrder(lt) ==> i < u && Below(lt, s, l, i, p) && Above(lt, s, i, u + 1, p)
    ensures var t := s[u - 1 := s[i]][i := s[u - 1]];
      StrictWeakOrder(lt) ==> t[i] == p && Below(lt, t, l, i, p) && Above(lt, t, i + 1, u + 1, p)
  {
  }

  /** All pairs of the whole range are in order, except perhaps those inside the part from l to u. */
  ghost predicate Around<T(!new)>(lt: (T, T) -> bool, s: seq<T>, l0: int, l: int, u: int, u0: int) {
    && 0 <= l0 <= l && u <= u0 < |s|
    && forall x, y {:trigger s[x], s[y]} :: l0 <= x < y <= u0 && !(l <= x && y <= u) ==> !Less(lt, s[y], s[x])
  }

  lemma {:induction false} AroundKept<T(!new)>(lt: (T, T) -> bool, s: seq<T>, t: seq<T>, l0: int, l: int, u: int,
      u0: int)
    requires Around(lt, s, l0, l, u, u0) && l <= u + 1 && Permuted(s, t, l, u + 1)
    ensures Around(lt, t, l0, l, u, u0)
  {
    forall x, y {:trigger t[x], t[y]} | l0 <= x < y <= u0 && !(l <= x && y <= u) ensures !Less(lt, t[y], t[x]) {
      var x' := Source(s, t, l, u, x);
      var y' := Source(s, t, l, u, y);
    }
  }

  /** Where an element came from: from its own place, or from inside the rearranged part. */
  lemma {:induction false} Source<T>(s: seq<T>, t: seq<T>, l: int, u: int, k: int) returns (j: int)
    requires l <= u + 1 && Permuted(s, t, l, u + 1) && 0 <= k < |s|
    ensures 0 <= j < |s| && s[j] == t[k] && (if l <= k <= u then l <= j <= u else j == k)
  {
    if l <= k <= u {
      j := PermFrom(s, t, l, u + 1, k);
    } else {
      j := k;
      if k < l { assert s[..l][k] == t[..l][k]; } else { assert s[u + 1..][k - (u + 1)] == t[u + 1..][k - (u + 1)]; }
    }
  }

  /** One part sorted, pivot in place: only the other part is left. */
  lemma {:induction false} OnePartLeft<T(!new)>(lt: (T, T) -> bool, s: seq<T>, l0: int, l: int, i: int, u: int,
      u0: int, left: bool)
    requires StrictWeakOrder(lt) && Around(lt, s, l0, l, u, u0) && l <= i <= u
    requires Below(lt, s, l, i, s[i]) && Above(lt, s, i + 1, u + 1, s[i])
    requires if left then Sorted(lt, s, l, i) else Sorted(lt, s, i + 1, u + 1)
    ensures if left then Around(lt, s, l0, i + 1, u, u0) else Around(lt, s, l0, l, i - 1, u0)
  {
    forall x, y | l <= x < i < y <= u ensures !Less(lt, s[y], s[x]) { Through(lt, s[y], s[i], s[x]); }
    hide StrictWeakOrder;
  }

  lemma {:induction false} Through<T(!new)>(lt: (T, T) -> bool, x: T, y: T, z: T)
    requires StrictWeakOrder(lt) && !Less(lt, x, y) && !Less(lt, y, z)
    ensures !Less(lt, x, z)
  {
  }

  lemma {:induction false} AroundNothing<T(!new)>(lt: (T, T) -> bool, s: seq<T>, l0: int, l: int, u: int, u0: int)
    requires Around(lt, s, l0, l, u, u0) && Sorted(lt, s, l, u + 1)
    ensures Sorted(lt, s, l0, u0 + 1)
  {
  }

  lemma {:induction false} ShortSorted<T(!new)>(lt: (T, T) -> bool, s: seq<T>, l: int, u: int)
    requires StrictWeakOrder(lt) && 0 <= l && u < |s| && u <= l + 2
    requires l < u ==> !Less(lt, s[u], s[l])
    requires u == l + 2 ==> !Less(lt, s[l + 1], s[l]) && !Less(lt, s[u], s[l + 1])
    ensures Sorted(lt, s, l, u + 1)
  {
  }

  function Middle(l: int, u: int): (m: int)
    requires l < u
    ensures l <= m < u && (u - l >= 2 ==> l < m)
  {
    (l + u) / 2
  }

  /** A call on less than half of n elements adds one level. */
  lemma {:induction false} DepthStep(d: nat, m: int, n: int)
    requires (d == 0 || Pow2(d) <= m) && 2 * m <= n - 1 && n >= 2
    ensures Pow2(d + 1) <= n
  {
    assert Pow2(d + 1) == 2 * Pow2(d);
  }

  /**
   auxsort: whatever the comparison does, the range is only rearranged; with a proper order it ends
   up sorted and no error is raised. The recursion is never deeper than the logarithm of the size.
   */
  method AuxSort<T(!new)>(a: array<T>, l0: int, u0: int, lt: (T, T) -> bool) returns (ok: bool, ghost depth: nat)
    requires 0 <= l0 <= u0 + 1 && u0 < a.Length
    modifies a
    ensures Permuted(old(a[..]), a[..], l0, u0 + 1)
    ensures StrictWeakOrder(lt) ==> ok && Sorted(lt, a[..], l0, u0 + 1)
    ensures depth == 0 || Pow2(depth) <= u0 - l0 + 1
    decreases u0 - l0 + 1
  {
    hide Less, Permuted, StrictWeakOrder, Below, Above, Sorted, Around, Pow2, Middle;
    var l, u := l0, u0;
    ghost var s0 := a[..];
    ok, depth := true, 0;
    PermSelf(s0, l0, u0 + 1);
    AroundAll(lt, s0, l0, u0);
    while l < u
      invariant l0 <= l <= u + 1 && u <= u0 && Permuted(s0, a[..], l0, u0 + 1)
      invariant StrictWeakOrder(lt) ==> Around(lt, a[..], l0, l, u, u0)
      invariant depth == 0 || Pow2(depth) <= u0 - l0 + 1
      invariant ok
      decreases u - l
    {
      ghost var s1, d := a[..], 0;
      var done, i;
      done, ok, i := SplitRange(a, l, u, lt);
      Rearranged(lt, s0, s1, a[..], l0, l, u, u0);
      if done {
        if StrictWeakOrder(lt) { AroundNothing(lt, a[..], l0, l, u, u0); }
        return;
      }
      if !ok { return; }
      ghost var s3 := a[..];
      var left := i - l < u - i;
      if left { ok, d := AuxSort(a, l, i - 1, lt); } else { ok, d := AuxSort(a, i + 1, u, lt); }
      PartDone(lt, s3, a[..], l, i, u, left);
      Rearranged(lt, s0, s3, a[..], l0, l, u, u0);
      ghost var part := if left then i - l else u - i;
      assert 2 * part <= u0 - l0;
      DepthStep(d, part, u0 - l0 + 1);
      depth := if depth >= d + 1 then depth else d + 1;
      if !ok { return; }
      if StrictWeakOrder(lt) { OnePartLeft(lt, a[..], l0, l, i, u, u0, left); }
      if left { l := i + 1; } else { u := i - 1; }
    }
    if StrictWeakOrder(lt) {
      ShortSorted(lt, a[..], l, u);
      AroundNothing(lt, a[..], l0, l, u, u0);
    }
  }

  /** Sorts up to three elements outright, and partitions more around a pivot. */
  method SplitRange<T(!new)>(a: array<T>, l: nat, u: nat, lt: (T, T) -> bool) returns (done: bool, ok: bool, i: int)
    requires l < u < a.Length
    modifies a
    ensures Permuted(old(a[..]), a[..], l, u + 1) && (StrictWeakOrder(lt) ==> ok)
    ensures done ==> ok && (StrictWeakOrder(lt) ==> Sorted(lt, a[..], l, u + 1))
    ensures !done && ok ==> l < i <= u
    ensures !done && StrictWeakOrder(lt) ==> Below(lt, a[..], l, i, a[i]) && Above(lt, a[..], i + 1, u + 1, a[i])
  {
    hide Less, Permuted, StrictWeakOrder, Below, Above, Sorted, Middle;
    ghost var s := a[..];
    var m := Middle(l, u);
    OrderThree(a, l, m, u, lt);
    if u - l <= 2 {
      if StrictWeakOrder(lt) { ShortSorted(lt, a[..], l, u); }
      return true, true, l;
    }
    ghost var s1 := a[..];
    done := false;
    ok, i := Split(a, l, m, u, lt);
    PermTrans(s, s1, a[..], l, u + 1);
  }

  /** Orders the two ends, and the middle if there is one. */
  method OrderThree<T(!new)>(a: array<T>, l: nat, m: nat, u: nat, lt: (T, T) -> bool)
    requires l <= m < u < a.Length && (u - l >= 2 ==> l < m)
    modifies a
    ensures Permuted(old(a[..]), a[..], l, u + 1)
    ensures StrictWeakOrder(lt) && u - l == 1 ==> !Less(lt, a[u], a[l])
    ensures StrictWeakOrder(lt) && u - l >= 2 ==> !Less(lt, a[m], a[l]) && !Less(lt, a[u], a[m]) && !Less(lt, a[u],
        a[l])
  {
    hide Less, Permuted, StrictWeakOrder;
    ghost var s := a[..];
    OrderEnds(a, l, u, lt);
    if u - l >= 2 {
      ghost var s1 := a[..];
      Median(a, l, m, u, lt);
      PermTrans(s, s1, a[..], l, u + 1);
      if StrictWeakOrder(lt) { Through(lt, a[u], a[m], a[l]); }
    }
  }

  method OrderEnds<T(!new)>(a: array<T>, l: nat, u: nat, lt: (T, T) -> bool)
    requires l < u < a.Length
    modifies a
    ensures Permuted(old(a[..]), a[..], l, u + 1)
    ensures StrictWeakOrder(lt) ==> !Less(lt, a[u], a[l])
  {
    hide Less, Permuted, StrictWeakOrder;
    PermSelf(a[..], l, u + 1);
    if Less(lt, a[u], a[l]) {
      Asymmetric(lt, a[u], a[l]);
      Swap(a, l, u, l, u);
    }
  }

  /** A step that only rearranges the current part keeps what is known of the whole. */
  lemma {:induction false} Rearranged<T(!new)>(lt: (T, T) -> bool, s0: seq<T>, s: seq<T>, t: seq<T>, l0: int, l: int,
      u: int, u0: int)
    requires Permuted(s0, s, l0, u0 + 1) && Permuted(s, t, l, u + 1) && 0 <= l0 <= l <= u + 1 && u <= u0 < |s|
    requires StrictWeakOrder(lt) ==> Around(lt, s, l0, l, u, u0)
    ensures Permuted(s0, t, l0, u0 + 1)
    ensures StrictWeakOrder(lt) ==> Around(lt, t, l0, l, u, u0)
  {
    PermWiden(s, t, l, u + 1, l0, u0 + 1);
    PermTrans(s0, s, t, l0, u0 + 1);
    if StrictWeakOrder(lt) { AroundKept(lt, s, t, l0, l, u, u0); }
  }

  /** Sorting one part leaves the pivot and the other part alone. */
  lemma {:induction false} PartDone<T(!new)>(lt: (T, T) -> bool, s: seq<T>, t: seq<T>, l: int, i: int, u: int,
      left: bool)
    requires 0 <= l < i <= u < |s| && (if left then Permuted(s, t, l, i) else Permuted(s, t, i + 1, u + 1))
    requires StrictWeakOrder(lt) ==> Below(lt, s, l, i, s[i]) && Above(lt, s, i + 1, u + 1, s[i])
    ensures Permuted(s, t, l, u + 1) && t[i] == s[i]
    ensures StrictWeakOrder(lt) ==> Below(lt, t, l, i, t[i]) && Above(lt, t, i + 1, u + 1, t[i])
  {
    hide Less, Permuted, StrictWeakOrder;
    if left {
      PermWiden(s, t, l, i, l, u + 1);
      PermLength(s, t, l, i);
      forall k | i <= k < |s| ensures t[k] == s[k] { var j := Source(s, t, l, i - 1, k); }
      if StrictWeakOrder(lt) { PermBelow(lt, s, t, l, i, s[i]); }
    } else {
      PermWiden(s, t, i + 1, u + 1, l, u + 1);
      PermLength(s, t, i + 1, u + 1);
      forall k | 0 <= k <= i ensures t[k] == s[k] { var j := Source(s, t, i + 1, u, k); }
      if StrictWeakOrder(lt) { PermAbove(lt, s, t, i + 1, u + 1, s[i]); }
    }
  }

  lemma {:induction false} AroundAll<T(!new)>(lt: (T, T) -> bool, s: seq<T>, l0: int, u0: int)
    requires 0 <= l0 && u0 < |s|
    ensures Around(lt, s, l0, l0, u0, u0)
  {
  }
}

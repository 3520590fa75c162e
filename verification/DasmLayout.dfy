/**
 The layout pass 2 of the DynASM encoder settles on: the final offset of every item, which branches
 became short, and why a short branch always reaches its label.
 */
module DasmLayout {
  import opened DasmActions
  import opened DasmPut

  /** fin[s][k] is the final offset of item k of section s, with one more entry for the end of the section. */
  type Fin = seq<seq<int>>

  /** The final length of an item: a shrinkable branch may be short, an alignment takes what it needs. */
  ghost predicate LenOk(it: Item, f: int, f': int) {
    match it.kind
    case Rel(_, _) => f' == f + 4 || (Shrink(it.op) > 0 && f' == f + 4 - Shrink(it.op))
    case Align(m) => m >= 0 && f' == f + m - And(f + m, m)
    case _ => f' == f + MaxLen(it.kind)
  }

  ghost predicate Done(fin: Fin, s: int, k: int) { 0 <= s < |fin| && 0 <= k < |fin[s]| - 1 }

  /** Offsets settled so far: whole sections, then a prefix of the last one. */
  ghost predicate FinOk(items: Items, fin: Fin) {
    && 0 < |fin| <= |items|
    && (forall s {:trigger fin[s]} :: 0 <= s < |fin| ==> 0 < |fin[s]| <= |items[s]| + 1)
    && (forall s {:trigger fin[s]} :: 0 <= s < |fin| - 1 ==> |fin[s]| == |items[s]| + 1)
    && fin[0][0] == 0
    && (forall s {:trigger Starts(fin, s)} :: 0 < s < |fin| ==> Starts(fin, s))
    && (forall s, k {:trigger Done(fin, s, k)} :: Done(fin, s, k) ==> LenOk(items[s][k], fin[s][k], fin[s][k + 1]))
  }

  /** A section starts where the one before it ends. */
  ghost predicate Starts(fin: Fin, s: int)
    requires 0 < s < |fin| && 0 < |fin[s]| && 0 < |fin[s - 1]|
  {
    fin[s][0] == fin[s - 1][|fin[s - 1]| - 1]
  }

  /** Pass 1 estimate of the offset of item k, or of the end of the items. */
  ghost function Est(items: seq<Item>, k: int): int
    requires 0 <= k <= |items|
  {
    if k < |items| then items[k].e else EndOfs(items)
  }

  /** Pass 1 estimate of where section s starts. */
  ghost function Base(items: Items, s: int): int
    requires 0 <= s <= |items|
  {
    if s == 0 then 0 else Base(items, s - 1) + EndOfs(items[s - 1])
  }

  ghost predicate AllChained(al: seq<int>, items: Items) {
    forall s {:trigger items[s]} :: 0 <= s < |items| ==> Chained(al, items[s])
  }

  lemma {:induction false} EstStep(al: seq<int>, items: seq<Item>, k: int)
    requires Chained(al, items) && 0 <= k < |items|
    ensures Est(items, k + 1) == Est(items, k) + MaxLen(items[k].kind)
  {
    if k + 1 < |items| { assert FollowsAt(al, items, k); }
  }

  /** The final length is at most the estimate and never negative. */
  lemma {:induction false} LenBounds(al: seq<int>, it: Item, f: int, f': int)
    requires Records(al, it) && LenOk(it, f, f')
    ensures 0 <= f' - f <= MaxLen(it.kind)
  {
    LenNonNegative(al, it);
  }

  /** Within a section, shrinking moves things closer and never past each other. */
  lemma {:induction false} WithinSection(al: seq<int>, items: Items, fin: Fin, s: int, i: int, j: int)
    requires AllChained(al, items) && FinOk(items, fin) && 0 <= s < |fin| && 0 <= i <= j < |fin[s]|
    ensures 0 <= fin[s][j] - fin[s][i] <= Est(items[s], j) - Est(items[s], i)
    decreases j - i
  {
    if i < j {
      WithinSection(al, items, fin, s, i, j - 1);
      assert Done(fin, s, j - 1);
      assert Chained(al, items[s]);
      assert LenOk(items[s][j - 1], fin[s][j - 1], fin[s][j - 1 + 1]);
      EstStep(al, items[s], j - 1);
      LenBounds(al, items[s][j - 1], fin[s][j - 1], fin[s][j]);
    }
  }

  /** Section starts. */
  lemma {:induction false} AcrossSections(al: seq<int>, items: Items, fin: Fin, s: int, t: int)
    requires AllChained(al, items) && FinOk(items, fin) && 0 <= s <= t < |fin|
    ensures 0 <= fin[t][0] - fin[s][0] <= Base(items, t) - Base(items, s)
    decreases t - s
  {
    if s < t {
      AcrossSections(al, items, fin, s, t - 1);
      assert |fin[t - 1]| == |items[t - 1]| + 1;
      WithinSection(al, items, fin, t - 1, 0, |items[t - 1]|);
      assert Starts(fin, t);
      assert Chained(al, items[t - 1]);
    }
  }

  /** (s, i) comes no later than (t, j). */
  ghost predicate NotAfter(s: int, i: int, t: int, j: int) { s < t || (s == t && i <= j) }

  /** Final distances lie between zero and the estimated ones, over all sections. */
  lemma {:induction false} Distances(al: seq<int>, items: Items, fin: Fin, s: int, i: int, t: int, j: int)
    requires AllChained(al, items) && FinOk(items, fin) && NotAfter(s, i, t, j)
    requires 0 <= s < |fin| && 0 <= i < |fin[s]| && 0 <= t < |fin| && 0 <= j < |fin[t]|
    ensures 0 <= fin[t][j] - fin[s][i] <= (Base(items, t) + Est(items[t], j)) - (Base(items, s) + Est(items[s], i))
  {
    if s == t {
      WithinSection(al, items, fin, s, i, j);
    } else {
      assert |fin[s]| == |items[s]| + 1;
      WithinSection(al, items, fin, s, i, |items[s]|);
      assert Starts(fin, s + 1);
      AcrossSections(al, items, fin, s + 1, t);
      WithinSection(al, items, fin, t, 0, j);
      assert Chained(al, items[t]);
      assert |fin[t]| <= |items[t]| + 1;
    }
  }

  // ---------------------------------------------------------------- branches

  ghost predicate LabelAt(items: Items, t: int, j: int, n: int) {
    ItemAt(items, t, j, n) && items[t][j].kind.Label?
  }

  /**
   What pass 2 asks before it shortens a branch: a label behind it by its final offset, a label
   ahead of it by the estimates of pass 1.
   */
  ghost predicate Near(items: Items, fin: Fin, s: int, k: int, t: int, j: int)
    requires 0 <= s < |fin| && 0 <= k < |fin[s]| && 0 <= s < |items| && 0 <= k < |items[s]| && 0 <= t < |items|
    requires 0 <= j < |items[t]|
  {
    if NotAfter(t, j, s, k) then Done(fin, t, j) && fin[t][j] - (fin[s][k] + 4) >= -128 - Shrink(items[s][k].op)
    else Base(items, t) + items[t][j].e - (Base(items, s) + items[s][k].e + 4) <= 127
  }

  ghost predicate Short(fin: Fin, s: int, k: int)
    requires Done(fin, s, k)
  {
    fin[s][k + 1] != fin[s][k] + 4
  }

  /** A branch is short exactly if its opcode allows it and its label is known and near. */
  ghost predicate BranchOk(items: Items, fin: Fin, s: int, k: int, n: int)
    requires Done(fin, s, k) && 0 <= s < |items| && 0 <= k < |items[s]|
  {
    && (n < 0 ==> !Short(fin, s, k))
    && (forall t, j {:trigger LabelAt(items, t, j, n)} :: LabelAt(items, t, j, n) ==>
          (Short(fin, s, k) <==> Shrink(items[s][k].op) > 0 && Near(items, fin, s, k, t, j)))
  }

  /**
   Whenever a branch is short, the displacement from its end to its label fits a signed byte,
   forward or backward and across any number of sections.
   */
  lemma {:induction false} ShortReaches(al: seq<int>, items: Items, fin: Fin, s: int, k: int, n: int, t: int, j: int)
    requires AllChained(al, items) && FinOk(items, fin)
    requires Done(fin, s, k) && items[s][k].kind.Rel? && LabelAt(items, t, j, n) && Done(fin, t, j)
    requires BranchOk(items, fin, s, k, n) && Short(fin, s, k)
    ensures FitsByte(fin[t][j] - fin[s][k + 1])
  {
    assert Chained(al, items[s]) && Chained(al, items[t]);
    assert LenOk(items[s][k], fin[s][k], fin[s][k + 1]);
    EstStep(al, items[s], k);
    if NotAfter(t, j, s, k) {
      Distances(al, items, fin, t, j, s, k);
    } else {
      Distances(al, items, fin, s, k + 1, t, j);
    }
  }

  /**
   A jmp or jcc is left long only if it has to be, as far as pass 2 can know: a label behind it is out
   of reach of the short form, a label ahead is by the estimates of pass 1.
   */
  lemma {:induction false} LongIsFar(items: Items, fin: Fin, s: int, k: int, n: int, t: int, j: int)
    requires Done(fin, s, k) && 0 <= s < |items| && 0 <= k < |items[s]| && LabelAt(items, t, j, n) && Done(fin, t, j)
    requires BranchOk(items, fin, s, k, n) && fin[s][k + 1] == fin[s][k] + 4
    requires items[s][k].op == 0xe9 || 0x80 <= items[s][k].op <= 0x8f
    ensures var short := if items[s][k].op == 0xe9 then 1 else 0;
      if t < s || (t == s && j <= k) then fin[t][j] - (fin[s][k] + short) < -128
      else (Base(items, t) + items[t][j].e) - (Base(items, s) + items[s][k].e + 4) > 127
  {
  }

  /** An aligned item ends at a multiple of its alignment. */
  lemma {:induction false} AlignEnds(it: Item, f: int, f': int)
    requires it.kind.Align? && IsMask(it.kind.mask) && LenOk(it, f, f')
    ensures f' % (it.kind.mask + 1) == 0 && f <= f' <= f + it.kind.mask
  {
    var m := it.kind.mask;
    DropRemainder(f + m, m + 1);
  }

  /** Cutting the remainder off a number leaves a multiple. */
  lemma {:induction false} DropRemainder(y: int, d: int)
    requires d > 0
    ensures (y - y % d) % d == 0
  {
    var q, z := y / d, y - y % d;
    assert z == d * q;
    Multiples(d, q - z / d);
  }

  lemma {:induction false} Multiples(d: int, k: int)
    requires d > 0
    ensures -d < d * k < d ==> k == 0
  {
    if k >= 1 { assert d * k >= d; } else if k <= -1 { assert d * k <= -d; }
  }

  // ---------------------------------------------------------------- buffers during pass 2

  /** The words of a settled item: a label holds its final offset, a branch what it saved. */
  ghost predicate LinkedWords(buf: seq<int>, it: Item, f: int, f': int) {
    && 0 <= it.w && it.w + Words(it.kind) <= |buf|
    && match it.kind
       case Start => buf[it.w] == it.p
       case Code(_) => true
       case Imm(_, n) => buf[it.w] == n
       case Space(n) => buf[it.w] == n
       case Rel(_, _) => buf[it.w + 1] == f + 4 - f'
       case ImmLabel(_, _) => true
       case Label(_) => buf[it.w] == f
       case Align(_) => true
  }

  ghost predicate WordsAt(bufs: Bufs, items: Items, fin: Fin, s: int, k: int)
    requires |bufs| == |items| && 0 <= s < |items| && 0 <= k < |items[s]|
  {
    if Done(fin, s, k) then LinkedWords(bufs[s], items[s][k], fin[s][k], fin[s][k + 1])
        else ItemWords(bufs[s], items[s][k])
  }

  /** The buffers while pass 2 is under way: settled items first, then items as pass 1 left them. */
  ghost predicate Progress(al: seq<int>, bufs: Bufs, items: Items, fin: Fin) {
    && |bufs| == |items| && AllChained(al, items) && FinOk(items, fin)
    && (forall s {:trigger bufs[s]} :: 0 <= s < |bufs| ==> |bufs[s]| == EndWord(items[s]) <= SEC_BIAS)
    && (forall s, k {:trigger items[s][k]} :: 0 <= s < |items| && 0 <= k < |items[s]| ==>
        WordsAt(bufs, items, fin, s, k))
  }

  /** The reference words are those of refs. */
  ghost predicate SameRefs(refs: Bufs, bufs: Bufs, items: Items) {
    && |refs| == |bufs| == |items|
    && (forall s, k {:trigger items[s][k]} :: 0 <= s < |items| && 0 <= k < |items[s]| && IsRef(items[s][k].kind) ==>
          0 <= items[s][k].w < |bufs[s]| && items[s][k].w < |refs[s]|
              && bufs[s][items[s][k].w] == refs[s][items[s][k].w])
  }

  ghost function RefWord(refs: Bufs, items: Items, s: int, k: int): int
    requires 0 <= s < |items| == |refs| && 0 <= k < |items[s]|
  {
    if 0 <= items[s][k].w < |refs[s]| then refs[s][items[s][k].w] else 0
  }

  ghost predicate Branches(refs: Bufs, items: Items, fin: Fin)
    requires |refs| == |items|
  {
    forall s, k {:trigger Done(fin, s, k)} ::
      Done(fin, s, k) && 0 <= s < |items| && 0 <= k < |items[s]| && items[s][k].kind.Rel? ==>
      BranchOk(items, fin, s, k, RefWord(refs, items, s, k))
  }

  /** Settling the next item of the current section. */
  ghost function Settle(fin: Fin, f: int): Fin
    requires fin != []
  {
    fin[|fin| - 1 := fin[|fin| - 1] + [f]]
  }

  lemma {:induction false} SettleFin(items: Items, fin: Fin, f: int)
    requires FinOk(items, fin)
    requires var s := |fin| - 1; var k := |fin[s]| - 1; k < |items[s]| && LenOk(items[s][k], fin[s][k], f)
    ensures FinOk(items, Settle(fin, f))
  {
    var s := |fin| - 1;
    var k := |fin[s]| - 1;
    var fin' := Settle(fin, f);
    forall t {:trigger Starts(fin', t)} | 0 < t < |fin'| ensures Starts(fin', t) { assert Starts(fin, t); }
    forall t, j {:trigger Done(fin', t, j)} | Done(fin', t, j) ensures LenOk(items[t][j], fin'[t][j], fin'[t][j + 1]) {
      if t != s || j < k { assert Done(fin, t, j); }
    }
  }

  /** Writing only within an item's own words disturbs no other item. */
  lemma {:induction false} SettleWords(al: seq<int>, bufs: Bufs, items: Items, fin: Fin, buf': seq<int>, f: int)
    requires Progress(al, bufs, items, fin)
    requires var s := |fin| - 1; var k := |fin[s]| - 1; k < |items[s]| && LenOk(items[s][k], fin[s][k], f)
    requires var s := |fin| - 1; var k := |fin[s]| - 1;
      && |buf'| == |bufs[s]| && LinkedWords(buf', items[s][k], fin[s][k], f)
      && forall i :: 0 <= i < |buf'| && !(items[s][k].w <= i < items[s][k].w + Words(items[s][k].kind)) ==>
          buf'[i] == bufs[s][i]
    ensures Progress(al, bufs[|fin| - 1 := buf'], items, Settle(fin, f))
  {
    var s := |fin| - 1;
    var k := |fin[s]| - 1;
    var fin', bufs' := Settle(fin, f), bufs[s := buf'];
    SettleFin(items, fin, f);
    forall t {:trigger bufs'[t]} | 0 <= t < |bufs'|
        ensures |bufs'[t]| == EndWord(items[t]) <= SEC_BIAS { assert |bufs'[t]| == |bufs[t]|; }
    forall t, j | 0 <= t < |items| && 0 <= j < |items[t]| ensures WordsAt(bufs', items, fin', t, j) {
      SettleWordsAt(al, bufs, items, fin, buf', f, t, j);
    }
    assert forall t, j :: 0 <= t < |items| && 0 <= j < |items[t]| ==> WordsAt(bufs', items, fin', t, j);
    assert Progress(al, bufs', items, fin');
  }

  lemma {:induction false} SettleWordsAt(al: seq<int>, bufs: Bufs, items: Items, fin: Fin, buf': seq<int>, f: int,
      t: int, j: int)
    requires Progress(al, bufs, items, fin) && 0 <= t < |items| && 0 <= j < |items[t]|
    requires var s := |fin| - 1; var k := |fin[s]| - 1; k < |items[s]| && LenOk(items[s][k], fin[s][k], f)
    requires var s := |fin| - 1; var k := |fin[s]| - 1;
      && |buf'| == |bufs[s]| && LinkedWords(buf', items[s][k], fin[s][k], f)
      && forall i :: 0 <= i < |buf'| && !(items[s][k].w <= i < items[s][k].w + Words(items[s][k].kind)) ==>
          buf'[i] == bufs[s][i]
    ensures WordsAt(bufs[|fin| - 1 := buf'], items, Settle(fin, f), t, j)
  {
    var s := |fin| - 1;
    var k := |fin[s]| - 1;
    assert WordsAt(bufs, items, fin, t, j);
    assert Chained(al, items[s]);
    hide Progress, ItemWords, LinkedWords, Chained, LenOk;
    if t == s && j != k { OtherItem(al, bufs[s], buf', items[s], k, j); }
    SettleDone(fin, f, t, j);
  }

  lemma {:induction false} SettleDone(fin: Fin, f: int, t: int, j: int)
    requires fin != [] && fin[|fin| - 1] != []
    ensures var s := |fin| - 1;
      Done(Settle(fin, f), t, j) <==> Done(fin, t, j) || (t == s && j == |fin[s]| - 1)
    ensures Done(fin, t, j) ==> Settle(fin, f)[t][j] == fin[t][j] && Settle(fin, f)[t][j + 1] == fin[t][j + 1]
  {
  }

  lemma {:induction false} OtherItem(al: seq<int>, buf: seq<int>, buf': seq<int>, items: seq<Item>, k: int, j: int)
    requires Chained(al, items) && 0 <= k < |items| && 0 <= j < |items| && j != k && |buf'| == |buf|
    requires forall i :: 0 <= i < |buf'| && !(items[k].w <= i < items[k].w + Words(items[k].kind)) ==> buf'[i] == buf[i]
    ensures ItemWords(buf, items[j]) ==> ItemWords(buf', items[j])
    ensures forall f, f' :: LinkedWords(buf, items[j], f, f') ==> LinkedWords(buf', items[j], f, f')
  {
    if j < k { ChainedMonotone(al, items, j, k); } else { ChainedMonotone(al, items, k, j); }
  }

  /** Branches settled earlier stay as they are. */
  lemma {:induction false} SettleBranches(refs: Bufs, items: Items, fin: Fin, f: int)
    requires FinOk(items, fin) && |refs| == |items| && Branches(refs, items, fin)
    requires var s := |fin| - 1; var k := |fin[s]| - 1;
      && k < |items[s]|
      && (items[s][k].kind.Rel? ==> BranchOk(items, Settle(fin, f), s, k, RefWord(refs, items, s, k)))
    ensures Branches(refs, items, Settle(fin, f))
  {
    var fin' := Settle(fin, f);
    forall s, k {:trigger Done(fin', s, k)} | Done(fin', s, k) && 0 <= s < |items| && 0 <= k < |items[s]|
        && items[s][k].kind.Rel?
      ensures BranchOk(items, fin', s, k, RefWord(refs, items, s, k)) {
      SettleDone(fin, f, s, k);
      if Done(fin, s, k) { SameBranch(items, fin, f, s, k, RefWord(refs, items, s, k)); }
    }
  }

  lemma {:induction false} SameBranch(items: Items, fin: Fin, f: int, s: int, k: int, n: int)
    requires FinOk(items, fin) && |fin[|fin| - 1]| <= |items[|fin| - 1]|
    requires Done(fin, s, k) && 0 <= s < |items| && 0 <= k < |items[s]| && BranchOk(items, fin, s, k, n)
    ensures Done(Settle(fin, f), s, k) && BranchOk(items, Settle(fin, f), s, k, n)
  {
    var fin' := Settle(fin, f);
    SettleDone(fin, f, s, k);
    forall t, j {:trigger LabelAt(items, t, j, n)} | LabelAt(items, t, j, n)
      ensures Short(fin', s, k) <==> Shrink(items[s][k].op) > 0 && Near(items, fin', s, k, t, j) {
      SettleDone(fin, f, t, j);
    }
  }
}

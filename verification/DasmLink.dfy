/**
 Pass 2 of the DynASM encoder: dasm_link marks references to globals that are not defined here,
 shortens branches, trims alignments and gives every label its final offset.
 */
module DasmLink {
  import opened DasmActions
  import opened DasmLabels
  import opened DasmPut
  import opened DasmLayout

  const S_UNDEF_PC := 0x2200_0000

  // ---------------------------------------------------------------- undefined globals

  /** The reference word at x once the globals below idx have been marked. */
  ghost function Marked(log: Log, idx: int, x: int): int
    requires x in RefWords(log)
    decreases idx
  {
    if idx <= 10 then RefWords(log)[x]
    else if x in Pend(log, LG(idx - 1)) then -(idx - 1)
    else Marked(log, idx - 1, x)
  }

  ghost predicate MarkedRefs(bufs: Bufs, log: Log, idx: int) {
    forall x {:trigger x in RefWords(log)} :: x in RefWords(log) ==>
        ValidPos(bufs, x) && Word(bufs, x) == Marked(log, idx, x)
  }

  /** References of a slot are untouched by the marking of other slots. */
  lemma {:induction false} MarkedOther(log: Log, idx: int, x: int, slot: Slot)
    requires LogOk(log) && x in RefWords(log) && x in Pend(log, slot)
    requires slot.LG? ==> slot.lg >= idx || slot.lg < 10
    ensures Marked(log, idx, x) == RefWords(log)[x]
    decreases idx
  {
    if idx > 10 {
      OtherChain(log, slot, LG(idx - 1), x);
      MarkedOther(log, idx - 1, x, slot);
    }
  }

  lemma {:induction false} MarkedOwn(log: Log, idx: int, x: int, g: int)
    requires LogOk(log) && x in RefWords(log) && x in Pend(log, LG(g)) && 10 <= g < idx
    ensures Marked(log, idx, x) == -g
    decreases idx
  {
    if g < idx - 1 {
      OtherChain(log, LG(g), LG(idx - 1), x);
      MarkedOwn(log, idx - 1, x, g);
    }
  }

  lemma {:induction false} MarkedResolved(log: Log, idx: int, x: int)
    requires x in RefWords(log) && forall slot :: x !in Pend(log, slot)
    ensures Marked(log, idx, x) == RefWords(log)[x]
    decreases idx
  {
    if idx > 10 { MarkedResolved(log, idx - 1, x); }
  }

  lemma {:induction false} MarkedIntact(bufs: Bufs, log: Log, idx: int)
    requires LogOk(log) && MarkedRefs(bufs, log, idx) && idx >= 10
    ensures ChainIntact(bufs, log, LG(idx))
  {
    forall x {:trigger x in RefWords(log)} | x in RefWords(log) && x in Pend(log, LG(idx))
      ensures ValidPos(bufs, x) && Word(bufs, x) == RefWords(log)[x] {
      MarkedOther(log, idx, x, LG(idx));
    }
  }

  lemma {:induction false} MarkedNext(bufs0: Bufs, bufs: Bufs, log: Log, idx: int)
    requires MarkedRefs(bufs0, log, idx) && idx >= 10
    requires Collapsed(bufs0, bufs, log, LG(idx), |Pend(log, LG(idx))|, -idx)
    ensures MarkedRefs(bufs, log, idx + 1)
  {
    assert Pend(log, LG(idx))[..|Pend(log, LG(idx))|] == Pend(log, LG(idx));
    hide Pend, RefWords;
  }

  lemma {:induction false} CollapsedStart(bufs: Bufs, log: Log, slot: Slot, idx: int, pos: int)
    requires MarkedRefs(bufs, log, idx)
    ensures Collapsed(bufs, bufs, log, slot, 0, pos)
  {
  }

  /** References to globals that stay undefined are replaced by the negated global number. */
  method MarkGlobals(d: Dasm)
    requires d.Body()
    modifies d`bufs
    ensures Sections(d.actionlist, d.bufs, d.items) && MarkedRefs(d.bufs, d.log, |d.lglabels|)
  {
    hide Sections, LogItems, RefsMatch, SlotsMatch, LogOk, Collapsed, ChainIntact, RefItem, ValidPos, Word, SetWord,
        MarkedRefs;
    var idx := 10;
    MarkedNone(d.bufs, d.log, if |d.lglabels| < 10 then |d.lglabels| else 10);
    while idx < |d.lglabels|
      invariant 10 <= idx
      invariant Sections(d.actionlist, d.bufs, d.items)
      invariant MarkedRefs(d.bufs, d.log, if |d.lglabels| < 10 then |d.lglabels| else idx)
      invariant idx <= |d.lglabels| || idx == 10
    {
      MarkGlobal(d, idx);
      idx := idx + 1;
    }
  }

  lemma {:induction false} MarkedNone(bufs: Bufs, log: Log, idx: int)
    requires RefsMatch(bufs, log) && idx <= 10
    ensures MarkedRefs(bufs, log, idx)
  {
  }

  method MarkGlobal(d: Dasm, idx: int)
    requires LogOk(d.log) && LogItems(d.log, d.items) && SlotsMatch(d.log, d.lglabels, d.pclabels)
    requires 10 <= idx < |d.lglabels| && Sections(d.actionlist, d.bufs, d.items) && MarkedRefs(d.bufs, d.log, idx)
    modifies d`bufs
    ensures Sections(d.actionlist, d.bufs, d.items) && MarkedRefs(d.bufs, d.log, idx + 1)
  {
    hide Sections, LogItems, RefsMatch, SlotsMatch, LogOk, Collapsed, ChainIntact, RefItem, ValidPos, Word, SetWord,
        MarkedRefs, Marked;
    var n := d.lglabels[idx];
    ghost var bufs0, ch, j := d.bufs, Pend(d.log, LG(idx)), 0;
    ChainStart(d.log, d.lglabels, d.pclabels, LG(idx), n);
    MarkedIntact(d.bufs, d.log, idx);
    CollapsedStart(d.bufs, d.log, LG(idx), idx, -idx);
    while n > 0
      invariant n > 0 ==> 0 <= j < |ch| && n == ch[j]
      invariant n <= 0 ==> j == |ch|
      invariant Sections(d.actionlist, d.bufs, d.items) && Collapsed(bufs0, d.bufs, d.log, LG(idx), j, -idx)
      decreases |ch| - j
    {
      CollapseStep(d.actionlist, bufs0, d.bufs, d.items, d.log, LG(idx), j, -idx);
      var next := Word(d.bufs, n);
      d.bufs := SetWord(d.bufs, n, -idx);
      n, j := next, j + 1;
    }
    MarkedNext(bufs0, d.bufs, d.log, idx);
  }

  // ---------------------------------------------------------------- where references point

  /** Reference i of the history ends up as n: its target label, or the number of an undefined global. */
  ghost predicate RefFixed(items: Items, log: Log, i: int, n: int)
    requires 0 <= i < |log| && log[i].Ref?
  {
    if Target(log, i) >= 0 then
      n == Target(log, i) && exists t, j :: LabelAt(items, t, j, n) && items[t][j].kind.slot == log[i].slot
    else log[i].slot.LG? && log[i].slot.lg >= 10 && n == -log[i].slot.lg && NoLabel(items, log[i].slot.lg)
  }

  /** Global g is not defined by any section. */
  ghost predicate NoLabel(items: Items, g: int) {
    forall t, j {:trigger items[t][j]} :: 0 <= t < |items| && 0 <= j < |items[t]| ==> items[t][j].kind != Label(LG(g))
  }

  /** A global still awaited at the end has never been defined. */
  lemma {:induction false} AwaitedNeverDefined(log: Log, g: int)
    requires Cur(log, LG(g)).Awaited? || Cur(log, LG(g)).Unused?
    requires forall i {:trigger log[i]} :: 0 <= i < |log| && log[i].Ref? && log[i].slot == LG(g) ==> !log[i].fwd
    ensures forall i {:trigger log[i]} :: 0 <= i < |log| && log[i].slot == LG(g) ==> log[i].Ref?
    decreases |log|
  {
    if log != [] {
      var init := log[..|log| - 1];
      assert forall i :: 0 <= i < |init| ==> init[i] == log[i];
      AwaitedNeverDefined(init, g);
    }
  }

  lemma {:induction false} GlobalsNotForward(al: seq<int>, bufs: Bufs, items: Items, log: Log, i: int)
    requires Sections(al, bufs, items) && LogItems(log, items) && 0 <= i < |log| && log[i].Ref? && log[i].slot.LG?
    requires log[i].slot.lg >= 10
    ensures !log[i].fwd
  {
    assert EventItem(items, log[i]);
    var s, k :| ItemAt(items, s, k, log[i].pos) && HasEvent(items[s][k].kind)
        && log[i] == EventOf(items[s][k].kind, log[i].pos);
    assert SectionWords(al, bufs[s], items[s]);
    assert Records(al, items[s][k]);
  }

  lemma {:induction false} PendingUndefined(al: seq<int>, bufs: Bufs, items: Items, log: Log, g: int)
    requires Sections(al, bufs, items) && LogItems(log, items) && g >= 10 && Pend(log, LG(g)) != []
    ensures NoLabel(items, g)
  {
    AwaitedIffPending(log, LG(g));
    forall i {:trigger log[i]} | 0 <= i < |log| && log[i].Ref? && log[i].slot == LG(g) ensures !log[i].fwd {
      GlobalsNotForward(al, bufs, items, log, i);
    }
    AwaitedNeverDefined(log, g);
    hide Pend, Cur, Sections;
    forall t, j {:trigger items[t][j]} | 0 <= t < |items| && 0 <= j < |items[t]|
        ensures items[t][j].kind != Label(LG(g)) {
      if HasEvent(items[t][j].kind) { var i := FindEvent(items, log, t, j); }
    }
  }

  /** No local label and no PC label is still awaited. */
  ghost predicate NoneAwaited(log: Log) {
    forall i {:trigger log[i]} :: 0 <= i < |log| && (log[i].slot.LG? ==> log[i].slot.lg < 10) ==>
        Pend(log, log[i].slot) == []
  }

  ghost predicate DefAt(log: Log, d: int, pos: int, slot: Slot) { 0 <= d < |log| && log[d] == Def(pos, slot) }

  lemma {:induction false} CurIsDef(log: Log, slot: Slot)
    requires Cur(log, slot).Defined?
    ensures exists d :: DefAt(log, d, Cur(log, slot).pos, slot)
    decreases |log|
  {
    var init, ev := log[..|log| - 1], log[|log| - 1];
    if ev.slot == slot && ev.Def? {
      assert DefAt(log, |log| - 1, ev.pos, slot);
    } else {
      CurIsDef(init, slot);
      var d :| DefAt(init, d, Cur(init, slot).pos, slot);
      assert DefAt(log, d, Cur(log, slot).pos, slot);
    }
  }

  /** A target is the position of a definition of the same label. */
  lemma {:induction false} TargetIsDef(log: Log, i: int)
    requires 0 <= i < |log| && log[i].Ref? && Target(log, i) >= 0
    ensures exists d :: DefAt(log, d, Target(log, i), log[i].slot)
  {
    var slot := log[i].slot;
    if !log[i].fwd && Cur(log[..i], slot).Defined? {
      CurIsDef(log[..i], slot);
      var d :| DefAt(log[..i], d, Cur(log[..i], slot).pos, slot);
      assert DefAt(log, d, Target(log, i), slot);
    } else {
      assert DefAt(log, NextDef(log, slot, i), Target(log, i), slot);
    }
  }

  lemma {:induction false} DefIsLabel(items: Items, log: Log, d: int)
    requires LogItems(log, items) && 0 <= d < |log| && log[d].Def?
    ensures exists t, j :: LabelAt(items, t, j, log[d].pos) && items[t][j].kind.slot == log[d].slot
  {
    assert EventItem(items, log[d]);
    var t, j :| ItemAt(items, t, j, log[d].pos) && HasEvent(items[t][j].kind)
        && log[d] == EventOf(items[t][j].kind, log[d].pos);
    assert LabelAt(items, t, j, log[d].pos);
  }

  /** After marking, every reference is fixed. */
  lemma {:induction false} RefsFixed(al: seq<int>, bufs: Bufs, items: Items, log: Log, lgsize: int, i: int)
    requires LogOk(log) && Sections(al, bufs, items) && LogItems(log, items) && MarkedRefs(bufs, log, lgsize)
    requires NoneAwaited(log)
    requires 0 <= i < |log| && log[i].Ref? && (log[i].slot.LG? ==> log[i].slot.lg < lgsize)
    ensures ValidPos(bufs, log[i].pos) && RefFixed(items, log, i, Word(bufs, log[i].pos))
  {
    hide Sections, LogItems, RefWords, NoLabel, Pend;
    var x, slot := log[i].pos, log[i].slot;
    Resolution(log, i);
    if Target(log, i) >= 0 {
      forall slot' ensures x !in Pend(log, slot') { PositionPending(log, i, slot'); }
      MarkedResolved(log, lgsize, x);
      TargetIsDef(log, i);
      var d :| DefAt(log, d, Target(log, i), slot);
      DefIsLabel(items, log, d);
    } else {
      assert slot.LG? && slot.lg >= 10;
      MarkedOwn(log, lgsize, x, slot.lg);
      PendingUndefined(al, bufs, items, log, slot.lg);
    }
  }

  /** The reference item k of section s is fixed to what its reference in the history means. */
  ghost predicate RefMeans(refs: Bufs, items: Items, log: Log, s: int, k: int)
    requires |refs| == |items| && 0 <= s < |items| && 0 <= k < |items[s]| && IsRef(items[s][k].kind)
  {
    exists i {:trigger log[i]} :: 0 <= i < |log| && log[i] == EventOf(items[s][k].kind, Pos(s, items[s][k].w))
      && RefFixed(items, log, i, RefWord(refs, items, s, k))
  }

  ghost predicate RefsMean(refs: Bufs, items: Items, log: Log)
    requires |refs| == |items|
  {
    forall s, k {:trigger RefMeans(refs, items, log, s, k)} ::
      0 <= s < |items| && 0 <= k < |items[s]| && IsRef(items[s][k].kind) ==>
      RefMeans(refs, items, log, s, k)
  }

  lemma {:induction false} AllRefsMean(al: seq<int>, bufs: Bufs, items: Items, log: Log, lg: seq<int>, pc: seq<int>)
    requires Sections(al, bufs, items) && LogOk(log) && LogItems(log, items) && SlotsMatch(log, lg, pc)
    requires MarkedRefs(bufs, log, |lg|) && NoneAwaited(log)
    ensures RefsMean(bufs, items, log)
  {
    forall s, k | 0 <= s < |items| && 0 <= k < |items[s]| && IsRef(items[s][k].kind)
        ensures RefMeans(bufs, items, log, s, k) {
      OneRefMeans(al, bufs, items, log, lg, pc, s, k);
    }
  }

  lemma {:induction false} OneRefMeans(al: seq<int>, bufs: Bufs, items: Items, log: Log, lg: seq<int>, pc: seq<int>,
      s: int, k: int)
    requires Sections(al, bufs, items) && LogOk(log) && LogItems(log, items) && SlotsMatch(log, lg, pc)
    requires MarkedRefs(bufs, log, |lg|) && NoneAwaited(log)
    requires 0 <= s < |items| && 0 <= k < |items[s]| && IsRef(items[s][k].kind)
    ensures RefMeans(bufs, items, log, s, k)
  {
    hide RefFixed, MarkedRefs, SlotsMatch, LogOk, NoneAwaited, RefWords, Sections;
    var it := items[s][k];
    var i := FindEvent(items, log, s, k);
    SectionItem(al, bufs, items, s, k);
    hide LogItems;
    PosParts(s, it.w);
    EventSlot(log, lg, pc, i);
    RefsFixed(al, bufs, items, log, |lg|, i);
    assert RefWord(bufs, items, s, k) == Word(bufs, log[i].pos);
  }

  lemma {:induction false} EventSlot(log: Log, lg: seq<int>, pc: seq<int>, i: int)
    requires SlotsMatch(log, lg, pc) && 0 <= i < |log|
    ensures SlotIn(log[i].slot, lg, pc)
  {
  }

  lemma {:induction false} FindEvent(items: Items, log: Log, s: int, k: int) returns (i: int)
    requires LogItems(log, items) && 0 <= s < |items| && 0 <= k < |items[s]| && HasEvent(items[s][k].kind)
    ensures 0 <= i < |log| && log[i] == EventOf(items[s][k].kind, Pos(s, items[s][k].w))
  {
    assert EventOf(items[s][k].kind, Pos(s, items[s][k].w)) in log;
    i :| 0 <= i < |log| && log[i] == EventOf(items[s][k].kind, Pos(s, items[s][k].w));
  }

  lemma {:induction false} SectionItem(al: seq<int>, bufs: Bufs, items: Items, s: int, k: int)
    requires Sections(al, bufs, items) && 0 <= s < |items| && 0 <= k < |items[s]|
    ensures |bufs| == |items| && |bufs[s]| <= SEC_BIAS && 0 <= items[s][k].w
    ensures items[s][k].w + Words(items[s][k].kind) <= |bufs[s]|
  {
    assert SectionWords(al, bufs[s], items[s]);
    assert ItemWords(bufs[s], items[s][k]);
  }

  lemma {:induction false} RefKnown(refs: Bufs, items: Items, log: Log, s: int, k: int)
    requires |refs| == |items| && 0 <= s < |items| && 0 <= k < |items[s]| && IsRef(items[s][k].kind)
    requires RefMeans(refs, items, log, s, k)
    ensures RefWord(refs, items, s, k) < 0 || exists t, j :: LabelAt(items, t, j, RefWord(refs, items, s, k))
  {
  }

  // ---------------------------------------------------------------- the linking loops

  /** Sizes of the sections, and where their last dasm_put ended. */
  ghost predicate Sizes(al: seq<int>, ofs: seq<int>, items: Items) {
    && |ofs| == |items|
    && (forall s {:trigger items[s]} :: 0 <= s < |items| ==> ofs[s] == EndOfs(items[s]) && AtRest(al, items[s]))
  }

  /** Linking is under way; refs are the buffers it started from. */
  ghost predicate Linking(d: Dasm, refs: Bufs)
    reads d
  {
    && Progress(d.actionlist, d.bufs, d.items, d.fin) && SameRefs(refs, d.bufs, d.items)
        && Branches(refs, d.items, d.fin)
    && Sizes(d.actionlist, d.ofs, d.items) && RefsMean(refs, d.items, d.log)
  }

  /** The item being settled. */
  ghost predicate Next(d: Dasm, s: int, k: int)
    reads d
  {
    s == |d.fin| - 1 && 0 <= s < |d.items| && k == |d.fin[s]| - 1 && 0 <= k < |d.items[s]|
  }

  lemma {:induction false} PositionOrder(al: seq<int>, items: Items, s: int, k: int, t: int, j: int)
    requires AllChained(al, items) && 0 <= s < |items| && 0 <= k < |items[s]| && 0 <= t < |items| && 0 <= j < |items[t]|
    requires items[s][k].kind.Rel? && items[t][j].kind.Label?
    requires 0 <= items[s][k].w < SEC_BIAS && 0 <= items[t][j].w < SEC_BIAS
    ensures Pos(t, items[t][j].w) > Pos(s, items[s][k].w) <==> !NotAfter(t, j, s, k)
  {
    if s == t {
      assert Chained(al, items[s]);
      if k < j { ChainedMonotone(al, items[s], k, j); } else if j < k { ChainedMonotone(al, items[s], j, k); }
    }
  }

  /** The word of a label during linking: final once settled, an estimate before. */
  lemma {:induction false} LabelWord(al: seq<int>, bufs: Bufs, items: Items, fin: Fin, t: int, j: int, n: int)
    requires Progress(al, bufs, items, fin) && LabelAt(items, t, j, n)
    ensures n == Pos(t, items[t][j].w) && 0 <= items[t][j].w < |bufs[t]| <= SEC_BIAS
    ensures (n > 0 ==> ValidPos(bufs, n) && PosSec(n) == t)
    ensures n > 0 ==> Word(bufs, n) == if Done(fin, t, j) then fin[t][j] else items[t][j].e
  {
    assert WordsAt(bufs, items, fin, t, j);
    assert |bufs[t]| == EndWord(items[t]);
    PosParts(t, items[t][j].w);
  }

  lemma {:induction false} LabelPositive(al: seq<int>, items: Items, t: int, j: int, n: int)
    requires AllChained(al, items) && LabelAt(items, t, j, n)
    ensures n > 0
  {
    assert Chained(al, items[t]);
    assert j > 0;
    ChainedMonotone(al, items[t], 0, j);
  }

  /** Whether a branch can be short, as pass 2 computes it. */
  method Reaches(d: Dasm, s: int, pos: int, ofs: int, shrink: int, ghost refs: Bufs, ghost k: int) returns (ok: bool)
    requires Linking(d, refs) && Next(d, s, k) && d.items[s][k].kind.Rel?
    requires pos == d.items[s][k].w && ofs == d.fin[s][k] - d.items[s][k].e && shrink == Shrink(d.items[s][k].op)
    ensures RefWord(refs, d.items, s, k) < 0 ==> !ok
    ensures forall t, j {:trigger LabelAt(d.items, t, j, RefWord(refs, d.items, s, k))} ::
        LabelAt(d.items, t, j, RefWord(refs, d.items, s, k)) ==>
      (ok <==> Near(d.items, d.fin, s, k, t, j))
  {
    hide Progress, SameRefs, Branches, Sizes, RefsMean, RefMeans, NotAfter;
    RefRead(d, refs, s, k);
    var lpos := d.bufs[s][pos];
    if lpos < 0 {
      LabelsPositive(d, refs, lpos);
      ok := false;
      return;
    }
    ghost var t, j := LabelOf(d, refs, s, k);
    LabelPositive(d.actionlist, d.items, t, j, lpos) by { ProgressChained(d, refs); }
    LabelWord(d.actionlist, d.bufs, d.items, d.fin, t, j, lpos);
    var lofs := Word(d.bufs, lpos);
    if lpos > Pos(s, pos) {
      var i := s;
      SectionOrder(s, pos, lpos);
      while i < PosSec(lpos)
        invariant s <= i <= PosSec(lpos) == t < |d.items| == |d.ofs|
        invariant lofs == Word(d.bufs, lpos) + Base(d.items, i) - Base(d.items, s)
      {
        SizeOf(d, i);
        lofs := lofs + d.ofs[i];
        i := i + 1;
      }
    } else {
      lofs := lofs - ofs;
    }
    lofs := lofs - d.bufs[s][pos + 1];
    ok := lofs >= -128 - shrink && lofs <= 127;
    forall t', j' {:trigger LabelAt(d.items, t', j', lpos)} | LabelAt(d.items, t', j', lpos)
      ensures ok <==> Near(d.items, d.fin, s, k, t', j') {
      LabelsPositive(d, refs, lpos);
      Measured(d, refs, s, k, t', j', lpos);
    }
  }

  lemma {:induction false} SectionOrder(s: int, pos: int, lpos: int)
    requires lpos > Pos(s, pos) && pos >= 0
    ensures s <= PosSec(lpos)
  {
  }

  lemma {:induction false} ProgressChained(d: Dasm, refs: Bufs)
    requires Linking(d, refs)
    ensures AllChained(d.actionlist, d.items) && FinOk(d.items, d.fin) && |d.ofs| == |d.items| == |d.bufs|
  {
  }

  lemma {:induction false} SizeOf(d: Dasm, i: int)
    requires Sizes(d.actionlist, d.ofs, d.items) && 0 <= i < |d.items|
    ensures i < |d.ofs| && d.ofs[i] == EndOfs(d.items[i])
  {
  }

  lemma {:induction false} LabelsPositive(d: Dasm, refs: Bufs, n: int)
    requires Linking(d, refs)
    ensures forall t, j :: LabelAt(d.items, t, j, n) ==> n > 0
  {
    forall t, j | LabelAt(d.items, t, j, n) ensures n > 0 { LabelPositive(d.actionlist, d.items, t, j, n); }
  }

  /** What pass 2 reads of a label, seen from the branch it is settling. */
  lemma {:induction false} Measured(d: Dasm, refs: Bufs, s: int, k: int, t: int, j: int, n: int)
    requires Linking(d, refs) && Next(d, s, k) && d.items[s][k].kind.Rel? && LabelAt(d.items, t, j, n) && n > 0
    ensures ValidPos(d.bufs, n) && PosSec(n) == t
    ensures n > Pos(s, d.items[s][k].w) <==> !NotAfter(t, j, s, k)
    ensures if NotAfter(t, j, s, k) then Done(d.fin, t, j) && Word(d.bufs, n) == d.fin[t][j] <= d.fin[s][k]
      else
        && Word(d.bufs, n) == d.items[t][j].e
        && Base(d.items, t) + d.items[t][j].e >= Base(d.items, s) + d.items[s][k].e + 4
  {
    var al := d.actionlist;
    RefRead(d, refs, s, k);
    LabelWord(al, d.bufs, d.items, d.fin, t, j, n);
    PositionOrder(al, d.items, s, k, t, j);
    ProgressChained(d, refs);
    DoneBefore(d, s, k, t, j);
    hide Linking, LabelAt;
    if NotAfter(t, j, s, k) {
      Distances(al, d.items, d.fin, t, j, s, k);
    } else {
      EstOrder(al, d.items, s, k, t, j);
    }
  }

  lemma {:induction false} DoneBefore(d: Dasm, s: int, k: int, t: int, j: int)
    requires FinOk(d.items, d.fin) && Next(d, s, k) && 0 <= t < |d.items| && 0 <= j < |d.items[t]| && (t, j) != (s, k)
    ensures Done(d.fin, t, j) <==> NotAfter(t, j, s, k)
  {
    if t < s { assert |d.fin[t]| == |d.items[t]| + 1; }
  }

  /** The estimates of pass 1 keep the order of the items. */
  lemma {:induction false} EstOrder(al: seq<int>, items: Items, s: int, k: int, t: int, j: int)
    requires AllChained(al, items) && 0 <= s < |items| && 0 <= k < |items[s]| && 0 <= t < |items| && 0 <= j < |items[t]|
    requires s < t || (s == t && k < j)
    ensures Base(items, t) + items[t][j].e >= Base(items, s) + items[s][k].e + MaxLen(items[s][k].kind)
  {
    assert Chained(al, items[s]) && Chained(al, items[t]);
    if s == t {
      ChainedMonotone(al, items[s], k, j);
    } else {
      ItemInside(al, items[s], k);
      ItemInside(al, items[t], j);
      BaseOrder(al, items, s + 1, t);
    }
  }

  lemma {:induction false} ItemInside(al: seq<int>, items: seq<Item>, k: int)
    requires Chained(al, items) && 0 <= k < |items|
    ensures 0 <= items[k].e && items[k].e + MaxLen(items[k].kind) <= EndOfs(items)
  {
    ChainedMonotone(al, items, k, |items| - 1);
    LenNonNegative(al, items[|items| - 1]);
    ChainedMonotone(al, items, 0, k);
  }

  lemma {:induction false} BaseOrder(al: seq<int>, items: Items, s: int, t: int)
    requires AllChained(al, items) && 0 <= s <= t <= |items|
    ensures Base(items, s) <= Base(items, t)
    decreases t
  {
    if s < t {
      BaseOrder(al, items, s, t - 1);
      EndNonNegative(al, items[t - 1]);
    }
  }

  /** Item k still has the words of pass 1. */
  lemma {:induction false} RefRead(d: Dasm, refs: Bufs, s: int, k: int)
    requires Linking(d, refs) && Next(d, s, k) && d.items[s][k].kind.Rel?
    ensures |refs| == |d.items| == |d.bufs| == |d.ofs|
    ensures 0 <= d.items[s][k].w && d.items[s][k].w + 1 < |d.bufs[s]| <= SEC_BIAS
    ensures d.bufs[s][d.items[s][k].w] == RefWord(refs, d.items, s, k)
    ensures d.bufs[s][d.items[s][k].w + 1] == d.items[s][k].e + 4
  {
    assert WordsAt(d.bufs, d.items, d.fin, s, k);
    assert |d.bufs[s]| == EndWord(d.items[s]);
  }

  lemma {:induction false} LabelOf(d: Dasm, refs: Bufs, s: int, k: int) returns (t: int, j: int)
    requires Linking(d, refs) && Next(d, s, k) && d.items[s][k].kind.Rel? && RefWord(refs, d.items, s, k) >= 0
    ensures LabelAt(d.items, t, j, RefWord(refs, d.items, s, k))
  {
    assert RefMeans(refs, d.items, d.log, s, k);
    RefKnown(refs, d.items, d.log, s, k);
    t, j :| LabelAt(d.items, t, j, RefWord(refs, d.items, s, k));
  }

  /** The words of section s after item k has been settled at f with these words. */
  ghost predicate CanSettle(bufs: Bufs, items: Items, fin: Fin, refs: Bufs, s: int, k: int, buf': seq<int>, f: int)
    requires |refs| == |bufs| == |items| && 0 <= s < |items| && 0 <= k < |items[s]| && 0 <= s < |fin|
    requires 0 <= k < |fin[s]|
  {
    var it := items[s][k];
    && s == |fin| - 1 && k == |fin[s]| - 1 && |buf'| == |bufs[s]|
    && LenOk(it, fin[s][k], f) && LinkedWords(buf', it, fin[s][k], f)
    && (forall i :: 0 <= i < |buf'| && !(it.w <= i < it.w + Words(it.kind)) ==> buf'[i] == bufs[s][i])
    && (IsRef(it.kind) ==> buf'[it.w] == bufs[s][it.w])
    && (it.kind.Rel? ==> BranchOk(items, Settle(fin, f), s, k, RefWord(refs, items, s, k)))
  }

  lemma {:induction false} Settled(al: seq<int>, bufs: Bufs, items: Items, fin: Fin, refs: Bufs, s: int, k: int,
      buf': seq<int>, f: int)
    requires Progress(al, bufs, items, fin) && SameRefs(refs, bufs, items) && Branches(refs, items, fin)
    requires 0 <= s < |items| && 0 <= k < |items[s]| && 0 <= s < |fin| && 0 <= k < |fin[s]|
    requires CanSettle(bufs, items, fin, refs, s, k, buf', f)
    ensures var bufs', fin' := bufs[s := buf'], Settle(fin, f);
      Progress(al, bufs', items, fin') && SameRefs(refs, bufs', items) && Branches(refs, items, fin')
  {
    assert AllChained(al, items) && FinOk(items, fin);
    SettleWords(al, bufs, items, fin, buf', f);
    hide Progress;
    SettleBranches(refs, items, fin, f);
    hide Branches, FinOk, BranchOk, LinkedWords;
    SameRefsAfter(al, bufs, items, refs, s, k, buf');
  }

  lemma {:induction false} SameRefsAfter(al: seq<int>, bufs: Bufs, items: Items, refs: Bufs, s: int, k: int,
      buf': seq<int>)
    requires AllChained(al, items) && SameRefs(refs, bufs, items) && 0 <= s < |items| && 0 <= k < |items[s]|
    requires |buf'| == |bufs[s]|
    requires var it := items[s][k];
      && (forall i :: 0 <= i < |buf'| && !(it.w <= i < it.w + Words(it.kind)) ==> buf'[i] == bufs[s][i])
      && (IsRef(it.kind) ==> 0 <= it.w < |buf'| && buf'[it.w] == bufs[s][it.w])
    ensures SameRefs(refs, bufs[s := buf'], items)
  {
    forall t, j {:trigger items[t][j]} | 0 <= t < |items| && 0 <= j < |items[t]| && IsRef(items[t][j].kind)
      ensures 0 <= items[t][j].w < |bufs[s := buf'][t]| && bufs[s := buf'][t][items[t][j].w] == bufs[t][items[t][j].w] {
      if t == s && j != k {
        assert Chained(al, items[s]);
        if j < k { ChainedMonotone(al, items[s], j, k); } else { ChainedMonotone(al, items[s], k, j); }
      }
    }
  }

  /** The position, action pointer, opcode and running offset that belong to item k. */
  ghost predicate Standing(d: Dasm, s: int, k: int, pos: int, p: int, op: int, ofs: int)
    reads d
  {
    && s == |d.fin| - 1 && 0 <= s < |d.items| && k == |d.fin[s]| - 1 && 0 < k <= |d.items[s]|
    && var last := d.items[s][k - 1];
    && 0 <= last.p < |d.actionlist| && pos == last.w + Words(last.kind) && p == AfterP(d.actionlist, last)
        && op == AfterOp(last)
    && ofs == d.fin[s][k] - Est(d.items[s], k)
  }

  /** One action of pass 2. */
  method LinkAction(d: Dasm, s: int, pos: int, p: int, op: int, ofs: int, ghost refs: Bufs, ghost k: int)
    returns (pos': int, p': int, op': int, ofs': int)
    requires Linking(d, refs) && Standing(d, s, k, pos, p, op, ofs) && 0 <= p < |d.actionlist|
    requires !IsEnd(d.actionlist[p])
    modifies d`bufs, d`fin
    ensures Linking(d, refs) && Standing(d, s, k + 1, pos', p', op', ofs')
    ensures |d.bufs| == |old(d.bufs)|
  {
    hide Progress, SameRefs, Branches, Sizes, RefsMean, RefMeans, FinOk, AllChained, CanSettle, Near, LabelAt, Chained;
    Reading(d, refs, s, k, pos, p, op, ofs);
    var action := d.actionlist[p];
    var buf := d.bufs[s];
    ghost var it := d.items[s][k];
    pos', p', op', ofs' := pos, p + Width(action), op, ofs;
    if action == REL_LG || action == REL_PC {
      var shrink := Shrink(op);
      if shrink > 0 {
        var ok := Reaches(d, s, pos, ofs, shrink, refs, k);
        if ok { ofs' := ofs - shrink; } else { shrink := 0; }
      }
      RelSettles(d, refs, s, k, shrink);
      buf := buf[pos + 1 := shrink];
      pos' := pos + 2;
    } else if action == LABEL_LG || action == LABEL_PC {
      buf := buf[pos := buf[pos] + ofs];
      pos' := pos + 1;
      LabelSettles(d, refs, s, k);
    } else if action == ALIGN {
      ofs' := ofs - And(buf[pos] + ofs, d.actionlist[p + 1]);
      pos' := pos + 1;
      OtherSettles(d, refs, s, k, ofs' + it.e + MaxLen(it.kind));
    } else if action == ESC {
      op' := d.actionlist[p + 1];
      OtherSettles(d, refs, s, k, ofs' + it.e + MaxLen(it.kind));
    } else if action < DISP {
      op' := action;
      OtherSettles(d, refs, s, k, ofs' + it.e + MaxLen(it.kind));
    } else {
      pos' := pos + 1;
      OtherSettles(d, refs, s, k, ofs' + it.e + MaxLen(it.kind));
    }
    Settled(d.actionlist, d.bufs, d.items, d.fin, refs, s, k, buf, ofs' + it.e + MaxLen(it.kind));
    d.bufs := d.bufs[s := buf];
    d.fin := Settle(d.fin, ofs' + it.e + MaxLen(it.kind));
  }

  /** What the words at the current position hold. */
  lemma {:induction false} Reading(d: Dasm, refs: Bufs, s: int, k: int, pos: int, p: int, op: int, ofs: int)
    requires Linking(d, refs) && Standing(d, s, k, pos, p, op, ofs) && 0 <= p < |d.actionlist|
    ensures |refs| == |d.bufs| == |d.items| && AllChained(d.actionlist, d.items) && Chained(d.actionlist, d.items[s])
    ensures IsEnd(d.actionlist[p]) <==> k == |d.items[s]| || d.items[s][k].kind.Start?
    ensures k == |d.items[s]| ==> pos == |d.bufs[s]|
    ensures k < |d.items[s]| ==>
      && var it := d.items[s][k];
      && Records(d.actionlist, it) && it.w == pos && ItemWords(d.bufs[s], it) && ofs == d.fin[s][k] - it.e
      && (!it.kind.Start? ==> it.p == p && it.op == op)
      && Est(d.items[s], k + 1) == it.e + MaxLen(it.kind)
  {
    var items := d.items[s];
    assert Chained(d.actionlist, items) && AtRest(d.actionlist, items);
    assert |d.bufs[s]| == EndWord(items);
    if k < |items| {
      assert FollowsAt(d.actionlist, items, k - 1);
      assert WordsAt(d.bufs, d.items, d.fin, s, k);
      EstStep(d.actionlist, items, k);
      assert Records(d.actionlist, items[k]);
      if !items[k].kind.Start? { NotEnd(d.actionlist, items[k]); }
    }
  }

  lemma {:induction false} NotEnd(al: seq<int>, it: Item)
    requires Records(al, it) && !it.kind.Start?
    ensures !IsEnd(al[it.p])
  {
  }

  lemma {:induction false} RelSettles(d: Dasm, refs: Bufs, s: int, k: int, shrink: int)
    requires Linking(d, refs) && Next(d, s, k) && d.items[s][k].kind.Rel?
    requires shrink == 0 || shrink == Shrink(d.items[s][k].op) > 0
    requires |refs| == |d.items| == |d.bufs|
    requires RefWord(refs, d.items, s, k) < 0 ==> shrink == 0
    requires forall t, j {:trigger LabelAt(d.items, t, j, RefWord(refs, d.items, s, k))} ::
        LabelAt(d.items, t, j, RefWord(refs, d.items, s, k)) ==>
      (shrink > 0 <==> Shrink(d.items[s][k].op) > 0 && Near(d.items, d.fin, s, k, t, j))
    ensures 0 <= d.items[s][k].w && d.items[s][k].w + 1 < |d.bufs[s]|
    ensures CanSettle(d.bufs, d.items, d.fin, refs, s, k, d.bufs[s][d.items[s][k].w + 1 := shrink],
        d.fin[s][k] + 4 - shrink)
  {
    hide Linking, RefWord, BranchOk, Near;
    RefRead(d, refs, s, k);
    RelBranch(d, refs, s, k, shrink);
    hide LabelAt;
  }

  lemma {:induction false} RelBranch(d: Dasm, refs: Bufs, s: int, k: int, shrink: int)
    requires Linking(d, refs) && Next(d, s, k) && d.items[s][k].kind.Rel?
    requires shrink == 0 || shrink == Shrink(d.items[s][k].op) > 0
    requires |refs| == |d.items|
    requires RefWord(refs, d.items, s, k) < 0 ==> shrink == 0
    requires forall t, j {:trigger LabelAt(d.items, t, j, RefWord(refs, d.items, s, k))} ::
        LabelAt(d.items, t, j, RefWord(refs, d.items, s, k)) ==>
      (shrink > 0 <==> Shrink(d.items[s][k].op) > 0 && Near(d.items, d.fin, s, k, t, j))
    ensures var fin' := Settle(d.fin, d.fin[s][k] + 4 - shrink);
      Done(fin', s, k) && BranchOk(d.items, fin', s, k, RefWord(refs, d.items, s, k))
  {
    hide Linking, Near, RefWord;
    var f := d.fin[s][k] + 4 - shrink;
    var fin' := Settle(d.fin, f);
    var n := RefWord(refs, d.items, s, k);
    assert Done(fin', s, k) && (Short(fin', s, k) <==> shrink > 0);
    forall t, j {:trigger LabelAt(d.items, t, j, n)} | LabelAt(d.items, t, j, n)
      ensures Short(fin', s, k) <==> Shrink(d.items[s][k].op) > 0 && Near(d.items, fin', s, k, t, j) {
      NearSettle(d, refs, s, k, t, j, f);
    }
  }

  lemma {:induction false} NearSettle(d: Dasm, refs: Bufs, s: int, k: int, t: int, j: int, f: int)
    requires Linking(d, refs) && Next(d, s, k) && 0 <= t < |d.items| && 0 <= j < |d.items[t]| && (t, j) != (s, k)
    ensures Near(d.items, Settle(d.fin, f), s, k, t, j) <==> Near(d.items, d.fin, s, k, t, j)
  {
    SettleDone(d.fin, f, t, j);
  }

  lemma {:induction false} LabelSettles(d: Dasm, refs: Bufs, s: int, k: int)
    requires Linking(d, refs) && Next(d, s, k) && d.items[s][k].kind.Label? && |refs| == |d.items| == |d.bufs|
    ensures 0 <= d.items[s][k].w < |d.bufs[s]| && d.bufs[s][d.items[s][k].w] == d.items[s][k].e
    ensures CanSettle(d.bufs, d.items, d.fin, refs, s, k, d.bufs[s][d.items[s][k].w := d.fin[s][k]], d.fin[s][k])
  {
    assert WordsAt(d.bufs, d.items, d.fin, s, k);
  }

  lemma {:induction false} OtherSettles(d: Dasm, refs: Bufs, s: int, k: int, f: int)
    requires Linking(d, refs) && Next(d, s, k) && |refs| == |d.items| == |d.bufs|
    requires var kind := d.items[s][k].kind; !kind.Rel? && !kind.Label? && LenOk(d.items[s][k], d.fin[s][k], f)
    ensures CanSettle(d.bufs, d.items, d.fin, refs, s, k, d.bufs[s], f)
  {
    assert WordsAt(d.bufs, d.items, d.fin, s, k);
  }

  /** A dasm_put or the end of the section comes next. */
  ghost predicate Between(d: Dasm, s: int, k: int, pos: int, ofs: int)
    reads d
  {
    && s == |d.fin| - 1 && 0 <= s < |d.items| == |d.bufs| && k == |d.fin[s]| - 1 && 0 <= k <= |d.items[s]|
    && ofs == d.fin[s][k] - Est(d.items[s], k)
    && (if k < |d.items[s]| then d.items[s][k].kind.Start? && pos == d.items[s][k].w else pos == |d.bufs[s]|)
  }

  /** The start offset of a dasm_put, read from its first word. */
  lemma {:induction false} StartSettles(d: Dasm, refs: Bufs, s: int, k: int, pos: int, ofs: int)
    requires Linking(d, refs) && Between(d, s, k, pos, ofs) && pos != |d.bufs[s]|
    ensures k < |d.items[s]| && 0 <= pos < |d.bufs[s]| && d.bufs[s][pos] == d.items[s][k].p
    ensures |refs| == |d.items| == |d.bufs|
    ensures 0 <= d.items[s][k].p < |d.actionlist|
    ensures CanSettle(d.bufs, d.items, d.fin, refs, s, k, d.bufs[s], d.fin[s][k])
    ensures Est(d.items[s], k + 1) == Est(d.items[s], k)
  {
    assert WordsAt(d.bufs, d.items, d.fin, s, k);
    assert Chained(d.actionlist, d.items[s]);
    assert Records(d.actionlist, d.items[s][k]);
    EstStep(d.actionlist, d.items[s], k);
    OtherSettles(d, refs, s, k, d.fin[s][k]);
  }

  lemma {:induction false} StandingInside(d: Dasm, refs: Bufs, s: int, k: int, pos: int, p: int, op: int, ofs: int)
    requires Linking(d, refs) && Standing(d, s, k, pos, p, op, ofs)
    ensures 0 <= p < |d.actionlist|
  {
    var items := d.items[s];
    assert Chained(d.actionlist, items) && AtRest(d.actionlist, items);
    if k < |items| {
      assert FollowsAt(d.actionlist, items, k - 1);
      assert Records(d.actionlist, items[k]);
    }
  }

  /** Pass 2 over one section. */
  method LinkSection(d: Dasm, s: int, ofs0: int, ghost refs: Bufs) returns (ofs: int)
    requires Linking(d, refs) && Between(d, s, 0, 0, ofs0)
    modifies d`bufs, d`fin
    ensures Linking(d, refs) && Between(d, s, |d.items[s]|, |d.bufs[s]|, ofs)
  {
    hide Linking, CanSettle, Est, Records, ItemWords, Chained;
    var pos := 0;
    ofs := ofs0;
    ghost var k := 0;
    while pos != |d.bufs[s]|
      invariant Linking(d, refs) && Between(d, s, k, pos, ofs)
      decreases |d.items[s]| - k
    {
      ghost var k0 := k;
      SectionDone(d, refs, s, k, pos, ofs);
      var op, p := 0, 0;
      p := StartPut(d, s, pos, ofs, refs, k);
      pos, k := pos + 1, k + 1;
      StandingInside(d, refs, s, k, pos, p, op, ofs);
      while !IsEnd(d.actionlist[p])
        invariant Linking(d, refs) && Standing(d, s, k, pos, p, op, ofs) && k0 < k && 0 <= p < |d.actionlist|
        decreases |d.items[s]| - k
      {
        Reading(d, refs, s, k, pos, p, op, ofs);
        pos, p, op, ofs := LinkAction(d, s, pos, p, op, ofs, refs, k);
        k := k + 1;
        StandingInside(d, refs, s, k, pos, p, op, ofs);
      }
      Reading(d, refs, s, k, pos, p, op, ofs);
    }
    SectionDone(d, refs, s, k, pos, ofs);
  }

  /** The first word of a dasm_put is its start in the action list. */
  method StartPut(d: Dasm, s: int, pos: int, ofs: int, ghost refs: Bufs, ghost k: int) returns (p: int)
    requires Linking(d, refs) && Between(d, s, k, pos, ofs) && pos != |d.bufs[s]| && k < |d.items[s]|
    modifies d`fin
    ensures Linking(d, refs) && Standing(d, s, k + 1, pos + 1, p, 0, ofs)
  {
    hide Progress, SameRefs, Branches, Sizes, RefsMean, CanSettle;
    StartSettles(d, refs, s, k, pos, ofs);
    p := d.bufs[s][pos];
    Settled(d.actionlist, d.bufs, d.items, d.fin, refs, s, k, d.bufs[s], d.fin[s][k]);
    assert d.bufs[s := d.bufs[s]] == d.bufs;
    d.fin := Settle(d.fin, d.fin[s][k]);
  }

  lemma {:induction false} SectionDone(d: Dasm, refs: Bufs, s: int, k: int, pos: int, ofs: int)
    requires Linking(d, refs) && Between(d, s, k, pos, ofs)
    ensures pos == |d.bufs[s]| <==> k == |d.items[s]|
  {
    if k < |d.items[s]| { assert WordsAt(d.bufs, d.items, d.fin, s, k); }
  }

  // ---------------------------------------------------------------- dasm_link

  /** The result of linking: every item settled, every branch decided, labels and sizes final. */
  ghost predicate Linked(d: Dasm)
    reads d
  {
    && LogOk(d.log) && LogItems(d.log, d.items) && SlotsMatch(d.log, d.lglabels, d.pclabels)
        && LabelsInRange(d.items, |d.lglabels|)
    && Linking(d, d.bufs) && Whole(d.items, d.fin) && d.codesize == d.fin[|d.fin| - 1][|d.fin[|d.fin| - 1]| - 1]
  }

  ghost predicate LabelsInRange(items: Items, lgsize: int) {
    forall s, k {:trigger items[s][k]} ::
      0 <= s < |items| && 0 <= k < |items[s]| && HasEvent(items[s][k].kind) && items[s][k].kind.slot.LG? ==>
      0 <= items[s][k].kind.slot.lg < lgsize
  }

  lemma {:induction false} InRange(items: Items, log: Log, lg: seq<int>, pc: seq<int>)
    requires LogItems(log, items) && SlotsMatch(log, lg, pc)
    ensures LabelsInRange(items, |lg|)
  {
    forall s, k {:trigger items[s][k]} | 0 <= s < |items| && 0 <= k < |items[s]| && HasEvent(items[s][k].kind)
        && items[s][k].kind.slot.LG?
      ensures 0 <= items[s][k].kind.slot.lg < |lg| {
      var i := FindEvent(items, log, s, k);
      assert SlotIn(log[i].slot, lg, pc);
    }
  }

  ghost predicate Whole(items: Items, fin: Fin) {
    && 0 < |items| == |fin| && (forall s {:trigger fin[s]} :: 0 <= s < |fin| ==> |fin[s]| == |items[s]| + 1)
  }

  /** The first PC label that is still awaited, or -1. */
  ghost function FirstAwaited(pc: seq<int>, i: nat): (r: int)
    requires i <= |pc|
    ensures r == -1 ==> forall x :: i <= x < |pc| ==> pc[x] <= 0
    ensures r >= 0 ==> i <= r < |pc| && pc[r] > 0 && forall x :: i <= x < r ==> pc[x] <= 0
    decreases |pc| - i
  {
    if i == |pc| then -1 else if pc[i] > 0 then i else FirstAwaited(pc, i + 1)
  }

  lemma {:induction false} NothingAwaited(log: Log, lg: seq<int>, pc: seq<int>)
    requires LogOk(log) && SlotsMatch(log, lg, pc)
    requires forall i :: 0 <= i < |lg| && i < 10 ==> lg[i] <= 0
    requires forall i :: 0 <= i < |pc| ==> pc[i] <= 0
    ensures NoneAwaited(log)
  {
    forall i {:trigger log[i]} | 0 <= i < |log| && (log[i].slot.LG? ==> log[i].slot.lg < 10)
        ensures Pend(log, log[i].slot) == [] {
      var slot := log[i].slot;
      assert SlotIn(slot, lg, pc);
      ChainStart(log, lg, pc, slot, match slot case LG(n) => lg[n] case PC(n) => pc[n]);
    }
  }

  lemma {:induction false} StartLinking(al: seq<int>, bufs: Bufs, items: Items)
    requires Sections(al, bufs, items) && 0 < |items|
    ensures Progress(al, bufs, items, [[0]]) && SameRefs(bufs, bufs, items) && Branches(bufs, items, [[0]])
    ensures if items[0] == [] then |bufs[0]| == 0
      else items[0][0].w == 0 && items[0][0].e == 0 && items[0][0].kind.Start?
  {
    forall s {:trigger bufs[s]} | 0 <= s < |bufs|
        ensures |bufs[s]| == EndWord(items[s]) <= SEC_BIAS { assert SectionWords(al, bufs[s], items[s]); }
    forall s {:trigger items[s]} | 0 <= s < |items|
        ensures Chained(al, items[s]) { assert SectionWords(al, bufs[s], items[s]); }
    forall s, k | 0 <= s < |items| && 0 <= k < |items[s]| ensures WordsAt(bufs, items, [[0]], s, k) {
      assert SectionWords(al, bufs[s], items[s]);
    }
    assert forall s, k {:trigger items[s][k]} :: 0 <= s < |items| && 0 <= k < |items[s]| ==>
        WordsAt(bufs, items, [[0]], s, k);
    assert Chained(al, items[0]);
  }

  /** Opening the next section at the end of the one just settled. */
  lemma {:induction false} NextSection(d: Dasm, refs: Bufs, ofs: int)
    requires Linking(d, refs)
    requires var s := |d.fin| - 1;
      0 <= s && s + 1 < |d.items| && |d.fin[s]| == |d.items[s]| + 1 && ofs == d.fin[s][|d.items[s]|]
    ensures Progress(d.actionlist, d.bufs, d.items, d.fin + [[ofs]]) && Branches(refs, d.items, d.fin + [[ofs]])
    ensures var s := |d.fin|; d.items[s] != [] ==>
        d.items[s][0].w == 0 && d.items[s][0].e == 0 && d.items[s][0].kind.Start?
    ensures var s := |d.fin|; d.items[s] == [] ==> |d.bufs[s]| == 0
  {
    NextStarts(d, refs);
    OpenProgress(d.actionlist, d.bufs, d.items, d.fin, ofs);
    hide Progress, Sizes, RefsMean, SameRefs;
    ProgressChained(d, refs);
    OpenBranches(refs, d.items, d.fin, ofs);
  }

  lemma {:induction false} NextStarts(d: Dasm, refs: Bufs)
    requires Linking(d, refs) && |d.fin| < |d.items|
    ensures |d.bufs| == |d.items|
    ensures var s := |d.fin|; d.items[s] != [] ==>
        d.items[s][0].w == 0 && d.items[s][0].e == 0 && d.items[s][0].kind.Start?
    ensures var s := |d.fin|; d.items[s] == [] ==> |d.bufs[s]| == 0
  {
    hide Sizes, RefsMean, SameRefs, Branches, FinOk, WordsAt;
    assert Chained(d.actionlist, d.items[|d.fin|]);
    assert |d.bufs[|d.fin|]| == EndWord(d.items[|d.fin|]);
  }

  lemma {:induction false} OpenProgress(al: seq<int>, bufs: Bufs, items: Items, fin: Fin, ofs: int)
    requires Progress(al, bufs, items, fin) && |fin| < |items|
    requires var s := |fin| - 1; |fin[s]| == |items[s]| + 1 && ofs == fin[s][|items[s]|]
    ensures Progress(al, bufs, items, fin + [[ofs]])
  {
    var fin' := fin + [[ofs]];
    forall t, j ensures Done(fin', t, j) <==> Done(fin, t, j) {}
    OpenFin(items, fin, ofs);
    forall t, j | 0 <= t < |items| && 0 <= j < |items[t]| ensures WordsAt(bufs, items, fin', t, j) {
      assert WordsAt(bufs, items, fin, t, j);
    }
    assert forall t, j :: 0 <= t < |items| && 0 <= j < |items[t]| ==> WordsAt(bufs, items, fin', t, j);
    hide FinOk, AllChained;
    assert Progress(al, bufs, items, fin');
  }

  lemma {:induction false} OpenFin(items: Items, fin: Fin, ofs: int)
    requires FinOk(items, fin) && |fin| < |items|
    requires var s := |fin| - 1; |fin[s]| == |items[s]| + 1 && ofs == fin[s][|items[s]|]
    ensures FinOk(items, fin + [[ofs]])
  {
    var fin' := fin + [[ofs]];
    forall t {:trigger Starts(fin', t)} | 0 < t < |fin'|
        ensures Starts(fin', t) { if t < |fin| { assert Starts(fin, t); } }
    forall t, j {:trigger Done(fin', t, j)} | Done(fin', t, j)
        ensures LenOk(items[t][j], fin'[t][j], fin'[t][j + 1]) { assert Done(fin, t, j); }
  }

  lemma {:induction false} OpenBranches(refs: Bufs, items: Items, fin: Fin, ofs: int)
    requires |refs| == |items| && FinOk(items, fin) && |fin| < |items| && Branches(refs, items, fin)
    ensures Branches(refs, items, fin + [[ofs]])
  {
    var fin' := fin + [[ofs]];
    forall s, k {:trigger Done(fin', s, k)} | Done(fin', s, k) && 0 <= s < |items| && 0 <= k < |items[s]|
        && items[s][k].kind.Rel?
      ensures BranchOk(items, fin', s, k, RefWord(refs, items, s, k)) {
      assert Done(fin, s, k) && BranchOk(items, fin, s, k, RefWord(refs, items, s, k));
      var n := RefWord(refs, items, s, k);
      forall t, j {:trigger LabelAt(items, t, j, n)} | LabelAt(items, t, j, n)
        ensures Short(fin', s, k) <==> Shrink(items[s][k].op) > 0 && Near(items, fin', s, k, t, j) {
        assert Near(items, fin', s, k, t, j) <==> Near(items, fin, s, k, t, j);
      }
    }
  }

  /**
   dasm_link: reports an earlier error or the first undefined PC label, otherwise settles all
   sections, and the size it returns is where the last section ends.
   */
  method Link(d: Dasm) returns (st: int, size: int)
    requires d.Valid()
    requires d.status == S_OK ==> forall i :: 0 <= i < |d.lglabels| && i < 10 ==> d.lglabels[i] <= 0
    modifies d`bufs, d`fin, d`codesize
    ensures st == if d.status != S_OK then d.status else if FirstAwaited(d.pclabels, 0) >= 0
        then S_UNDEF_PC + FirstAwaited(d.pclabels, 0) else S_OK
    ensures st == S_OK ==> Linked(d) && size == d.codesize
    ensures st != S_OK ==> size == 0 && d.bufs == old(d.bufs)
  {
    hide Sections, LogItems, RefsMatch, SlotsMatch, LogOk, Progress, SameRefs, Branches, Sizes, RefsMean, MarkedRefs,
        NoneAwaited;
    size, st := 0, d.status;
    if st != S_OK { return; }
    var pc := 0;
    while pc < |d.pclabels|
      invariant 0 <= pc <= |d.pclabels| && FirstAwaited(d.pclabels, 0) == FirstAwaited(d.pclabels, pc)
    {
      if d.pclabels[pc] > 0 { st := S_UNDEF_PC + pc; return; }
      pc := pc + 1;
    }
    RestSizes(d);
    NothingAwaited(d.log, d.lglabels, d.pclabels);
    InRange(d.items, d.log, d.lglabels, d.pclabels);
    MarkGlobals(d);
    ghost var refs := d.bufs;
    AllRefsMean(d.actionlist, refs, d.items, d.log, d.lglabels, d.pclabels);
    StartLinking(d.actionlist, refs, d.items);
    d.fin := [[0]];
    var s, ofs := 0, 0;
    while s < |d.bufs|
      invariant 0 <= s <= |d.items| && Linking(d, refs) && |d.bufs| == |d.items| == |d.ofs|
      invariant s < |d.items| ==> |d.fin| == s + 1 && d.fin[s] == [ofs] && Between(d, s, 0, 0, ofs)
      invariant s == |d.items| ==>
          |d.fin| == s && |d.fin[s - 1]| == |d.items[s - 1]| + 1 && ofs == d.fin[s - 1][|d.items[s - 1]|]
    {
      ofs := LinkSection(d, s, ofs, refs);
      ofs := AddSize(d, refs, s, ofs);
      s := s + 1;
    }
    d.codesize, size := ofs, ofs;
    AllWhole(d, refs);
  }

  /** The next section starts right after the current one. */
  method AddSize(d: Dasm, ghost refs: Bufs, s: int, ofs: int) returns (ofs': int)
    requires Linking(d, refs) && 0 <= s < |d.items| == |d.bufs| && Between(d, s, |d.items[s]|, |d.bufs[s]|, ofs)
    modifies d`fin
    ensures Linking(d, refs) && |d.bufs| == |d.items| == |d.ofs|
    ensures s + 1 < |d.items| ==> |d.fin| == s + 2 && d.fin[s + 1] == [ofs'] && Between(d, s + 1, 0, 0, ofs')
    ensures s + 1 == |d.items| ==> |d.fin| == s + 1 && |d.fin[s]| == |d.items[s]| + 1 && ofs' == d.fin[s][|d.items[s]|]
  {
    hide Progress, SameRefs, Branches, Sizes, RefsMean;
    SizeOf(d, s);
    ProgressChained(d, refs);
    ofs' := ofs + d.ofs[s];
    if s + 1 < |d.items| {
      NextSection(d, refs, ofs');
      d.fin := d.fin + [[ofs']];
    }
  }

  lemma {:induction false} RestSizes(d: Dasm)
    requires |d.ofs| == |d.items| && forall s {:trigger d.Rests(s)} :: 0 <= s < |d.items| ==> d.Rests(s)
    ensures Sizes(d.actionlist, d.ofs, d.items)
  {
    forall s {:trigger d.items[s]} | 0 <= s < |d.items| ensures d.ofs[s] == EndOfs(d.items[s])
        && AtRest(d.actionlist, d.items[s]) {
      assert d.Rests(s);
    }
  }

  /** The reference words did not change, so the linked buffers can stand for them. */
  lemma {:induction false} AllWhole(d: Dasm, refs: Bufs)
    requires Linking(d, refs) && |d.fin| == |d.items| && |d.fin[|d.fin| - 1]| == |d.items[|d.fin| - 1]| + 1
    ensures Linking(d, d.bufs) && Whole(d.items, d.fin)
  {
    forall s, k | 0 <= s < |d.items| && 0 <= k < |d.items[s]| && IsRef(d.items[s][k].kind)
      ensures RefWord(d.bufs, d.items, s, k) == RefWord(refs, d.items, s, k) {}
    forall s, k | 0 <= s < |d.items| && 0 <= k < |d.items[s]| && IsRef(d.items[s][k].kind)
        ensures RefMeans(d.bufs, d.items, d.log, s, k) {
      assert RefMeans(refs, d.items, d.log, s, k);
    }
  }
}

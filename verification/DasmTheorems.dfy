/** What the three passes of the DynASM encoder achieve together. */
module DasmTheorems {
  import opened Bits
  import opened DasmActions
  import opened DasmLabels
  import opened DasmPut
  import opened DasmLayout
  import opened DasmLink
  import opened DasmEncode
  import opened DasmBytes

  /** The width bytes in front of offset e are a signed displacement that leads from e to x. */
  ghost predicate LandsOn(out: seq<int>, e: int, width: int, x: int) {
    && (width == 1 || width == 4) && width <= e <= |out|
    && e + Signed(FromLE(out[e - width..e]), if width == 1 then 256 else TWO_32) == x
  }

  /** A branch with a fitting opcode: short forms have the short opcode, long ones the one given. */
  ghost predicate Lands(u: Unit, out: seq<int>, s: int, k: int, x: int)
    requires Placed(u, s, k)
  {
    var e, it := u.fin[s][k + 1], u.items[s][k];
    if ShortRel(u, s, k, 3) then LandsOn(out, e, 1, x) && e >= 2 && it.op == 0xe9 && out[e - 2] == 0xeb
    else if ShortRel(u, s, k, 4) then LandsOn(out, e, 1, x) && e >= 2 && 0x80 <= it.op <= 0x8f
        && out[e - 2] == it.op - 0x10
    else LandsOn(out, e, 4, x) && (it.run >= 1 ==> e >= 5 && out[e - 5] == it.op)
  }

  lemma {:induction false} ShortJmpLands(u: Unit, out: seq<int>, s: int, k: int, x: int)
    requires Laid(u) && AllOut(u, out, |u.items|) && Placed(u, s, k) && ShortRel(u, s, k, 3)
    requires x - u.fin[s][k + 1] == RefCode(u, s, k) && FitsByte(RefCode(u, s, k))
    ensures Lands(u, out, s, k, x)
  {
    hide Laid, AllOut, RefCode;
    ItemFacts(u, s, k);
    RunBefore(u, s, k);
    Finished(u, out, s, k - 1);
    Finished(u, out, s, k);
    var e := u.fin[s][k + 1];
    OneByte(out, e - 2, 0xeb);
    assert LE(RefCode(u, s, k), 1) == [RefCode(u, s, k) % 256];
    LE1(RefCode(u, s, k) % 256);
  }

  lemma {:induction false} ShortJccLands(u: Unit, out: seq<int>, s: int, k: int, x: int)
    requires Laid(u) && AllOut(u, out, |u.items|) && Placed(u, s, k) && ShortRel(u, s, k, 4)
    requires x - u.fin[s][k + 1] == RefCode(u, s, k) && FitsByte(RefCode(u, s, k))
    ensures Lands(u, out, s, k, x)
  {
    hide Laid, AllOut, RefCode;
    ItemFacts(u, s, k);
    RunBefore(u, s, k);
    RunBefore(u, s, k - 1);
    Finished(u, out, s, k - 2);
    Finished(u, out, s, k - 1);
    var e := u.fin[s][k + 1];
    OneByte(out, e - 2, u.items[s][k].op - 0x10);
    LE1(RefCode(u, s, k) % 256);
  }

  lemma {:induction false} LongLands(u: Unit, out: seq<int>, s: int, k: int, x: int)
    requires Laid(u) && AllOut(u, out, |u.items|) && Placed(u, s, k) && u.items[s][k].kind.Rel? && ShortRel(u, s, k, 0)
    requires x - u.fin[s][k + 1] == RefCode(u, s, k) && -0x8000_0000 <= RefCode(u, s, k) < 0x8000_0000
    ensures Lands(u, out, s, k, x)
  {
    hide Laid, AllOut, RefCode, LE, FromLE;
    ItemFacts(u, s, k);
    Finished(u, out, s, k);
    LE4(RefCode(u, s, k));
    if u.items[s][k].run >= 1 {
      RunBefore(u, s, k);
      Finished(u, out, s, k - 1);
      OneByte(out, u.fin[s][k - 1], u.items[s][k].op);
    }
  }

  /**
   Every branch, short or long, lands exactly on the final offset of a label that its reference
   word names.
   */
  lemma {:induction false} LandsOnLabel(u: Unit, out: seq<int>, s: int, k: int, t: int, j: int)
    requires Laid(u) && RefsKnown(u) && AllOut(u, out, |u.items|) && Placed(u, s, k) && u.items[s][k].kind.Rel?
    requires LabelAt(u.items, t, j, RefWord(u.bufs, u.items, s, k)) && Placed(u, t, j)
    requires u.fin[|u.fin| - 1][|u.fin[|u.fin| - 1]| - 1] < 0x8000_0000
    ensures Lands(u, out, s, k, u.fin[t][j])
  {
    if ShortRel(u, s, k, 0) { LongOnLabel(u, out, s, k, t, j); } else { ShortOnLabel(u, out, s, k, t, j); }
  }

  lemma {:induction false} ShortOnLabel(u: Unit, out: seq<int>, s: int, k: int, t: int, j: int)
    requires Laid(u) && RefsKnown(u) && AllOut(u, out, |u.items|) && Placed(u, s, k) && u.items[s][k].kind.Rel?
    requires !ShortRel(u, s, k, 0)
    requires LabelAt(u.items, t, j, RefWord(u.bufs, u.items, s, k)) && Placed(u, t, j)
    ensures Lands(u, out, s, k, u.fin[t][j])
  {
    hide RefsKnown, AllOut, Lands, Laid, FinOk, AllChained, BranchOk, RefCode, LabelAt, RefWord;
    var n := RefWord(u.bufs, u.items, s, k);
    BranchFacts(u, s, k);
    LabelDisp(u, s, k, t, j);
    RelWords(u, s, k);
    assert Done(u.fin, t, j) && Short(u.fin, s, k);
    ShortReaches(u.al, u.items, u.fin, s, k, n, t, j);
    if ShortRel(u, s, k, 3) { ShortJmpLands(u, out, s, k, u.fin[t][j]); }
        else { ShortJccLands(u, out, s, k, u.fin[t][j]); }
  }

  lemma {:induction false} LongOnLabel(u: Unit, out: seq<int>, s: int, k: int, t: int, j: int)
    requires Laid(u) && RefsKnown(u) && AllOut(u, out, |u.items|) && Placed(u, s, k) && u.items[s][k].kind.Rel?
    requires ShortRel(u, s, k, 0)
    requires LabelAt(u.items, t, j, RefWord(u.bufs, u.items, s, k)) && Placed(u, t, j)
    requires u.fin[|u.fin| - 1][|u.fin[|u.fin| - 1]| - 1] < 0x8000_0000
    ensures Lands(u, out, s, k, u.fin[t][j])
  {
    hide RefsKnown, AllOut, Lands, Laid, RefCode, LabelAt, RefWord;
    LabelDisp(u, s, k, t, j);
    Inside(u, s, k + 1);
    Inside(u, t, j);
    LongLands(u, out, s, k, u.fin[t][j]);
  }

  /** The displacement of a branch to a label runs from its end to the label's final offset. */
  lemma {:induction false} LabelDisp(u: Unit, s: int, k: int, t: int, j: int)
    requires Laid(u) && RefsKnown(u) && Placed(u, s, k) && u.items[s][k].kind.Rel?
    requires LabelAt(u.items, t, j, RefWord(u.bufs, u.items, s, k)) && Placed(u, t, j)
    ensures RefCode(u, s, k) == u.fin[t][j] - u.fin[s][k + 1] && RefWord(u.bufs, u.items, s, k) > 0
  {
    assert AllChained(u.al, u.items);
    hide Laid, RefsKnown;
    LabelPositive(u.al, u.items, t, j, RefWord(u.bufs, u.items, s, k));
    RefLabel(u, s, k);
  }

  lemma {:induction false} BranchFacts(u: Unit, s: int, k: int)
    requires Laid(u) && Placed(u, s, k) && u.items[s][k].kind.Rel?
    ensures Done(u.fin, s, k) && BranchOk(u.items, u.fin, s, k, RefWord(u.bufs, u.items, s, k))
    ensures AllChained(u.al, u.items) && FinOk(u.items, u.fin)
  {
    hide BranchOk, WordsAt;
    assert Done(u.fin, s, k);
  }

  lemma {:induction false} Inside(u: Unit, s: int, k: int)
    requires Laid(u) && 0 <= s < |u.fin| && 0 <= k < |u.fin[s]|
    ensures 0 <= u.fin[s][k] <= u.fin[|u.fin| - 1][|u.fin[|u.fin| - 1]| - 1]
  {
    FinOrder(u, s, 0, k);
    var t := |u.fin| - 1;
    assert |u.fin[t]| > 0;
    assert AllChained(u.al, u.items) && FinOk(u.items, u.fin);
    hide Progress, Branches, WordsAt;
    Distances(u.al, u.items, u.fin, s, k, t, |u.fin[t]| - 1);
  }

  /**
   The bytes written for branch k of section s lead to the final offset of the very label that its
   dasm_put meant, unless that label is a global that stays undefined.
   */
  ghost predicate LandsAsMeant(u: Unit, log: Log, out: seq<int>, s: int, k: int)
    requires Placed(u, s, k) && u.items[s][k].kind.Rel?
  {
    exists i {:trigger log[i]} :: 0 <= i < |log| && log[i] == EventOf(u.items[s][k].kind, Pos(s, u.items[s][k].w))
      && (Target(log, i) >= 0 ==> LandsOnTarget(u, log, out, s, k, i))
  }

  ghost predicate LandsOnTarget(u: Unit, log: Log, out: seq<int>, s: int, k: int, i: int)
    requires Placed(u, s, k) && 0 <= i < |log| && log[i].Ref?
  {
    exists t, j {:trigger LabelAt(u.items, t, j, Target(log, i))} :: LabelAt(u.items, t, j, Target(log, i))
      && u.items[t][j].kind.slot == log[i].slot && Placed(u, t, j) && Lands(u, out, s, k, u.fin[t][j])
  }

  /** Item k of section s, decoded from the output. */
  ghost predicate MeansThere(u: Unit, log: Log, out: seq<int>, s: int, k: int) {
    Placed(u, s, k) && ItemMeans(u, log, out, s, k)
  }

  /** Every item of every section is in the output as its action asks, and every global has its address. */
  ghost predicate AllMean(u: Unit, log: Log, out: seq<int>, globals: seq<int>) {
    && (forall s, k {:trigger MeansThere(u, log, out, s, k)} :: 0 <= s < |u.items| && 0 <= k < |u.items[s]| ==>
          MeansThere(u, log, out, s, k))
    && (forall g {:trigger GlobalMeans(u, globals, g)} :: 0 <= g < |u.globals| ==> GlobalMeans(u, globals, g))
  }

  /** What the encoder wrote is, item by item, what the actions ask for. */
  lemma {:induction false} OutputMeans(d: Dasm, u: Unit, out: seq<int>, globals: seq<int>, base: int)
    requires Linked(d) && Of(u, d, base) && |u.globals| >= |d.lglabels|
    requires 0 < |u.items| && AllOut(u, out, |u.items|)
    requires GlobalsOk(u, globals, |u.items| - 1, |u.items[|u.items| - 1]|)
    ensures AllMean(u, d.log, out, globals)
  {
    hide Linked, AllOut, MeansThere, GlobalsOk, GlobalMeans, Of;
    GlobalsCount(u, globals, |u.items| - 1, |u.items[|u.items| - 1]|);
    forall s, k {:trigger MeansThere(u, d.log, out, s, k)} | 0 <= s < |u.items| && 0 <= k < |u.items[s]|
      ensures MeansThere(u, d.log, out, s, k) {
      ItemThere(d, u, out, base, s, k);
    }
    forall g {:trigger GlobalMeans(u, globals, g)} | 0 <= g < |u.globals| ensures GlobalMeans(u, globals, g) {
      GlobalsMean(u, globals, g);
    }
  }

  lemma {:induction false} ItemThere(d: Dasm, u: Unit, out: seq<int>, base: int, s: int, k: int)
    requires Linked(d) && Of(u, d, base) && |u.globals| >= |d.lglabels| && AllOut(u, out, |u.items|)
    requires 0 <= s < |u.items| && 0 <= k < |u.items[s]|
    ensures MeansThere(u, d.log, out, s, k)
  {
    hide Linked, Encodable, Laid, AllOut, RefsKnown, RefMeans, Whole, ItemMeans;
    EncodeStart(d, u, base);
    EncodableParts(u);
    assert |u.fin[s]| == |u.items[s]| + 1;
    if IsRef(u.items[s][k].kind) { MeansAt(d, s, k); }
    ItemDecodes(u, d.log, out, s, k);
  }

  lemma {:induction false} GlobalsCount(u: Unit, globals: seq<int>, s: int, k: int)
    requires GlobalsOk(u, globals, s, k)
    ensures |globals| == |u.globals|
  {
  }

  /** Branch correctness over all three passes. */
  lemma {:induction false} BranchCorrect(d: Dasm, out: seq<int>, base: int, globals: seq<int>, s: int, k: int)
    requires Linked(d) && |globals| >= |d.lglabels| && d.codesize < 0x8000_0000
    requires AllOut(Unit(d.actionlist, d.bufs, d.items, d.fin, base, globals), out, |d.items|)
    requires 0 <= s < |d.items| && 0 <= k < |d.items[s]| && d.items[s][k].kind.Rel?
    ensures var u := Unit(d.actionlist, d.bufs, d.items, d.fin, base, globals);
      Placed(u, s, k) && LandsAsMeant(u, d.log, out, s, k)
  {
    hide Linked, AllOut, LandsAsMeant;
    BranchLands(d, Unit(d.actionlist, d.bufs, d.items, d.fin, base, globals), out, base, s, k);
  }

  lemma {:induction false} BranchLands(d: Dasm, u: Unit, out: seq<int>, base: int, s: int, k: int)
    requires Linked(d) && Of(u, d, base) && |u.globals| >= |d.lglabels| && d.codesize < 0x8000_0000
    requires AllOut(u, out, |u.items|)
    requires 0 <= s < |u.items| && 0 <= k < |u.items[s]| && u.items[s][k].kind.Rel?
    ensures Placed(u, s, k) && LandsAsMeant(u, d.log, out, s, k)
  {
    hide Linked, Encodable, Laid, AllOut, RefsKnown, RefMeans, LandsAsMeant, Whole;
    EncodeStart(d, u, base);
    EncodableParts(u);
    MeansAt(d, s, k);
    hide Of;
    assert |u.fin[s]| == |u.items[s]| + 1;
    MeansLands(u, d.log, out, s, k);
  }

  lemma {:induction false} EncodableParts(u: Unit)
    requires Encodable(u)
    ensures Laid(u) && RefsKnown(u)
  {
    hide Laid, RefsKnown;
  }

  lemma {:induction false} MeansAt(d: Dasm, s: int, k: int)
    requires Linked(d) && 0 <= s < |d.items| == |d.bufs| && 0 <= k < |d.items[s]| && IsRef(d.items[s][k].kind)
    ensures RefMeans(d.bufs, d.items, d.log, s, k)
  {
    hide RefMeans, Progress, SameRefs, Branches, Sizes, LogItems, SlotsMatch, LogOk;
  }

  lemma {:induction false} MeansLands(u: Unit, log: Log, out: seq<int>, s: int, k: int)
    requires Laid(u) && RefsKnown(u) && AllOut(u, out, |u.items|) && Placed(u, s, k) && u.items[s][k].kind.Rel?
    requires forall t {:trigger u.fin[t]} :: 0 <= t < |u.fin| ==> |u.fin[t]| == |u.items[t]| + 1
    requires u.fin[|u.fin| - 1][|u.fin[|u.fin| - 1]| - 1] < 0x8000_0000
    requires RefMeans(u.bufs, u.items, log, s, k)
    ensures LandsAsMeant(u, log, out, s, k)
  {
    var i :| 0 <= i < |log| && log[i] == EventOf(u.items[s][k].kind, Pos(s, u.items[s][k].w))
        && RefFixed(u.items, log, i, RefWord(u.bufs, u.items, s, k));
    hide Laid, RefsKnown, AllOut, Lands, RefWord, RefMeans;
    if Target(log, i) >= 0 {
      var t, j :| LabelAt(u.items, t, j, RefWord(u.bufs, u.items, s, k)) && u.items[t][j].kind.slot == log[i].slot;
      assert |u.fin[t]| == |u.items[t]| + 1;
      LandsOnLabel(u, out, s, k, t, j);
      assert LandsOnTarget(u, log, out, s, k, i);
    }
  }

  /**
   Linking and encoding whatever a run of dasm_put calls has recorded: after a successful link as
   many bytes come out as linking said, without a phase error, and every branch lands as meant.
   */
  method Assemble(d: Dasm, base: int, globals0: seq<int>) returns (st: int, out: seq<int>, globals: seq<int>)
    requires d.Valid() && |globals0| >= |d.lglabels|
    requires d.status == S_OK ==> forall i :: 0 <= i < |d.lglabels| && i < 10 ==> d.lglabels[i] <= 0
    modifies d`bufs, d`fin, d`codesize
    ensures st == if d.status != S_OK then d.status else if FirstAwaited(d.pclabels, 0) >= 0
        then S_UNDEF_PC + FirstAwaited(d.pclabels, 0) else S_OK
    ensures st == S_OK ==> |out| == d.codesize
    ensures st == S_OK ==>
      AllMean(Unit(d.actionlist, d.bufs, d.items, d.fin, base, globals0), d.log, out, globals)
    ensures st == S_OK && d.codesize < 0x8000_0000 ==> forall s, k {:trigger d.items[s][k]} ::
      0 <= s < |d.items| && 0 <= k < |d.items[s]| && d.items[s][k].kind.Rel? ==>
        var u := Unit(d.actionlist, d.bufs, d.items, d.fin, base, globals0);
        Placed(u, s, k) && LandsAsMeant(u, d.log, out, s, k)
  {
    hide Linked, AllOut, GlobalsOk, LandsAsMeant, AllMean, Sections, LogItems, RefsMatch, SlotsMatch, LogOk;
    var size;
    st, size := Link(d);
    out, globals := [], globals0;
    if st == S_OK {
      st, out, globals := Encode(d, base, globals0);
      OutputMeans(d, Unit(d.actionlist, d.bufs, d.items, d.fin, base, globals0), out, globals, base);
      if d.codesize < 0x8000_0000 {
        forall s, k {:trigger d.items[s][k]} | 0 <= s < |d.items| && 0 <= k < |d.items[s]| && d.items[s][k].kind.Rel?
          ensures var u := Unit(d.actionlist, d.bufs, d.items, d.fin, base, globals0);
            Placed(u, s, k) && LandsAsMeant(u, d.log, out, s, k) {
          BranchCorrect(d, out, base, globals0, s, k);
        }
      }
    }
  }

  /** x is the position of a label of this slot, whose final offset is r. */
  ghost predicate LabelOffset(items: Items, fin: Fin, x: int, slot: Slot, r: int) {
    exists t, j :: LabelAt(items, t, j, x) && Done(fin, t, j) && items[t][j].kind == Label(slot) && r == fin[t][j]
  }

  /**
   dasm_getpclabel after linking: a defined PC label's final offset, -1 if undefined, -2 if unused or
   out of range.
   */
  method GetPcLabel(d: Dasm, pc: nat) returns (r: int)
    requires Linked(d)
    ensures pc < |d.pclabels| && Cur(d.log, PC(pc)).Defined? ==>
        LabelOffset(d.items, d.fin, Cur(d.log, PC(pc)).pos, PC(pc), r)
    ensures pc < |d.pclabels| && Cur(d.log, PC(pc)).Awaited? ==> r == -1
    ensures pc >= |d.pclabels| || Cur(d.log, PC(pc)).Unused? ==> r == -2
  {
    hide LogOk, LogItems, SlotsMatch, LabelsInRange, Progress, SameRefs, Branches, Sizes, RefsMean, Whole, Cur,
        LabelOffset;
    if pc < |d.pclabels| {
      var pos := d.pclabels[pc];
      PcState(d.log, d.lglabels, d.pclabels, pc);
      if pos < 0 {
        LabelFinal(d.actionlist, d.bufs, d.items, d.fin, d.log, PC(pc));
        return Word(d.bufs, -pos);
      }
      if pos > 0 { return -1; }
    }
    return -2;
  }

  lemma {:induction false} PcState(log: Log, lg: seq<int>, pc: seq<int>, n: nat)
    requires LogOk(log) && SlotsMatch(log, lg, pc) && n < |pc|
    ensures if pc[n] < 0 then Cur(log, PC(n)) == Defined(-pc[n]) else if pc[n] > 0 then Cur(log, PC(n)).Awaited?
        else Cur(log, PC(n)).Unused?
  {
    assert pc[n] == SlotValue(log, PC(n));
    AwaitedIffPending(log, PC(n));
    CurPositive(log, PC(n));
    if Pend(log, PC(n)) != [] { ChainWords(log, PC(n), 0); }
  }

  lemma {:induction false} LabelFinal(al: seq<int>, bufs: Bufs, items: Items, fin: Fin, log: Log, slot: Slot)
    requires LogOk(log) && LogItems(log, items) && Progress(al, bufs, items, fin) && Whole(items, fin)
    requires Cur(log, slot).Defined?
    ensures var x := Cur(log, slot).pos; ValidPos(bufs, x) && LabelOffset(items, fin, x, slot, Word(bufs, x))
  {
    var x := Cur(log, slot).pos;
    hide LogItems, LogOk, Progress, Cur;
    CurPositive(log, slot);
    CurIsDef(log, slot);
    var i :| DefAt(log, i, x, slot);
    DefIsLabel(items, log, i);
    var t, j :| LabelAt(items, t, j, x) && items[t][j].kind.slot == slot;
    LabelWord(al, bufs, items, fin, t, j, x);
    assert |fin[t]| == |items[t]| + 1;
  }
}

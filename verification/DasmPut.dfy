/**
 Pass 1 of the DynASM encoder: dasm_put records actions and arguments, threads references to
 labels through the section buffers and estimates offsets.
 */
module DasmPut {
  import opened DasmActions
  import opened DasmLabels

  const SEC_BIAS := 0x100_0000
  const S_OK := 0
  const S_RANGE_I := 0x1100_0000
  const S_RANGE_SEC := 0x1200_0000
  const S_RANGE_LG := 0x1300_0000
  const S_RANGE_PC := 0x1400_0000

  /** Biased position: 8 bit section and 24 bit index. */
  function Pos(sec: int, idx: int): int { sec * SEC_BIAS + idx }
  function PosSec(pos: int): int { pos / SEC_BIAS }
  function PosIdx(pos: int): int { pos % SEC_BIAS }

  lemma {:induction false} PosParts(sec: int, idx: int)
    requires 0 <= sec && 0 <= idx < SEC_BIAS
    ensures PosSec(Pos(sec, idx)) == sec && PosIdx(Pos(sec, idx)) == idx
  {
  }

  type Bufs = seq<seq<int>>
  type Items = seq<seq<Item>>

  ghost predicate ValidPos(bufs: Bufs, pos: int) {
    pos > 0 && 0 <= PosSec(pos) < |bufs| && PosIdx(pos) < |bufs[PosSec(pos)]|
  }

  function Word(bufs: Bufs, pos: int): int
    requires ValidPos(bufs, pos)
  {
    bufs[PosSec(pos)][PosIdx(pos)]
  }

  function SetWord(bufs: Bufs, pos: int, v: int): Bufs
    requires ValidPos(bufs, pos)
  {
    bufs[PosSec(pos) := bufs[PosSec(pos)][PosIdx(pos) := v]]
  }

  /** The words of an item other than the reference word itself. */
  ghost predicate ItemWords(buf: seq<int>, it: Item) {
    && 0 <= it.w && it.w + Words(it.kind) <= |buf|
    && match it.kind
       case Start => buf[it.w] == it.p
       case Code(_) => true
       case Imm(_, n) => buf[it.w] == n
       case Space(n) => buf[it.w] == n
       case Rel(_, _) => buf[it.w + 1] == it.e + 4
       case ImmLabel(_, _) => true
       case Label(_) => buf[it.w] == it.e
       case Align(m) => buf[it.w] == it.e + m
  }

  ghost predicate SectionWords(al: seq<int>, buf: seq<int>, items: seq<Item>) {
    && Chained(al, items) && |buf| == EndWord(items)
    && (forall k {:trigger items[k]} :: 0 <= k < |items| ==> ItemWords(buf, items[k]))
  }

  ghost predicate IsRef(k: Kind) { k.Rel? || k.ImmLabel? }

  /** x is the position of item k of section s. */
  ghost predicate ItemAt(items: Items, s: int, k: int, x: int) {
    0 <= s < |items| && 0 <= k < |items[s]| && x == Pos(s, items[s][k].w)
  }

  ghost predicate RefItem(items: Items, x: int) {
    exists s, k :: ItemAt(items, s, k, x) && IsRef(items[s][k].kind)
  }

  ghost predicate HasEvent(k: Kind) { IsRef(k) || k.Label? }

  /** The event of a reference or label at a position. */
  ghost function EventOf(k: Kind, pos: int): Event
    requires HasEvent(k)
  {
    match k
    case Rel(slot, fwd) => Ref(pos, slot, fwd)
    case ImmLabel(slot, fwd) => Ref(pos, slot, fwd)
    case Label(slot) => Def(pos, slot)
  }

  ghost predicate EventItem(items: Items, ev: Event) {
    exists s, k :: ItemAt(items, s, k, ev.pos) && HasEvent(items[s][k].kind) && ev == EventOf(items[s][k].kind, ev.pos)
  }

  /** The events are exactly those of the reference and label items. */
  ghost predicate LogItems(log: Log, items: Items) {
    && (forall i {:trigger log[i]} :: 0 <= i < |log| ==> EventItem(items, log[i]))
    && (forall s, k {:trigger items[s][k]} :: 0 <= s < |items| && 0 <= k < |items[s]| && HasEvent(items[s][k].kind) ==>
          EventOf(items[s][k].kind, Pos(s, items[s][k].w)) in log)
  }

  /** The reference words in the buffers are the ones the history calls for. */
  ghost predicate RefsMatch(bufs: Bufs, log: Log) {
    forall x {:trigger x in RefWords(log)} :: x in RefWords(log) ==>
        ValidPos(bufs, x) && Word(bufs, x) == RefWords(log)[x]
  }

  ghost predicate SlotsMatch(log: Log, lg: seq<int>, pc: seq<int>) {
    && (forall i :: 0 <= i < |lg| ==> lg[i] == SlotValue(log, LG(i)))
    && (forall i :: 0 <= i < |pc| ==> pc[i] == SlotValue(log, PC(i)))
    && (forall i {:trigger log[i]} :: 0 <= i < |log| ==> SlotIn(log[i].slot, lg, pc))
  }

  predicate SlotIn(slot: Slot, lg: seq<int>, pc: seq<int>) {
    match slot
    case LG(i) => 0 <= i < |lg|
    case PC(i) => 0 <= i < |pc|
  }

  ghost predicate Sections(al: seq<int>, bufs: Bufs, items: Items) {
    && |bufs| == |items| <= 128
    && (forall s {:trigger bufs[s]} {:trigger items[s]} :: 0 <= s < |bufs| ==>
        |bufs[s]| <= SEC_BIAS && SectionWords(al, bufs[s], items[s]))
  }

  // ---------------------------------------------------------------- appending an item

  /** The words recorded for a new item; the first word of a reference is its link. */
  ghost predicate NewWords(it: Item, ws: seq<int>)
    requires |ws| == Words(it.kind)
  {
    match it.kind
    case Start => ws[0] == it.p
    case Code(_) => true
    case Imm(_, n) => ws[0] == n
    case Space(n) => ws[0] == n
    case Rel(_, _) => ws[1] == it.e + 4
    case ImmLabel(_, _) => true
    case Label(_) => ws[0] == it.e
    case Align(m) => ws[0] == it.e + m
  }

  /** it is the next item of a section, with words ws. */
  ghost predicate NextItem(al: seq<int>, items: seq<Item>, it: Item, ws: seq<int>) {
    && Records(al, it) && |ws| == Words(it.kind)
    && it.w == EndWord(items) && it.e == EndOfs(items)
    && (if items == [] then it.kind.Start? && it.op == 0 && it.run == 0 else Follows(al, items[|items| - 1], it))
    && NewWords(it, ws)
  }

  lemma {:induction false} AppendChained(al: seq<int>, items: seq<Item>, it: Item, ws: seq<int>)
    requires Chained(al, items) && NextItem(al, items, it, ws)
    ensures Chained(al, items + [it])
  {
    var items' := items + [it];
    forall k | 0 <= k < |items'| - 1 ensures FollowsAt(al, items', k) {
      if k < |items| - 1 { assert FollowsAt(al, items, k); }
    }
  }

  lemma {:induction false} EndNonNegative(al: seq<int>, items: seq<Item>)
    requires Chained(al, items)
    ensures EndWord(items) >= 0 && EndOfs(items) >= 0
  {
    if items != [] {
      ChainedMonotone(al, items, 0, |items| - 1);
      LenNonNegative(al, items[|items| - 1]);
    }
  }

  lemma {:induction false} AppendWords(al: seq<int>, buf: seq<int>, items: seq<Item>, it: Item, ws: seq<int>)
    requires SectionWords(al, buf, items) && NextItem(al, items, it, ws)
    ensures SectionWords(al, buf + ws, items + [it])
    ensures EndOfs(items + [it]) == it.e + MaxLen(it.kind) && EndWord(items + [it]) == |buf| + |ws|
  {
    AppendChained(al, items, it, ws);
    EndNonNegative(al, items);
    var items' := items + [it];
    forall k {:trigger items'[k]} | 0 <= k < |items'| ensures ItemWords(buf + ws, items'[k]) {
      if k < |items| { assert ItemWords(buf, items[k]); }
    }
  }

  lemma {:induction false} AppendSections(al: seq<int>, bufs: Bufs, items: Items, sec: int, it: Item, ws: seq<int>)
    requires Sections(al, bufs, items) && 0 <= sec < |bufs| && NextItem(al, items[sec], it, ws)
    requires |bufs[sec]| + |ws| <= SEC_BIAS
    ensures Sections(al, bufs[sec := bufs[sec] + ws], items[sec := items[sec] + [it]])
  {
    AppendWords(al, bufs[sec], items[sec], it, ws);
  }

  /** Longer buffers and item lists keep positions and words. */
  lemma {:induction false} AppendKeeps(bufs: Bufs, items: Items, sec: int, it: Item, ws: seq<int>, log: Log)
    requires |bufs| == |items| && 0 <= sec < |bufs|
    ensures var bufs', items' := bufs[sec := bufs[sec] + ws], items[sec := items[sec] + [it]];
      && (RefsMatch(bufs, log) ==> RefsMatch(bufs', log))
      && (forall ev {:trigger EventItem(items', ev)} :: EventItem(items, ev) ==> EventItem(items', ev))
      && (LogItems(log, items) && !HasEvent(it.kind) ==> LogItems(log, items'))
  {
    var bufs', items' := bufs[sec := bufs[sec] + ws], items[sec := items[sec] + [it]];
    forall ev | EventItem(items, ev) ensures EventItem(items', ev) {
      var s, k :| ItemAt(items, s, k, ev.pos) && HasEvent(items[s][k].kind) && ev == EventOf(items[s][k].kind, ev.pos);
      assert ItemAt(items', s, k, ev.pos) && items'[s][k] == items[s][k];
    }
    if LogItems(log, items) && !HasEvent(it.kind) {
      forall s, k {:trigger items'[s][k]} | 0 <= s < |items'| && 0 <= k < |items'[s]| && HasEvent(items'[s][k].kind)
        ensures EventOf(items'[s][k].kind, Pos(s, items'[s][k].w)) in log {
        assert items'[s][k] == items[s][k];
      }
    }
    if RefsMatch(bufs, log) {
      forall x | x in RefWords(log) ensures ValidPos(bufs', x) && Word(bufs', x) == RefWords(log)[x] {
        assert ValidPos(bufs, x);
      }
    }
  }

  /** The position about to be written is new to the history. */
  lemma {:induction false} NewPosition(al: seq<int>, bufs: Bufs, items: Items, log: Log, sec: int)
    requires Sections(al, bufs, items) && LogItems(log, items) && LogOk(log) && 0 <= sec < |bufs|
    requires 0 < |bufs[sec]| < SEC_BIAS
    ensures forall i :: 0 <= i < |log| ==> log[i].pos != Pos(sec, |bufs[sec]|)
    ensures Pos(sec, |bufs[sec]|) > 0
  {
    forall i | 0 <= i < |log| ensures log[i].pos != Pos(sec, |bufs[sec]|) {
      assert EventItem(items, log[i]);
      var s, k :| ItemAt(items, s, k, log[i].pos) && HasEvent(items[s][k].kind)
          && log[i] == EventOf(items[s][k].kind, log[i].pos);
      assert SectionWords(al, bufs[s], items[s]);
      assert ItemWords(bufs[s], items[s][k]);
      PosParts(s, items[s][k].w);
      PosParts(sec, |bufs[sec]|);
    }
  }

  // ---------------------------------------------------------------- events

  /** Writing a reference word disturbs no other word of any item. */
  lemma {:induction false} SetRefWord(al: seq<int>, bufs: Bufs, items: Items, x: int, v: int)
    requires Sections(al, bufs, items) && RefItem(items, x) && ValidPos(bufs, x)
    ensures Sections(al, SetWord(bufs, x, v), items)
  {
    var s, k :| ItemAt(items, s, k, x) && IsRef(items[s][k].kind);
    assert SectionWords(al, bufs[s], items[s]);
    assert ItemWords(bufs[s], items[s][k]);
    PosParts(s, items[s][k].w);
    var buf' := bufs[s][items[s][k].w := v];
    assert SectionWords(al, buf', items[s]) by {
      forall j {:trigger items[s][j]} | 0 <= j < |items[s]| ensures ItemWords(buf', items[s][j]) {
        assert ItemWords(bufs[s], items[s][j]);
        if j < k { ChainedMonotone(al, items[s], j, k); }
        if k < j { ChainedMonotone(al, items[s], k, j); }
      }
    }
  }

  lemma {:induction false} LogItemsMore(items: Items, log: Log, items0: Items, sec: int, ev: Event)
    requires LogItems(log, items0) && |items0| == |items| && 0 <= sec < |items| && items[sec] != []
    requires items == items0[sec := items0[sec] + [items[sec][|items[sec]| - 1]]]
    requires var it := items[sec][|items[sec]| - 1];
      ev.pos == Pos(sec, it.w) && HasEvent(it.kind) && ev == EventOf(it.kind, ev.pos)
    requires forall e {:trigger EventItem(items, e)} :: EventItem(items0, e) ==> EventItem(items, e)
    ensures LogItems(log + [ev], items)
  {
    assert ItemAt(items, sec, |items[sec]| - 1, ev.pos);
    assert EventItem(items, ev);
    hide EventItem;
    forall s, k {:trigger items[s][k]} | 0 <= s < |items| && 0 <= k < |items[s]| && HasEvent(items[s][k].kind)
      ensures EventOf(items[s][k].kind, Pos(s, items[s][k].w)) in log + [ev] {
      if s != sec || k < |items[s]| - 1 { assert items[s][k] == items0[s][k]; }
    }
  }

  lemma {:induction false} NewRef(bufs: Bufs, items: Items, log: Log, items0: Items, sec: int, idx: int, ev: Event)
    requires |bufs| == |items| && ev.Ref? && ev.pos == Pos(sec, idx) && 0 <= sec < |items| && items[sec] != []
    requires LogOk(log) && LogItems(log, items0) && |items0| == |items| && ev.pos > 0
    requires items == items0[sec := items0[sec] + [items[sec][|items[sec]| - 1]]]
    requires var it := items[sec][|items[sec]| - 1]; it.w == idx && HasEvent(it.kind) && ev == EventOf(it.kind, ev.pos)
    requires forall i :: 0 <= i < |log| ==> log[i].pos != ev.pos
    requires RefsMatch(bufs, log) && ValidPos(bufs, ev.pos) && Word(bufs, ev.pos) == RefWords(log + [ev])[ev.pos]
    ensures LogOk(log + [ev]) && LogItems(log + [ev], items) && RefsMatch(bufs, log + [ev])
  {
    var log' := log + [ev];
    assert log'[..|log|] == log;
    AppendKeeps(bufs, items0, sec, items[sec][|items[sec]| - 1], [], log);
    LogItemsMore(items, log, items0, sec, ev);
  }

  /** The pending references of a slot have been given a position, all other reference words are kept. */
  ghost predicate Answered(bufs: Bufs, bufs': Bufs, log: Log, slot: Slot, pos: int) {
    forall x {:trigger ValidPos(bufs', x)} :: x in RefWords(log) ==>
      && ValidPos(bufs, x) && ValidPos(bufs', x)
      && Word(bufs', x) == if x in Pend(log, slot) then pos else Word(bufs, x)
  }

  lemma {:induction false} NewDef(bufs: Bufs, bufs': Bufs, items: Items, log: Log, items0: Items, sec: int, idx: int,
      ev: Event)
    requires |bufs| == |bufs'| == |items| && ev.Def? && ev.pos == Pos(sec, idx) && 0 <= sec < |items|
    requires items[sec] != []
    requires LogOk(log) && LogItems(log, items0) && |items0| == |items| && ev.pos > 0
    requires items == items0[sec := items0[sec] + [items[sec][|items[sec]| - 1]]]
    requires var it := items[sec][|items[sec]| - 1]; it.w == idx && HasEvent(it.kind) && ev == EventOf(it.kind, ev.pos)
    requires forall i :: 0 <= i < |log| ==> log[i].pos != ev.pos
    requires RefsMatch(bufs, log) && Answered(bufs, bufs', log, ev.slot, ev.pos)
    ensures LogOk(log + [ev]) && LogItems(log + [ev], items) && RefsMatch(bufs', log + [ev])
  {
    var log' := log + [ev];
    assert log'[..|log|] == log;
    AppendKeeps(bufs, items0, sec, items[sec][|items[sec]| - 1], [], log);
    LogItemsMore(items, log, items0, sec, ev);
    forall x | x in RefWords(log') ensures ValidPos(bufs', x) && Word(bufs', x) == RefWords(log')[x] {
      assert x in RefWords(log) && ValidPos(bufs', x);
    }
  }

  /** How the label arrays follow a new event. */
  lemma {:induction false} SlotsAfter(log: Log, lg: seq<int>, pc: seq<int>, ev: Event)
    requires SlotsMatch(log, lg, pc) && SlotIn(ev.slot, lg, pc)
    ensures var v := SlotValue(log + [ev], ev.slot);
      match ev.slot
      case LG(i) => SlotsMatch(log + [ev], lg[i := v], pc)
      case PC(i) => SlotsMatch(log + [ev], lg, pc[i := v])
  {
    var log' := log + [ev];
    assert log'[..|log|] == log;
    forall sl: Slot | sl != ev.slot ensures SlotValue(log', sl) == SlotValue(log, sl) {}
    hide SlotValue;
  }

  // ---------------------------------------------------------------- what a call of dasm_put means

  /** A point in a dasm_put: action, opcode state, arguments left, next buffer index and history. */
  datatype Cursor = Cursor(p: int, op: int, run: int, args: seq<int>, w: int, log: Log)

  ghost predicate Ready(al: seq<int>, c: Cursor) {
    WellFormed(al, c.p, c.op, c.run) && ArgsOk(al, c.p, c.op, c.run, c.args)
  }

  ghost function Arg(al: seq<int>, c: Cursor): int
    requires Ready(al, c) && !IsEnd(al[c.p])
  {
    if TakesArg(al[c.p]) then c.args[0] else 0
  }

  ghost function KindHere(al: seq<int>, c: Cursor): Kind
    requires Ready(al, c) && !IsEnd(al[c.p])
  {
    KindOf(al, c.p, Arg(al, c))
  }

  ghost function LogHere(log: Log, kind: Kind, pos: int): Log {
    if HasEvent(kind) then log + [EventOf(kind, pos)] else log
  }

  ghost function Advance(al: seq<int>, sec: int, c: Cursor): (c': Cursor)
    requires Ready(al, c) && !IsEnd(al[c.p])
    ensures Ready(al, c') && c.p < c'.p < |al|
  {
    Cursor(c.p + Width(al[c.p]), NextOp(al[c.p], if c.p + 1 < |al| then al[c.p + 1] else 0, c.op),
        NextRun(al[c.p], c.run),
           if TakesArg(al[c.p]) then c.args[1..] else c.args, c.w + Words(KindHere(al, c)),
           LogHere(c.log, KindHere(al, c), Pos(sec, c.w)))
  }

  ghost function KindsFrom(al: seq<int>, sec: int, c: Cursor): seq<Kind>
    requires Ready(al, c)
    decreases |al| - c.p
  {
    if IsEnd(al[c.p]) then [] else [KindHere(al, c)] + KindsFrom(al, sec, Advance(al, sec, c))
  }

  ghost function LogFrom(al: seq<int>, sec: int, c: Cursor): Log
    requires Ready(al, c)
    decreases |al| - c.p
  {
    if IsEnd(al[c.p]) then c.log else LogFrom(al, sec, Advance(al, sec, c))
  }

  /** Status of one action's checks: ranges of immediates and labels, and a backward local label must exist. */
  ghost function Check(al: seq<int>, p: int, arg: int, log: Log, lgsize: int, pcsize: int): int
    requires 0 <= p < |al| && p + Width(al[p]) <= |al|
  {
    var a := al[p];
    if IsImm(a) then (if ImmOk(a, arg) then S_OK else S_RANGE_I + p)
    else if a == REL_LG || a == IMM_LG then
      (var n := al[p + 1];
       if n > 246 || (n < lgsize && (n >= 10 || Cur(log, LG(n)).Defined?)) then S_OK else S_RANGE_LG + p + 1)
    else if a == LABEL_LG then (if al[p + 1] < lgsize then S_OK else S_RANGE_LG + p + 1)
    else if a == REL_PC || a == IMM_PC || a == LABEL_PC then (if 0 <= arg < pcsize then S_OK else S_RANGE_PC + p)
    else S_OK
  }

  /** The status a call ends with: that of its first failing check. */
  ghost function Outcome(al: seq<int>, sec: int, c: Cursor, lgsize: int, pcsize: int, maxsec: int): int
    requires Ready(al, c)
    decreases |al| - c.p
  {
    if IsEnd(al[c.p]) then (if al[c.p] == SECTION && al[c.p + 1] >= maxsec then S_RANGE_SEC + c.p else S_OK) else
    var st := Check(al, c.p, Arg(al, c), c.log, lgsize, pcsize);
    if st != S_OK then st else Outcome(al, sec, Advance(al, sec, c), lgsize, pcsize, maxsec)
  }

  /** The section that is active afterwards. */
  ghost function SectionFrom(al: seq<int>, sec: int, c: Cursor): int
    requires Ready(al, c)
    decreases |al| - c.p
  {
    if IsEnd(al[c.p]) then (if al[c.p] == SECTION then al[c.p + 1] else sec)
        else SectionFrom(al, sec, Advance(al, sec, c))
  }

  /** The next item of a section whose last item left the action pointer at p. */
  lemma {:induction false} NextRecord(al: seq<int>, items: seq<Item>, p: int, op: int, run: int, arg: int, ws: seq<int>)
    requires items != [] && WellFormed(al, p, op, run) && !IsEnd(al[p])
    requires var last := items[|items| - 1];
      0 <= last.p < |al| && AfterP(al, last) == p && AfterOp(last) == op && AfterRun(last) == run
    requires al[p] == SPACE ==> arg >= 0
    requires IsImm(al[p]) ==> ImmOk(al[p], arg)
    requires var it := Item(KindOf(al, p, arg), EndWord(items), EndOfs(items), p, op, run);
      |ws| == Words(it.kind) && NewWords(it, ws)
    ensures var it := Item(KindOf(al, p, arg), EndWord(items), EndOfs(items), p, op, run);
      NextItem(al, items, it, ws) && AfterP(al, it) == p + Width(al[p])
      && AfterOp(it) == NextOp(al[p], if p + 1 < |al| then al[p + 1] else 0, op) && AfterRun(it) == NextRun(al[p], run)
  {
  }

  lemma {:induction false} WellFormedHere(al: seq<int>, p: int, op: int, run: int)
    requires WellFormed(al, p, op, run)
    ensures 0 <= p < |al| && 0 <= al[p] < 256 && Supported(al[p]) && p + Width(al[p]) <= |al|
    ensures Width(al[p]) == 2 ==> 0 <= al[p + 1] < 256
  {
  }

  // ---------------------------------------------------------------- the encoder state

  class Dasm {
    const actionlist: seq<int>
    var bufs: Bufs
    /** Pass 1 estimate of each section's size. */
    var ofs: seq<int>
    /** Active section. */
    var section: int
    var lglabels: seq<int>
    var pclabels: seq<int>
    var status: int
    var codesize: int
    ghost var items: Items
    ghost var log: Log
    /** Final offsets of the items, settled by pass 2. */
    ghost var fin: seq<seq<int>>

    /** Everything pass 1 maintains, with section sec possibly in the middle of a dasm_put. */
    ghost predicate Body()
      reads this
    {
      && |bufs| == |items| == |ofs| && Sections(actionlist, bufs, items)
      && LogOk(log) && LogItems(log, items) && RefsMatch(bufs, log) && SlotsMatch(log, lglabels, pclabels)
    }

    /** Section s is at rest and its recorded size is the estimate. */
    ghost predicate Rests(s: int)
      reads this
      requires |ofs| == |items| && 0 <= s < |items|
    {
      AtRest(actionlist, items[s]) && ofs[s] == EndOfs(items[s])
    }

    /** The state between calls, as long as no check has failed. */
    ghost predicate Valid()
      reads this
    {
      status == S_OK ==>
        && Body() && 0 <= section < |bufs|
        && (forall s {:trigger Rests(s)} :: 0 <= s < |items| ==> Rests(s))
    }

    /** dasm_init and dasm_setup: empty sections, unused labels. */
    constructor (al: seq<int>, maxsection: nat, lgsize: nat, pcsize: nat)
      requires 0 < maxsection <= 128
      ensures Valid() && status == S_OK && actionlist == al && log == [] && items == seq(maxsection, i => [])
    {
      actionlist := al;
      bufs := seq(maxsection, i => []);
      ofs := seq(maxsection, i => 0);
      section, status, codesize := 0, S_OK, 0;
      lglabels := seq(lgsize, i => 0);
      pclabels := seq(pcsize, i => 0);
      items := seq(maxsection, i => []);
      log, fin := [], [];
    }

    function LabelValue(slot: Slot): int
      reads this
      requires SlotIn(slot, lglabels, pclabels)
    {
      match slot case LG(i) => lglabels[i] case PC(i) => pclabels[i]
    }

    method SetLabel(slot: Slot, v: int)
      requires SlotIn(slot, lglabels, pclabels)
      modifies this`lglabels, this`pclabels
      ensures lglabels == if slot.LG? then old(lglabels)[slot.lg := v] else old(lglabels)
      ensures pclabels == if slot.PC? then old(pclabels)[slot.pc := v] else old(pclabels)
    {
      match slot
      case LG(i) => lglabels := lglabels[i := v];
      case PC(i) => pclabels := pclabels[i := v];
    }

    /** Record an item that is neither a reference nor a label. */
    method Record(sec: int, ws: seq<int>, ghost it: Item)
      requires Body() && 0 <= sec < |bufs| && NextItem(actionlist, items[sec], it, ws)
      requires !IsRef(it.kind) && !it.kind.Label? && |bufs[sec]| + |ws| <= SEC_BIAS
      modifies this`bufs, this`items
      ensures Body() && items == old(items)[sec := old(items)[sec] + [it]]
      ensures bufs == old(bufs)[sec := old(bufs)[sec] + ws]
    {
      hide Sections, LogItems, RefsMatch, SlotsMatch, LogOk, NextItem;
      AppendSections(actionlist, bufs, items, sec, it, ws);
      AppendKeeps(bufs, items, sec, it, ws, log);
      bufs := bufs[sec := bufs[sec] + ws];
      items := items[sec := items[sec] + [it]];
    }

    /**
     A reference to a label: a known label's position, or a new head of the label's chain. A
     forward local reference starts a new chain even if the label exists.
     */
    method PutRef(sec: int, slot: Slot, fwd: bool, rest: seq<int>, ghost it: Item)
      requires Body() && 0 <= sec < |bufs| && SlotIn(slot, lglabels, pclabels)
      requires IsRef(it.kind) && it.kind.slot == slot && it.kind.fwd == fwd
      requires NextItem(actionlist, items[sec], it, [0] + rest) && 0 < |bufs[sec]|
      requires |bufs[sec]| + 1 + |rest| <= SEC_BIAS
      modifies this`bufs, this`items, this`log, this`lglabels, this`pclabels
      ensures Body() && items == old(items)[sec := old(items)[sec] + [it]]
      ensures log == old(log) + [Ref(Pos(sec, |old(bufs)[sec]|), slot, fwd)]
      ensures |bufs| == |old(bufs)| && |bufs[sec]| == |old(bufs)[sec]| + 1 + |rest|
      ensures |lglabels| == |old(lglabels)| && |pclabels| == |old(pclabels)|
    {
      hide Sections, LogItems, RefsMatch, SlotsMatch, LogOk, NextItem;
      var pos := Pos(sec, |bufs[sec]|);
      var n := LabelValue(slot);
      if fwd && n < 0 { n := 0; }
      var ws := [if n < 0 then -n else n] + rest;
      RefBody(actionlist, bufs, items, log, lglabels, pclabels, sec, it, rest, slot, fwd, LabelValue(slot), ws[0]);
      bufs := bufs[sec := bufs[sec] + ws];
      items := items[sec := items[sec] + [it]];
      log := log + [Ref(pos, slot, fwd)];
      SetLabel(slot, if n < 0 then n else pos);
    }

    /**
     A label definition: the chain of waiting references is collapsed to the label's position, then
     the label exists.
     */
    method PutLabel(sec: int, slot: Slot, here: int, ghost it: Item)
      requires Body() && 0 <= sec < |bufs| && SlotIn(slot, lglabels, pclabels)
      requires it.kind == Label(slot) && NextItem(actionlist, items[sec], it, [here]) && 0 < |bufs[sec]| < SEC_BIAS
      modifies this`bufs, this`items, this`log, this`lglabels, this`pclabels
      ensures Body() && items == old(items)[sec := old(items)[sec] + [it]]
      ensures log == old(log) + [Def(Pos(sec, |old(bufs)[sec]|), slot)]
      ensures |bufs| == |old(bufs)| && |bufs[sec]| == |old(bufs)[sec]| + 1
      ensures |lglabels| == |old(lglabels)| && |pclabels| == |old(pclabels)|
    {
      hide Sections, LogItems, RefsMatch, SlotsMatch, LogOk, NextItem, Collapsed, ChainIntact, RefItem, ValidPos, Word,
          SetWord;
      var pos := Pos(sec, |bufs[sec]|);
      var n := LabelValue(slot);
      ghost var bufs0, ch, j := bufs, Pend(log, slot), 0;
      ChainStart(log, lglabels, pclabels, slot, n);
      CollapsedNone(bufs, log, slot, pos);
      while n > 0
        invariant n > 0 ==> 0 <= j < |ch| && n == ch[j]
        invariant n <= 0 ==> j == |ch|
        invariant items == old(items) && log == old(log) && lglabels == old(lglabels) && pclabels == old(pclabels)
        invariant |bufs| == |bufs0| && (forall s :: 0 <= s < |bufs| ==> |bufs[s]| == |bufs0[s]|)
        invariant Sections(actionlist, bufs, items) && Collapsed(bufs0, bufs, log, slot, j, pos)
        decreases |ch| - j
      {
        CollapseStep(actionlist, bufs0, bufs, items, log, slot, j, pos);
        var next := Word(bufs, n);
        bufs := SetWord(bufs, n, pos);
        n, j := next, j + 1;
      }
      DefBody(actionlist, bufs0, bufs, items, log, lglabels, pclabels, sec, it, slot, here);
      bufs := bufs[sec := bufs[sec] + [here]];
      items := items[sec := items[sec] + [it]];
      log := log + [Def(pos, slot)];
      SetLabel(slot, -pos);
    }

    /** The section's last item left the action pointer at p, with this opcode state and offset. */
    ghost predicate Stands(sec: int, p: int, op: int, run: int, here: int)
      reads this
      requires 0 <= sec < |items|
    {
      && items[sec] != [] && here == EndOfs(items[sec])
      && var last := items[sec][|items[sec]| - 1];
      0 <= last.p < |actionlist| && AfterP(actionlist, last) == p && AfterOp(last) == op && AfterRun(last) == run
    }

    /** An action can be taken here: its item would be next and there is room for its words. */
    ghost predicate CanStep(sec: int, p: int, here: int, arg: int, op: int, run: int)
      reads this
    {
      && Body() && 0 <= sec < |bufs| && status == S_OK && |lglabels| >= 10
      && WellFormed(actionlist, p, op, run) && !IsEnd(actionlist[p]) && (actionlist[p] == SPACE ==> arg >= 0)
      && Stands(sec, p, op, run, here) && |bufs[sec]| + Words(KindOf(actionlist, p, arg)) <= SEC_BIAS
    }

    /** The action at p failed its check, or was recorded with its item and event. */
    twostate predicate Stepped(sec: int, p: int, here: int, arg: int, op: int, run: int, p': int, here': int)
      reads this
      requires old(CanStep(sec, p, here, arg, op, run))
    {
      && status == Check(actionlist, p, arg, old(log), |lglabels|, |pclabels|)
      && |lglabels| == |old(lglabels)| && |pclabels| == |old(pclabels)|
      && (status == S_OK ==>
            && Body() && |bufs| == |old(bufs)| && |items| == |old(items)|
            && var it := Item(KindOf(actionlist, p, arg), |old(bufs)[sec]|, here, p, op, run);
            && items == old(items)[sec := old(items)[sec] + [it]]
            && |bufs[sec]| == |old(bufs)[sec]| + Words(it.kind)
            && log == LogHere(old(log), it.kind, Pos(sec, |old(bufs)[sec]|))
            && p' == p + Width(actionlist[p]) && here' == here + MaxLen(it.kind)
            && Stands(sec, p', NextOp(actionlist[p], if p + 1 < |actionlist| then actionlist[p + 1] else 0, op),
                NextRun(actionlist[p], run), here'))
    }

    /** One action of dasm_put other than SECTION and STOP. */
    method Step(sec: int, p: int, here: int, arg: int, ghost op: int, ghost run: int) returns (p': int, here': int)
      requires CanStep(sec, p, here, arg, op, run)
      modifies this`bufs, this`items, this`log, this`lglabels, this`pclabels, this`status
      ensures Stepped(sec, p, here, arg, op, run, p', here')
    {
      var action := actionlist[p];
      if action == LABEL_LG || action == LABEL_PC {
        p', here' := StepLabel(sec, p, here, arg, op, run);
      } else if REL_LG <= action <= IMM_PC {
        p', here' := StepRef(sec, p, here, arg, op, run);
      } else {
        p', here' := StepPlain(sec, p, here, arg, op, run);
      }
    }

    method StepPlain(sec: int, p: int, here: int, arg: int, ghost op: int, ghost run: int) returns (p': int, here': int)
      requires CanStep(sec, p, here, arg, op, run) && !HasEvent(KindOf(actionlist, p, arg))
      modifies this`bufs, this`items, this`log, this`lglabels, this`pclabels, this`status
      ensures Stepped(sec, p, here, arg, op, run, p', here')
    {
      hide Sections, LogItems, RefsMatch, SlotsMatch, LogOk, NextItem, Cur, WellFormed, Records, Follows;
      WellFormedHere(actionlist, p, op, run);
      SectionEnd(actionlist, bufs, items, sec);
      var action := actionlist[p];
      ghost var it := Item(KindOf(actionlist, p, arg), |bufs[sec]|, here, p, op, run);
      var ws: seq<int> := [];
      p', here' := p + 1, here;
      if action < DISP {
        here' := here + 1;
      } else if action <= SPACE {
        if action != SPACE && !ImmOk(action, arg) { status := S_RANGE_I + p; return; }
        ws := [arg];
        if action == SPACE { p', here' := p + 2, here + arg; } else { here' := here + ImmLen(action, arg); }
      } else if action == ESC {
        p', here' := p + 2, here + 1;
      } else {
        here' := here + actionlist[p + 1];
        ws := [here'];
        p' := p + 2;
      }
      NextRecord(actionlist, items[sec], p, op, run, arg, ws);
      Record(sec, ws, it);
    }

    method StepLabel(sec: int, p: int, here: int, arg: int, ghost op: int, ghost run: int) returns (p': int, here': int)
      requires CanStep(sec, p, here, arg, op, run) && KindOf(actionlist, p, arg).Label?
      modifies this`bufs, this`items, this`log, this`lglabels, this`pclabels, this`status
      ensures Stepped(sec, p, here, arg, op, run, p', here')
    {
      hide Sections, LogItems, RefsMatch, SlotsMatch, LogOk, NextItem, Cur, WellFormed, Records, Follows;
      WellFormedHere(actionlist, p, op, run);
      SectionEnd(actionlist, bufs, items, sec);
      p', here' := p + Width(actionlist[p]), here;
      var slot;
      if actionlist[p] == LABEL_LG {
        slot := LG(actionlist[p + 1]);
        if slot.lg >= |lglabels| { status := S_RANGE_LG + p + 1; return; }
      } else {
        slot := PC(arg);
        if !(0 <= arg < |pclabels|) { status := S_RANGE_PC + p; return; }
      }
      NextRecord(actionlist, items[sec], p, op, run, arg, [here]);
      PutLabel(sec, slot, here, Item(Label(slot), |bufs[sec]|, here, p, op, run));
    }

    method StepRef(sec: int, p: int, here: int, arg: int, ghost op: int, ghost run: int) returns (p': int, here': int)
      requires CanStep(sec, p, here, arg, op, run) && IsRef(KindOf(actionlist, p, arg))
      modifies this`bufs, this`items, this`log, this`lglabels, this`pclabels, this`status
      ensures Stepped(sec, p, here, arg, op, run, p', here')
    {
      hide Sections, LogItems, RefsMatch, SlotsMatch, LogOk, NextItem, Cur, WellFormed, Records, Follows;
      WellFormedHere(actionlist, p, op, run);
      SectionEnd(actionlist, bufs, items, sec);
      var action := actionlist[p];
      p', here' := p + Width(action), here + 4;
      var rest := if action == REL_LG || action == REL_PC then [here'] else [];
      var slot, fwd := PC(arg), false;
      if action == REL_LG || action == IMM_LG {
        var n := actionlist[p + 1];
        slot, fwd := LgSlot(n), n > 246;
        if n <= 246 {
          DefinedNegative(log, lglabels, pclabels, n);
          if n < 10 && lglabels[n] >= 0 { status := S_RANGE_LG + p + 1; return; }
          if n >= |lglabels| { status := S_RANGE_LG + p + 1; return; }
        }
      } else if !(0 <= arg < |pclabels|) {
        status := S_RANGE_PC + p;
        return;
      }
      NextRecord(actionlist, items[sec], p, op, run, arg, [0] + rest);
      PutRef(sec, slot, fwd, rest, Item(KindOf(actionlist, p, arg), |bufs[sec]|, here, p, op, run));
    }

    /** The call stands at cursor c with estimate here, and the buffer has room for the rest. */
    ghost predicate At(sec: int, c: Cursor, here: int)
      reads this
    {
      && status == S_OK && Body() && 0 <= sec < |bufs| && |lglabels| >= 10
      && Ready(actionlist, c) && Stands(sec, c.p, c.op, c.run, here)
      && c.w == |bufs[sec]| && c.log == log && c.w + WordsFrom(actionlist, c.p, c.op, c.run) <= SEC_BIAS
    }

    /** One action, with its argument. */
    method Act(sec: int, p: int, here: int, arg: int, ghost c: Cursor) returns (p': int, here': int)
      requires At(sec, c, here) && c.p == p && !IsEnd(actionlist[p]) && arg == Arg(actionlist, c)
      modifies this`bufs, this`items, this`log, this`lglabels, this`pclabels, this`status
      ensures status == Check(actionlist, p, arg, old(log), |lglabels|, |pclabels|)
      ensures |lglabels| == |old(lglabels)| && |pclabels| == |old(pclabels)|
      ensures status == S_OK ==>
        && At(sec, Advance(actionlist, sec, c), here') && p' == Advance(actionlist, sec, c).p
        && |items| == |old(items)| && items[sec] != [] && items[sec][|items[sec]| - 1].kind == KindHere(actionlist, c)
        && items == old(items)[sec := old(items)[sec] + [items[sec][|items[sec]| - 1]]]
    {
      hide Sections, LogItems, RefsMatch, SlotsMatch, LogOk, WordsFrom, WellFormed, ArgsOk, Check, MaxLen, Outcome,
          LogFrom, SectionFrom, KindsFrom;
      WellFormedHere(actionlist, c.p, c.op, c.run);
      Unfold(actionlist, sec, c, |lglabels|, |pclabels|, |bufs|);
      p', here' := Step(sec, p, here, arg, c.op, c.run);
    }

    lemma {:induction false} AtFacts(sec: int, c: Cursor, here: int)
      requires At(sec, c, here)
      ensures 0 <= sec < |items| && 0 <= c.p < |actionlist| && c.p + Width(actionlist[c.p]) <= |actionlist|
    {
      WellFormedHere(actionlist, c.p, c.op, c.run);
    }

    /** All actions up to SECTION or STOP; m is the number of sections. */
    method Run(sec: int, start: int, here0: int, args: seq<int>, ghost c0: Cursor, ghost m: int)
        returns (p: int, here: int)
      requires At(sec, c0, here0) && c0.p == start && c0.args == args
      modifies this`bufs, this`items, this`log, this`lglabels, this`pclabels, this`status
      ensures |lglabels| == |old(lglabels)| && |pclabels| == |old(pclabels)|
      ensures status != S_OK ==> status == Outcome(actionlist, sec, c0, |lglabels|, |pclabels|, m)
      ensures status == S_OK ==>
        && Body() && 0 <= p < |actionlist| && IsEnd(actionlist[p])
            && (actionlist[p] == SECTION ==> p + 1 < |actionlist| && actionlist[p + 1] >= 0)
        && log == LogFrom(actionlist, sec, c0) && |items| == |old(items)| && 0 <= sec < |items|
        && here == EndOfs(items[sec]) && AtRest(actionlist, items[sec])
        && SectionFrom(actionlist, sec, c0) == (if actionlist[p] == SECTION then actionlist[p + 1] else sec)
        && Outcome(actionlist, sec, c0, |lglabels|, |pclabels|, m)
           == (if actionlist[p] == SECTION && actionlist[p + 1] >= m then S_RANGE_SEC + p else S_OK)
        && (forall s :: 0 <= s < |items| && s != sec ==> items[s] == old(items)[s])
        && Grown(old(items)[sec], items[sec], KindsFrom(actionlist, sec, c0))
    {
      hide Body, Ready, Stands, Grown, WordsFrom, Outcome, LogFrom, SectionFrom, KindsFrom, Advance, Check, KindHere;
      ghost var c, n, ks := c0, 0, KindsFrom(actionlist, sec, c0);
      ghost var lgsize, pcsize := |lglabels|, |pclabels|;
      var i := 0;
      p, here := start, here0;
      AtFacts(sec, c, here);
      GrownNone(items[sec], ks);
      assert args[0..] == args;
      while !IsEnd(actionlist[p])
        invariant |lglabels| == lgsize && |pclabels| == pcsize
        invariant At(sec, c, here) && p == c.p && 0 <= i <= |args| && c.args == args[i..] && 0 <= p < |actionlist|
        invariant Outcome(actionlist, sec, c0, lgsize, pcsize, m) == Outcome(actionlist, sec, c, lgsize, pcsize, m)
        invariant LogFrom(actionlist, sec, c0) == LogFrom(actionlist, sec, c)
        invariant SectionFrom(actionlist, sec, c0) == SectionFrom(actionlist, sec, c)
        invariant |items| == |old(items)| && 0 <= sec < |items|
        invariant (forall s :: 0 <= s < |items| && s != sec ==> items[s] == old(items)[s])
        invariant 0 <= n <= |ks| && ks[n..] == KindsFrom(actionlist, sec, c)
        invariant Grown(old(items)[sec], items[sec], ks[..n])
        decreases |actionlist| - p
      {
        Unfold(actionlist, sec, c, lgsize, pcsize, m);
        ghost var c' := Advance(actionlist, sec, c);
        var arg := 0;
        if TakesArg(actionlist[p]) {
          assert args[i..][1..] == args[i + 1..];
          arg, i := args[i], i + 1;
        }
        p, here := Act(sec, p, here, arg, c);
        if status != S_OK { return; }
        AtFacts(sec, c', here);
        GrownMore(old(items)[sec], items[sec], ks, n);
        c, n := c', n + 1;
      }
      EndFacts(actionlist, sec, c, lgsize, pcsize, m);
      StandsRests(sec, c.p, c.op, c.run, here);
      assert ks[..n] == ks;
    }

    lemma {:induction false} StandsRests(sec: int, p: int, op: int, run: int, here: int)
      requires 0 <= sec < |items| && Stands(sec, p, op, run, here) && 0 <= p < |actionlist| && IsEnd(actionlist[p])
      ensures here == EndOfs(items[sec]) && AtRest(actionlist, items[sec])
    {
    }

    /**
     dasm_put: the status is the one of the first failing check; if there is none, the active
     section gains a Start and the items the action list and the arguments call for, and the
     history gains their events.
     */
    method Put(start: int, args: seq<int>)
      requires Valid() && status == S_OK && |lglabels| >= 10
      requires WellFormed(actionlist, start, 0, 0) && ArgsOk(actionlist, start, 0, 0, args)
      requires |bufs[section]| + 1 + WordsFrom(actionlist, start, 0, 0) <= SEC_BIAS
      modifies this`bufs, this`items, this`log, this`lglabels, this`pclabels, this`status, this`ofs, this`section
      ensures Valid() && |lglabels| == |old(lglabels)| && |pclabels| == |old(pclabels)|
      ensures var c, sec := Cursor(start, 0, 0, args, |old(bufs)[old(section)]| + 1, old(log)), old(section);
        && status == Outcome(actionlist, sec, c, |lglabels|, |pclabels|, |old(bufs)|)
        && (status == S_OK ==>
              && |bufs| == |items| == |old(items)| && log == LogFrom(actionlist, sec, c)
                  && section == SectionFrom(actionlist, sec, c)
              && (forall s :: 0 <= s < |items| && s != sec ==> items[s] == old(items)[s])
              && Grown(old(items)[sec], items[sec], [Start] + KindsFrom(actionlist, sec, c))
              && items[sec][|old(items)[sec]|].p == start)
    {
      hide Sections, LogItems, RefsMatch, SlotsMatch, LogOk, NextItem, Grown, WordsFrom, Outcome, LogFrom, SectionFrom,
          KindsFrom, WellFormed, ArgsOk, Advance, KindOf, Check, LogHere, Follows, Records;
      var sec := section;
      var p, here := start, ofs[sec];
      ghost var it := Item(Start, |bufs[sec]|, here, start, 0, 0);
      ghost var c := Cursor(start, 0, 0, args, |bufs[sec]| + 1, log);
      assert Rests(sec);
      SectionEnd(actionlist, bufs, items, sec);
      WellFormedHere(actionlist, start, 0, 0);
      StartNext(actionlist, items[sec], start);
      Record(sec, [start], it);
      assert Stands(sec, start, 0, 0, here) by { assert items[sec][|items[sec]| - 1] == it; }
      p, here := Run(sec, start, here, args, c, |bufs|);
      if status != S_OK { return; }
      if actionlist[p] == SECTION {
        if actionlist[p + 1] >= |bufs| { status := S_RANGE_SEC + p; return; }
        section := actionlist[p + 1];
      }
      ofs := ofs[sec := here];
      GrownStart(old(items)[sec], it, items[sec], KindsFrom(actionlist, sec, c));
      forall s {:trigger Rests(s)} | 0 <= s < |items| ensures Rests(s) {
        if s != sec { assert old(Rests(s)); }
      }
    }
  }

  /** items is items0 with one more item for each kind. */
  ghost predicate Grown(items0: seq<Item>, items: seq<Item>, kinds: seq<Kind>) {
    && |items| == |items0| + |kinds| && items[..|items0|] == items0
    && forall k {:trigger kinds[k]} :: 0 <= k < |kinds| ==> items[|items0| + k].kind == kinds[k]
  }

  lemma {:induction false} GrownNone(items: seq<Item>, ks: seq<Kind>)
    ensures Grown(items, items, ks[..0])
  {
  }

  lemma {:induction false} GrownStart(items0: seq<Item>, it: Item, items: seq<Item>, ks: seq<Kind>)
    requires it.kind.Start? && Grown(items0 + [it], items, ks)
    ensures Grown(items0, items, [Start] + ks) && items[|items0|] == it
  {
    assert items[..|items0|] == items[..|items0| + 1][..|items0|];
    assert items[|items0|] == items[..|items0| + 1][|items0|];
    var kinds := [Start] + ks;
    forall k {:trigger kinds[k]} | 1 <= k < |kinds| ensures items[|items0| + k].kind == kinds[k] {
      assert ks[k - 1] == kinds[k];
    }
  }

  lemma {:induction false} GrownMore(items0: seq<Item>, items: seq<Item>, ks: seq<Kind>, n: int)
    requires 0 <= n < |ks| && items != [] && items[|items| - 1].kind == ks[n]
    requires Grown(items0, items[..|items| - 1], ks[..n])
    ensures Grown(items0, items, ks[..n + 1])
  {
    var init := items[..|items| - 1];
    assert items[..|items0|] == init[..|items0|];
    var kinds := ks[..n + 1];
    forall k {:trigger kinds[k]} | 0 <= k < n + 1 ensures items[|items0| + k].kind == kinds[k] {
      if k < n { assert items[|items0| + k] == init[|items0| + k] && ks[..n][k] == kinds[k]; }
    }
  }

  lemma {:induction false} StartNext(al: seq<int>, items: seq<Item>, start: int)
    requires AtRest(al, items) && 0 <= start < |al| && start + Width(al[start]) <= |al|
    ensures NextItem(al, items, Item(Start, EndWord(items), EndOfs(items), start, 0, 0), [start])
  {
  }

  /** One action less: how the meaning of the rest of a call unfolds. */
  lemma {:induction false} Unfold(al: seq<int>, sec: int, c: Cursor, lgsize: int, pcsize: int, maxsec: int)
    requires Ready(al, c) && !IsEnd(al[c.p])
    ensures var c' := Advance(al, sec, c);
      && LogFrom(al, sec, c) == LogFrom(al, sec, c') && SectionFrom(al, sec, c) == SectionFrom(al, sec, c')
      && KindsFrom(al, sec, c) == [KindHere(al, c)] + KindsFrom(al, sec, c')
      && var st := Check(al, c.p, Arg(al, c), c.log, lgsize, pcsize);
      && Outcome(al, sec, c, lgsize, pcsize, maxsec) == (if st != S_OK then st
          else Outcome(al, sec, c', lgsize, pcsize, maxsec))
    ensures var c' := Advance(al, sec, c);
      WordsFrom(al, c.p, c.op, c.run) == Words(KindHere(al, c)) + WordsFrom(al, c'.p, c'.op, c'.run)
    ensures TakesArg(al[c.p]) ==> c.args != [] && Advance(al, sec, c).args == c.args[1..]
    ensures !TakesArg(al[c.p]) ==> Advance(al, sec, c).args == c.args
    ensures al[c.p] == SPACE ==> Arg(al, c) >= 0
  {
    WellFormedHere(al, c.p, c.op, c.run);
  }

  lemma {:induction false} EndFacts(al: seq<int>, sec: int, c: Cursor, lgsize: int, pcsize: int, maxsec: int)
    requires Ready(al, c) && IsEnd(al[c.p])
    ensures LogFrom(al, sec, c) == c.log && KindsFrom(al, sec, c) == []
    ensures al[c.p] == SECTION ==> c.p + 1 < |al| && al[c.p + 1] >= 0
    ensures SectionFrom(al, sec, c) == if al[c.p] == SECTION then al[c.p + 1] else sec
    ensures Outcome(al, sec, c, lgsize, pcsize, maxsec) == if al[c.p] == SECTION && al[c.p + 1] >= maxsec
        then S_RANGE_SEC + c.p else S_OK
  {
  }

  lemma {:induction false} SectionEnd(al: seq<int>, bufs: Bufs, items: Items, sec: int)
    requires Sections(al, bufs, items) && 0 <= sec < |bufs|
    ensures EndWord(items[sec]) == |bufs[sec]|
    ensures items[sec] != [] ==> |bufs[sec]| > 0
  {
    assert SectionWords(al, bufs[sec], items[sec]);
    if items[sec] != [] {
      ChainedMonotone(al, items[sec], 0, |items[sec]| - 1);
      LenNonNegative(al, items[sec][|items[sec]| - 1]);
    }
  }

  lemma {:induction false} DefinedNegative(log: Log, lg: seq<int>, pc: seq<int>, n: int)
    requires LogOk(log) && SlotsMatch(log, lg, pc) && 0 <= n
    ensures n < |lg| ==> (lg[n] < 0 <==> Cur(log, LG(n)).Defined?)
  {
    if n < |lg| {
      assert lg[n] == SlotValue(log, LG(n));
      AwaitedIffPending(log, LG(n));
      CurPositive(log, LG(n));
      if Pend(log, LG(n)) != [] { ChainWords(log, LG(n), 0); }
    }
  }

  /** The words along a slot's chain are still those of the history. */
  ghost predicate ChainIntact(bufs: Bufs, log: Log, slot: Slot) {
    forall x {:trigger x in RefWords(log)} :: x in RefWords(log) && x in Pend(log, slot) ==>
        ValidPos(bufs, x) && Word(bufs, x) == RefWords(log)[x]
  }

  /** The first j references of a slot's chain have been given the label position. */
  ghost predicate Collapsed(bufs0: Bufs, bufs: Bufs, log: Log, slot: Slot, j: int, pos: int) {
    && 0 <= j <= |Pend(log, slot)|
    && forall x {:trigger x in RefWords(log)} :: x in RefWords(log) ==>
         && ValidPos(bufs0, x) && ValidPos(bufs, x)
         && Word(bufs, x) == if x in Pend(log, slot)[..j] then pos else Word(bufs0, x)
  }

  lemma {:induction false} ChainStart(log: Log, lg: seq<int>, pc: seq<int>, slot: Slot, v: int)
    requires LogOk(log) && SlotsMatch(log, lg, pc) && SlotIn(slot, lg, pc)
    requires v == match slot case LG(i) => lg[i] case PC(i) => pc[i]
    ensures v > 0 ==> Pend(log, slot) != [] && v == Pend(log, slot)[0]
    ensures v <= 0 ==> Pend(log, slot) == []
  {
    assert v == SlotValue(log, slot);
    AwaitedIffPending(log, slot);
    CurPositive(log, slot);
    if Pend(log, slot) != [] { ChainWords(log, slot, 0); }
  }

  lemma {:induction false} CollapsedNone(bufs: Bufs, log: Log, slot: Slot, pos: int)
    requires RefsMatch(bufs, log)
    ensures Collapsed(bufs, bufs, log, slot, 0, pos) && ChainIntact(bufs, log, slot)
  {
  }

  /** The next word of a chain being collapsed is still that of the history. */
  lemma {:induction false} IntactWord(bufs0: Bufs, bufs: Bufs, log: Log, slot: Slot, j: int, pos: int)
    requires LogOk(log) && ChainIntact(bufs0, log, slot) && Collapsed(bufs0, bufs, log, slot, j, pos)
    requires 0 <= j < |Pend(log, slot)|
    ensures var x := Pend(log, slot)[j]; x in RefWords(log) && ValidPos(bufs, x) && Word(bufs, x) == RefWords(log)[x]
  {
    ChainWords(log, slot, j);
    hide Pend, RefWords, ValidPos, Word, LogOk;
    var x := Pend(log, slot)[j];
    assert x in Pend(log, slot);
    assert x in RefWords(log);
  }

  lemma {:induction false} SetWordShape(bufs: Bufs, x: int, v: int)
    requires ValidPos(bufs, x)
    ensures |SetWord(bufs, x, v)| == |bufs|
    ensures forall s :: 0 <= s < |bufs| ==> |SetWord(bufs, x, v)[s]| == |bufs[s]|
  {
  }

  /** One step along the chain: the word read is the next reference, and only it changes. */
  lemma {:induction false} CollapseStep(al: seq<int>, bufs0: Bufs, bufs: Bufs, items: Items, log: Log, slot: Slot,
      j: int, pos: int)
    requires Sections(al, bufs, items) && LogOk(log) && LogItems(log, items) && ChainIntact(bufs0, log, slot)
    requires Collapsed(bufs0, bufs, log, slot, j, pos) && 0 <= j < |Pend(log, slot)|
    ensures var ch := Pend(log, slot);
      && ValidPos(bufs, ch[j]) && Word(bufs, ch[j]) == (if j + 1 < |ch| then ch[j + 1] else 0)
      && (j + 1 < |ch| ==> ch[j + 1] > 0)
      && Sections(al, SetWord(bufs, ch[j], pos), items)
      && Collapsed(bufs0, SetWord(bufs, ch[j], pos), log, slot, j + 1, pos)
      && |SetWord(bufs, ch[j], pos)| == |bufs|
      && forall s :: 0 <= s < |bufs| ==> |SetWord(bufs, ch[j], pos)[s]| == |bufs[s]|
  {
    hide RefItem, Sections, LogItems, Pend, RefWords, LogOk, ChainIntact, Collapsed, ValidPos, Word, SetWord;
    var ch := Pend(log, slot);
    PendItem(items, log, slot, j);
    ChainWords(log, slot, j);
    IntactWord(bufs0, bufs, log, slot, j, pos);
    CollapsedMore(bufs0, bufs, log, slot, j, pos);
    SetWordShape(bufs, ch[j], pos);
    if j + 1 < |ch| { ChainWords(log, slot, j + 1); }
    SetRefWord(al, bufs, items, ch[j], pos);
  }

  lemma {:induction false} PendItem(items: Items, log: Log, slot: Slot, j: int)
    requires LogItems(log, items) && 0 <= j < |Pend(log, slot)|
    ensures RefItem(items, Pend(log, slot)[j])
  {
    hide RefWords, Pend;
    PendAreRefs(log, slot);
    var x := Pend(log, slot)[j];
    assert x in Pend(log, slot);
    var i :| RefAt(log, i, x, slot);
    assert EventItem(items, log[i]);
    var s, k :| ItemAt(items, s, k, x) && HasEvent(items[s][k].kind) && log[i] == EventOf(items[s][k].kind, x);
  }

  lemma {:induction false} CollapsedMore(bufs0: Bufs, bufs: Bufs, log: Log, slot: Slot, j: int, pos: int)
    requires Collapsed(bufs0, bufs, log, slot, j, pos) && 0 <= j < |Pend(log, slot)|
    requires ValidPos(bufs, Pend(log, slot)[j])
    ensures Collapsed(bufs0, SetWord(bufs, Pend(log, slot)[j], pos), log, slot, j + 1, pos)
  {
    var ch := Pend(log, slot);
    var bufs' := SetWord(bufs, ch[j], pos);
    assert ch[..j + 1] == ch[..j] + [ch[j]];
    hide Pend, RefWords;
    forall x {:trigger x in RefWords(log)} | x in RefWords(log)
      ensures ValidPos(bufs', x) && Word(bufs', x) == if x in ch[..j + 1] then pos else Word(bufs0, x) {
      assert ValidPos(bufs, x);
      if x != ch[j] { OtherWord(bufs, x, ch[j], pos); }
      hide ValidPos, Word, SetWord;
    }
  }

  lemma {:induction false} OtherWord(bufs: Bufs, x: int, y: int, v: int)
    requires ValidPos(bufs, x) && ValidPos(bufs, y) && x != y
    ensures ValidPos(SetWord(bufs, y, v), x) && Word(SetWord(bufs, y, v), x) == Word(bufs, x)
  {
    assert x == Pos(PosSec(x), PosIdx(x)) && y == Pos(PosSec(y), PosIdx(y));
  }

  lemma {:induction false} CollapsedAll(bufs0: Bufs, bufs: Bufs, log: Log, slot: Slot, pos: int, sec: int, here: int)
    requires Collapsed(bufs0, bufs, log, slot, |Pend(log, slot)|, pos) && 0 <= sec < |bufs|
    ensures Answered(bufs0, bufs[sec := bufs[sec] + [here]], log, slot, pos)
  {
    hide Pend, RefWords;
    var bufs', ch := bufs[sec := bufs[sec] + [here]], Pend(log, slot);
    assert ch[..|ch|] == ch;
    forall x | x in RefWords(log)
      ensures ValidPos(bufs0, x) && ValidPos(bufs', x) && Word(bufs', x) == if x in ch then pos else Word(bufs0, x) {
      assert ValidPos(bufs, x);
    }
  }

  lemma {:induction false} DefValue(log: Log, ev: Event)
    requires ev.Def?
    ensures SlotValue(log + [ev], ev.slot) == -ev.pos
  {
    assert (log + [ev])[..|log|] == log;
  }

  lemma {:induction false} NextWord(al: seq<int>, bufs: Bufs, items: Items, sec: int, it: Item, ws: seq<int>)
    requires Sections(al, bufs, items) && 0 <= sec < |bufs| && NextItem(al, items[sec], it, ws)
    ensures it.w == |bufs[sec]|
  {
    assert SectionWords(al, bufs[sec], items[sec]);
  }

  /** A recorded definition keeps buffers, history and label arrays in step. */
  lemma {:induction false} DefBody(al: seq<int>, bufs0: Bufs, bufs: Bufs, items: Items, log: Log, lg: seq<int>,
      pc: seq<int>, sec: int, it: Item, slot: Slot, here: int)
    requires Sections(al, bufs0, items) && Sections(al, bufs, items)
    requires LogOk(log) && LogItems(log, items) && RefsMatch(bufs0, log) && SlotsMatch(log, lg, pc)
    requires 0 <= sec < |bufs| == |items| == |bufs0| && SlotIn(slot, lg, pc) && |bufs[sec]| == |bufs0[sec]|
    requires it.kind == Label(slot) && NextItem(al, items[sec], it, [here]) && 0 < |bufs[sec]| < SEC_BIAS
    requires Collapsed(bufs0, bufs, log, slot, |Pend(log, slot)|, Pos(sec, |bufs[sec]|))
    ensures var ev := Def(Pos(sec, |bufs[sec]|), slot);
      var bufs', items' := bufs[sec := bufs[sec] + [here]], items[sec := items[sec] + [it]];
      && Sections(al, bufs', items') && LogOk(log + [ev]) && LogItems(log + [ev], items')
          && RefsMatch(bufs', log + [ev])
      && SlotsMatch(log + [ev], if slot.LG? then lg[slot.lg := -ev.pos] else lg, if slot.PC?
          then pc[slot.pc := -ev.pos] else pc)
  {
    hide Sections, LogItems, RefsMatch, SlotsMatch, LogOk, NextItem, Collapsed, Pend, Pos;
    AppendSections(al, bufs, items, sec, it, [here]);
    DefHistory(al, bufs0, bufs, items, log, sec, it, slot, here);
    DefSlots(log, lg, pc, slot, Pos(sec, |bufs[sec]|));
  }

  lemma {:induction false} DefSlots(log: Log, lg: seq<int>, pc: seq<int>, slot: Slot, pos: int)
    requires SlotsMatch(log, lg, pc) && SlotIn(slot, lg, pc)
    ensures SlotsMatch(log + [Def(pos, slot)], if slot.LG? then lg[slot.lg := -pos] else lg, if slot.PC?
        then pc[slot.pc := -pos] else pc)
  {
    hide SlotsMatch, SlotValue;
    DefValue(log, Def(pos, slot));
    SlotsAfter(log, lg, pc, Def(pos, slot));
  }

  lemma {:induction false} DefHistory(al: seq<int>, bufs0: Bufs, bufs: Bufs, items: Items, log: Log, sec: int,
      it: Item, slot: Slot, here: int)
    requires Sections(al, bufs, items) && LogOk(log) && LogItems(log, items) && RefsMatch(bufs0, log)
    requires 0 <= sec < |bufs| == |items| == |bufs0|
    requires it.kind == Label(slot) && NextItem(al, items[sec], it, [here]) && 0 < |bufs[sec]| < SEC_BIAS
    requires Collapsed(bufs0, bufs, log, slot, |Pend(log, slot)|, Pos(sec, |bufs[sec]|))
    ensures var ev := Def(Pos(sec, |bufs[sec]|), slot);
      var bufs', items' := bufs[sec := bufs[sec] + [here]], items[sec := items[sec] + [it]];
      LogOk(log + [ev]) && LogItems(log + [ev], items') && RefsMatch(bufs', log + [ev])
  {
    hide Sections, LogItems, RefsMatch, LogOk, NextItem, Collapsed, Pend, Answered, Pos;
    var idx := |bufs[sec]|;
    var ev := Def(Pos(sec, idx), slot);
    var bufs', items' := bufs[sec := bufs[sec] + [here]], items[sec := items[sec] + [it]];
    NextWord(al, bufs, items, sec, it, [here]);
    CollapsedAll(bufs0, bufs, log, slot, ev.pos, sec, here);
    NewPosition(al, bufs, items, log, sec);
    NewDef(bufs0, bufs', items', log, items, sec, idx, ev);
  }

  /** A recorded reference keeps buffers, history and label arrays in step. */
  lemma {:induction false} RefBody(al: seq<int>, bufs: Bufs, items: Items, log: Log, lg: seq<int>, pc: seq<int>,
      sec: int, it: Item, rest: seq<int>, slot: Slot, fwd: bool, v: int, link: int)
    requires Sections(al, bufs, items) && LogOk(log) && LogItems(log, items) && RefsMatch(bufs, log)
    requires SlotsMatch(log, lg, pc)
    requires 0 <= sec < |bufs| == |items| && SlotIn(slot, lg, pc)
    requires IsRef(it.kind) && it.kind.slot == slot && it.kind.fwd == fwd && NextItem(al, items[sec], it, [0] + rest)
    requires 0 < |bufs[sec]|
    requires |bufs[sec]| + 1 + |rest| <= SEC_BIAS
    requires v == match slot case LG(i) => lg[i] case PC(i) => pc[i]
    requires link == if fwd && v < 0 then 0 else if v < 0 then -v else v
    ensures var ev := Ref(Pos(sec, |bufs[sec]|), slot, fwd);
      var bufs', items' := bufs[sec := bufs[sec] + ([link] + rest)], items[sec := items[sec] + [it]];
      var v' := if v < 0 && !fwd then v else ev.pos;
      && Sections(al, bufs', items') && LogOk(log + [ev]) && LogItems(log + [ev], items')
          && RefsMatch(bufs', log + [ev])
      && SlotsMatch(log + [ev], if slot.LG? then lg[slot.lg := v'] else lg, if slot.PC? then pc[slot.pc := v'] else pc)
  {
    var idx := |bufs[sec]|;
    var ev := Ref(Pos(sec, idx), slot, fwd);
    var ws := [link] + rest;
    assert NextItem(al, items[sec], it, ws);
    assert it.w == idx by { assert SectionWords(al, bufs[sec], items[sec]); }
    hide Sections, LogItems, RefsMatch, SlotsMatch, LogOk, NextItem, RefWords, SlotValue;
    RefLink(log, lg, pc, ev, v, link);
    NewPosition(al, bufs, items, log, sec);
    SlotsAfter(log, lg, pc, ev);
    AppendSections(al, bufs, items, sec, it, ws);
    AppendKeeps(bufs, items, sec, it, ws, log);
    PosParts(sec, idx);
    NewRef(bufs[sec := bufs[sec] + ws], items[sec := items[sec] + [it]], log, items, sec, idx, ev);
  }

  /** What PutRef stores: the link word and the new slot value of the history. */
  lemma {:induction false} RefLink(log: Log, lg: seq<int>, pc: seq<int>, ev: Event, v: int, link: int)
    requires LogOk(log) && SlotsMatch(log, lg, pc) && SlotIn(ev.slot, lg, pc) && ev.Ref?
    requires v == match ev.slot case LG(i) => lg[i] case PC(i) => pc[i]
    requires link == if ev.fwd && v < 0 then 0 else if v < 0 then -v else v
    ensures ev.pos in RefWords(log + [ev]) && RefWords(log + [ev])[ev.pos] == link
    ensures SlotValue(log + [ev], ev.slot) == if v < 0 && !ev.fwd then v else ev.pos
  {
    var log' := log + [ev];
    assert log'[..|log|] == log;
    assert v == SlotValue(log, ev.slot);
    AwaitedIffPending(log, ev.slot);
    CurPositive(log, ev.slot);
    if Cur(log, ev.slot).Awaited? { ChainWords(log, ev.slot, 0); }
  }

  // ---------------------------------------------------------------- what the label arrays mean

  function SlotWord(lg: seq<int>, pc: seq<int>, slot: Slot): int
    requires SlotIn(slot, lg, pc)
  {
    match slot
    case LG(i) => lg[i]
    case PC(i) => pc[i]
  }

  /** Following the reference words from position x visits exactly ch and ends at 0. */
  ghost predicate Walk(bufs: Bufs, x: int, ch: seq<int>)
    decreases |ch|
  {
    if ch == [] then x == 0
    else x == ch[0] && x > 0 && ValidPos(bufs, x) && Walk(bufs, Word(bufs, x), ch[1..])
  }

  /** Reference i of the history is to this slot, stands at x, and no label answers it yet. */
  ghost predicate Unanswered(log: Log, slot: Slot, x: int, i: int) {
    RefAt(log, i, x, slot) && Target(log, i) < 0
  }

  ghost predicate DefinedAt(log: Log, slot: Slot, i: int, pos: int) {
    0 <= i < |log| && log[i] == Def(pos, slot) && forall j {:trigger log[j]} :: i < j < |log| ==>
        log[j] != Def(log[j].pos, slot)
  }

  ghost predicate LatestDef(log: Log, slot: Slot, pos: int) {
    exists i :: DefinedAt(log, slot, i, pos)
  }

  /**
   In every state between calls a label slot holds 0 if nothing mentions it, the negated position of
   its latest definition, or the head of a chain that the buffers themselves spell out: it visits,
   once each, exactly the references to the slot that no label answers yet.
   */
  lemma {:induction false} SlotsMean(d: Dasm, slot: Slot) returns (ch: seq<int>)
    requires d.Valid() && d.status == S_OK && SlotIn(slot, d.lglabels, d.pclabels)
    ensures var v := SlotWord(d.lglabels, d.pclabels, slot);
      && (v == 0 <==> forall i {:trigger d.log[i]} :: 0 <= i < |d.log| ==> d.log[i].slot != slot)
      && (v < 0 ==> LatestDef(d.log, slot, -v))
      && Walk(d.bufs, if v < 0 then 0 else v, ch)
    ensures forall x :: x in ch <==> exists i :: Unanswered(d.log, slot, x, i)
    ensures forall i, j :: 0 <= i < j < |ch| ==> ch[i] != ch[j]
  {
    hide Sections, LogItems, LogOk, RefsMatch, Cur, Pend, Walk, RefWords, Target;
    ch := Pend(d.log, slot);
    assert SlotWord(d.lglabels, d.pclabels, slot) == SlotValue(d.log, slot);
    hide SlotsMatch;
    CurMeans(d.log, slot);
    AwaitedIffPending(d.log, slot);
    CurPositive(d.log, slot);
    if ch != [] { ChainWords(d.log, slot, 0); }
    ChainWalk(d.bufs, d.log, slot, 0);
    assert ch[0..] == ch;
    forall x ensures x in ch <==> exists i :: Unanswered(d.log, slot, x, i) { ChainMembers(d.log, slot, x); }
    forall i, j | 0 <= i < j < |ch| ensures ch[i] != ch[j] { ChainWords(d.log, slot, j); }
  }

  lemma {:induction false} ChainMembers(log: Log, slot: Slot, x: int)
    requires LogOk(log)
    ensures x in Pend(log, slot) <==> exists i :: Unanswered(log, slot, x, i)
  {
    hide Pend, Target, LogOk;
    ChainExact(log, slot, x);
    if i: int :| RefAt(log, i, x, slot) && Target(log, i) < 0 { assert Unanswered(log, slot, x, i); }
    if i :| Unanswered(log, slot, x, i) { assert RefAt(log, i, x, slot) && Target(log, i) < 0; }
  }

  lemma {:induction false} ChainWalk(bufs: Bufs, log: Log, slot: Slot, j: nat)
    requires LogOk(log) && RefsMatch(bufs, log) && j <= |Pend(log, slot)|
    ensures var ch := Pend(log, slot); Walk(bufs, if j < |ch| then ch[j] else 0, ch[j..])
    decreases |Pend(log, slot)| - j
  {
    hide LogOk, Pend, RefWords, ValidPos, Word;
    var ch := Pend(log, slot);
    if j < |ch| {
      ChainWords(log, slot, j);
      ChainWalk(bufs, log, slot, j + 1);
      assert ch[j] in RefWords(log);
      assert ch[j..][1..] == ch[j + 1..];
    }
  }

  /** What the state of a slot says about its events. */
  lemma {:induction false} CurMeans(log: Log, slot: Slot)
    ensures Cur(log, slot).Unused? <==> forall i {:trigger log[i]} :: 0 <= i < |log| ==> log[i].slot != slot
    ensures Cur(log, slot).Defined? ==> LatestDef(log, slot, Cur(log, slot).pos)
    decreases |log|
  {
    if log != [] {
      var n := |log| - 1;
      var init := log[..n];
      CurMeans(init, slot);
      assert forall i :: 0 <= i < n ==> init[i] == log[i];
      assert log[n].slot == slot ==> !Cur(log, slot).Unused?;
      if Cur(log, slot).Defined? {
        if log[n] == Def(log[n].pos, slot) {
          assert DefinedAt(log, slot, n, log[n].pos);
        } else {
          var i :| DefinedAt(init, slot, i, Cur(log, slot).pos);
          assert DefinedAt(log, slot, i, Cur(log, slot).pos);
        }
      }
    }
  }
}

/**
 Labels and references of the DynASM encoder as a history of events. The encoder threads
 unresolved references through the section buffers; this module says what those words must hold,
 and that every reference ends up at the label a reader of the history would pick.
 */
module DasmLabels {

  /** A label slot: local and global labels share one array, PC labels have their own. */
  datatype Slot = LG(lg: int) | PC(pc: int)

  /** Positions are biased buffer positions, never 0. fwd marks a forward local reference. */
  datatype Event =
    | Ref(pos: int, slot: Slot, fwd: bool)
    | Def(pos: int, slot: Slot)

  type Log = seq<Event>

  /** State of a slot after a history: never used, defined at a position, or awaited by references. */
  datatype SlotState = Unused | Defined(pos: int) | Awaited

  ghost function Cur(log: Log, slot: Slot): SlotState
    decreases |log|
  {
    if log == [] then Unused else
    var init, ev := log[..|log| - 1], log[|log| - 1];
    if ev.slot != slot then Cur(init, slot)
    else if ev.Def? then Defined(ev.pos)
    else if !ev.fwd && Cur(init, slot).Defined? then Cur(init, slot)
    else Awaited
  }

  /** The unresolved references of a slot, newest first. */
  ghost function Pend(log: Log, slot: Slot): seq<int>
    decreases |log|
  {
    if log == [] then [] else
    var init, ev := log[..|log| - 1], log[|log| - 1];
    if ev.slot != slot then Pend(init, slot)
    else if ev.Def? then []
    else if !ev.fwd && Cur(init, slot).Defined? then Pend(init, slot)
    else [ev.pos] + Pend(init, slot)
  }

  /** The value of a label slot: 0, the negated label position, or the head of its chain. */
  ghost function SlotValue(log: Log, slot: Slot): int {
    match Cur(log, slot)
    case Unused => 0
    case Defined(pos) => -pos
    case Awaited => if Pend(log, slot) == [] then 0 else Pend(log, slot)[0]
  }

  ghost function Head(ch: seq<int>): int { if ch == [] then 0 else ch[0] }

  /** The words behind the reference positions: a label position if resolved, else the next in the chain. */
  ghost function RefWords(log: Log): map<int, int>
    decreases |log|
  {
    if log == [] then map[] else
    var init, ev := log[..|log| - 1], log[|log| - 1];
    var words := RefWords(init);
    match ev
    case Ref(pos, slot, fwd) =>
      words[pos := if !fwd && Cur(init, slot).Defined? then Cur(init, slot).pos else Head(Pend(init, slot))]
    case Def(pos, slot) =>
      map x | x in words :: if x in Pend(init, slot) then pos else words[x]
  }

  /** Positions of events are distinct and positive. */
  ghost predicate LogOk(log: Log) {
    && (forall i :: 0 <= i < |log| ==> log[i].pos > 0)
    && (forall i, j :: 0 <= i < j < |log| ==> log[i].pos != log[j].pos)
  }

  /** First definition of slot from index i on. */
  ghost function NextDef(log: Log, slot: Slot, i: nat): (d: int)
    requires i <= |log|
    ensures d == -1 || i <= d < |log|
    ensures d >= 0 ==> log[d].Def? && log[d].slot == slot
    ensures forall j :: i <= j < (if d < 0 then |log| else d) ==> !(log[j].Def? && log[j].slot == slot)
    decreases |log| - i
  {
    if i == |log| then -1 else if log[i].Def? && log[i].slot == slot then i else NextDef(log, slot, i + 1)
  }

  /**
   The label that reference i means: the one its slot stands for at that moment, unless the slot
   is not defined then or the reference is a forward one; in that case the next definition.
   */
  ghost function Target(log: Log, i: nat): int
    requires i < |log| && log[i].Ref?
  {
    if !log[i].fwd && Cur(log[..i], log[i].slot).Defined? then Cur(log[..i], log[i].slot).pos
    else if NextDef(log, log[i].slot, i) >= 0 then log[NextDef(log, log[i].slot, i)].pos
    else -1
  }

  ghost predicate RefAt(log: Log, i: int, x: int, slot: Slot) {
    0 <= i < |log| && log[i].Ref? && log[i].pos == x && log[i].slot == slot
  }

  /** Pending references are earlier references of that slot. */
  lemma {:induction false} PendAreRefs(log: Log, slot: Slot)
    ensures forall x :: x in Pend(log, slot) ==>
      exists i :: RefAt(log, i, x, slot)
    decreases |log|
  {
    if log != [] {
      var init := log[..|log| - 1];
      PendAreRefs(init, slot);
      forall x | x in Pend(log, slot) ensures exists i :: RefAt(log, i, x, slot) {
        if x in Pend(init, slot) {
          var i :| RefAt(init, i, x, slot);
          assert RefAt(log, i, x, slot);
        } else {
          assert RefAt(log, |log| - 1, x, slot);
        }
      }
    }
  }

  /** A slot has pending references exactly while it is awaited. */
  lemma {:induction false} AwaitedIffPending(log: Log, slot: Slot)
    ensures Cur(log, slot).Awaited? <==> Pend(log, slot) != []
    decreases |log|
  {
    if log != [] { AwaitedIffPending(log[..|log| - 1], slot); }
  }

  /**
   Resolution: every reference whose target exists holds that target's position, and every other
   one is pending in its slot.
   */
  lemma {:induction false} Resolution(log: Log, i: nat)
    requires LogOk(log) && i < |log| && log[i].Ref?
    ensures log[i].pos in RefWords(log)
    ensures Target(log, i) >= 0 ==> RefWords(log)[log[i].pos] == Target(log, i) && log[i].pos !in Pend(log, log[i].slot)
    ensures Target(log, i) < 0 ==> log[i].pos in Pend(log, log[i].slot)
    decreases |log|
  {
    var n := |log| - 1;
    var init, ev := log[..n], log[n];
    var slot := log[i].slot;
    assert LogOk(init);
    if i == n {
      LastRef(log);
    } else {
      assert init[i] == log[i] && init[..i] == log[..i];
      Resolution(init, i);
      TargetStep(log, i);
      PositionPending(init, i, ev.slot);
      hide RefWords, Pend, Target, Cur;
      if ev.Def? && ev.slot == slot { DefResolves(log, i); } else { OthersKeep(log, i); }
    }
  }

  lemma {:induction false} LastRef(log: Log)
    requires LogOk(log) && log != [] && log[|log| - 1].Ref?
    ensures var i := |log| - 1;
      && log[i].pos in RefWords(log)
      && (Target(log, i) >= 0 ==> RefWords(log)[log[i].pos] == Target(log, i) && log[i].pos !in Pend(log, log[i].slot))
      && (Target(log, i) < 0 ==> log[i].pos in Pend(log, log[i].slot))
  {
    var i := |log| - 1;
    AwaitedIffPending(log[..i], log[i].slot);
    CurPositive(log[..i], log[i].slot);
    assert NextDef(log, log[i].slot, i) == NextDef(log, log[i].slot, i + 1) == -1;
  }

  /** A new event settles the target of an earlier reference only if it defines its slot. */
  lemma {:induction false} TargetStep(log: Log, i: nat)
    requires LogOk(log) && i < |log| - 1 && log[i].Ref?
    ensures var init, ev := log[..|log| - 1], log[|log| - 1];
      Target(log, i) == if Target(init, i) < 0 && ev.Def? && ev.slot == log[i].slot then ev.pos else Target(init, i)
    ensures log[|log| - 1].pos > 0
  {
    var init := log[..|log| - 1];
    var slot := log[i].slot;
    assert init[i] == log[i] && init[..i] == log[..i];
    CurPositive(log[..i], slot);
    NextDefPrefix(log, slot, i);
    var d := NextDef(init, slot, i);
    if d >= 0 { assert log[d] == init[d] && log[d].pos > 0; }
  }

  lemma {:induction false} CurPositive(log: Log, slot: Slot)
    requires LogOk(log)
    ensures Cur(log, slot).Defined? ==> Cur(log, slot).pos > 0
    decreases |log|
  {
    if log != [] { CurPositive(log[..|log| - 1], slot); }
  }

  lemma {:induction false} OthersKeep(log: Log, i: nat)
    requires LogOk(log) && i < |log| - 1 && log[i].Ref?
    requires var ev := log[|log| - 1]; !(ev.Def? && ev.slot == log[i].slot)
    requires var init, ev := log[..|log| - 1], log[|log| - 1];
      log[i].pos in RefWords(init) && (log[i].pos in Pend(init, ev.slot) ==> ev.slot == log[i].slot)
    ensures var init := log[..|log| - 1];
      && log[i].pos in RefWords(log) && RefWords(log)[log[i].pos] == RefWords(init)[log[i].pos]
      && (log[i].pos in Pend(log, log[i].slot) <==> log[i].pos in Pend(init, log[i].slot))
  {
  }

  lemma {:induction false} DefResolves(log: Log, i: nat)
    requires LogOk(log) && i < |log| - 1 && log[i].Ref?
    requires var ev := log[|log| - 1]; ev.Def? && ev.slot == log[i].slot
    requires log[i].pos in RefWords(log[..|log| - 1])
    ensures var init := log[..|log| - 1];
      && log[i].pos in RefWords(log) && log[i].pos !in Pend(log, log[i].slot)
      && RefWords(log)[log[i].pos] == if log[i].pos in Pend(init, log[i].slot) then log[|log| - 1].pos
          else RefWords(init)[log[i].pos]
  {
  }

  lemma {:induction false} NextDefPrefix(log: Log, slot: Slot, i: nat)
    requires i < |log|
    ensures var init := log[..|log| - 1];
      NextDef(log, slot, i) == if NextDef(init, slot, i) >= 0 then NextDef(init, slot, i)
                               else if log[|log| - 1].Def? && log[|log| - 1].slot == slot then |log| - 1 else -1
    decreases |log| - i
  {
    var init := log[..|log| - 1];
    if i < |log| - 1 { NextDefPrefix(log, slot, i + 1); }
  }

  /** A pending position belongs to a reference of that very slot. */
  lemma {:induction false} PositionPending(log: Log, i: nat, slot: Slot)
    requires LogOk(log) && i < |log| && log[i].Ref?
    ensures log[i].pos in Pend(log, slot) ==> slot == log[i].slot
  {
    PendAreRefs(log, slot);
    if log[i].pos in Pend(log, slot) {
      var j :| RefAt(log, j, log[i].pos, slot);
      if i < j {} else if j < i {}
      assert i == j;
    }
  }

  /** The chain of a slot runs through exactly the references to it that no label answers yet. */
  lemma {:induction false} ChainExact(log: Log, slot: Slot, x: int)
    requires LogOk(log)
    ensures x in Pend(log, slot) <==> exists i: int :: RefAt(log, i, x, slot) && Target(log, i) < 0
  {
    PendAreRefs(log, slot);
    hide Pend, RefWords, Target, LogOk;
    if x in Pend(log, slot) {
      var i :| RefAt(log, i, x, slot);
      Resolution(log, i);
    }
    if i: int :| RefAt(log, i, x, slot) && Target(log, i) < 0 { Resolution(log, i); }
  }

  /** The chain of a slot is threaded through the reference words, newest first and ended by 0. */
  lemma {:induction false} ChainWords(log: Log, slot: Slot, j: nat)
    requires LogOk(log) && j < |Pend(log, slot)|
    ensures var ch := Pend(log, slot);
      && ch[j] in RefWords(log) && ch[j] > 0
      && RefWords(log)[ch[j]] == if j + 1 < |ch| then ch[j + 1] else 0
    ensures forall i :: 0 <= i < j ==> Pend(log, slot)[i] != Pend(log, slot)[j]
    decreases |log|
  {
    var init, ev := log[..|log| - 1], log[|log| - 1];
    assert LogOk(init);
    var ch, ch0 := Pend(log, slot), Pend(init, slot);
    PendAreRefs(init, slot);
    PendAreRefs(init, ev.slot);
    var joins := ev.Ref? && ev.slot == slot && (ev.fwd || !Cur(init, slot).Defined?);
    if joins && j == 0 {
      FreshPosition(log, slot);
    } else {
      var j0 := if joins then j - 1 else j;
      assert ch0[j0] == ch[j];
      assert ch0[j0] in ch0;
      ChainWords(init, slot, j0);
      FreshPosition(log, slot);
      if ev.Def? { OtherChain(init, slot, ev.slot, ch0[j0]); }
    }
  }

  lemma {:induction false} FreshPosition(log: Log, slot: Slot)
    requires LogOk(log) && log != []
    ensures log[|log| - 1].pos !in Pend(log[..|log| - 1], slot)
  {
    var init := log[..|log| - 1];
    PendAreRefs(init, slot);
  }

  lemma {:induction false} OtherChain(log: Log, slot: Slot, slot': Slot, x: int)
    requires LogOk(log) && slot != slot' && x in Pend(log, slot)
    ensures x !in Pend(log, slot')
  {
    PendAreRefs(log, slot);
    PendAreRefs(log, slot');
  }
}

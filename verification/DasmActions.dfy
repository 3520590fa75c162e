/**
 The action list of the DynASM x86 encoder, and the items a section is made of. Every action that
 dasm_put records becomes one item; an item knows its words in the section buffer and how many
 bytes of code it takes at most.
 */
module DasmActions {
  import opened DasmLabels

  const DISP := 233
  const IMM_S := 234
  const IMM_B := 235
  const IMM_W := 236
  const IMM_D := 237
  const IMM_WB := 238
  const IMM_DB := 239
  const SPACE := 241
  const REL_LG := 244
  const REL_PC := 245
  const IMM_LG := 246
  const IMM_PC := 247
  const LABEL_LG := 248
  const LABEL_PC := 249
  const ALIGN := 250
  const ESC := 252
  const SECTION := 254
  const STOP := 255

  /** One recorded action; an immediate keeps its action code and value. */
  datatype Kind =
    | Start
    | Code(byte: int)
    | Imm(action: int, value: int)
    | Space(count: int)
    | Rel(slot: Slot, fwd: bool)
    | ImmLabel(slot: Slot, fwd: bool)
    | Label(slot: Slot)
    | Align(mask: int)

  /**
   w is the item's first word in the section buffer, e the pass 1 estimate of its offset in the
   section, p its action (for Start: the offset given to dasm_put), op the last opcode byte of the
   same dasm_put before it, and run how many opcode bytes directly precede it.
   */
  datatype Item = Item(kind: Kind, w: int, e: int, p: int, op: int, run: int)

  predicate FitsByte(n: int) { -128 <= n <= 127 }

  function ImmLen(action: int, n: int): int {
    if action == IMM_S || action == IMM_B then 1
    else if action == IMM_W then 2
    else if action == IMM_D then 4
    else if FitsByte(n) then 1
    else if action == IMM_WB then 2
    else 4
  }

  predicate IsImm(action: int) { IMM_S <= action <= IMM_DB }

  /** Range checks of pass 1 on immediates. */
  predicate ImmOk(action: int, n: int) {
    && (action == IMM_S ==> FitsByte(n))
    && (action == IMM_B ==> 0 <= n < 256)
    && (action == IMM_W || (action == IMM_WB && !FitsByte(n)) ==> 0 <= n < 65536)
  }

  /** Buffer words of an item. */
  function Words(k: Kind): int {
    match k
    case Code(_) => 0
    case Rel(_, _) => 2
    case _ => 1
  }

  /** Most bytes an item can take: pass 1 assumes long branches and full alignment. */
  function MaxLen(k: Kind): int {
    match k
    case Start => 0
    case Code(_) => 1
    case Imm(a, n) => ImmLen(a, n)
    case Space(n) => n
    case Rel(_, _) => 4
    case ImmLabel(_, _) => 4
    case Label(_) => 0
    case Align(m) => m
  }

  /** Bytes of the action list an action occupies. */
  function Width(action: int): int {
    if action == ESC || action == SPACE || action == REL_LG || action == IMM_LG || action == LABEL_LG || action == ALIGN
    then 2 else 1
  }

  predicate IsEnd(action: int) { action == SECTION || action == STOP }

  predicate IsMask(m: int) {
    m == 0 || m == 1 || m == 3 || m == 7 || m == 15 || m == 31 || m == 63 || m == 127 || m == 255
  }

  /** x & mask, for a mask of the form 2^n - 1. */
  function And(x: int, mask: int): (r: int)
    requires mask >= 0
    ensures 0 <= r <= mask
  {
    x % (mask + 1)
  }

  /** What a short form saves: jmp rel32 (e9) gives 3 bytes, jcc rel32 (0f 8x) gives 4. */
  function Shrink(op: int): int {
    if op == 0xe9 then 3 else if 0x80 <= op <= 0x8f then 4 else 0
  }

  predicate Supported(a: int) {
    a < DISP || IsImm(a) || a == SPACE || REL_LG <= a <= ALIGN || a == ESC || IsEnd(a)
  }

  function NextOp(a: int, b: int, op: int): int { if a < DISP then a else if a == ESC then b else op }
  function NextRun(a: int, run: int): int { if a < DISP || a == ESC then run + 1 else 0 }

  /**
   An action list is well formed from p on if it ends in STOP or SECTION, uses modelled actions,
   aligns to powers of two, and has every shrinkable branch, and every immediate that rewrites its
   opcode, right behind its opcode bytes.
   */
  ghost predicate WellFormed(al: seq<int>, p: int, op: int, run: int)
    decreases |al| - p
  {
    && 0 <= p < |al| && 0 <= al[p] < 256 && Supported(al[p])
    && p + Width(al[p]) <= |al| && (Width(al[p]) == 2 ==> 0 <= al[p + 1] < 256)
    && (al[p] == ALIGN ==> IsMask(al[p + 1]))
    && (al[p] == REL_LG || al[p] == REL_PC ==> run >= (if Shrink(op) == 4 then 2 else if Shrink(op) == 3 then 1 else 0))
    && (al[p] == IMM_WB || al[p] == IMM_DB ==> run >= 2)
    && (al[p] == SECTION ==> p + 1 < |al| && 0 <= al[p + 1] < 256)
    && (!IsEnd(al[p]) ==>
          WellFormed(al, p + Width(al[p]), NextOp(al[p], if p + 1 < |al| then al[p + 1] else 0, op),
              NextRun(al[p], run)))
  }

  /** Buffer words that the actions from p on will take. */
  ghost function WordsFrom(al: seq<int>, p: int, op: int, run: int): (n: nat)
    requires WellFormed(al, p, op, run)
    decreases |al| - p
  {
    if IsEnd(al[p]) then 0 else
    var here := if al[p] == REL_LG || al[p] == REL_PC then 2 else if al[p] < DISP || al[p] == ESC then 0 else 1;
    here + WordsFrom(al, p + Width(al[p]), NextOp(al[p], if p + 1 < |al| then al[p + 1] else 0, op),
        NextRun(al[p], run))
  }

  predicate TakesArg(a: int) { IsImm(a) || a == SPACE || a == REL_PC || a == IMM_PC || a == LABEL_PC }

  /** The arguments suffice for the actions from p on, and no SPACE count is negative. */
  ghost predicate ArgsOk(al: seq<int>, p: int, op: int, run: int, args: seq<int>)
    requires WellFormed(al, p, op, run)
    decreases |al| - p
  {
    if IsEnd(al[p]) then true else
    var p', op', run' := p + Width(al[p]), NextOp(al[p], if p + 1 < |al| then al[p + 1] else 0, op),
        NextRun(al[p], run);
    if TakesArg(al[p]) then args != [] && (al[p] == SPACE ==> args[0] >= 0) && ArgsOk(al, p', op', run', args[1..])
    else ArgsOk(al, p', op', run', args)
  }

  /** What the action at p records, given its argument if it takes one. */
  ghost function KindOf(al: seq<int>, p: int, arg: int): Kind
    requires 0 <= p < |al| && p + Width(al[p]) <= |al|
  {
    var a := al[p];
    if a < DISP then Code(a)
    else if a == ESC then Code(al[p + 1])
    else if IsImm(a) then Imm(a, arg)
    else if a == SPACE then Space(arg)
    else if a == REL_LG then Rel(LgSlot(al[p + 1]), al[p + 1] > 246)
    else if a == REL_PC then Rel(PC(arg), false)
    else if a == IMM_LG then ImmLabel(LgSlot(al[p + 1]), al[p + 1] > 246)
    else if a == IMM_PC then ImmLabel(PC(arg), false)
    else if a == LABEL_LG then Label(LG(al[p + 1]))
    else if a == LABEL_PC then Label(PC(arg))
    else if a == ALIGN then Align(al[p + 1])
    else Start
  }

  /** Labels above 246 are forward references to the local labels 1 to 9. */
  function LgSlot(n: int): Slot { LG(if n > 246 then n - 246 else n) }

  /** The action at an item's p is the one the item records. */
  ghost predicate Records(al: seq<int>, it: Item) {
    && 0 <= it.p < |al| && it.p + Width(al[it.p]) <= |al|
    && var a := al[it.p];
    match it.kind
    case Start => true
    case Code(b) => (a < DISP && b == a) || (a == ESC && b == al[it.p + 1])
    case Imm(x, n) => IsImm(a) && x == a && ImmOk(x, n) && (x == IMM_WB || x == IMM_DB ==> it.run >= 2)
    case Space(n) => a == SPACE && n >= 0
    case Rel(slot, fwd) =>
      && (if slot.LG? then a == REL_LG && al[it.p + 1] < 256 && slot == LgSlot(al[it.p + 1])
          && fwd == (al[it.p + 1] > 246) else a == REL_PC && !fwd)
      && it.run >= (if Shrink(it.op) == 4 then 2 else if Shrink(it.op) == 3 then 1 else 0)
    case ImmLabel(slot, fwd) =>
      if slot.LG? then a == IMM_LG && al[it.p + 1] < 256 && slot == LgSlot(al[it.p + 1]) && fwd == (al[it.p + 1] > 246)
          else a == IMM_PC && !fwd
    case Label(slot) => if slot.LG? then a == LABEL_LG && slot == LG(al[it.p + 1]) else a == LABEL_PC
    case Align(m) => a == ALIGN && m == al[it.p + 1] && IsMask(m)
  }

  /** Where the action pointer stands after an item. */
  function AfterP(al: seq<int>, it: Item): int
    requires 0 <= it.p < |al|
  {
    if it.kind.Start? then it.p else it.p + Width(al[it.p])
  }

  function AfterOp(it: Item): int { if it.kind.Start? then 0 else if it.kind.Code? then it.kind.byte else it.op }
  function AfterRun(it: Item): int { if it.kind.Code? then it.run + 1 else 0 }

  /** y directly follows x in a section. */
  ghost predicate Follows(al: seq<int>, x: Item, y: Item) {
    && 0 <= x.p < |al|
    && y.w == x.w + Words(x.kind) && y.e == x.e + MaxLen(x.kind)
    && (if y.kind.Start? then 0 <= AfterP(al, x) < |al| && IsEnd(al[AfterP(al, x)]) && y.op == 0 && y.run == 0
        else y.p == AfterP(al, x) && y.op == AfterOp(x) && y.run == AfterRun(x))
  }

  /** A sequence of items starting a section: consecutive, beginning with a Start. */
  ghost predicate Chained(al: seq<int>, items: seq<Item>) {
    && (items != [] ==>
          items[0].kind.Start? && items[0].w == 0 && items[0].e == 0 && items[0].op == 0 && items[0].run == 0)
    && (forall k {:trigger items[k]} :: 0 <= k < |items| ==> Records(al, items[k]))
    && (forall k {:trigger FollowsAt(al, items, k)} :: 0 <= k < |items| - 1 ==> FollowsAt(al, items, k))
  }

  ghost predicate FollowsAt(al: seq<int>, items: seq<Item>, k: int)
    requires 0 <= k < |items| - 1
  {
    Follows(al, items[k], items[k + 1])
  }

  ghost function EndWord(items: seq<Item>): int {
    if items == [] then 0 else items[|items| - 1].w + Words(items[|items| - 1].kind)
  }

  ghost function EndOfs(items: seq<Item>): int {
    if items == [] then 0 else items[|items| - 1].e + MaxLen(items[|items| - 1].kind)
  }

  /** A section at rest: the last dasm_put ran up to its STOP or SECTION. */
  ghost predicate AtRest(al: seq<int>, items: seq<Item>) {
    items != [] ==>
      var last := items[|items| - 1];
      0 <= last.p < |al| && 0 <= AfterP(al, last) < |al| && IsEnd(al[AfterP(al, last)])
  }

  lemma {:induction false} LenNonNegative(al: seq<int>, it: Item)
    requires Records(al, it)
    ensures MaxLen(it.kind) >= 0 && Words(it.kind) >= 0
  {
  }

  /** Words and estimates never decrease along a section. */
  lemma {:induction false} ChainedMonotone(al: seq<int>, items: seq<Item>, i: int, j: int)
    requires Chained(al, items) && 0 <= i <= j < |items|
    ensures items[i].w <= items[j].w && items[i].e <= items[j].e
    ensures i < j ==> items[i].w + Words(items[i].kind) <= items[j].w
    ensures i < j ==> items[i].e + MaxLen(items[i].kind) <= items[j].e
    decreases j - i
  {
    if i < j {
      assert FollowsAt(al, items, i);
      LenNonNegative(al, items[i]);
      ChainedMonotone(al, items, i + 1, j);
    }
  }
}

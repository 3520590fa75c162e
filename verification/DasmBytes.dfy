/**
 What the bytes of an encoded unit say to a processor, read back without the functions that wrote
 them: actions by their numbers in the action list, values out of little-endian bytes.
 */
module DasmBytes {
  import opened Bits
  import opened DasmActions
  import opened DasmLabels
  import opened DasmPut
  import opened DasmLayout
  import opened DasmLink
  import opened DasmEncode

  /** Unsigned value of little-endian bytes. */
  function FromLE(bytes: seq<int>): int {
    if bytes == [] then 0 else bytes[0] + 256 * FromLE(bytes[1..])
  }

  lemma {:induction false} LE4(n: int)
    ensures FromLE(LE(n, 4)) == n % TWO_32
  {
    hide LE, FromLE;
    var q1, q2, q3, q4 := n / 256, n / 256 / 256, n / 256 / 256 / 256, n / 256 / 256 / 256 / 256;
    LEStep(n, 3);
    LEStep(q1, 2);
    LEStep(q2, 1);
    LEStep(q3, 0);
    LENone(q4);
    assert n == n % 256 + 256 * (q1 % 256 + 256 * (q2 % 256 + 256 * (q3 % 256 + 256 * q4)));
  }

  lemma {:induction false} LE2(n: int)
    ensures FromLE(LE(n, 2)) == n % 65536
  {
    hide LE, FromLE;
    LEStep(n, 1);
    LEStep(n / 256, 0);
    LENone(n / 256 / 256);
    assert n == n % 256 + 256 * (n / 256 % 256 + 256 * (n / 256 / 256));
  }

  lemma {:induction false} LEStep(n: int, count: nat)
    ensures FromLE(LE(n, count + 1)) == n % 256 + 256 * FromLE(LE(n / 256, count))
  {
    assert LE(n, count + 1)[1..] == LE(n / 256, count);
  }

  lemma {:induction false} LENone(n: int)
    ensures FromLE(LE(n, 0)) == 0
  {
  }

  lemma {:induction false} LE1(x: int)
    ensures FromLE([x]) == x
  {
  }

  // ---------------------------------------------------------------- what an item's bytes mean

  /** The opcode byte an action list calls for at p: the byte itself, or the one behind an escape. */
  ghost function OpcodeAt(al: seq<int>, p: int): int {
    if 0 <= p < |al| && al[p] < 233 then al[p] else if 0 <= p < |al| - 1 && al[p] == 252 then al[p + 1] else -1
  }

  predicate SignedByte(b: seq<int>, n: int) { |b| == 1 && Signed(b[0], 256) == n }

  /** The bytes b are the immediate n of action a: a byte, a word, a double word, or the shortest of two forms. */
  ghost predicate ImmMeans(a: int, n: int, b: seq<int>) {
    if a == 234 then SignedByte(b, n)
    else if a == 235 then b == [n]
    else if a == 236 then |b| == 2 && FromLE(b) == n
    else if a == 237 then |b| == 4 && FromLE(b) == n % TWO_32
    else if -128 <= n <= 127 then (a == 238 || a == 239) && SignedByte(b, n)
    else if a == 238 then |b| == 2 && FromLE(b) == n
    else a == 239 && |b| == 4 && FromLE(b) == n % TWO_32
  }

  /** The opcode byte of item k is rewritten by a short form behind it. */
  ghost predicate Touched(u: Unit, s: int, k: int)
    requires Placed(u, s, k)
  {
    || (k + 1 < |u.items[s]| && (ShortRel(u, s, k + 1, 3) || ShortRel(u, s, k + 1, 4)))
    || (k + 2 < |u.items[s]| && u.items[s][k + 1].kind.Code?
        && (ShortRel(u, s, k + 2, 4) || ShortImm(u.items[s][k + 2].kind)))
  }

  /** In front of a byte immediate with two forms, the opcode is the next but one. */
  ghost predicate ShortOpcode(u: Unit, out: seq<int>, s: int, k: int)
    requires Placed(u, s, k)
  {
    var f := u.fin[s][k];
    && 2 <= k && 2 <= f <= |out|
    && out[f - 2] == (OpcodeAt(u.al, u.items[s][k - 2].p) + 2) % 256
    && out[f - 1] == OpcodeAt(u.al, u.items[s][k - 1].p)
  }

  /** The label, global or local label an action with number a and operand b refers to. */
  ghost predicate SlotMeans(al: seq<int>, p: int, lg: int, pc: int, slot: Slot, fwd: bool) {
    && 0 <= p < |al|
    && if slot.PC? then al[p] == pc && !fwd
       else al[p] == lg && p + 1 < |al| && if al[p + 1] > 246 then slot.lg == al[p + 1] - 246 && fwd
         else slot.lg == al[p + 1] && !fwd
  }

  /** Four bytes that hold x modulo 2^32. */
  ghost predicate Holds(b: seq<int>, x: int) { |b| == 4 && FromLE(b) == x % TWO_32 }

  /** Reference i of the history, read from bytes b of item k: an absolute label, or a global's address or distance. */
  ghost predicate RefBytes(u: Unit, log: Log, s: int, k: int, i: int, b: seq<int>)
    requires Placed(u, s, k) && 0 <= i < |log| && log[i].Ref?
  {
    if Target(log, i) >= 0 then
      exists t, j {:trigger LabelAt(u.items, t, j, Target(log, i))} ::
        && LabelAt(u.items, t, j, Target(log, i)) && u.items[t][j].kind.slot == log[i].slot && Placed(u, t, j)
        && (u.items[s][k].kind.ImmLabel? ==> Holds(b, u.base + u.fin[t][j]))
    else
      var g := log[i].slot;
      && g.LG? && 10 <= g.lg < |u.globals| && NoLabel(u.items, g.lg)
      && Holds(b, if u.items[s][k].kind.ImmLabel? then u.globals[g.lg] else u.globals[g.lg] - u.base - u.fin[s][k + 1])
  }

  /** The bytes of item k of section s, decoded. */
  ghost predicate ItemMeans(u: Unit, log: Log, out: seq<int>, s: int, k: int)
    requires Placed(u, s, k)
  {
    var it, f, f' := u.items[s][k], u.fin[s][k], u.fin[s][k + 1];
    && 0 <= f <= f' <= |out| && 0 <= it.p < |u.al|
    && var a, b := u.al[it.p], out[f..f'];
    match it.kind
    case Start => b == []
    case Code(_) =>
      && |b| == 1 && (a < 233 || (a == 252 && it.p + 1 < |u.al|))
      && (!Touched(u, s, k) ==> b[0] == OpcodeAt(u.al, it.p))
    case Imm(_, n) =>
      ImmMeans(a, n, b) && ((a == 238 || a == 239) && -128 <= n <= 127 ==> ShortOpcode(u, out, s, k))
    case Space(n) =>
      a == 241 && it.p + 1 < |u.al| && |b| == n && forall i :: 0 <= i < n ==> b[i] == u.al[it.p + 1]
    case Rel(slot, fwd) => SlotMeans(u.al, it.p, 244, 245, slot, fwd) && RefItemMeans(u, log, s, k, b)
    case ImmLabel(slot, fwd) => SlotMeans(u.al, it.p, 246, 247, slot, fwd) && RefItemMeans(u, log, s, k, b)
    case Label(slot) =>
      b == [] && (if slot.PC? then a == 249 else a == 248 && it.p + 1 < |u.al| && slot.lg == u.al[it.p + 1])
    case Align(m) =>
      && a == 250 && it.p + 1 < |u.al| && m == u.al[it.p + 1] && |b| <= m && f' % (m + 1) == 0
      && forall i :: 0 <= i < |b| ==> b[i] == 0x90
  }

  ghost predicate RefItemMeans(u: Unit, log: Log, s: int, k: int, b: seq<int>)
    requires Placed(u, s, k) && IsRef(u.items[s][k].kind)
  {
    exists i {:trigger log[i]} :: 0 <= i < |log|
      && log[i] == EventOf(u.items[s][k].kind, Pos(s, u.items[s][k].w)) && RefBytes(u, log, s, k, i, b)
  }

  // ---------------------------------------------------------------- decoding

  /** The bytes of one item in a finished section. */
  lemma {:induction false} Finished(u: Unit, out: seq<int>, s: int, j: int)
    requires Laid(u) && AllOut(u, out, |u.items|) && Placed(u, s, j)
    ensures 0 <= u.fin[s][j] <= u.fin[s][j + 1] <= |out|
    ensures out[u.fin[s][j]..u.fin[s][j + 1]] == ItemBytes(u, s, j, |u.items[s]|)
  {
    assert SectionOut(u, out, s, |u.items[s]|);
    assert ItemOut(u, out, s, j, |u.items[s]|);
  }

  lemma {:induction false} OneByte(out: seq<int>, x: int, y: int)
    requires 0 <= x < |out| && out[x..x + 1] == [y]
    ensures out[x] == y
  {
    assert out[x] == out[x..x + 1][0];
  }

  lemma {:induction false} OneLE(n: int)
    ensures LE(n, 1) == [n % 256]
  {
    assert LE(n, 1) == [n % 256] + LE(n / 256, 0);
  }

  lemma {:induction false} ImmDecodes(a: int, n: int, b: seq<int>)
    requires IsImm(a) && ImmOk(a, n) && b == LE(n, ImmLen(a, n))
    ensures ImmMeans(a, n, b)
  {
    hide FromLE, LE;
    var len := ImmLen(a, n);
    if len == 1 {
      OneLE(n);
    } else if len == 2 {
      LE2(n);
    } else {
      LE4(n);
    }
  }

  lemma {:induction false} CodeDecodes(u: Unit, s: int, k: int)
    requires Placed(u, s, k) && u.items[s][k].kind.Code? && Records(u.al, u.items[s][k])
    ensures |ItemBytes(u, s, k, |u.items[s]|)| == 1
    ensures !Touched(u, s, k) ==> ItemBytes(u, s, k, |u.items[s]|)[0] == u.items[s][k].kind.byte
    ensures OpcodeAt(u.al, u.items[s][k].p) == u.items[s][k].kind.byte
  {
    hide RefCode;
  }

  /** Opcode bytes in front of a short immediate. */
  lemma {:induction false} OpcodeDecodes(u: Unit, out: seq<int>, s: int, k: int)
    requires Laid(u) && AllOut(u, out, |u.items|) && Placed(u, s, k) && ShortImm(u.items[s][k].kind)
    requires u.items[s][k].run >= 2
    ensures ShortOpcode(u, out, s, k)
  {
    hide Laid, AllOut, RefCode, CodeByte, Records;
    RunBefore(u, s, k);
    RunBefore(u, s, k - 1);
    ItemFacts(u, s, k - 1);
    ItemFacts(u, s, k - 2);
    CodeDecodes(u, s, k - 1);
    CodeDecodes(u, s, k - 2);
    Finished(u, out, s, k - 2);
    Finished(u, out, s, k - 1);
    BumpedBytes(u, s, k);
    OneByte(out, u.fin[s][k - 2], CodeByte(u, s, k - 2, |u.items[s]|));
    OneByte(out, u.fin[s][k - 1], CodeByte(u, s, k - 1, |u.items[s]|));
  }

  lemma {:induction false} BumpedBytes(u: Unit, s: int, k: int)
    requires Placed(u, s, k) && k >= 2 && ShortImm(u.items[s][k].kind)
    requires u.items[s][k - 1].kind.Code? && u.items[s][k - 2].kind.Code?
    ensures CodeByte(u, s, k - 2, |u.items[s]|) == (u.items[s][k - 2].kind.byte + 2) % 256
  {
    hide RefCode;
  }

  lemma {:induction false} RefDecodes(u: Unit, log: Log, s: int, k: int, i: int, b: seq<int>)
    requires Laid(u) && RefsKnown(u) && Placed(u, s, k) && IsRef(u.items[s][k].kind)
    requires 0 <= i < |log| && log[i] == EventOf(u.items[s][k].kind, Pos(s, u.items[s][k].w))
    requires RefFixed(u.items, log, i, RefWord(u.bufs, u.items, s, k))
    requires b == ItemBytes(u, s, k, |u.items[s]|)
    ensures RefBytes(u, log, s, k, i, b)
  {
    hide Laid, RefWord, LE, FromLE, Target;
    LE4(RefCode(u, s, k));
    var n := RefWord(u.bufs, u.items, s, k);
    if Target(log, i) >= 0 {
      RefLabel(u, s, k);
      hide RefsKnown;
      var t, j :| LabelAt(u.items, t, j, n) && u.items[t][j].kind.slot == log[i].slot;
      assert Placed(u, t, j);
    } else {
      assert -n < |u.globals|;
      hide RefsKnown, NoLabel;
      if u.items[s][k].kind.Rel? { LongOutside(u, s, k); }
    }
  }

  lemma {:induction false} LongOutside(u: Unit, s: int, k: int)
    requires Laid(u) && RefsKnown(u) && Placed(u, s, k) && u.items[s][k].kind.Rel? && RefWord(u.bufs, u.items, s, k) < 0
    ensures ItemBytes(u, s, k, |u.items[s]|) == LE(RefCode(u, s, k), 4)
  {
    hide Laid, RefsKnown, RefWord, RefCode, LE;
    RelWords(u, s, k);
  }

  lemma {:induction false} SlotDecodes(al: seq<int>, it: Item)
    requires Records(al, it) && IsRef(it.kind)
    ensures it.kind.Rel? ==> SlotMeans(al, it.p, 244, 245, it.kind.slot, it.kind.fwd)
    ensures it.kind.ImmLabel? ==> SlotMeans(al, it.p, 246, 247, it.kind.slot, it.kind.fwd)
  {
  }

  lemma {:induction false} CodeItem(u: Unit, log: Log, out: seq<int>, s: int, k: int)
    requires Laid(u) && AllOut(u, out, |u.items|) && Placed(u, s, k) && u.items[s][k].kind.Code?
    ensures ItemMeans(u, log, out, s, k)
  {
    hide Laid, AllOut, Touched, OpcodeAt, ItemBytes;
    Finished(u, out, s, k);
    ItemFacts(u, s, k);
    CodeDecodes(u, s, k);
  }

  lemma {:induction false} ImmItem(u: Unit, log: Log, out: seq<int>, s: int, k: int)
    requires Laid(u) && AllOut(u, out, |u.items|) && Placed(u, s, k) && u.items[s][k].kind.Imm?
    ensures ItemMeans(u, log, out, s, k)
  {
    hide Laid, AllOut, ShortOpcode, ImmMeans, LE;
    var it := u.items[s][k];
    Finished(u, out, s, k);
    ItemFacts(u, s, k);
    ImmDecodes(it.kind.action, it.kind.value, out[u.fin[s][k]..u.fin[s][k + 1]]);
    if ShortImm(it.kind) { OpcodeDecodes(u, out, s, k); }
  }

  lemma {:induction false} AlignItem(u: Unit, log: Log, out: seq<int>, s: int, k: int)
    requires Laid(u) && AllOut(u, out, |u.items|) && Placed(u, s, k) && u.items[s][k].kind.Align?
    ensures ItemMeans(u, log, out, s, k)
  {
    hide Laid, AllOut, LenOk;
    Finished(u, out, s, k);
    ItemFacts(u, s, k);
    AlignEnds(u.items[s][k], u.fin[s][k], u.fin[s][k + 1]);
  }

  lemma {:induction false} RefItem(u: Unit, log: Log, out: seq<int>, s: int, k: int)
    requires Laid(u) && RefsKnown(u) && AllOut(u, out, |u.items|) && Placed(u, s, k) && IsRef(u.items[s][k].kind)
    requires RefMeans(u.bufs, u.items, log, s, k)
    ensures ItemMeans(u, log, out, s, k)
  {
    hide Laid, RefsKnown, AllOut, RefBytes, SlotMeans, RefWord, RefFixed, ItemBytes;
    var it := u.items[s][k];
    Finished(u, out, s, k);
    ItemFacts(u, s, k);
    var i :| 0 <= i < |log| && log[i] == EventOf(it.kind, Pos(s, it.w))
      && RefFixed(u.items, log, i, RefWord(u.bufs, u.items, s, k));
    RefDecodes(u, log, s, k, i, out[u.fin[s][k]..u.fin[s][k + 1]]);
    SlotDecodes(u.al, it);
  }

  /** Everything that item k of section s has put into the output is what its action asks for. */
  lemma {:induction false} ItemDecodes(u: Unit, log: Log, out: seq<int>, s: int, k: int)
    requires Laid(u) && RefsKnown(u) && AllOut(u, out, |u.items|) && Placed(u, s, k)
    requires IsRef(u.items[s][k].kind) ==> RefMeans(u.bufs, u.items, log, s, k)
    ensures ItemMeans(u, log, out, s, k)
  {
    hide Laid, RefsKnown, AllOut;
    if u.items[s][k].kind.Code? {
      CodeItem(u, log, out, s, k);
    } else if u.items[s][k].kind.Imm? {
      ImmItem(u, log, out, s, k);
    } else if u.items[s][k].kind.Align? {
      AlignItem(u, log, out, s, k);
    } else if IsRef(u.items[s][k].kind) {
      RefItem(u, log, out, s, k);
    } else {
      Finished(u, out, s, k);
      ItemFacts(u, s, k);
    }
  }

  // ---------------------------------------------------------------- actions, arguments and ranges

  /**
   The actions of one dasm_put are taken from the action list one after the other: two bytes for an
   escape, a fill, a numbered label or reference and an alignment, one for any other, until 254 or 255.
   */
  lemma {:induction false} NextAction(al: seq<int>, items: seq<Item>, k: int)
    requires Chained(al, items) && 0 <= k < |items| - 1
    ensures var x, y := items[k], items[k + 1];
      && 0 <= x.p < |al|
      && var next := x.p +
           (if x.kind.Start? then 0
            else if al[x.p] in {252, 241, 244, 246, 248, 250} then 2 else 1);
      if y.kind.Start? then 0 <= next < |al| && (al[next] == 254 || al[next] == 255) else y.p == next
  {
    assert FollowsAt(al, items, k);
    hide Records;
  }

  /** The arguments that recorded actions carry. */
  ghost function Carried(k: Kind): seq<int> {
    match k
    case Imm(_, n) => [n]
    case Space(n) => [n]
    case Rel(slot, _) => if slot.PC? then [slot.pc] else []
    case ImmLabel(slot, _) => if slot.PC? then [slot.pc] else []
    case Label(slot) => if slot.PC? then [slot.pc] else []
    case _ => []
  }

  ghost function AllCarried(ks: seq<Kind>): seq<int> {
    if ks == [] then [] else Carried(ks[0]) + AllCarried(ks[1..])
  }

  /** Each argument goes to the next action that takes one, in the order given. */
  lemma {:induction false} ArgsInOrder(al: seq<int>, sec: int, c: Cursor)
    requires Ready(al, c)
    ensures AllCarried(KindsFrom(al, sec, c)) <= c.args
    decreases |al| - c.p
  {
    if !IsEnd(al[c.p]) {
      var k, c' := KindHere(al, c), Advance(al, sec, c);
      CarriedHere(al, sec, c);
      hide Advance, KindHere, Carried;
      ArgsInOrder(al, sec, c');
      var ks := KindsFrom(al, sec, c');
      assert KindsFrom(al, sec, c) == [k] + ks;
      assert ([k] + ks)[1..] == ks;
    }
  }

  lemma {:induction false} CarriedHere(al: seq<int>, sec: int, c: Cursor)
    requires Ready(al, c) && !IsEnd(al[c.p])
    ensures c.args == Carried(KindHere(al, c)) + Advance(al, sec, c).args
  {
    WellFormedHere(al, c.p, c.op, c.run);
    hide WellFormed;
    if TakesArg(al[c.p]) { assert c.args == [c.args[0]] + c.args[1..]; }
  }

  ghost predicate AreBytes(b: seq<int>) { forall i :: 0 <= i < |b| ==> 0 <= b[i] < 256 }

  /** The range check of an immediate passes exactly if some bytes of its action can hold the value. */
  lemma {:induction false} ImmOkExact(a: int, n: int)
    requires IsImm(a)
    ensures ImmOk(a, n) <==> exists b :: AreBytes(b) && ImmMeans(a, n, b)
  {
    if ImmOk(a, n) {
      var b := LE(n, ImmLen(a, n));
      ImmDecodes(a, n, b);
      forall i | 0 <= i < |b| ensures 0 <= b[i] < 256 { LEBytes(n, ImmLen(a, n), i); }
      assert AreBytes(b) && ImmMeans(a, n, b);
    }
    if b :| AreBytes(b) && ImmMeans(a, n, b) { RangeHolds(a, n, b); }
  }

  lemma {:induction false} RangeHolds(a: int, n: int, b: seq<int>)
    requires IsImm(a) && AreBytes(b) && ImmMeans(a, n, b)
    ensures ImmOk(a, n)
  {
    hide FromLE;
    assert |b| > 0 ==> 0 <= b[0] < 256;
    if |b| == 2 { TwoBytes(b); }
  }

  /**
   The check of one action, by its number, and the status it ends with: an immediate must fit, a
   backward local label must be defined, a global or local number and a PC label must be in range.
   */
  lemma {:induction false} CheckMeans(al: seq<int>, p: int, arg: int, log: Log, lgsize: int, pcsize: int)
    requires 0 <= p < |al| && p + Width(al[p]) <= |al|
    ensures var a, st := al[p], Check(al, p, arg, log, lgsize, pcsize);
      if 234 <= a <= 239 then st == if exists b :: AreBytes(b) && ImmMeans(a, arg, b) then 0 else 0x1100_0000 + p
      else if a == 244 || a == 246 then
        var n := al[p + 1];
        st == if n > 246 || (10 <= n < lgsize) || (n < 10 && n < lgsize && Cur(log, LG(n)).Defined?) then 0
              else 0x1300_0000 + p + 1
      else if a == 248 then st == if al[p + 1] < lgsize then 0 else 0x1300_0000 + p + 1
      else if a == 245 || a == 247 || a == 249 then st == if 0 <= arg < pcsize then 0 else 0x1400_0000 + p
      else st == 0
  {
    hide ImmOk, ImmMeans, Cur;
    if IsImm(al[p]) { ImmOkExact(al[p], arg); }
  }

  lemma {:induction false} LEBytes(n: int, count: nat, i: nat)
    requires i < count
    ensures 0 <= LE(n, count)[i] < 256
    decreases count
  {
    if i > 0 { LEBytes(n / 256, count - 1, i - 1); }
  }

  lemma {:induction false} TwoBytes(b: seq<int>)
    requires |b| == 2 && 0 <= b[0] < 256 && 0 <= b[1] < 256
    ensures 0 <= FromLE(b) < 65536
  {
    assert FromLE(b) == b[0] + 256 * FromLE(b[1..]);
    assert FromLE(b[1..]) == b[1] + 256 * FromLE(b[1..][1..]);
    assert b[1..][1..] == [];
  }

  // ---------------------------------------------------------------- the address table

  /** Item k of section s is the last definition of global g. */
  ghost predicate LastLabel(items: Items, g: int, s: int, k: int) {
    && 0 <= s < |items| && 0 <= k < |items[s]| && items[s][k].kind == Label(LG(g))
    && forall t, j {:trigger items[t][j]} :: s <= t < |items| && 0 <= j < |items[t]| && (s < t || k < j) ==>
         items[t][j].kind != Label(LG(g))
  }

  /** A global that some section defines has the address of its last label, any other the one given. */
  ghost predicate GlobalMeans(u: Unit, globals: seq<int>, g: int) {
    && 0 <= g < |globals| == |u.globals| && |u.items| == |u.fin|
    && if g < 10 || NoLabel(u.items, g) then globals[g] == u.globals[g]
       else exists s, k {:trigger LastLabel(u.items, g, s, k)} ::
         LastLabel(u.items, g, s, k) && k < |u.fin[s]| && globals[g] == u.base + u.fin[s][k]
  }

  lemma {:induction false} GlobalAtMeans(u: Unit, g: int, s: int, k: int)
    requires 0 <= g < |u.globals| && 0 <= s < |u.items| == |u.fin| && 0 <= k <= |u.items[s]| && Whole(u.items, u.fin)
    ensures NoLabelBefore(u.items, g, s, k) || g < 10 ==> GlobalAt(u, g, s, k) == u.globals[g]
    ensures !NoLabelBefore(u.items, g, s, k) && g >= 10 ==>
      exists t, j {:trigger LastBefore(u.items, g, s, k, t, j)} ::
        LastBefore(u.items, g, s, k, t, j) && GlobalAt(u, g, s, k) == u.base + u.fin[t][j]
    decreases s, k
  {
    if k > 0 {
      GlobalAtMeans(u, g, s, k - 1);
      if u.items[s][k - 1].kind == Label(LG(g)) {
        assert LastBefore(u.items, g, s, k, s, k - 1);
      } else if !NoLabelBefore(u.items, g, s, k - 1) && g >= 10 {
        var t, j :| LastBefore(u.items, g, s, k - 1, t, j) && GlobalAt(u, g, s, k - 1) == u.base + u.fin[t][j];
        assert LastBefore(u.items, g, s, k, t, j);
      }
    } else if s > 0 {
      var n := |u.items[s - 1]|;
      GlobalAtMeans(u, g, s - 1, n);
      if !NoLabelBefore(u.items, g, s - 1, n) && g >= 10 {
        var t, j :| LastBefore(u.items, g, s - 1, n, t, j) && GlobalAt(u, g, s - 1, n) == u.base + u.fin[t][j];
        assert LastBefore(u.items, g, s, k, t, j);
      }
    }
  }

  ghost predicate Before(t: int, j: int, s: int, k: int) { t < s || (t == s && j < k) }

  ghost predicate NoLabelBefore(items: Items, g: int, s: int, k: int) {
    forall t, j {:trigger items[t][j]} :: 0 <= t < |items| && 0 <= j < |items[t]| && Before(t, j, s, k) ==>
      items[t][j].kind != Label(LG(g))
  }

  ghost predicate LastBefore(items: Items, g: int, s: int, k: int, t: int, j: int) {
    && 0 <= t < |items| && 0 <= j < |items[t]| && Before(t, j, s, k) && items[t][j].kind == Label(LG(g))
    && forall t', j' {:trigger items[t'][j']} ::
         0 <= t' < |items| && 0 <= j' < |items[t']| && Before(t', j', s, k) && Before(t, j, t', j') ==>
         items[t'][j'].kind != Label(LG(g))
  }

  lemma {:induction false} GlobalsMean(u: Unit, globals: seq<int>, g: int)
    requires 0 < |u.items| && GlobalsOk(u, globals, |u.items| - 1, |u.items[|u.items| - 1]|) && 0 <= g < |globals|
    ensures GlobalMeans(u, globals, g)
  {
    var s := |u.items| - 1;
    var k := |u.items[s]|;
    assert globals[g] == GlobalAt(u, g, s, k);
    GlobalAtMeans(u, g, s, k);
    hide GlobalAt, GlobalsOk;
    assert NoLabelBefore(u.items, g, s, k) <==> NoLabel(u.items, g);
    if g >= 10 && !NoLabel(u.items, g) {
      var t, j :| LastBefore(u.items, g, s, k, t, j) && globals[g] == u.base + u.fin[t][j];
      assert LastLabel(u.items, g, t, j);
    }
  }
}

/**
 Bytecode dumps: prototypes with their constants, the grammar of the dump, and what a reader
 makes of it.
 */
module DumpSpec {
  import opened Wrappers
  import opened Bits
  import opened Uleb

  const KTAB_INT := 3
  const KTAB_NUM := 4
  const KTAB_STR := 5
  const KGC_CHILD := 0
  const KGC_TAB := 1
  const KGC_I64 := 2
  const KGC_U64 := 3
  const KGC_COMPLEX := 4
  const KGC_STR := 5

  const BC_FORI := 73
  const BC_JFORI := 74
  const BC_FORL := 75
  const BC_IFORL := 76
  const BC_JFORL := 77
  const BC_ITERL := 78
  const BC_IITERL := 79
  const BC_JITERL := 80
  const BC_LOOP := 81
  const BC_ILOOP := 82
  const BC_JLOOP := 83

  /** Constants. A number is the two words of its double. */
  datatype Val = Nil | False | True | Int(k: int) | Num(lo: int, hi: int) | Str(s: Bytes)

  /** A template table: its array part and its hash nodes; a node with a nil key is free. */
  datatype Tab = Tab(arr: seq<Val>, nodes: seq<(Val, Val)>)

  /** One instruction, byte by byte. */
  datatype Ins = Ins(op: int, a: int, c: int, b: int)

  datatype Dbg = NoDbg | Dbg(first: int, lines: int, info: Bytes)

  datatype Kgc =
    | KStr(s: Bytes)
    | KChild(child: Proto)
    | KTab(tab: Tab)
    | KI64(lo: int, hi: int)
    | KU64(lo: int, hi: int)
    | KComplex(rlo: int, rhi: int, ilo: int, ihi: int)

  /** A prototype without its function header instruction. */
  datatype Proto = Proto(flags: int, numparams: int, framesize: int, uv: Bytes, traced: bool, bc: seq<Ins>,
                         kgc: seq<Kgc>, knum: seq<Val>, dbg: Dbg)

  /**
   Build options and surroundings: whether numbers have a separate integer type, which doubles have
   an integer value, the first instruction of each trace, and whether debug info is stripped.
   */
  datatype Env = Env(dualnum: bool, narrow: (int, int) -> Option<int>, startins: map<int, Ins>, strip: bool)

  // ---------------------------------------------------------------- well-formed data

  predicate Word(x: int) { 0 <= x < TWO_32 }
  predicate Int32(k: int) { -0x8000_0000 <= k < 0x8000_0000 }
  predicate IsByte(x: int) { 0 <= x < 256 }
  function U32(k: int): nat { k % TWO_32 }
  function S32(v: int): int { if v >= 0x8000_0000 then v - TWO_32 else v }

  ghost predicate EnvOk(env: Env) {
    && (forall lo, hi {:trigger env.narrow(lo, hi)} :: env.narrow(lo, hi).Some? ==> Int32(env.narrow(lo, hi).value))
    && (forall t {:trigger env.startins[t]} :: t in env.startins ==> InsOk(env.startins[t]))
  }

  ghost predicate InsOk(i: Ins) { IsByte(i.op) && IsByte(i.a) && IsByte(i.c) && IsByte(i.b) }

  ghost predicate ValOk(v: Val) {
    match v
    case Int(k) => Int32(k)
    case Num(lo, hi) => Word(lo) && Word(hi)
    case Str(s) => |s| < 0x7fff_ff00
    case _ => true
  }

  ghost predicate TabOk(t: Tab) {
    && |t.arr| < TWO_32 && |t.nodes| < TWO_32
    && (forall i {:trigger t.arr[i]} :: 0 <= i < |t.arr| ==> ValOk(t.arr[i]))
    && (forall i {:trigger t.nodes[i]} :: 0 <= i < |t.nodes| ==> ValOk(t.nodes[i].0) && ValOk(t.nodes[i].1))
  }

  ghost predicate KgcOk(k: Kgc) {
    match k
    case KStr(s) => |s| < 0x7fff_ff00
    case KChild(p) => ProtoOk(p)
    case KTab(t) => TabOk(t)
    case KI64(lo, hi) => Word(lo) && Word(hi)
    case KU64(lo, hi) => Word(lo) && Word(hi)
    case KComplex(rlo, rhi, ilo, ihi) => Word(rlo) && Word(rhi) && Word(ilo) && Word(ihi)
  }

  ghost predicate ProtoOk(p: Proto) {
    && IsByte(p.flags) && IsByte(p.numparams) && IsByte(p.framesize) && |p.uv| % 2 == 0 && |p.uv| < 512
    && |p.bc| < TWO_32 && |p.kgc| < TWO_32 && |p.knum| < TWO_32
    && (forall i {:trigger p.bc[i]} :: 0 <= i < |p.bc| ==> InsOk(p.bc[i]))
    && (forall i {:trigger p.kgc[i]} :: 0 <= i < |p.kgc| ==> KgcOk(p.kgc[i]))
    && (forall i {:trigger p.knum[i]} :: 0 <= i < |p.knum| ==> ValOk(p.knum[i]) && (p.knum[i].Int? || p.knum[i].Num?))
    && (p.dbg.Dbg? ==> 0 < |p.dbg.info| < TWO_32 && Word(p.dbg.first) && Word(p.dbg.lines))
    && ((exists i {:trigger p.kgc[i]} :: 0 <= i < |p.kgc| && p.kgc[i].KChild?) ==> p.flags % 2 == 1)
  }

  // ---------------------------------------------------------------- instructions

  predicate IsJitOp(op: int) {
    op == BC_IFORL || op == BC_IITERL || op == BC_ILOOP || op == BC_JFORI || op == BC_JFORL || op == BC_JITERL
        || op == BC_JLOOP
  }

  /** Undo what the JIT compiler has patched into an instruction. */
  function Unpatch(env: Env, i: Ins): Ins {
    if i.op == BC_IFORL || i.op == BC_IITERL || i.op == BC_ILOOP || i.op == BC_JFORI
        then i.(op := i.op - BC_IFORL + BC_FORL)
    else if (i.op == BC_JFORL || i.op == BC_JITERL || i.op == BC_JLOOP) && i.c + 256 * i.b in env.startins
        then env.startins[i.c + 256 * i.b]
    else i
  }

  /** i is ins as the JIT compiler may have left it: blacklisted, or replaced by a jump into a trace. */
  ghost predicate PatchOf(env: Env, ins: Ins, i: Ins) {
    || i == ins
    || (ins.op in {BC_FORL, BC_ITERL, BC_LOOP} && i == ins.(op := ins.op + 1))
    || (ins.op == BC_FORI && i == ins.(op := BC_JFORI))
    || (ins.op in {BC_FORL, BC_ITERL, BC_LOOP} && i.op == ins.op + 2 && i.c + 256 * i.b in env.startins
        && env.startins[i.c + 256 * i.b] == ins)
  }

  lemma {:induction false} UnpatchRestores(env: Env, ins: Ins, i: Ins)
    requires !IsJitOp(ins.op) && PatchOf(env, ins, i)
    ensures Unpatch(env, i) == ins
  {
  }

  function InsBytes(i: Ins): Bytes { [i.op, i.a, i.c, i.b] }

  function CodeBytes(env: Env, traced: bool, bc: seq<Ins>): Bytes {
    if bc == [] then [] else InsBytes(if traced then Unpatch(env, bc[0]) else bc[0]) + CodeBytes(env, traced, bc[1..])
  }

  /** Four bytes for each instruction, one after the other. */
  lemma {:induction false} CodeAt(env: Env, traced: bool, bc: seq<Ins>, i: nat)
    requires i < |bc|
    ensures |CodeBytes(env, traced, bc)| == 4 * |bc|
    ensures CodeBytes(env, traced, bc)[4 * i..4 * i + 4] == InsBytes(if traced then Unpatch(env, bc[i]) else bc[i])
    decreases |bc|
  {
    var tail := bc[1..];
    var first := InsBytes(if traced then Unpatch(env, bc[0]) else bc[0]);
    assert CodeBytes(env, traced, bc) == first + CodeBytes(env, traced, tail);
    if i > 0 {
      CodeAt(env, traced, tail, i - 1);
      SliceShift(first, CodeBytes(env, traced, tail), 4 * (i - 1));
    } else if |bc| > 1 {
      CodeAt(env, traced, tail, 0);
    } else {
      assert CodeBytes(env, traced, tail) == [];
    }
  }

  lemma {:induction false} SliceShift(first: Bytes, rest: Bytes, k: nat)
    requires |first| == 4 && k + 4 <= |rest|
    ensures (first + rest)[k + 4..k + 8] == rest[k..k + 4]
  {
  }

  lemma {:induction false} CodeLength(env: Env, traced: bool, bc: seq<Ins>)
    ensures |CodeBytes(env, traced, bc)| == 4 * |bc|
  {
    if bc != [] { CodeAt(env, traced, bc, 0); }
  }

  // ---------------------------------------------------------------- constants

  /** A number that is written as an integer, because it has an integer value. */
  function Narrowed(env: Env, v: Val): Val {
    if !env.dualnum && v.Num? && env.narrow(v.lo, v.hi).Some? then Int(env.narrow(v.lo, v.hi).value) else v
  }

  ghost function EncVal(env: Env, v: Val, narrow: bool): Bytes {
    match if narrow then Narrowed(env, v) else v
    case Nil => [0]
    case False => [1]
    case True => [2]
    case Int(k) => [KTAB_INT] + Enc(U32(k))
    case Num(lo, hi) => [KTAB_NUM] + (Enc(if lo >= 0 then lo else 0) + Enc(if hi >= 0 then hi else 0))
    case Str(s) => Enc(KTAB_STR + |s|) + s
  }

  ghost function EncVals(env: Env, vs: seq<Val>): Bytes {
    if vs == [] then [] else EncVal(env, vs[0], true) + EncVals(env, vs[1..])
  }

  /** Length of the array part without trailing nils. */
  function UsedLen(arr: seq<Val>): (n: nat)
    ensures n <= |arr| && (n > 0 ==> arr[n - 1] != Nil) && forall i :: n <= i < |arr| ==> arr[i] == Nil
  {
    if arr == [] then 0 else if arr[|arr| - 1] != Nil then |arr| else UsedLen(arr[..|arr| - 1])
  }

  /** Used hash nodes, last one first. */
  function UsedNodes(nodes: seq<(Val, Val)>): (r: seq<(Val, Val)>)
    ensures |r| <= |nodes|
    ensures forall i :: 0 <= i < |r| ==> r[i] in nodes && r[i].0 != Nil
  {
    if nodes == [] then []
    else var last := nodes[|nodes| - 1]; (if last.0 != Nil then [last] else []) + UsedNodes(nodes[..|nodes| - 1])
  }

  ghost function EncPairs(env: Env, ps: seq<(Val, Val)>): Bytes {
    if ps == [] then [] else EncVal(env, ps[0].0, false) + (EncVal(env, ps[0].1, true) + EncPairs(env, ps[1..]))
  }

  ghost function EncTab(env: Env, t: Tab): Bytes {
    var n, ps := UsedLen(t.arr), UsedNodes(t.nodes);
    Enc(n) + (Enc(|ps|) + (EncVals(env, t.arr[..n]) + EncPairs(env, ps)))
  }

  function Nat(x: int): nat { if x >= 0 then x else 0 }

  ghost function EncKgc(env: Env, k: Kgc): Bytes {
    match k
    case KStr(s) => Enc(KGC_STR + |s|) + s
    case KChild(_) => Enc(KGC_CHILD)
    case KTab(t) => Enc(KGC_TAB) + EncTab(env, t)
    case KI64(lo, hi) => Enc(KGC_I64) + (Enc(Nat(lo)) + Enc(Nat(hi)))
    case KU64(lo, hi) => Enc(KGC_U64) + (Enc(Nat(lo)) + Enc(Nat(hi)))
    case KComplex(a, b, c, d) => Enc(KGC_COMPLEX) + (Enc(Nat(a)) + (Enc(Nat(b)) + (Enc(Nat(c)) + Enc(Nat(d)))))
  }

  ghost function EncKgcs(env: Env, ks: seq<Kgc>): Bytes {
    if ks == [] then [] else EncKgc(env, ks[0]) + EncKgcs(env, ks[1..])
  }

  /** A number constant: 33 bits with the tag in the lowest one, then the high word of a double. */
  ghost function EncKnum(env: Env, v: Val): Bytes {
    match Narrowed(env, v)
    case Int(k) => Enc(2 * U32(k))
    case Num(lo, hi) => Enc(2 * Nat(lo) + 1) + Enc(Nat(hi))
    case _ => []
  }

  ghost function EncKnums(env: Env, vs: seq<Val>): Bytes {
    if vs == [] then [] else EncKnum(env, vs[0]) + EncKnums(env, vs[1..])
  }

  // ---------------------------------------------------------------- prototypes

  ghost function DbgOf(env: Env, p: Proto): Dbg { if env.strip then NoDbg else p.dbg }
  ghost function DbgInfo(d: Dbg): Bytes { if d.NoDbg? then [] else d.info }

  ghost function EncDbgHead(env: Env, p: Proto): Bytes {
    if env.strip then []
    else if p.dbg.NoDbg? || |p.dbg.info| == 0 then Enc(0)
    else Enc(|p.dbg.info|) + (Enc(Nat(p.dbg.first)) + Enc(Nat(p.dbg.lines)))
  }

  ghost function EncHead(env: Env, p: Proto): Bytes {
    [p.flags % 8, p.numparams, p.framesize, |p.uv| / 2] +
        (Enc(|p.kgc|) + (Enc(|p.knum|) + (Enc(|p.bc|) + EncDbgHead(env, p))))
  }

  /** pdata of the dump grammar. */
  ghost function EncBody(env: Env, p: Proto): Bytes {
    EncHead(env, p) + (CodeBytes(env, p.traced, p.bc) +
        (p.uv + (EncKgcs(env, p.kgc) + (EncKnums(env, p.knum) + DbgInfo(DbgOf(env, p))))))
  }

  ghost function EncProto(env: Env, p: Proto): Bytes { Enc(|EncBody(env, p)|) + EncBody(env, p) }

  ghost function EncProtos(env: Env, ps: seq<Proto>): Bytes {
    if ps == [] then [] else EncProto(env, ps[0]) + EncProtos(env, ps[1..])
  }

  /** All prototypes of a tree in the order of the dump: children, last constant first, then the parent. */
  ghost function Flat(p: Proto): seq<Proto>
    decreases p, 1, 0
  {
    FlatChildren(p, |p.kgc|) + [p]
  }

  ghost function FlatChildren(p: Proto, n: nat): seq<Proto>
    requires n <= |p.kgc|
    decreases p, 0, n
  {
    if n == 0 then [] else
    (if p.kgc[n - 1].KChild? then Flat(p.kgc[n - 1].child) else []) + FlatChildren(p, n - 1)
  }

  lemma {:induction false} EncProtosAppend(env: Env, ps: seq<Proto>, qs: seq<Proto>)
    ensures EncProtos(env, ps + qs) == EncProtos(env, ps) + EncProtos(env, qs)
    decreases |ps|
  {
    hide EncProto;
    if ps == [] {
      assert ps + qs == qs && EncProtos(env, ps) == [];
      assert [] + EncProtos(env, qs) == EncProtos(env, qs);
    } else {
      EncProtosAppend(env, ps[1..], qs);
      ProtosStep(env, ps, qs);
      hide EncProtos;
      Join2(EncProto(env, ps[0]), EncProtos(env, ps[1..]), EncProtos(env, qs));
    }
  }

  lemma {:induction false} ProtosStep(env: Env, ps: seq<Proto>, qs: seq<Proto>)
    requires ps != []
    ensures EncProtos(env, ps) == EncProto(env, ps[0]) + EncProtos(env, ps[1..])
    ensures EncProtos(env, ps + qs) == EncProto(env, ps[0]) + EncProtos(env, ps[1..] + qs)
  {
    hide EncProto;
    assert (ps + qs)[1..] == ps[1..] + qs;
  }

  lemma {:induction false} NoChildren(p: Proto, n: nat)
    requires n <= |p.kgc| && forall i :: 0 <= i < |p.kgc| ==> !p.kgc[i].KChild?
    ensures FlatChildren(p, n) == []
    decreases n
  {
    if n > 0 { NoChildren(p, n - 1); }
  }

  /** A child's tree is part of its parent's. */
  lemma {:induction false} ChildInside(p: Proto, n: nat, i: nat, q: Proto)
    requires i < n <= |p.kgc| && p.kgc[i].KChild? && q in Flat(p.kgc[i].child)
    ensures q in FlatChildren(p, n)
    decreases n
  {
    if i < n - 1 { ChildInside(p, n - 1, i, q); }
  }

  /** Every prototype of the tree fits the 32 bit length prefix. */
  ghost predicate SizesOk(env: Env, p: Proto) {
    forall q {:trigger EncBody(env, q)} :: q in Flat(p) ==> |EncBody(env, q)| < TWO_32
  }

  const BCDUMP_HEAD1 := 0x1b
  const BCDUMP_HEAD2 := 0x4c
  const BCDUMP_HEAD3 := 0x4a
  const BCDUMP_VERSION := 1
  const F_STRIP := 2
  const F_FFI := 4

  function HeadFlags(env: Env, p: Proto): int { (if env.strip then F_STRIP else 0) + (if p.flags / 4 % 2 == 1
      then F_FFI else 0) }

  ghost function EncHeader(env: Env, p: Proto, name: Bytes): Bytes {
    [BCDUMP_HEAD1, BCDUMP_HEAD2, BCDUMP_HEAD3, BCDUMP_VERSION, HeadFlags(env, p)] + (if env.strip then []
        else Enc(|name|) + name)
  }

  /** A whole dump. */
  ghost function EncDump(env: Env, p: Proto, name: Bytes): Bytes {
    EncHeader(env, p, name) + (EncProtos(env, Flat(p)) + [0])
  }

  // ---------------------------------------------------------------- what the reader builds

  /** A table as the reader fills it: from normalised keys to values. */
  type Map = map<Val, Val>

  datatype RKgc =
    | RStr(s: Bytes)
    | RChild(child: RProto)
    | RTab(tab: Map)
    | RI64(lo: int, hi: int)
    | RU64(lo: int, hi: int)
    | RComplex(rlo: int, rhi: int, ilo: int, ihi: int)

  datatype RProto = RProto(flags: int, numparams: int, framesize: int, uv: Bytes, bc: seq<Ins>, kgc: seq<RKgc>,
      knum: seq<Val>, dbg: Dbg)

  /** Numbers with an integer value are one value, whatever their representation. */
  function Canon(env: Env, v: Val): Val {
    if v.Num? && env.narrow(v.lo, v.hi).Some? then Int(env.narrow(v.lo, v.hi).value) else v
  }

  lemma {:induction false} NarrowedSame(env: Env, v: Val)
    ensures Canon(env, Narrowed(env, v)) == Canon(env, v)
  {
  }

  /** Array slots and pairs entered into a table one after the other. */
  ghost function ReadArr(env: Env, arr: seq<Val>, n: nat): Map
    requires n <= |arr|
  {
    if n == 0 then map[] else ReadArr(env, arr, n - 1)[Int(n - 1) := Narrowed(env, arr[n - 1])]
  }

  ghost function ReadPairs(env: Env, m: Map, ps: seq<(Val, Val)>, n: nat): Map
    requires n <= |ps|
  {
    if n == 0 then m else ReadPairs(env, m, ps, n - 1)[Canon(env, ps[n - 1].0) := Narrowed(env, ps[n - 1].1)]
  }

  ghost function ReadTab(env: Env, t: Tab): Map {
    var n, ps := UsedLen(t.arr), UsedNodes(t.nodes);
    ReadPairs(env, ReadArr(env, t.arr, n), ps, |ps|)
  }

  ghost function Code(env: Env, p: Proto): (bc: seq<Ins>)
    ensures |bc| == |p.bc|
  {
    seq(|p.bc|, i requires 0 <= i < |p.bc| => if p.traced then Unpatch(env, p.bc[i]) else p.bc[i])
  }

  ghost function Knums(env: Env, p: Proto): (ks: seq<Val>)
    ensures |ks| == |p.knum|
  {
    seq(|p.knum|, i requires 0 <= i < |p.knum| => Narrowed(env, p.knum[i]))
  }

  /** Children among the first n constants. */
  ghost function CountChildren(ks: seq<Kgc>, n: nat): (r: nat)
    requires n <= |ks|
    ensures r <= n
  {
    if n == 0 then 0 else CountChildren(ks, n - 1) + if ks[n - 1].KChild? then 1 else 0
  }

  /** The constant i with children taken from the top of a stack, first child first. */
  ghost function Built(env: Env, ks: seq<Kgc>, stack: seq<RProto>, n: nat): (r: seq<RKgc>)
    requires n <= |ks| && CountChildren(ks, n) <= |stack|
    ensures |r| == n
  {
    if n == 0 then [] else
    Built(env, ks, stack, n - 1) + [BuiltOne(env, ks, stack, n - 1)]
  }

  ghost function BuiltOne(env: Env, ks: seq<Kgc>, stack: seq<RProto>, i: nat): RKgc
    requires i < |ks| && CountChildren(ks, i + 1) <= |stack|
  {
    match ks[i]
    case KStr(s) => RStr(s)
    case KChild(_) => RChild(stack[|stack| - 1 - CountChildren(ks, i)])
    case KTab(t) => RTab(ReadTab(env, t))
    case KI64(lo, hi) => RI64(lo, hi)
    case KU64(lo, hi) => RU64(lo, hi)
    case KComplex(a, b, c, d) => RComplex(a, b, c, d)
  }

  ghost function BuiltProto(env: Env, p: Proto, stack: seq<RProto>): RProto
    requires CountChildren(p.kgc, |p.kgc|) <= |stack|
  {
    RProto(p.flags % 8, p.numparams, p.framesize, p.uv, Code(env, p), Built(env, p.kgc, stack, |p.kgc|), Knums(env, p),
        DbgOf(env, p))
  }

  // ---------------------------------------------------------------- the meaning of a tree

  /** The tree as it should come back: same shape, constants of equal value, unpatched code. */
  ghost function Norm(env: Env, p: Proto): RProto
    decreases p, 1, 0
  {
    RProto(p.flags % 8, p.numparams, p.framesize, p.uv, Code(env, p), NormKgcs(env, p, |p.kgc|), Knums(env, p),
        DbgOf(env, p))
  }

  ghost function NormKgcs(env: Env, p: Proto, n: nat): (r: seq<RKgc>)
    requires n <= |p.kgc|
    ensures |r| == n
    decreases p, 0, n
  {
    if n == 0 then [] else
    NormKgcs(env, p, n - 1) +
    [match p.kgc[n - 1]
     case KStr(s) => RStr(s)
     case KChild(c) => RChild(Norm(env, c))
     case KTab(t) => RTab(ReadTab(env, t))
     case KI64(lo, hi) => RI64(lo, hi)
     case KU64(lo, hi) => RU64(lo, hi)
     case KComplex(a, b, c, d) => RComplex(a, b, c, d)]
  }

  // ---------------------------------------------------------------- the stack machine

  /** One prototype read: its children leave the stack, it goes on top. */
  ghost function Push(env: Env, stack: seq<RProto>, p: Proto): Option<seq<RProto>> {
    var m := CountChildren(p.kgc, |p.kgc|);
    if m > |stack| then None else Some(stack[..|stack| - m] + [BuiltProto(env, p, stack)])
  }

  ghost function RunAll(env: Env, stack: seq<RProto>, ps: seq<Proto>): Option<seq<RProto>>
    decreases |ps|
  {
    if ps == [] then Some(stack) else
    var s := Push(env, stack, ps[0]);
    if s.None? then None else RunAll(env, s.value, ps[1..])
  }

  /** The children of the constants below n, as they lie on the stack: last constant first. */
  ghost function ChildStack(env: Env, p: Proto, n: nat): (r: seq<RProto>)
    requires n <= |p.kgc|
    ensures |r| == CountChildren(p.kgc, n)
  {
    if n == 0 then [] else
    (if p.kgc[n - 1].KChild? then [Norm(env, p.kgc[n - 1].child)] else []) + ChildStack(env, p, n - 1)
  }

  lemma {:induction false} RunAppend(env: Env, stack: seq<RProto>, ps: seq<Proto>, qs: seq<Proto>)
    ensures RunAll(env, stack, ps + qs) == (var s := RunAll(env, stack, ps); if s.None? then None
        else RunAll(env, s.value, qs))
    decreases |ps|
  {
    if ps == [] {
      assert ps + qs == qs;
    } else {
      assert (ps + qs)[1..] == ps[1..] + qs;
      var s := Push(env, stack, ps[0]);
      if s.Some? { RunAppend(env, s.value, ps[1..], qs); }
    }
  }

  /** Reading a tree's dump leaves exactly that tree on the stack. */
  lemma {:induction false} RunTree(env: Env, stack: seq<RProto>, p: Proto)
    ensures RunAll(env, stack, Flat(p)) == Some(stack + [Norm(env, p)])
    decreases p, 1, 0
  {
    var n := |p.kgc|;
    RunChildren(env, stack, p, n);
    RunAppend(env, stack, FlatChildren(p, n), [p]);
    var st := stack + ChildStack(env, p, n);
    BuiltIsNorm(env, p, stack, n);
    assert st[..|st| - CountChildren(p.kgc, n)] == stack;
    assert Push(env, st, p) == Some(stack + [Norm(env, p)]);
    assert RunAll(env, st, [p]) == Some(stack + [Norm(env, p)]) by { assert [p][1..] == []; }
  }

  lemma {:induction false} RunChildren(env: Env, stack: seq<RProto>, p: Proto, n: nat)
    requires n <= |p.kgc|
    ensures RunAll(env, stack, FlatChildren(p, n)) == Some(stack + ChildStack(env, p, n))
    decreases p, 0, n
  {
    if n == 0 {
      assert stack + [] == stack;
    } else if p.kgc[n - 1].KChild? {
      var c := p.kgc[n - 1].child;
      RunTree(env, stack, c);
      RunChildren(env, stack + [Norm(env, c)], p, n - 1);
      RunAppend(env, stack, Flat(c), FlatChildren(p, n - 1));
      assert stack + [Norm(env, c)] + ChildStack(env, p, n - 1) == stack + ChildStack(env, p, n);
    } else {
      RunChildren(env, stack, p, n - 1);
      assert FlatChildren(p, n) == FlatChildren(p, n - 1);
      assert ChildStack(env, p, n) == ChildStack(env, p, n - 1);
    }
  }

  /** The child of constant i lies as deep as there are children before it. */
  lemma {:induction false} ChildAt(env: Env, p: Proto, n: nat, i: nat)
    requires i < n <= |p.kgc| && p.kgc[i].KChild?
    ensures CountChildren(p.kgc, i) < CountChildren(p.kgc, n)
    ensures ChildStack(env, p, n)[CountChildren(p.kgc, n) - 1 - CountChildren(p.kgc, i)] == Norm(env, p.kgc[i].child)
    decreases n
  {
    if i < n - 1 { ChildAt(env, p, n - 1, i); }
  }

  lemma {:induction false} CountMonotone(ks: seq<Kgc>, i: nat, n: nat)
    requires i <= n <= |ks|
    ensures CountChildren(ks, i) <= CountChildren(ks, n)
    decreases n
  {
    if i < n { CountMonotone(ks, i, n - 1); }
  }

  lemma {:induction false} BuiltIsNorm(env: Env, p: Proto, stack: seq<RProto>, n: nat)
    requires n <= |p.kgc|
    ensures CountChildren(p.kgc, n) <= |stack + ChildStack(env, p, |p.kgc|)|
    ensures Built(env, p.kgc, stack + ChildStack(env, p, |p.kgc|), n) == NormKgcs(env, p, n)
    decreases n
  {
    CountMonotone(p.kgc, n, |p.kgc|);
    if n > 0 {
      BuiltIsNorm(env, p, stack, n - 1);
      if p.kgc[n - 1].KChild? { ChildAt(env, p, |p.kgc|, n - 1); }
    }
  }

  // ---------------------------------------------------------------- tables as maps

  /** What a table holds under a key: from the array part, or from the node with that key. */
  ghost function Lookup(env: Env, t: Tab, k: Val): Val {
    if k.Int? && 0 <= k.k < |t.arr| then Canon(env, t.arr[k.k]) else NodeLookup(env, t.nodes, k)
  }

  ghost function NodeLookup(env: Env, nodes: seq<(Val, Val)>, k: Val): Val {
    if nodes == [] then Nil
    else var last := nodes[|nodes| - 1];
      if last.0 != Nil && Canon(env, last.0) == k then Canon(env, last.1) else NodeLookup(env, nodes[..|nodes| - 1], k)
  }

  /** The keys of the hash part differ from each other and from the slots of the array part. */
  ghost predicate KeysOk(env: Env, t: Tab) {
    var ps := UsedNodes(t.nodes);
    && (forall i, j :: 0 <= i < j < |ps| ==> Canon(env, ps[i].0) != Canon(env, ps[j].0))
    && (forall i {:trigger ps[i]} :: 0 <= i < |ps| ==> var k := Canon(env, ps[i].0); !(k.Int? && 0 <= k.k < |t.arr|))
  }

  ghost function MapLookup(env: Env, m: Map, k: Val): Val { if k in m then Canon(env, m[k]) else Nil }

  ghost function PairLookup(env: Env, ps: seq<(Val, Val)>, k: Val): Val {
    if ps == [] then Nil else if Canon(env, ps[0].0) == k then Canon(env, ps[0].1) else PairLookup(env, ps[1..], k)
  }

  lemma {:induction false} NodesAsPairs(env: Env, nodes: seq<(Val, Val)>, k: Val)
    ensures NodeLookup(env, nodes, k) == PairLookup(env, UsedNodes(nodes), k)
    decreases |nodes|
  {
    if nodes != [] {
      var init, last := nodes[..|nodes| - 1], nodes[|nodes| - 1];
      NodesAsPairs(env, init, k);
      if last.0 != Nil {
        assert UsedNodes(nodes)[1..] == UsedNodes(init);
      } else {
        assert UsedNodes(nodes) == UsedNodes(init);
      }
    }
  }

  lemma {:induction false} PairAt(env: Env, ps: seq<(Val, Val)>, k: Val)
    ensures (forall i :: 0 <= i < |ps| ==> Canon(env, ps[i].0) != k) ==> PairLookup(env, ps, k) == Nil
    ensures forall i ::
      0 <= i < |ps| && Canon(env, ps[i].0) == k && (forall j :: 0 <= j < i ==> Canon(env, ps[j].0) != k) ==>
      PairLookup(env, ps, k) == Canon(env, ps[i].1)
    decreases |ps|
  {
    if ps != [] {
      var tail := ps[1..];
      PairAt(env, tail, k);
      forall i | 0 <= i < |ps| && Canon(env, ps[i].0) == k && (forall j :: 0 <= j < i ==> Canon(env, ps[j].0) != k)
        ensures PairLookup(env, ps, k) == Canon(env, ps[i].1) {
        if i > 0 {
          assert tail[i - 1] == ps[i];
          assert forall j :: 0 <= j < i - 1 ==> tail[j] == ps[j + 1];
        }
      }
      if forall i :: 0 <= i < |ps| ==> Canon(env, ps[i].0) != k {
        assert forall i :: 0 <= i < |tail| ==> tail[i] == ps[i + 1];
      }
    }
  }

  lemma {:induction false} ReadArrHas(env: Env, arr: seq<Val>, n: nat, k: Val)
    requires n <= |arr|
    ensures k in ReadArr(env, arr, n) <==> k.Int? && 0 <= k.k < n
    ensures k.Int? && 0 <= k.k < n ==> ReadArr(env, arr, n)[k] == Narrowed(env, arr[k.k])
    decreases n
  {
    if n > 0 { ReadArrHas(env, arr, n - 1, k); }
  }

  lemma {:induction false} ReadPairsHas(env: Env, m: Map, ps: seq<(Val, Val)>, n: nat, k: Val)
    requires n <= |ps| && forall i, j :: 0 <= i < j < |ps| ==> Canon(env, ps[i].0) != Canon(env, ps[j].0)
    ensures (forall i :: 0 <= i < n ==> Canon(env, ps[i].0) != k) ==>
        MapLookup(env, ReadPairs(env, m, ps, n), k) == MapLookup(env, m, k)
    ensures forall i :: 0 <= i < n && Canon(env, ps[i].0) == k ==>
        MapLookup(env, ReadPairs(env, m, ps, n), k) == Canon(env, ps[i].1)
    decreases n
  {
    if n > 0 {
      ReadPairsHas(env, m, ps, n - 1, k);
      NarrowedSame(env, ps[n - 1].1);
    }
  }

  /** The table the reader fills holds the same values under the same keys. */
  lemma {:induction false} TableSame(env: Env, t: Tab, k: Val)
    requires KeysOk(env, t)
    ensures MapLookup(env, ReadTab(env, t), k) == Lookup(env, t, k)
  {
    var n, ps := UsedLen(t.arr), UsedNodes(t.nodes);
    ReadArrHas(env, t.arr, n, k);
    ReadPairsHas(env, ReadArr(env, t.arr, n), ps, |ps|, k);
    NodesAsPairs(env, t.nodes, k);
    PairAt(env, ps, k);
    hide ReadArr, ReadPairs, UsedLen, UsedNodes, PairLookup, NodeLookup;
    if k.Int? && 0 <= k.k < n { NarrowedSame(env, t.arr[k.k]); }
    if i :| 0 <= i < |ps| && Canon(env, ps[i].0) == k {
      assert forall j :: 0 <= j < i ==> Canon(env, ps[j].0) != k;
    }
  }

  // ---------------------------------------------------------------- what it means to be the same tree

  /** All tables of a tree have proper keys. */
  ghost predicate AllKeysOk(env: Env, p: Proto)
    decreases p
  {
    forall i {:trigger p.kgc[i]} :: 0 <= i < |p.kgc| ==>
      match p.kgc[i]
      case KTab(t) => KeysOk(env, t)
      case KChild(c) => AllKeysOk(env, c)
      case _ => true
  }

  /**
   r is p again: the same header, upvalues and debug info, instructions as they were before the JIT
   compiler patched them, number constants of the same value, and the same collectable constants.
   */
  ghost predicate SameProto(env: Env, p: Proto, r: RProto)
    decreases p, 1
  {
    && r.flags == p.flags % 8 && r.numparams == p.numparams && r.framesize == p.framesize && r.uv == p.uv
        && r.dbg == DbgOf(env, p)
    && |r.bc| == |p.bc| && |r.knum| == |p.knum| && |r.kgc| == |p.kgc|
    && (forall i {:trigger r.bc[i]} :: 0 <= i < |r.bc| ==>
        if p.traced then Restored(env, p.bc[i], r.bc[i]) else r.bc[i] == p.bc[i])
    && (forall i {:trigger r.knum[i]} :: 0 <= i < |r.knum| ==> Canon(env, r.knum[i]) == Canon(env, p.knum[i]))
    && (forall i {:trigger SameAt(env, p, r, i)} :: 0 <= i < |r.kgc| ==> SameAt(env, p, r, i))
  }

  /** Whatever unpatched instruction i may have come from, out is that instruction. */
  ghost predicate Restored(env: Env, i: Ins, out: Ins) {
    forall ins: Ins {:trigger PatchOf(env, ins, i)} :: !IsJitOp(ins.op) && PatchOf(env, ins, i) ==> out == ins
  }

  /** Constant i: strings and numbers equal, tables with the same value under every key, children again the same. */
  ghost predicate SameAt(env: Env, p: Proto, r: RProto, i: int)
    requires 0 <= i < |p.kgc| == |r.kgc|
    decreases p, 0
  {
    match p.kgc[i]
    case KStr(s) => r.kgc[i] == RStr(s)
    case KChild(c) => r.kgc[i].RChild? && SameProto(env, c, r.kgc[i].child)
    case KTab(t) => r.kgc[i].RTab? && forall k :: MapLookup(env, r.kgc[i].tab, k) == Lookup(env, t, k)
    case KI64(lo, hi) => r.kgc[i] == RI64(lo, hi)
    case KU64(lo, hi) => r.kgc[i] == RU64(lo, hi)
    case KComplex(a, b, c, d) => r.kgc[i] == RComplex(a, b, c, d)
  }

  lemma {:induction false} NormKgcAt(env: Env, p: Proto, n: nat, i: nat)
    requires i < n <= |p.kgc|
    ensures NormKgcs(env, p, n)[i] == NormKgcs(env, p, i + 1)[i]
    decreases n
  {
    if i < n - 1 { NormKgcAt(env, p, n - 1, i); }
  }

  /** What comes back from a dump is the same tree. */
  lemma {:induction false} NormIsSame(env: Env, p: Proto)
    requires AllKeysOk(env, p)
    ensures SameProto(env, p, Norm(env, p))
    decreases p
  {
    var r := Norm(env, p);
    forall i {:trigger SameAt(env, p, r, i)} | 0 <= i < |r.kgc| ensures SameAt(env, p, r, i) {
      NormKgcAt(env, p, |p.kgc|, i);
      match p.kgc[i]
      case KChild(c) => NormIsSame(env, c);
      case KTab(t) => forall k ensures MapLookup(env, ReadTab(env, t), k) == Lookup(env, t, k) { TableSame(env, t, k); }
      case _ =>
    }
    NumbersSame(env, p);
    forall i {:trigger r.bc[i]} | 0 <= i < |r.bc| && p.traced
        ensures Restored(env, p.bc[i], r.bc[i]) { CodeRestored(env, p, i); }
  }

  lemma {:induction false} NumbersSame(env: Env, p: Proto)
    ensures forall i {:trigger Knums(env, p)[i]} :: 0 <= i < |p.knum| ==>
        Canon(env, Knums(env, p)[i]) == Canon(env, p.knum[i])
  {
    forall i {:trigger Knums(env, p)[i]} | 0 <= i < |p.knum|
        ensures Canon(env, Knums(env, p)[i]) == Canon(env, p.knum[i]) {
      NarrowedSame(env, p.knum[i]);
    }
  }

  lemma {:induction false} CodeRestored(env: Env, p: Proto, i: nat)
    requires i < |p.bc| && p.traced
    ensures Restored(env, p.bc[i], Code(env, p)[i])
  {
    forall ins: Ins {:trigger PatchOf(env, ins, p.bc[i])} | !IsJitOp(ins.op) && PatchOf(env, ins, p.bc[i])
        ensures Code(env, p)[i] == ins {
      UnpatchRestores(env, ins, p.bc[i]);
    }
  }
}

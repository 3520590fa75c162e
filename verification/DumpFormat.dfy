/**
 The grammar of a bytecode dump (the comment at the head of lj_bcdump.h), said of the bytes alone:
 which strings of bytes are the dump of a prototype. Tags and header bytes are plain numbers, and a
 ULEB128 number is known by its value.
 */
module DumpFormat {
  import opened Wrappers
  import opened Bits
  import opened Uleb
  import opened DumpSpec

  /** b is a ULEB128 number of value v. */
  ghost predicate IsU(b: Bytes, v: int) { Numeral(b, |b|) && Dec(b).0 == v }

  /** Seven bits of each byte, the first ones lowest. */
  lemma {:induction false} DecSum(b: Bytes)
    requires Numeral(b, |b|) && |b| <= 3
    ensures |b| == 1 ==> Dec(b).0 == b[0]
    ensures |b| == 2 ==> Dec(b).0 == b[0] - 128 + 128 * b[1]
    ensures |b| == 3 ==> Dec(b).0 == b[0] - 128 + 128 * (b[1] - 128) + 16384 * b[2]
  {
    if |b| > 1 {
      assert Dec(b).0 == b[0] - 128 + 128 * Dec(b[1..]).0;
      if |b| > 2 { assert Dec(b[1..]).0 == b[1] - 128 + 128 * Dec(b[1..][1..]).0; }
    }
  }

  // ---------------------------------------------------------------- the grammar: table constants

  /** Numbers with an integer value count as integers unless the build has separate ones. */
  ghost predicate Shown(env: Env, v: Val, w: Val) {
    if !env.dualnum && v.Num? && env.narrow(v.lo, v.hi).Some? then w == Int(env.narrow(v.lo, v.hi).value) else w == v
  }

  /** ktabk: tags 0 nil, 1 false, 2 true, 3 integer, 4 double by its two words, 5 and up strings. */
  ghost predicate KtabkBy(w: Val, b: Bytes, x: Bytes, y: Bytes) {
    match w
    case Nil => b == [0]
    case False => b == [1]
    case True => b == [2]
    case Int(k) => b == [3] + x && IsU(x, k % 0x1_0000_0000)
    case Num(lo, hi) => b == [4] + (x + y) && IsU(x, lo) && IsU(y, hi)
    case Str(s) => b == x + s && IsU(x, 5 + |s|)
  }

  ghost predicate IsKtabk(w: Val, b: Bytes) { exists x, y :: KtabkBy(w, b, x, y) }

  /** A key, or a value, which is shown as an integer where it can be. */
  ghost predicate IsEntry(env: Env, v: Val, key: bool, b: Bytes) {
    exists w :: (if key then w == v else Shown(env, v, w)) && IsKtabk(w, b)
  }

  ghost predicate IsArray(env: Env, vs: seq<Val>, b: Bytes)
    decreases |vs|
  {
    if vs == [] then b == []
    else exists x, y {:trigger x + y} :: b == x + y && IsEntry(env, vs[0], false, x) && IsArray(env, vs[1..], y)
  }

  ghost predicate IsHash(env: Env, ps: seq<(Val, Val)>, b: Bytes)
    decreases |ps|
  {
    if ps == [] then b == []
    else exists x, y, z {:trigger x + (y + z)} ::
      && b == x + (y + z)
      && IsEntry(env, ps[0].0, true, x) && IsEntry(env, ps[0].1, false, y) && IsHash(env, ps[1..], z)
  }

  /** ktab: the two sizes, the array without trailing nils, the used nodes from the last to the first. */
  ghost predicate KtabBy(env: Env, t: Tab, b: Bytes, n: int, ps: seq<(Val, Val)>, x: Bytes, y: Bytes, v: Bytes,
      w: Bytes) {
    && 0 <= n <= |t.arr| && (n > 0 ==> t.arr[n - 1] != Nil) && (forall i :: n <= i < |t.arr| ==> t.arr[i] == Nil)
    && IsUsed(t.nodes, ps)
    && b == x + (y + (v + w)) && IsU(x, n) && IsU(y, |ps|) && IsArray(env, t.arr[..n], v) && IsHash(env, ps, w)
  }

  ghost predicate IsKtab(env: Env, t: Tab, b: Bytes) {
    exists n, ps, x, y, v, w :: KtabBy(env, t, b, n, ps, x, y, v, w)
  }

  /** ps are the nodes with a key, last one first. */
  ghost predicate IsUsed(nodes: seq<(Val, Val)>, ps: seq<(Val, Val)>)
    decreases |nodes|
  {
    if nodes == [] then ps == []
    else
      var last, before := nodes[|nodes| - 1], nodes[..|nodes| - 1];
      if last.0 == Nil then IsUsed(before, ps) else ps != [] && ps[0] == last && IsUsed(before, ps[1..])
  }

  // ---------------------------------------------------------------- the grammar: prototypes

  /** kgc: tags 0 child, 1 table, 2 and 3 64 bit integers, 4 complex, 5 and up strings. */
  ghost predicate KgcBy(env: Env, k: Kgc, b: Bytes, x: Bytes, y: Bytes, v: Bytes, w: Bytes) {
    match k
    case KChild(_) => b == [0]
    case KTab(t) => b == [1] + x && IsKtab(env, t, x)
    case KI64(lo, hi) => b == [2] + (x + y) && IsU(x, lo) && IsU(y, hi)
    case KU64(lo, hi) => b == [3] + (x + y) && IsU(x, lo) && IsU(y, hi)
    case KComplex(rlo, rhi, ilo, ihi) =>
      b == [4] + (x + (y + (v + w))) && IsU(x, rlo) && IsU(y, rhi) && IsU(v, ilo) && IsU(w, ihi)
    case KStr(s) => b == x + s && IsU(x, 5 + |s|)
  }

  ghost predicate IsKgc(env: Env, k: Kgc, b: Bytes) { exists x, y, v, w :: KgcBy(env, k, b, x, y, v, w) }

  ghost predicate IsKgcs(env: Env, ks: seq<Kgc>, b: Bytes)
    decreases |ks|
  {
    if ks == [] then b == []
    else exists x, y {:trigger x + y} :: b == x + y && IsKgc(env, ks[0], x) && IsKgcs(env, ks[1..], y)
  }

  /** knum: an integer doubled, or the low word of a double doubled plus one, followed by the high word. */
  ghost predicate KnumBy(w: Val, b: Bytes, x: Bytes, y: Bytes) {
    match w
    case Int(k) => IsU(b, 2 * (k % 0x1_0000_0000))
    case Num(lo, hi) => b == x + y && IsU(x, 2 * lo + 1) && IsU(y, hi)
    case _ => false
  }

  ghost predicate IsKnum(env: Env, v: Val, b: Bytes) { exists w, x, y :: Shown(env, v, w) && KnumBy(w, b, x, y) }

  ghost predicate IsKnums(env: Env, vs: seq<Val>, b: Bytes)
    decreases |vs|
  {
    if vs == [] then b == []
    else exists x, y {:trigger x + y} :: b == x + y && IsKnum(env, vs[0], x) && IsKnums(env, vs[1..], y)
  }

  /** Four bytes for each instruction: opcode, A, C, B; instructions of a traced function are unpatched. */
  ghost predicate IsCode(env: Env, traced: bool, bc: seq<Ins>, b: Bytes) {
    && |b| == 4 * |bc|
    && forall i :: 0 <= i < |bc| ==> IsIns(if traced then Unpatch(env, bc[i]) else bc[i], b, i)
  }

  ghost predicate IsIns(ins: Ins, b: Bytes, i: int)
    requires 0 <= i && 4 * i + 4 <= |b|
  {
    b[4 * i] == ins.op && b[4 * i + 1] == ins.a && b[4 * i + 2] == ins.c && b[4 * i + 3] == ins.b
  }

  /** Debug sizes: nothing if stripped, a zero if there is no debug info, else its size and the two lines. */
  ghost predicate DbgBy(env: Env, d: Dbg, b: Bytes, x: Bytes, y: Bytes, v: Bytes) {
    if env.strip then b == []
    else if d.NoDbg? then b == [0]
    else b == x + (y + v) && IsU(x, |d.info|) && IsU(y, d.first) && IsU(v, d.lines)
  }

  ghost predicate IsDbg(env: Env, d: Dbg, b: Bytes) { exists x, y, v :: DbgBy(env, d, b, x, y, v) }

  /**
   phead: the flags child, vararg and FFI, the number of parameters, the frame size, the number of
   upvalues, then the numbers of collectable constants, number constants and instructions.
   */
  ghost predicate HeadBy(env: Env, p: Proto, b: Bytes, x: Bytes, y: Bytes, v: Bytes, w: Bytes) {
    && b == [p.flags % 8, p.numparams, p.framesize, |p.uv| / 2] + (x + (y + (v + w)))
    && IsU(x, |p.kgc|) && IsU(y, |p.knum|) && IsU(v, |p.bc|) && IsDbg(env, p.dbg, w)
  }

  ghost predicate IsHead(env: Env, p: Proto, b: Bytes) { exists x, y, v, w :: HeadBy(env, p, b, x, y, v, w) }

  /** pdata */
  ghost predicate BodyBy(env: Env, p: Proto, b: Bytes, h: Bytes, code: Bytes, kgc: Bytes, knum: Bytes) {
    && b == h + (code + (p.uv + (kgc + (knum + if env.strip || p.dbg.NoDbg? then [] else p.dbg.info))))
    && IsHead(env, p, h) && IsCode(env, p.traced, p.bc, code) && IsKgcs(env, p.kgc, kgc) && IsKnums(env, p.knum, knum)
  }

  ghost predicate IsBody(env: Env, p: Proto, b: Bytes) {
    exists h, code, kgc, knum :: BodyBy(env, p, b, h, code, kgc, knum)
  }

  /** proto: its length, and that many bytes. */
  ghost predicate IsProto(env: Env, p: Proto, b: Bytes) {
    exists x, y {:trigger x + y} :: b == x + y && IsU(x, |y|) && IsBody(env, p, y)
  }

  /** A tree: the trees of its children, last constant first, then the prototype itself. */
  ghost predicate IsTree(env: Env, p: Proto, b: Bytes)
    decreases p, 1, 0
  {
    exists x, y {:trigger x + y} :: b == x + y && AreChildren(env, p, |p.kgc|, x) && IsProto(env, p, y)
  }

  ghost predicate AreChildren(env: Env, p: Proto, n: nat, b: Bytes)
    requires n <= |p.kgc|
    decreases p, 0, n
  {
    if n == 0 then b == []
    else if !p.kgc[n - 1].KChild? then AreChildren(env, p, n - 1, b)
    else exists x, y {:trigger x + y} ::
      b == x + y && IsTree(env, p.kgc[n - 1].child, x) && AreChildren(env, p, n - 1, y)
  }

  /** dump: ESC L J, version 1, the flags stripped and FFI, the name unless stripped, the tree, and a zero. */
  ghost predicate DumpBy(env: Env, p: Proto, name: Bytes, b: Bytes, x: Bytes, tree: Bytes) {
    && b == [27, 76, 74, 1, (if env.strip then 2 else 0) + (if p.flags / 4 % 2 == 1 then 4 else 0)] + (x + (tree + [0]))
    && IsName(env, name, x) && IsTree(env, p, tree)
  }

  ghost predicate IsName(env: Env, name: Bytes, b: Bytes) {
    if env.strip then b == [] else exists x {:trigger x + name} :: b == x + name && IsU(x, |name|)
  }

  ghost predicate IsDump(env: Env, p: Proto, name: Bytes, b: Bytes) {
    exists x, tree :: DumpBy(env, p, name, b, x, tree)
  }

  // ---------------------------------------------------------------- what is written is in the grammar

  lemma {:induction false} EncIsU(v: nat)
    ensures IsU(Enc(v), v)
  {
    hide Enc, Dec, Numeral;
    DecEnc(v, []);
    EncNumeral(v, []);
    assert Enc(v) + [] == Enc(v);
  }

  lemma {:induction false} EncSmall(v: nat)
    requires v < 128
    ensures Enc(v) == [v]
  {
  }

  lemma {:induction false} ShownIs(env: Env, v: Val)
    ensures Shown(env, v, Narrowed(env, v))
  {
  }

  lemma {:induction false} KtabkIs(env: Env, v: Val, narrow: bool)
    requires ValOk(v) && EnvOk(env)
    ensures IsEntry(env, v, !narrow, EncVal(env, v, narrow))
  {
    var w := if narrow then Narrowed(env, v) else v;
    var b := EncVal(env, v, narrow);
    ShownIs(env, v);
    hide Enc, IsU, Narrowed;
    match w {
      case Int(k) =>
        EncIsU(U32(k));
        assert KtabkBy(w, b, Enc(U32(k)), []);
      case Num(lo, hi) =>
        WordsOf(env, v, narrow);
        EncIsU(lo);
        EncIsU(hi);
        assert KtabkBy(w, b, Enc(lo), Enc(hi));
      case Str(s) =>
        EncIsU(5 + |s|);
        assert KtabkBy(w, b, Enc(5 + |s|), []);
      case _ => assert KtabkBy(w, b, [], []);
    }
    assert IsKtabk(w, b);
  }

  lemma {:induction false} WordsOf(env: Env, v: Val, narrow: bool)
    requires ValOk(v)
    ensures var w := if narrow then Narrowed(env, v) else v; w.Num? ==> w == v && w.lo >= 0 && w.hi >= 0
  {
  }

  lemma {:induction false} ArrayIs(env: Env, vs: seq<Val>)
    requires EnvOk(env) && forall i {:trigger vs[i]} :: 0 <= i < |vs| ==> ValOk(vs[i])
    ensures IsArray(env, vs, EncVals(env, vs))
    decreases |vs|
  {
    hide EncVal, IsEntry, EnvOk, ValOk;
    if vs != [] {
      assert ValOk(vs[0]);
      KtabkIs(env, vs[0], true);
      ArrayIs(env, vs[1..]);
    }
  }

  lemma {:induction false} HashIs(env: Env, ps: seq<(Val, Val)>)
    requires EnvOk(env) && forall i {:trigger ps[i]} :: 0 <= i < |ps| ==> ValOk(ps[i].0) && ValOk(ps[i].1)
    ensures IsHash(env, ps, EncPairs(env, ps))
    decreases |ps|
  {
    hide EncVal, IsEntry, EnvOk, ValOk;
    if ps != [] {
      assert ValOk(ps[0].0) && ValOk(ps[0].1);
      KtabkIs(env, ps[0].0, false);
      KtabkIs(env, ps[0].1, true);
      HashIs(env, ps[1..]);
    }
  }

  lemma {:induction false} UsedIs(nodes: seq<(Val, Val)>)
    ensures IsUsed(nodes, UsedNodes(nodes))
    decreases |nodes|
  {
    if nodes != [] {
      var last, before := nodes[|nodes| - 1], nodes[..|nodes| - 1];
      UsedIs(before);
      assert last.0 != Nil ==> UsedNodes(nodes) == [last] + UsedNodes(before);
      assert last.0 == Nil ==> UsedNodes(nodes) == [] + UsedNodes(before) == UsedNodes(before);
      assert ([last] + UsedNodes(before))[1..] == UsedNodes(before);
    }
  }

  lemma {:induction false} KtabIs(env: Env, t: Tab)
    requires EnvOk(env) && TabOk(t)
    ensures IsKtab(env, t, EncTab(env, t))
  {
    var n, ps := UsedLen(t.arr), UsedNodes(t.nodes);
    PairsAre(t);
    hide Enc, IsU, IsArray, IsHash, EncVals, EncPairs, IsUsed, UsedLen, UsedNodes, EnvOk, ValOk;
    UsedIs(t.nodes);
    EncIsU(n);
    EncIsU(|ps|);
    ArrayIs(env, t.arr[..n]);
    HashIs(env, ps);
    assert KtabBy(env, t, EncTab(env, t), n, ps, Enc(n), Enc(|ps|), EncVals(env, t.arr[..n]), EncPairs(env, ps));
  }

  lemma {:induction false} PairsAre(t: Tab)
    requires TabOk(t)
    ensures var ps := UsedNodes(t.nodes); forall i {:trigger ps[i]} :: 0 <= i < |ps| ==>
        ValOk(ps[i].0) && ValOk(ps[i].1)
  {
    var ps := UsedNodes(t.nodes);
    hide ValOk, UsedNodes;
    forall i {:trigger ps[i]} | 0 <= i < |ps| ensures ValOk(ps[i].0) && ValOk(ps[i].1) {
      var j :| 0 <= j < |t.nodes| && t.nodes[j] == ps[i];
    }
  }

  lemma {:induction false} KgcIs(env: Env, k: Kgc)
    requires EnvOk(env) && KgcOk(k)
    ensures IsKgc(env, k, EncKgc(env, k))
  {
    hide Enc, IsU, EncTab, IsKtab, EnvOk, TabOk, ProtoOk;
    var b := EncKgc(env, k);
    Tags();
    match k {
      case KStr(s) =>
        EncIsU(5 + |s|);
        assert KgcBy(env, k, b, Enc(5 + |s|), [], [], []);
      case KChild(_) =>
        assert KgcBy(env, k, b, [], [], [], []);
      case KTab(t) =>
        KtabIs(env, t);
        assert KgcBy(env, k, b, EncTab(env, t), [], [], []);
      case KI64(lo, hi) =>
        EncIsU(lo);
        EncIsU(hi);
        assert KgcBy(env, k, b, Enc(lo), Enc(hi), [], []);
      case KU64(lo, hi) =>
        EncIsU(lo);
        EncIsU(hi);
        assert KgcBy(env, k, b, Enc(lo), Enc(hi), [], []);
      case KComplex(rlo, rhi, ilo, ihi) =>
        EncIsU(rlo);
        EncIsU(rhi);
        EncIsU(ilo);
        EncIsU(ihi);
        assert KgcBy(env, k, b, Enc(rlo), Enc(rhi), Enc(ilo), Enc(ihi));
    }
  }

  lemma {:induction false} Tags()
    ensures Enc(0) == [0] && Enc(1) == [1] && Enc(2) == [2] && Enc(3) == [3] && Enc(4) == [4]
  {
  }

  lemma {:induction false} KgcsAre(env: Env, ks: seq<Kgc>)
    requires EnvOk(env) && forall i {:trigger ks[i]} :: 0 <= i < |ks| ==> KgcOk(ks[i])
    ensures IsKgcs(env, ks, EncKgcs(env, ks))
    decreases |ks|
  {
    hide EncKgc, IsKgc, EnvOk, KgcOk;
    if ks != [] {
      assert KgcOk(ks[0]);
      KgcIs(env, ks[0]);
      KgcsAre(env, ks[1..]);
    }
  }

  lemma {:induction false} KnumIs(env: Env, v: Val)
    requires ValOk(v) && (v.Int? || v.Num?) && EnvOk(env)
    ensures IsKnum(env, v, EncKnum(env, v))
  {
    var w := Narrowed(env, v);
    ShownIs(env, v);
    hide Enc, IsU;
    match w {
      case Int(k) =>
        EncIsU(2 * U32(k));
        assert KnumBy(w, EncKnum(env, v), [], []);
      case Num(lo, hi) =>
        WordsOf(env, v, true);
        EncIsU(2 * lo + 1);
        EncIsU(hi);
        assert KnumBy(w, EncKnum(env, v), Enc(2 * lo + 1), Enc(hi));
    }
  }

  lemma {:induction false} KnumsAre(env: Env, vs: seq<Val>)
    requires EnvOk(env)
    requires forall i {:trigger vs[i]} :: 0 <= i < |vs| ==> ValOk(vs[i]) && (vs[i].Int? || vs[i].Num?)
    ensures IsKnums(env, vs, EncKnums(env, vs))
    decreases |vs|
  {
    hide EncKnum, IsKnum, EnvOk, ValOk;
    if vs != [] {
      assert ValOk(vs[0]);
      KnumIs(env, vs[0]);
      KnumsAre(env, vs[1..]);
    }
  }

  lemma {:induction false} CodeIs(env: Env, traced: bool, bc: seq<Ins>)
    ensures IsCode(env, traced, bc, CodeBytes(env, traced, bc))
  {
    CodeLength(env, traced, bc);
    hide CodeBytes, Unpatch;
    var b := CodeBytes(env, traced, bc);
    forall i | 0 <= i < |bc| ensures IsIns(if traced then Unpatch(env, bc[i]) else bc[i], b, i) {
      CodeAt(env, traced, bc, i);
      var s := b[4 * i..4 * i + 4];
      assert s[0] == b[4 * i] && s[1] == b[4 * i + 1] && s[2] == b[4 * i + 2] && s[3] == b[4 * i + 3];
    }
  }

  lemma {:induction false} DbgIs(env: Env, p: Proto)
    requires ProtoOk(p)
    ensures IsDbg(env, p.dbg, EncDbgHead(env, p))
  {
    hide Enc, IsU;
    Tags();
    var d, b := p.dbg, EncDbgHead(env, p);
    if env.strip || d.NoDbg? {
      assert DbgBy(env, d, b, [], [], []);
    } else {
      EncIsU(|d.info|);
      EncIsU(d.first);
      EncIsU(d.lines);
      assert DbgBy(env, d, b, Enc(|d.info|), Enc(d.first), Enc(d.lines));
    }
  }

  lemma {:induction false} HeadIs(env: Env, p: Proto)
    requires ProtoOk(p)
    ensures IsHead(env, p, EncHead(env, p))
  {
    hide Enc, IsU, EncDbgHead, IsDbg, ProtoOk;
    EncIsU(|p.kgc|);
    EncIsU(|p.knum|);
    EncIsU(|p.bc|);
    DbgIs(env, p);
    assert HeadBy(env, p, EncHead(env, p), Enc(|p.kgc|), Enc(|p.knum|), Enc(|p.bc|), EncDbgHead(env, p));
  }

  lemma {:induction false} BodyIs(env: Env, p: Proto)
    requires EnvOk(env) && ProtoOk(p)
    ensures IsBody(env, p, EncBody(env, p))
  {
    HeadIs(env, p);
    CodeIs(env, p.traced, p.bc);
    KgcsAre(env, p.kgc);
    KnumsAre(env, p.knum);
    hide EncHead, IsHead, CodeBytes, IsCode, EncKgcs, IsKgcs, EncKnums, IsKnums, EnvOk, ProtoOk;
    assert BodyBy(env, p, EncBody(env, p), EncHead(env, p), CodeBytes(env, p.traced, p.bc), EncKgcs(env, p.kgc),
        EncKnums(env, p.knum));
  }

  lemma {:induction false} PrototypeIs(env: Env, p: Proto)
    requires EnvOk(env) && ProtoOk(p)
    ensures IsProto(env, p, EncProto(env, p))
  {
    hide Enc, IsU, EncBody, IsBody, EnvOk, ProtoOk;
    EncIsU(|EncBody(env, p)|);
    BodyIs(env, p);
  }

  lemma {:induction false} TreeIs(env: Env, p: Proto)
    requires EnvOk(env) && ProtoOk(p)
    ensures IsTree(env, p, EncProtos(env, Flat(p)))
    decreases p, 1, 0
  {
    hide EncProto, IsProto, AreChildren, EnvOk, ProtoOk, FlatChildren, EncProtos;
    var n := |p.kgc|;
    ChildrenAre(env, p, n);
    PrototypeIs(env, p);
    EncProtosAppend(env, FlatChildren(p, n), [p]);
    OneProto(env, p);
  }

  lemma {:induction false} OneProto(env: Env, p: Proto)
    ensures EncProtos(env, [p]) == EncProto(env, p)
  {
    assert [p][1..] == [];
    assert EncProto(env, p) + [] == EncProto(env, p);
  }

  lemma {:induction false} ChildrenAre(env: Env, p: Proto, n: nat)
    requires EnvOk(env) && ProtoOk(p) && n <= |p.kgc|
    ensures AreChildren(env, p, n, EncProtos(env, FlatChildren(p, n)))
    decreases p, 0, n
  {
    hide EncProto, IsTree, EnvOk, Flat;
    if n > 0 {
      ChildrenAre(env, p, n - 1);
      var more := FlatChildren(p, n - 1);
      if p.kgc[n - 1].KChild? {
        var q := p.kgc[n - 1].child;
        assert KgcOk(p.kgc[n - 1]);
        TreeIs(env, q);
        EncProtosAppend(env, Flat(q), more);
        hide EncProtos, FlatChildren;
      } else {
        assert [] + more == more;
        hide EncProtos;
      }
    }
  }

  /** The dump that is written is a dump of the grammar. */
  lemma {:induction false} DumpIs(env: Env, p: Proto, name: Bytes)
    requires EnvOk(env) && ProtoOk(p)
    ensures IsDump(env, p, name, EncDump(env, p, name))
  {
    hide Enc, IsU, EncProtos, Flat, IsTree, EnvOk, ProtoOk;
    TreeIs(env, p);
    EncIsU(|name|);
    var x := if env.strip then [] else Enc(|name|) + name;
    var head: Bytes := [27, 76, 74, 1, HeadFlags(env, p)];
    Join2(head, x, EncProtos(env, Flat(p)) + [0]);
    assert DumpBy(env, p, name, EncDump(env, p, name), x, EncProtos(env, Flat(p)));
  }
}

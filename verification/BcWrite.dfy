/** The bytecode writer: a growing buffer that is appended to and patched in place. */
module BcWrite {
  import opened Bits
  import opened Uleb
  import opened DumpSpec
  import opened DumpFormat

  /** The first four bytes of a number with r as its lower 28 bits. */
  function Low4(r: nat): Bytes { [r % 128 + 128, r / 128 % 128 + 128, r / 128 / 128 % 128 + 128,
      r / 128 / 128 / 128 + 128] }

  /** An encoding of five bytes. */
  lemma {:induction false} FiveBytes(q: nat, r: nat)
    requires 1 <= q < 128 && r < 0x1000_0000
    ensures Enc(q * 0x1000_0000 + r) == Low4(r) + [q]
  {
    var v := q * 0x1000_0000 + r;
    var a := v / 128;
    assert a == q * 0x20_0000 + r / 128 && v % 128 == r % 128;
    var b := a / 128;
    assert b == q * 0x4000 + r / 128 / 128 && a % 128 == r / 128 % 128;
    var c := b / 128;
    assert c == q * 128 + r / 128 / 128 / 128 && b % 128 == r / 128 / 128 % 128;
    assert c / 128 == q && c % 128 == r / 128 / 128 / 128;
    assert Enc(q) == [q];
    assert Enc(c) == [c % 128 + 128] + Enc(q);
    assert Enc(b) == [b % 128 + 128] + Enc(c);
    assert Enc(a) == [a % 128 + 128] + Enc(b);
    assert Enc(v) == [v % 128 + 128] + Enc(a);
  }

  /** Forcing bit 31 and patching the fifth byte gives the encoding of the 33 bit number. */
  lemma {:induction false} PatchIs33(u: nat, tag: nat)
    requires 0x8000_0000 <= u < TWO_32 && tag <= 1
    ensures var low := 2 * u % TWO_32 % 0x8000_0000 + 0x8000_0000 + tag;
      && low < TWO_32 && |Enc(low)| == 5
      && Enc(low)[..4] + [Enc(low)[4] % 8 + (u / 0x800_0000 % 32 - u / 0x800_0000 % 8)] == Enc(2 * u + tag)
  {
    var low := 2 * u % TWO_32 % 0x8000_0000 + 0x8000_0000 + tag;
    var q, r := (2 * u + tag) / 0x1000_0000, (2 * u + tag) % 0x1000_0000;
    hide Enc, Low4;
    PatchSplit(u, tag);
    Rebuilt(low, 2 * u + tag, q, r);
  }

  lemma {:induction false} Rebuilt(low: nat, v: nat, q: nat, r: nat)
    requires 16 <= q < 32 && r < 0x1000_0000 && low == (8 + q % 8) * 0x1000_0000 + r && v == q * 0x1000_0000 + r
    ensures |Enc(low)| == 5 && Enc(low)[..4] + [Enc(low)[4] % 8 + (q % 32 - q % 8)] == Enc(v)
  {
    hide Enc, Low4;
    FiveBytes(8 + q % 8, r);
    FiveBytes(q, r);
    FourLow(r);
    Patched(Low4(r), 8 + q % 8, q);
    assert (8 + q % 8) % 8 + (q % 32 - q % 8) == q;
  }

  lemma {:induction false} Patched(low: Bytes, a: int, b: int)
    requires |low| == 4
    ensures |low + [a]| == 5 && (low + [a])[4] == a && (low + [a])[..4] + [b] == low + [b]
  {
  }

  lemma {:induction false} FourLow(r: nat)
    ensures |Low4(r)| == 4
  {
  }

  lemma {:induction false} PatchSplit(u: nat, tag: nat)
    requires 0x8000_0000 <= u < TWO_32 && tag <= 1
    ensures var q, r := (2 * u + tag) / 0x1000_0000, (2 * u + tag) % 0x1000_0000;
      q == u / 0x800_0000 && 16 <= q < 32 && 2 * u % TWO_32 % 0x8000_0000 + 0x8000_0000 + tag ==
          (8 + q % 8) * 0x1000_0000 + r
  {
  }

  class Writer {
    const env: Env
    /** The output buffer; its length is the allocated size. */
    var buf: Bytes
    var n: nat
    /** What has been handed to the writer callback. */
    var out: Bytes

    ghost predicate Valid()
      reads this
    {
      n <= |buf| && 5 <= |buf|
    }

    ghost predicate Room(len: int)
      reads this
    {
      n + len <= |buf|
    }

    ghost function Contents(): Bytes
      reads this
      requires Valid()
    {
      buf[..n]
    }

    constructor (env: Env)
      ensures Valid() && this.env == env && out == [] && n == 0
    {
      this.env := env;
      buf := seq(1024, i => 0);
      n, out := 0, [];
    }

    /** Room for len more bytes. */
    method Need(len: nat)
      requires Valid()
      modifies this`buf
      ensures Valid() && Room(len) && Contents() == old(Contents())
    {
      if n + len > |buf| {
        var sz := |buf| * 2;
        while n + len > sz
          invariant sz >= |buf| > 0
          decreases n + len - sz
        {
          sz := sz * 2;
        }
        buf := buf + seq(sz - |buf|, i => 0);
      }
    }

    method Byte(b: int)
      requires Valid() && Room(1)
      modifies this`buf, this`n
      ensures Valid() && |buf| == |old(buf)| && n == old(n) + 1 && Contents() == old(Contents()) + [b]
      ensures buf[n..] == old(buf)[n..]
    {
      buf := buf[n := b];
      n := n + 1;
    }

    method Block(p: Bytes)
      requires Valid() && Room(|p|)
      modifies this`buf, this`n
      ensures Valid() && |buf| == |old(buf)| && Contents() == old(Contents()) + p && n == old(n) + |p|
    {
      var i, q := 0, n;
      n := n + |p|;
      while i < |p|
        invariant 0 <= i <= |p| && |buf| == |old(buf)| && n == old(n) + |p| && q == old(n)
        invariant buf[..q + i] == old(buf)[..q] + p[..i]
      {
        buf := buf[q + i := p[i]];
        i := i + 1;
      }
      assert p[..i] == p;
    }

    method Uleb(v0: nat)
      requires Valid() && Room(|Enc(v0)|)
      modifies this`buf, this`n
      ensures Valid() && |buf| == |old(buf)| && Contents() == old(Contents()) + Enc(v0) && n == old(n) + |Enc(v0)|
      ensures buf[n..] == old(buf)[n..]
    {
      var v := v0;
      while v >= 0x80
        invariant v >= 0 && Valid() && |buf| == |old(buf)| && n >= old(n) && n + |Enc(v)| == old(n) + |Enc(v0)|
        invariant Contents() + Enc(v) == old(Contents()) + Enc(v0)
        invariant buf[n..] == old(buf)[n..]
        decreases v
      {
        buf := buf[n := v % 128 + 128];
        n := n + 1;
        v := v / 128;
      }
      buf := buf[n := v];
      n := n + 1;
    }

    /** A 33 bit number: its upper 32 bits are u, its lowest bit is tag. */
    method Uleb33(u: nat, tag: nat)
      requires Valid() && u < TWO_32 && tag <= 1 && Room(5)
      modifies this`buf, this`n
      ensures Valid() && |buf| == |old(buf)| && Contents() == old(Contents()) + Enc(2 * u + tag) && n <= old(n) + 5
    {
      EncLength(2 * u + tag);
      if u >= 0x8000_0000 {
        var low := 2 * u % TWO_32 % 0x8000_0000 + 0x8000_0000 + tag;
        PatchIs33(u, tag);
        Uleb(low);
        ghost var c := Contents();
        buf := buf[n - 1 := buf[n - 1] % 8 + (u / 0x800_0000 % 32 - u / 0x800_0000 % 8)];
        assert Contents() == c[..n - 1] + [c[n - 1] % 8 + (u / 0x800_0000 % 32 - u / 0x800_0000 % 8)];
        assert c[..n - 1] == old(Contents()) + Enc(low)[..4] && c[n - 1] == Enc(low)[4];
      } else {
        Uleb(2 * u + tag);
      }
    }

    // -------------------------------------------------------------- constants

    /** A key or value of a template table. */
    method Ktabk(v: Val, narrow: bool)
      requires Valid() && ValOk(v) && EnvOk(env)
      modifies this`buf, this`n
      ensures Valid() && Contents() == old(Contents()) + EncVal(env, v, narrow)
    {
      hide Enc, Contents;
      ghost var c := Contents();
      Need(11);
      var w := if narrow then Narrowed(env, v) else v;
      match w
      case Str(s) => Text(KTAB_STR, s);
      case Int(k) =>
        EncLength(U32(k));
        Byte(KTAB_INT);
        Uleb(U32(k));
        assert c + [KTAB_INT] + Enc(U32(k)) == c + ([KTAB_INT] + Enc(U32(k)));
      case Num(lo, hi) =>
        Byte(KTAB_NUM);
        Pair(lo, hi);
        assert c + [KTAB_NUM] + (Enc(lo) + Enc(hi)) == c + ([KTAB_NUM] + (Enc(lo) + Enc(hi)));
      case Nil => Byte(0);
      case False => Byte(1);
      case True => Byte(2);
    }

    /** A string with its length added to a type code. */
    method Text(code: nat, s: Bytes)
      requires Valid() && |s| < 0x7fff_ff00 && code < 128
      modifies this`buf, this`n
      ensures Valid() && Contents() == old(Contents()) + (Enc(code + |s|) + s)
    {
      hide Enc, Contents;
      Need(5 + |s|);
      EncLength(code + |s|);
      ghost var c := Contents();
      Uleb(code + |s|);
      Block(s);
      assert c + Enc(code + |s|) + s == c + (Enc(code + |s|) + s);
    }

    /** The two words of a 64 bit number. */
    method Pair(lo: nat, hi: nat)
      requires Valid() && Room(10) && Word(lo) && Word(hi)
      modifies this`buf, this`n
      ensures Valid() && |buf| == |old(buf)| && Contents() == old(Contents()) + (Enc(lo) + Enc(hi)) && n <= old(n) + 10
    {
      hide Enc, Contents;
      EncLength(lo);
      EncLength(hi);
      ghost var c := Contents();
      Uleb(lo);
      Uleb(hi);
      assert c + Enc(lo) + Enc(hi) == c + (Enc(lo) + Enc(hi));
    }

    /** A template table: used array slots, then used nodes from the last to the first. */
    method Ktab(t: Tab)
      requires Valid() && TabOk(t) && EnvOk(env) && Room(10)
      modifies this`buf, this`n
      ensures Valid() && Contents() == old(Contents()) + EncTab(env, t)
    {
      hide Enc, Contents, EncVals, EncPairs, EncVal, UsedNodes;
      var narray := ArrayLen(t.arr);
      var nhash := CountNodes(t.nodes);
      ghost var ps, c := UsedNodes(t.nodes), Contents();
      EncLength(narray);
      EncLength(nhash);
      Uleb(narray);
      Uleb(nhash);
      Vals(t.arr[..narray]);
      Nodes(t.nodes, nhash);
      assert c + Enc(narray) + Enc(nhash) + EncVals(env, t.arr[..narray]) + EncPairs(env, ps) == c + EncTab(env, t);
    }

    method ArrayLen(arr: seq<Val>) returns (narray: nat)
      ensures narray == UsedLen(arr)
    {
      narray := |arr|;
      assert arr[..narray] == arr;
      while narray > 0 && arr[narray - 1] == Nil
        invariant 0 <= narray <= |arr| && UsedLen(arr) == UsedLen(arr[..narray])
      {
        assert arr[..narray][..narray - 1] == arr[..narray - 1];
        narray := narray - 1;
      }
    }

    method Vals(arr: seq<Val>)
      requires Valid() && EnvOk(env) && forall i {:trigger arr[i]} :: 0 <= i < |arr| ==> ValOk(arr[i])
      modifies this`buf, this`n
      ensures Valid() && Contents() == old(Contents()) + EncVals(env, arr)
    {
      hide Contents, EncVal;
      ghost var c := Contents();
      var i := 0;
      assert arr[0..] == arr;
      while i < |arr|
        invariant 0 <= i <= |arr| && Valid()
        invariant Contents() + EncVals(env, arr[i..]) == c + EncVals(env, arr)
      {
        assert arr[i..][1..] == arr[i + 1..];
        ghost var c1 := Contents();
        Ktabk(arr[i], true);
        assert c1 + (EncVal(env, arr[i], true) + EncVals(env, arr[i + 1..])) == Contents() + EncVals(env, arr[i + 1..]);
        i := i + 1;
      }
      assert Contents() + [] == Contents();
    }

    method CountNodes(nodes: seq<(Val, Val)>) returns (nhash: nat)
      ensures nhash == |UsedNodes(nodes)|
    {
      nhash := 0;
      var i := 0;
      assert nodes[..0] == [];
      while i < |nodes|
        invariant 0 <= i <= |nodes| && nhash == |UsedNodes(nodes[..i])|
      {
        assert nodes[..i + 1][..i] == nodes[..i];
        if nodes[i].0 != Nil { nhash := nhash + 1; }
        i := i + 1;
      }
      assert nodes[..i] == nodes;
    }

    method Nodes(nodes: seq<(Val, Val)>, nhash: nat)
      requires Valid() && EnvOk(env) && nhash == |UsedNodes(nodes)|
      requires forall i {:trigger nodes[i]} :: 0 <= i < |nodes| ==> ValOk(nodes[i].0) && ValOk(nodes[i].1)
      modifies this`buf, this`n
      ensures Valid() && Contents() == old(Contents()) + EncPairs(env, UsedNodes(nodes))
    {
      hide Contents, EncVal, ValOk, EnvOk;
      ghost var c0 := Contents();
      var i, node := nhash, |nodes|;
      assert nodes[..node] == nodes;
      while i > 0
        invariant 0 <= node <= |nodes| && i == |UsedNodes(nodes[..node])| && Valid()
        invariant Contents() + EncPairs(env, UsedNodes(nodes[..node])) == c0 + EncPairs(env, UsedNodes(nodes))
        decreases node
      {
        ghost var ps := UsedNodes(nodes[..node]);
        NodesStep(nodes, node);
        node := node - 1;
        if nodes[node].0 != Nil {
          Node(nodes[node], ps);
          i := i - 1;
        }
      }
      assert EncPairs(env, UsedNodes(nodes[..node])) == [];
      assert Contents() + [] == Contents();
    }

    /** One used node. */
    method Node(node: (Val, Val), ghost ps: seq<(Val, Val)>)
      requires Valid() && EnvOk(env) && ps != [] && ps[0] == node && ValOk(node.0) && ValOk(node.1)
      modifies this`buf, this`n
      ensures Valid() && Contents() + EncPairs(env, ps[1..]) == old(Contents()) + EncPairs(env, ps)
    {
      hide Contents, EncVal, ValOk, EnvOk;
      ghost var c := Contents();
      Ktabk(node.0, false);
      Ktabk(node.1, true);
      ghost var k, v, r := EncVal(env, node.0, false), EncVal(env, node.1, true), EncPairs(env, ps[1..]);
      assert c + (k + (v + r)) == c + k + v + r;
    }

    /** The collectable constants of a prototype, in ascending order. */
    method Kgcs(ks: seq<Kgc>)
      requires Valid() && EnvOk(env) && forall i {:trigger ks[i]} :: 0 <= i < |ks| ==> KgcOk(ks[i])
      modifies this`buf, this`n
      ensures Valid() && Contents() == old(Contents()) + EncKgcs(env, ks)
    {
      hide Contents, EncKgc, KgcOk, EnvOk;
      ghost var c := Contents();
      var i := 0;
      assert ks[0..] == ks;
      while i < |ks|
        invariant 0 <= i <= |ks| && Valid()
        invariant Contents() + EncKgcs(env, ks[i..]) == c + EncKgcs(env, ks)
      {
        assert ks[i..][1..] == ks[i + 1..];
        ghost var c1 := Contents();
        OneKgc(ks[i]);
        assert c1 + (EncKgc(env, ks[i]) + EncKgcs(env, ks[i + 1..])) == Contents() + EncKgcs(env, ks[i + 1..]);
        i := i + 1;
      }
      assert Contents() + [] == Contents();
    }

    method OneKgc(k: Kgc)
      requires Valid() && EnvOk(env) && KgcOk(k)
      modifies this`buf, this`n
      ensures Valid() && Contents() == old(Contents()) + EncKgc(env, k)
    {
      hide Contents, Enc, EncTab, EnvOk, TabOk, ProtoOk;
      ghost var c := Contents();
      SmallLengths();
      match k
      case KStr(s) => Text(KGC_STR, s);
      case KChild(_) =>
        Need(1);
        Uleb(KGC_CHILD);
      case KTab(t) =>
        Need(11);
        Uleb(KGC_TAB);
        Ktab(t);
        assert c + Enc(KGC_TAB) + EncTab(env, t) == c + (Enc(KGC_TAB) + EncTab(env, t));
      case KI64(lo, hi) => Words(KGC_I64, lo, hi);
      case KU64(lo, hi) => Words(KGC_U64, lo, hi);
      case KComplex(rlo, rhi, ilo, ihi) =>
        Need(21);
        Uleb(KGC_COMPLEX);
        Pair(rlo, rhi);
        Pair(ilo, ihi);
        assert c + Enc(KGC_COMPLEX) + (Enc(rlo) + Enc(rhi)) + (Enc(ilo) + Enc(ihi)) == c + EncKgc(env, k);
    }

    method Words(code: nat, lo: nat, hi: nat)
      requires Valid() && code < 128 && Word(lo) && Word(hi)
      modifies this`buf, this`n
      ensures Valid() && Contents() == old(Contents()) + (Enc(code) + (Enc(lo) + Enc(hi)))
    {
      hide Contents, Enc;
      EncLength(code);
      ghost var c := Contents();
      Need(21);
      Uleb(code);
      Pair(lo, hi);
      assert c + Enc(code) + (Enc(lo) + Enc(hi)) == c + (Enc(code) + (Enc(lo) + Enc(hi)));
    }

    /** The number constants of a prototype. */
    method Knums(ks: seq<Val>)
      requires Valid() && EnvOk(env) && forall i {:trigger ks[i]} :: 0 <= i < |ks| ==>
          ValOk(ks[i]) && (ks[i].Int? || ks[i].Num?)
      modifies this`buf, this`n
      ensures Valid() && Contents() == old(Contents()) + EncKnums(env, ks)
    {
      hide Contents, EncKnum;
      ghost var c := Contents();
      Need(10 * |ks|);
      var i := 0;
      assert ks[0..] == ks;
      while i < |ks|
        invariant 0 <= i <= |ks| && Valid() && Room(10 * (|ks| - i))
        invariant Contents() + EncKnums(env, ks[i..]) == c + EncKnums(env, ks)
      {
        assert ks[i..][1..] == ks[i + 1..];
        ghost var c1 := Contents();
        OneKnum(ks[i]);
        assert c1 + (EncKnum(env, ks[i]) + EncKnums(env, ks[i + 1..])) == Contents() + EncKnums(env, ks[i + 1..]);
        i := i + 1;
      }
      assert Contents() + [] == Contents();
    }

    /** Ten bytes always suffice for one number. */
    method OneKnum(v: Val)
      requires Valid() && EnvOk(env) && ValOk(v) && (v.Int? || v.Num?) && Room(10)
      modifies this`buf, this`n
      ensures Valid() && |buf| == |old(buf)| && n <= old(n) + 10 && Contents() == old(Contents()) + EncKnum(env, v)
    {
      hide Contents, Enc;
      match Narrowed(env, v) {
        case Int(k) => Uleb33(U32(k), 0);
        case Num(lo, hi) =>
          ghost var c := Contents();
          EncLength(hi);
          Uleb33(lo, 1);
          Uleb(hi);
          assert c + Enc(2 * lo + 1) + Enc(hi) == c + (Enc(2 * lo + 1) + Enc(hi));
      }
    }

    // -------------------------------------------------------------- instructions

    /** The instructions as they are in memory, then unpatched in place. */
    method Bytecode(traced: bool, bc: seq<Ins>)
      requires Valid() && Room(4 * |bc|)
      modifies this`buf, this`n
      ensures Valid() && |buf| == |old(buf)| && n == old(n) + 4 * |bc|
      ensures Contents() == old(Contents()) + CodeBytes(env, traced, bc)
    {
      hide CodeBytes;
      var p := n;
      ghost var c := Contents();
      CodeLength(env, false, bc);
      CodeLength(env, true, bc);
      Block(CodeBytes(env, false, bc));
      if traced {
        var i := 0;
        RawSlices(env, buf, bc, p, c);
        while i < |bc|
          invariant 0 <= i <= |bc| && Valid() && |buf| == |old(buf)| && n == p + 4 * |bc| && buf[..p] == c
          invariant forall j {:trigger Slice(buf, p, j)} :: 0 <= j < |bc| ==>
              Slice(buf, p, j) == InsBytes(if j < i then Unpatch(env, bc[j]) else bc[j])
        {
          UnpatchAt(p + 4 * i, bc[i], p, |bc|, i);
          i := i + 1;
        }
        SlicesAre(env, buf, bc, p);
      }
    }

    /** One instruction in place. */
    method UnpatchAt(q: nat, ghost ins: Ins, ghost p: nat, ghost len: nat, ghost i: nat)
      requires Valid() && i < len && q == p + 4 * i && p + 4 * len == n && Slice(buf, p, i) == InsBytes(ins)
      modifies this`buf
      ensures Valid() && |buf| == |old(buf)| && buf[..p] == old(buf)[..p]
      ensures Slice(buf, p, i) == InsBytes(Unpatch(env, ins))
      ensures forall j {:trigger Slice(buf, p, j)} :: 0 <= j < len && j != i ==>
          Slice(buf, p, j) == Slice(old(buf), p, j)
    {
      var op := buf[q];
      assert Slice(buf, p, i) == [buf[q], buf[q + 1], buf[q + 2], buf[q + 3]];
      if op == BC_IFORL || op == BC_IITERL || op == BC_ILOOP || op == BC_JFORI {
        buf := buf[q := op - BC_IFORL + BC_FORL];
      } else if op == BC_JFORL || op == BC_JITERL || op == BC_JLOOP {
        var rd := buf[q + 2] + 256 * buf[q + 3];
        if rd in env.startins {
          var ins := env.startins[rd];
          buf := buf[q := ins.op][q + 1 := ins.a][q + 2 := ins.c][q + 3 := ins.b];
        }
      }
      assert Slice(buf, p, i) == [buf[q], buf[q + 1], buf[q + 2], buf[q + 3]];
    }

    // -------------------------------------------------------------- prototypes

    /** phead of the dump grammar; 34 bytes always suffice. */
    method Head(p: Proto)
      requires Valid() && ProtoOk(p) && Room(34)
      modifies this`buf, this`n
      ensures Valid() && |buf| == |old(buf)| && n <= old(n) + 34 && Contents() == old(Contents()) + EncHead(env, p)
    {
      hide Contents, Enc, KgcOk, InsOk, ValOk, EncDbgHead;
      ghost var c := Contents();
      FourBytes(p.flags % 8, p.numparams, p.framesize, |p.uv| / 2);
      EncLength(|p.kgc|);
      EncLength(|p.knum|);
      EncLength(|p.bc|);
      Uleb(|p.kgc|);
      Uleb(|p.knum|);
      Uleb(|p.bc|);
      DbgHead(p);
      Join5(c, [p.flags % 8, p.numparams, p.framesize, |p.uv| / 2], Enc(|p.kgc|), Enc(|p.knum|), Enc(|p.bc|),
          EncDbgHead(env, p));
    }

    method FourBytes(a: int, b: int, c: int, d: int)
      requires Valid() && Room(4)
      modifies this`buf, this`n
      ensures Valid() && |buf| == |old(buf)| && n == old(n) + 4 && Contents() == old(Contents()) + [a, b, c, d]
    {
      hide Contents;
      ghost var c0 := Contents();
      Byte(a);
      Byte(b);
      Byte(c);
      Byte(d);
      Join4(c0, [a], [b], [c], [d]);
      assert [a] + ([b] + ([c] + [d])) == [a, b, c, d];
    }

    method DbgHead(p: Proto)
      requires Valid() && ProtoOk(p) && Room(15)
      modifies this`buf, this`n
      ensures Valid() && |buf| == |old(buf)| && n <= old(n) + 15 && Contents() == old(Contents()) + EncDbgHead(env, p)
    {
      hide Contents, Enc, KgcOk, InsOk, ValOk;
      ghost var c := Contents();
      if env.strip {
        assert c + [] == c;
      } else {
        var sizedbg := if p.dbg.Dbg? then |p.dbg.info| else 0;
        EncLength(sizedbg);
        Uleb(sizedbg);
        if sizedbg > 0 {
          Pair(p.dbg.first, p.dbg.lines);
          assert c + Enc(sizedbg) + (Enc(p.dbg.first) + Enc(p.dbg.lines)) == c + EncDbgHead(env, p);
        }
      }
    }

    /** pdata of the dump grammar, behind the room left for its length. */
    method Body(p: Proto)
      requires Valid() && EnvOk(env) && ProtoOk(p)
      modifies this`buf, this`n
      ensures Valid() && n >= 5 && buf[5..n] == EncBody(env, p)
    {
      hide Contents, Enc, KgcOk, InsOk, ValOk, EnvOk, EncHead, CodeBytes, EncKgcs, EncKnums;
      n := 5;
      ghost var c := Contents();
      assert |c| == 5 by { ContentsLength(); }
      Need(34 + 4 * |p.bc| + |p.uv|);
      Head(p);
      Bytecode(p.traced, p.bc);
      Block(p.uv);
      Kgcs(p.kgc);
      Knums(p.knum);
      ghost var c1 := Contents();
      if !env.strip && p.dbg.Dbg? {
        Need(|p.dbg.info|);
        Block(p.dbg.info);
      } else {
        assert c1 + [] == c1;
      }
      Join6(c, EncHead(env, p), CodeBytes(env, p.traced, p.bc), p.uv, EncKgcs(env, p.kgc), EncKnums(env, p.knum),
          DbgInfo(DbgOf(env, p)));
      BehindFive(c, EncBody(env, p));
    }

    lemma {:induction false} ContentsLength()
      requires Valid()
      ensures |Contents()| == n
    {
    }

    lemma {:induction false} BehindFive(c: Bytes, body: Bytes)
      requires Valid() && |c| == 5 && Contents() == c + body
      ensures n >= 5 && buf[5..n] == body
    {
      assert buf[5..n] == Contents()[5..];
    }

    /** A prototype after its children: the length is filled in just before the data. */
    method WriteProto(p: Proto)
      requires Valid() && EnvOk(env) && ProtoOk(p) && SizesOk(env, p)
      modifies this`buf, this`n, this`out
      ensures Valid() && out == old(out) + EncProtos(env, Flat(p))
      decreases p
    {
      hide Contents, Enc, KgcOk, InsOk, ValOk, EnvOk, EncBody, EncProto, EncProtos, FlatChildren;
      ghost var n0 := |p.kgc|;
      if p.flags % 2 == 1 {
        var i := |p.kgc|;
        while i > 0
          invariant 0 <= i <= |p.kgc| && Valid()
          invariant out + EncProtos(env, FlatChildren(p, i)) == old(out) + EncProtos(env, FlatChildren(p, n0))
        {
          ghost var out1 := out;
          i := i - 1;
          FlatStep(p, i);
          if p.kgc[i].KChild? {
            ChildOk(env, p, i);
            WriteProto(p.kgc[i].child);
            EncProtosAppend(env, Flat(p.kgc[i].child), FlatChildren(p, i));
            Join2(out1, EncProtos(env, Flat(p.kgc[i].child)), EncProtos(env, FlatChildren(p, i)));
          }
        }
        FlatNone(env, p);
        assert out + [] == out;
      } else {
        NoChildren(p, n0);
        FlatNone(env, p);
        assert out + [] == out;
      }
      ghost var out2 := out;
      Body(p);
      Finish(p);
      EncProtosAppend(env, FlatChildren(p, n0), [p]);
      EncProtosOne(env, p);
      Join2(old(out), EncProtos(env, FlatChildren(p, n0)), EncProto(env, p));
    }

    /** The length goes right in front of the data. */
    method Finish(p: Proto)
      requires Valid() && n >= 5 && buf[5..n] == EncBody(env, p) && SizesOk(env, p)
      modifies this`buf, this`n, this`out
      ensures Valid() && out == old(out) + EncProto(env, p)
    {
      hide Enc, EncBody, Flat, SizesOk, EncProto;
      OwnSize(env, p);
      Prefix(n - 5, EncBody(env, p));
      ProtoIs(env, p);
    }

    /** The length in front of data that starts at 5; both go out. */
    method Prefix(len: nat, ghost body: Bytes)
      requires Valid() && n == 5 + len && buf[5..n] == body && 0 < len < TWO_32
      modifies this`buf, this`n, this`out
      ensures Valid() && out == old(out) + (Enc(len) + body)
    {
      hide Enc;
      var nn := PrefixLen(len);
      PrefixLenExact(len);
      n := 5 - nn;
      Uleb(len);
      out := out + buf[5 - nn..5 + len];
      FilledIn(old(buf), buf, nn, len, Contents(), Enc(len));
    }

    lemma {:induction false} FilledIn(b0: Bytes, b: Bytes, nn: nat, len: nat, c: Bytes, e: Bytes)
      requires nn <= 5 && 5 + len <= |b| == |b0| && |c| == 5 && b[..5] == c && c[5 - nn..] == e && b[5..] == b0[5..]
      ensures b[5 - nn..5 + len] == e + b0[5..5 + len]
    {
      assert b[5 - nn..5] == b[..5][5 - nn..];
      assert b[5..5 + len] == b[5..][..len] && b0[5..5 + len] == b0[5..][..len];
      assert b[5 - nn..5 + len] == b[5 - nn..5] + b[5..5 + len];
    }

    /** lj_bcwrite: header, all prototypes, end mark. */
    method WriteDump(p: Proto, name: Bytes)
      requires Valid() && EnvOk(env) && ProtoOk(p) && SizesOk(env, p) && |name| < TWO_32 && out == []
      modifies this`buf, this`n, this`out
      ensures Valid() && out == EncDump(env, p, name) && IsDump(env, p, name, out)
    {
      hide Contents, Enc, KgcOk, InsOk, ValOk, EnvOk, EncProtos, Flat, ProtoOk, SizesOk, EncHeader, IsDump;
      Header(p, name);
      out := out + buf[..n];
      WriteProto(p);
      out := out + [0];
      Join2(EncHeader(env, p, name), EncProtos(env, Flat(p)), [0]);
      DumpIs(env, p, name);
    }

    method Header(p: Proto, name: Bytes)
      requires Valid() && |name| < TWO_32
      modifies this`buf, this`n
      ensures Valid() && buf[..n] == EncHeader(env, p, name)
    {
      hide Contents, Enc, HeadFlags;
      n := 0;
      Need(10 + |name|);
      assert Contents() == [] by { Nothing(); }
      Byte(BCDUMP_HEAD1);
      FourBytes(BCDUMP_HEAD2, BCDUMP_HEAD3, BCDUMP_VERSION, HeadFlags(env, p));
      ghost var c := [BCDUMP_HEAD1, BCDUMP_HEAD2, BCDUMP_HEAD3, BCDUMP_VERSION, HeadFlags(env, p)];
      assert Contents() == c;
      if !env.strip {
        EncLength(|name|);
        Uleb(|name|);
        Block(name);
        Join2(c, Enc(|name|), name);
      } else {
        assert c + [] == c;
      }
      Whole();
    }

    lemma {:induction false} Nothing()
      requires Valid() && n == 0
      ensures Contents() == []
    {
    }

    lemma {:induction false} Whole()
      requires Valid()
      ensures buf[..n] == Contents()
    {
    }
  }

  lemma {:induction false} ProtoIs(env: Env, p: Proto)
    ensures EncProto(env, p) == Enc(|EncBody(env, p)|) + EncBody(env, p)
  {
  }

  lemma {:induction false} OwnSize(env: Env, p: Proto)
    requires SizesOk(env, p)
    ensures 4 <= |EncBody(env, p)| < TWO_32
  {
    assert p in Flat(p);
  }

  lemma {:induction false} EncProtosOne(env: Env, p: Proto)
    ensures EncProtos(env, [p]) == EncProto(env, p)
  {
    assert [p][1..] == [] && EncProtos(env, []) == [];
    assert EncProto(env, p) + [] == EncProto(env, p);
  }

  lemma {:induction false} FlatStep(p: Proto, i: nat)
    requires i < |p.kgc|
    ensures FlatChildren(p, i + 1) == if p.kgc[i].KChild? then Flat(p.kgc[i].child) + FlatChildren(p, i)
        else FlatChildren(p, i)
  {
  }

  lemma {:induction false} FlatNone(env: Env, p: Proto)
    ensures FlatChildren(p, 0) == [] && EncProtos(env, []) == []
  {
  }

  /** A child inherits what its parent is known to satisfy. */
  lemma {:induction false} ChildOk(env: Env, p: Proto, i: nat)
    requires ProtoOk(p) && SizesOk(env, p) && i < |p.kgc| && p.kgc[i].KChild?
    ensures ProtoOk(p.kgc[i].child) && SizesOk(env, p.kgc[i].child)
  {
    assert KgcOk(p.kgc[i]);
    forall q {:trigger EncBody(env, q)} | q in Flat(p.kgc[i].child) ensures |EncBody(env, q)| < TWO_32 {
      ChildInside(p, |p.kgc|, i, q);
      assert q in Flat(p);
    }
  }

  /** The four bytes of instruction j of the code at p. */
  ghost function Slice(buf: Bytes, p: nat, j: nat): Bytes {
    if p + 4 * j + 4 <= |buf| then buf[p + 4 * j..p + 4 * j + 4] else []
  }

  lemma {:induction false} RawSlices(env: Env, buf: Bytes, bc: seq<Ins>, p: nat, c: Bytes)
    requires |c| == p && p + 4 * |bc| <= |buf| && |CodeBytes(env, false, bc)| == 4 * |bc|
    requires buf[..p + 4 * |bc|] == c + CodeBytes(env, false, bc)
    ensures buf[..p] == c
    ensures forall j {:trigger Slice(buf, p, j)} :: 0 <= j < |bc| ==> Slice(buf, p, j) == InsBytes(bc[j])
  {
    var n := p + 4 * |bc|;
    assert buf[..p] == buf[..n][..p];
    forall j {:trigger Slice(buf, p, j)} | 0 <= j < |bc| ensures Slice(buf, p, j) == InsBytes(bc[j]) {
      CodeAt(env, false, bc, j);
      assert buf[p + 4 * j..p + 4 * j + 4] == buf[..n][p + 4 * j..p + 4 * j + 4] == CodeBytes(env, false,
          bc)[4 * j..4 * j + 4];
    }
  }

  lemma {:induction false} SlicesAre(env: Env, buf: Bytes, bc: seq<Ins>, p: nat)
    requires p + 4 * |bc| <= |buf| && |CodeBytes(env, true, bc)| == 4 * |bc|
    requires forall j {:trigger Slice(buf, p, j)} :: 0 <= j < |bc| ==> Slice(buf, p, j) == InsBytes(Unpatch(env, bc[j]))
    ensures buf[..p + 4 * |bc|] == buf[..p] + CodeBytes(env, true, bc)
  {
    var code := CodeBytes(env, true, bc);
    forall x | 0 <= x < 4 * |bc| ensures buf[p + x] == code[x] {
      var j := x / 4;
      CodeAt(env, true, bc, j);
      assert Slice(buf, p, j) == InsBytes(Unpatch(env, bc[j]));
      assert buf[p + x] == Slice(buf, p, j)[x - 4 * j];
      assert code[x] == code[4 * j..4 * j + 4][x - 4 * j];
    }
  }

  lemma {:induction false} SmallLengths()
    ensures |Enc(KGC_CHILD)| == 1 && |Enc(KGC_TAB)| == 1 && |Enc(KGC_COMPLEX)| == 1
  {
  }

  lemma {:induction false} NodesStep(nodes: seq<(Val, Val)>, node: nat)
    requires node <= |nodes| && UsedNodes(nodes[..node]) != []
    ensures node > 0
    ensures UsedNodes(nodes[..node]) == (if nodes[node - 1].0 != Nil then [nodes[node - 1]] else []) +
        UsedNodes(nodes[..node - 1])
    ensures nodes[node - 1].0 != Nil ==> UsedNodes(nodes[..node])[1..] == UsedNodes(nodes[..node - 1])
    ensures nodes[node - 1].0 == Nil ==> UsedNodes(nodes[..node]) == UsedNodes(nodes[..node - 1])
  {
    assert node > 0;
    assert nodes[..node][..node - 1] == nodes[..node - 1];
  }
}

/**
 The bytecode reader: a buffer refilled from the blocks of a reader callback, decoding loops that
 advance through it, and a stack on which prototypes find their children.
 */
module BcRead {
  import opened Wrappers
  import opened Bits
  import opened Uleb
  import opened DumpSpec

  const LJ_MAX_MEM := 0x7fff_ff00

  /** What the reader callback will still deliver; an empty block means end of file. */
  ghost function Input(blocks: seq<Bytes>): Bytes {
    if blocks == [] || blocks[0] == [] then [] else blocks[0] + Input(blocks[1..])
  }

  class LexState {
    const env: Env
    /** Contents of the string buffer and its allocated size. */
    var sb: Bytes
    var sz: nat
    /** The block last delivered by the reader callback. */
    var chunk: Bytes
    /** Unread bytes: n of them, at p in the string buffer if that is in use, else in the block. */
    var p: nat
    var n: nat
    var blocks: seq<Bytes>
    /** End of file has been seen (ls->current < 0). */
    var eof: bool
    var flags: int
    /** Prototypes on the Lua stack. */
    var stack: seq<RProto>

    ghost predicate Valid()
      reads this`sb, this`sz, this`chunk, this`p, this`n
    {
      0 < sz && |sb| <= sz && p + n == (if |sb| > 0 then |sb| else |chunk|)
    }

    /** The unread bytes at hand. */
    ghost function Window(): (w: Bytes)
      reads this`sb, this`sz, this`chunk, this`p, this`n
      requires Valid()
      ensures |w| == n
    {
      if |sb| > 0 then sb[p..] else chunk[p..]
    }

    /** All unread bytes. */
    ghost function Rest(): Bytes
      reads this`sb, this`sz, this`chunk, this`p, this`n, this`eof, this`blocks
      requires Valid()
    {
      Window() + Tail()
    }

    /** What the reader callback has not delivered yet. */
    ghost function Tail(): Bytes
      reads this`eof, this`blocks
    {
      if eof then [] else Input(blocks)
    }

    constructor (env: Env, chunk: Bytes, p: nat, blocks: seq<Bytes>, sz: nat)
      requires p <= |chunk| && 0 < sz
      ensures Valid() && this.env == env && stack == [] && !eof && Rest() == chunk[p..] + Input(blocks)
    {
      this.env, this.chunk, this.p, this.blocks, this.sz := env, chunk, p, blocks, sz;
      n, sb, eof, flags, stack := |chunk| - p, [], false, 0, [];
    }

    // -------------------------------------------------------------- refilling

    method Resize(len: nat)
      requires 0 < sz
      modifies this`sz
      ensures sz >= len && sz >= old(sz)
    {
      if sz < len {
        var s := sz * 2;
        while len > s
          invariant s > 0 && s >= sz
          decreases len - s
        {
          s := s * 2;
        }
        sz := s;
      }
    }

    /**
     bcread_fill: no byte is lost, duplicated or moved out of order, however the input is cut into
     blocks; success means len bytes at hand, or all there are if that is allowed.
     */
    method Fill(len: nat, need: bool) returns (ok: bool)
      requires Valid() && n < len
      modifies this`sb, this`sz, this`chunk, this`p, this`n, this`blocks, this`eof
      ensures Valid()
      ensures ok ==> Rest() == old(Rest()) && (n >= len || (!need && eof && Window() == Rest()))
      ensures !ok ==> len > LJ_MAX_MEM || old(eof) || (need && |old(Rest())| < len) || |old(Rest())| >= LJ_MAX_MEM
    {
      if len > LJ_MAX_MEM || eof { return false; }
      hide Window;
      while n < len
        invariant Valid() && !eof && Rest() == old(Rest())
        decreases |blocks|
      {
        MoveDown(len);
        if blocks == [] || blocks[0] == [] {
          if need { return false; }
          eof := true;
          return true;
        }
        var buf := blocks[0];
        if |buf| >= LJ_MAX_MEM - |sb| { return false; }
        Take(len);
      }
      return true;
    }

    /** The next block is appended to the string buffer, or used as it is. */
    method Take(len: nat)
      requires Valid() && |sb| == n && !eof && blocks != [] && blocks[0] != []
      modifies this`sb, this`sz, this`chunk, this`p, this`n, this`blocks
      ensures Valid() && Rest() == old(Rest()) && blocks == old(blocks)[1..]
    {
      var buf := blocks[0];
      ghost var w := Window();
      blocks := blocks[1..];
      if |sb| > 0 {
        var m := |sb| + |buf|;
        Resize(if m < len then len else m);
        sb := sb + buf;
        n, p := m, 0;
      } else {
        n, chunk, p := |buf|, buf, 0;
      }
      assert Window() == w + buf;
      hide Window, Input;
      Join2(w, buf, Input(blocks));
      BlockFirst(buf, blocks);
    }

    /** The unread bytes move to the start of the string buffer. */
    method MoveDown(len: nat)
      requires Valid() && n < len
      modifies this`sb, this`sz, this`p
      ensures Valid() && Rest() == old(Rest()) && |sb| == n
    {
      if n > 0 {
        if |sb| > 0 {
          if n != |sb| { sb := sb[p..]; }
        } else {
          Resize(len);
          sb := chunk[p..];
        }
        p := 0;
      } else {
        sb := [];
        p := |chunk|;
      }
    }

    method Need(len: nat) returns (ok: bool)
      requires Valid()
      modifies this`sb, this`sz, this`chunk, this`p, this`n, this`blocks, this`eof
      ensures Valid()
      ensures ok ==> Rest() == old(Rest()) && n >= len
      ensures !ok ==> old(n) < len
      ensures !ok ==> len > LJ_MAX_MEM || old(eof) || |old(Rest())| < len || |old(Rest())| >= LJ_MAX_MEM
    {
      ok := true;
      if n < len { ok := Fill(len, true); }
    }

    method Want(len: nat) returns (ok: bool)
      requires Valid()
      modifies this`sb, this`sz, this`chunk, this`p, this`n, this`blocks, this`eof
      ensures Valid()
      ensures ok ==> Rest() == old(Rest()) && (n >= len || (eof && Window() == Rest()))
      ensures !ok ==> old(n) < len && (len > LJ_MAX_MEM || old(eof) || |old(Rest())| >= LJ_MAX_MEM)
    {
      ok := true;
      if n < len { ok := Fill(len, false); }
    }

    // -------------------------------------------------------------- reading from the window

    method Mem(len: nat) returns (b: Bytes)
      requires Valid() && len <= n
      modifies this`p, this`n
      ensures Valid() && b == old(Window())[..len] && Window() == old(Window())[len..]
    {
      b := if |sb| > 0 then sb[p..p + len] else chunk[p..p + len];
      n, p := n - len, p + len;
    }

    method Byte() returns (b: int)
      requires Valid() && n > 0
      modifies this`p, this`n
      ensures Valid() && b == old(Window())[0] && Window() == old(Window())[1..]
    {
      b := if |sb| > 0 then sb[p] else chunk[p];
      n, p := n - 1, p + 1;
    }

    /** bcread_uleb128: any number of up to five bytes, minimal or not, modulo 2^32. */
    method ReadUleb(ghost k: nat) returns (r: int)
      requires Valid() && Numeral(Window(), k) && k <= 5
      modifies this`p, this`n
      ensures Valid() && r == Dec(old(Window())).0 % TWO_32 && Window() == old(Window())[k..]
    {
      hide Window, Dec, Acc, AddBits;
      ghost var w, i := Window(), 1;
      NumeralStep(w, k);
      var b := Byte();
      r := b % 128;
      AccStart(r, w);
      var shift := 128;
      while b >= 0x80
        invariant Valid() && 1 <= i <= k && Window() == w[i..] && b == w[i - 1] && shift >= 1
        invariant b >= 0x80 ==> i < k && Numeral(w[i..], k - i)
        invariant b < 0x80 ==> i == k
        invariant 0 <= r < TWO_32 && Acc(r, shift, if b >= 0x80 then Dec(w[i..]).0 else 0) == Dec(w).0 % TWO_32
        decreases k - i
      {
        NumeralStep(w[i..], k - i);
        AccStep(r, shift, w[i..]);
        Shift(w, i);
        b := Byte();
        r := AddBits(r, b, shift);
        shift := shift * 128;
        i := i + 1;
      }
      AccEnd(r, shift);
    }

    /** bcread_uleb128_33: the same without the lowest bit, which has been looked at before. */
    method ReadUleb33(ghost k: nat) returns (r: int)
      requires Valid() && Numeral(Window(), k) && k <= 5
      modifies this`p, this`n
      ensures Valid() && r == Dec(old(Window())).0 / 2 % TWO_32 && Window() == old(Window())[k..]
    {
      hide Window, Dec, Acc, AddBits;
      ghost var w, i := Window(), 1;
      NumeralStep(w, k);
      var b := Byte();
      r := b % 128 / 2;
      AccStart33(b, w);
      var shift := 64;
      while b >= 0x80
        invariant Valid() && 1 <= i <= k && Window() == w[i..] && b == w[i - 1] && shift >= 1
        invariant b >= 0x80 ==> i < k && Numeral(w[i..], k - i)
        invariant b < 0x80 ==> i == k
        invariant 0 <= r < TWO_32 && Acc(r, shift, if b >= 0x80 then Dec(w[i..]).0 else 0) == Dec(w).0 / 2 % TWO_32
        decreases k - i
      {
        NumeralStep(w[i..], k - i);
        AccStep(r, shift, w[i..]);
        Shift(w, i);
        b := Byte();
        r := AddBits(r, b, shift);
        shift := shift * 128;
        i := i + 1;
      }
      AccEnd(r, shift);
    }

    /** Reading what the writer wrote. */
    method ReadEncoded(ghost v: nat, ghost rest: Bytes) returns (r: int)
      requires Valid() && v < TWO_32 && Window() == Enc(v) + rest
      modifies this`p, this`n
      ensures Valid() && r == v && Window() == rest
    {
      hide Window, Enc, Dec, Numeral;
      EncLength(v);
      DecEnc(v, rest);
      EncNumeral(v, rest);
      r := ReadUleb(|Enc(v)|);
    }

    method ReadEncoded33(ghost u: nat, ghost tag: nat, ghost rest: Bytes) returns (r: int)
      requires Valid() && u < TWO_32 && tag <= 1 && Window() == Enc(2 * u + tag) + rest
      modifies this`p, this`n
      ensures Valid() && r == u && Window() == rest
    {
      hide Window, Enc, Dec, Numeral;
      EncLength(2 * u + tag);
      DecEnc(2 * u + tag, rest);
      EncNumeral(2 * u + tag, rest);
      r := ReadUleb33(|Enc(2 * u + tag)|);
    }

    /** A block of known contents. */
    method Block(ghost b: Bytes, len: nat, ghost rest: Bytes) returns (r: Bytes)
      requires Valid() && len == |b| && Window() == b + rest
      modifies this`p, this`n
      ensures Valid() && r == b && Window() == rest
    {
      ghost var w := Window();
      r := Mem(len);
      assert w[..len] == b && w[len..] == rest;
    }

    method ByteOf(ghost b: int, ghost rest: Bytes) returns (r: int)
      requires Valid() && Window() == [b] + rest
      modifies this`p, this`n
      ensures Valid() && r == b && Window() == rest
    {
      ghost var w := Window();
      r := Byte();
      assert w[0] == b && w[1..] == rest;
    }

    // -------------------------------------------------------------- constants

    /** A key or value of a template table. */
    method Ktabk(ghost v: Val, ghost narrow: bool, ghost rest: Bytes) returns (r: Val)
      requires Valid() && EnvOk(env) && ValOk(v) && Window() == EncVal(env, v, narrow) + rest
      modifies this`p, this`n
      ensures Valid() && r == (if narrow then Narrowed(env, v) else v) && Window() == rest
    {
      hide Window, Enc;
      ghost var w := if narrow then Narrowed(env, v) else v;
      ghost var tail := TagOf(w, rest);
      TagFirst(env, v, narrow, rest);
      var tp := ReadEncoded(Tag(w), tail);
      if tp >= KTAB_STR {
        var s := Block(w.s, tp - KTAB_STR, rest);
        r := Str(s);
      } else if tp == KTAB_INT {
        var k := ReadEncoded(U32(w.k), rest);
        r := Int(S32(k));
      } else if tp == KTAB_NUM {
        Join2(Enc(w.lo), Enc(w.hi), rest);
        var lo := ReadEncoded(w.lo, Enc(w.hi) + rest);
        var hi := ReadEncoded(w.hi, rest);
        r := Num(lo, hi);
      } else {
        r := if tp == 0 then Nil else if tp == 1 then False else True;
      }
    }

    /** A template table: lj_tab_set enters a pair under its normalised key. */
    method Ktab(ghost t: Tab, ghost rest: Bytes) returns (m: Map)
      requires Valid() && EnvOk(env) && TabOk(t) && Window() == EncTab(env, t) + rest
      modifies this`p, this`n
      ensures Valid() && m == ReadTab(env, t) && Window() == rest
    {
      hide Window, Enc, EncVals, EncPairs, UsedLen, UsedNodes, ValOk, EnvOk, ReadArr, ReadPairs;
      ghost var len, ps := UsedLen(t.arr), UsedNodes(t.nodes);
      ghost var vals, pairs := EncVals(env, t.arr[..len]), EncPairs(env, ps);
      Join4([], Enc(len), Enc(|ps|), vals, pairs);
      TabSplit(Enc(len), Enc(|ps|), vals, pairs, rest);
      var narray := ReadEncoded(len, Enc(|ps|) + (vals + (pairs + rest)));
      var nhash := ReadEncoded(|ps|, vals + (pairs + rest));
      m := Array(t.arr, narray, pairs + rest);
      PairsOk(t);
      m := Hash(m, ps, nhash, rest);
    }

    method Array(ghost arr: seq<Val>, narray: nat, ghost rest: Bytes) returns (m: Map)
      requires Valid() && EnvOk(env) && narray <= |arr|
      requires (forall i {:trigger arr[i]} :: 0 <= i < |arr| ==> ValOk(arr[i]))
      requires Window() == EncVals(env, arr[..narray]) + rest
      modifies this`p, this`n
      ensures Valid() && m == ReadArr(env, arr, narray) && Window() == rest
    {
      hide Window, EncVal, ValOk, EnvOk;
      var i := 0;
      m := map[];
      ghost var vs := arr[..narray];
      assert vs[0..] == vs;
      while i < narray
        invariant 0 <= i <= narray && Valid() && m == ReadArr(env, arr, i) && Window() == EncVals(env, vs[i..]) + rest
      {
        assert vs[i..][1..] == vs[i + 1..] && vs[i..][0] == arr[i];
        Join2(EncVal(env, arr[i], true), EncVals(env, vs[i + 1..]), rest);
        var v := Ktabk(arr[i], true, EncVals(env, vs[i + 1..]) + rest);
        m := m[Int(i) := v];
        i := i + 1;
      }
      assert [] + rest == rest;
    }

    method Hash(m0: Map, ghost ps: seq<(Val, Val)>, nhash: nat, ghost rest: Bytes) returns (m: Map)
      requires Valid() && EnvOk(env) && nhash == |ps|
      requires (forall i {:trigger ps[i]} :: 0 <= i < |ps| ==> ValOk(ps[i].0) && ValOk(ps[i].1))
      requires Window() == EncPairs(env, ps) + rest
      modifies this`p, this`n
      ensures Valid() && m == ReadPairs(env, m0, ps, nhash) && Window() == rest
    {
      hide Window, EncVal, ValOk, EnvOk;
      var i := 0;
      m := m0;
      assert ps[0..] == ps;
      while i < nhash
        invariant 0 <= i <= nhash && Valid() && m == ReadPairs(env, m0, ps, i)
        invariant Window() == EncPairs(env, ps[i..]) + rest
      {
        assert ps[i..][1..] == ps[i + 1..] && ps[i..][0] == ps[i];
        ghost var k, v, tail := EncVal(env, ps[i].0, false), EncVal(env, ps[i].1, true), EncPairs(env, ps[i + 1..]);
        Join2(k, v + tail, rest);
        Join2(v, tail, rest);
        var key := Ktabk(ps[i].0, false, v + (tail + rest));
        var val := Ktabk(ps[i].1, true, tail + rest);
        m := m[Canon(env, key) := val];
        i := i + 1;
      }
      assert [] + rest == rest;
    }

    /** The collectable constants; a child is the prototype on top of the stack. */
    method Kgcs(ghost ks: seq<Kgc>, sizekgc: nat, ghost rest: Bytes) returns (ok: bool, rs: seq<RKgc>)
      requires Valid() && EnvOk(env) && sizekgc == |ks| && (forall i {:trigger ks[i]} :: 0 <= i < |ks| ==> KgcOk(ks[i]))
      requires Window() == EncKgcs(env, ks) + rest
      modifies this`p, this`n, this`stack
      ensures ok <==> CountChildren(ks, |ks|) <= |old(stack)|
      ensures ok ==> Valid() && rs == Built(env, ks, old(stack), |ks|) && Window() == rest
      ensures ok ==> stack == old(stack)[..|old(stack)| - CountChildren(ks, |ks|)]
    {
      hide Window, Enc, EncKgc, KgcOk, EnvOk;
      var i := 0;
      rs := [];
      ghost var st := stack;
      assert ks[0..] == ks && st[..|st|] == st;
      while i < sizekgc
        invariant 0 <= i <= |ks| && Valid() && CountChildren(ks, i) <= |st| && rs == Built(env, ks, st, i)
        invariant stack == st[..|st| - CountChildren(ks, i)] && Window() == EncKgcs(env, ks[i..]) + rest
      {
        assert ks[i..][1..] == ks[i + 1..] && ks[i..][0] == ks[i];
        CountMonotone(ks, i + 1, |ks|);
        Join2(EncKgc(env, ks[i]), EncKgcs(env, ks[i + 1..]), rest);
        var r;
        ok, r := OneKgc(ks, i, st, EncKgcs(env, ks[i + 1..]) + rest);
        if !ok { return; }
        rs := rs + [r];
        i := i + 1;
      }
      ok := true;
      assert [] + rest == rest;
    }

    method OneKgc(ghost ks: seq<Kgc>, ghost i: nat, ghost st: seq<RProto>, ghost rest: Bytes)
        returns (ok: bool, r: RKgc)
      requires Valid() && EnvOk(env) && i < |ks| && KgcOk(ks[i]) && CountChildren(ks, i) <= |st|
      requires stack == st[..|st| - CountChildren(ks, i)] && Window() == EncKgc(env, ks[i]) + rest
      modifies this`p, this`n, this`stack
      ensures ok <==> CountChildren(ks, i + 1) <= |st|
      ensures ok ==> Valid() && r == BuiltOne(env, ks, st, i) && Window() == rest
      ensures ok ==> stack == st[..|st| - CountChildren(ks, i + 1)]
    {
      hide Window, Enc, EncTab, ProtoOk, TabOk, EnvOk;
      ghost var k := ks[i];
      ok := true;
      KgcFirst(env, k, rest);
      var tp := ReadEncoded(KgcTag(k), KgcTail(env, k, rest));
      if tp >= KGC_STR {
        var s := Block(k.s, tp - KGC_STR, rest);
        r := RStr(s);
      } else if tp == KGC_TAB {
        var m := Ktab(k.tab, rest);
        r := RTab(m);
      } else if tp != KGC_CHILD {
        var a := ReadEncoded(if k.KComplex? then k.rlo else k.lo, Enc(if k.KComplex? then k.rhi else k.hi) + KgcLast(k,
            rest));
        var b := ReadEncoded(if k.KComplex? then k.rhi else k.hi, KgcLast(k, rest));
        if tp == KGC_COMPLEX {
          var c := ReadEncoded(k.ilo, Enc(k.ihi) + rest);
          var d := ReadEncoded(k.ihi, rest);
          r := RComplex(a, b, c, d);
        } else {
          r := if tp == KGC_I64 then RI64(a, b) else RU64(a, b);
        }
      } else {
        if |stack| == 0 { return false, RStr([]); }
        r := RChild(stack[|stack| - 1]);
        stack := stack[..|stack| - 1];
      }
    }

    /** The number constants: the lowest bit of the first byte tells a double from an integer. */
    method Knums(ghost ks: seq<Val>, sizekn: nat, ghost rest: Bytes) returns (rs: seq<Val>)
      requires Valid() && EnvOk(env) && sizekn == |ks| && Window() == EncKnums(env, ks) + rest
      requires forall i {:trigger ks[i]} :: 0 <= i < |ks| ==> ValOk(ks[i]) && (ks[i].Int? || ks[i].Num?)
      modifies this`p, this`n
      ensures Valid() && |rs| == |ks| && (forall i :: 0 <= i < |ks| ==> rs[i] == Narrowed(env, ks[i]))
      ensures Window() == rest
    {
      hide Window, EncKnum, EnvOk, Narrowed;
      var i := 0;
      rs := [];
      assert ks[0..] == ks;
      while i < sizekn
        invariant 0 <= i <= |ks| && Valid() && Window() == EncKnums(env, ks[i..]) + rest
        invariant |rs| == i && (forall j :: 0 <= j < i ==> rs[j] == Narrowed(env, ks[j]))
      {
        assert ks[i..][1..] == ks[i + 1..] && ks[i..][0] == ks[i];
        Join2(EncKnum(env, ks[i]), EncKnums(env, ks[i + 1..]), rest);
        var r := OneKnum(ks[i], EncKnums(env, ks[i + 1..]) + rest);
        rs := rs + [r];
        i := i + 1;
      }
      assert [] + rest == rest;
    }

    method OneKnum(ghost v: Val, ghost rest: Bytes) returns (r: Val)
      requires Valid() && EnvOk(env) && ValOk(v) && (v.Int? || v.Num?) && Window() == EncKnum(env, v) + rest
      modifies this`p, this`n
      ensures Valid() && r == Narrowed(env, v) && Window() == rest
    {
      hide Window, Enc;
      ghost var w := Narrowed(env, v);
      ghost var u, tag := if w.Int? then U32(w.k) else w.lo, if w.Int? then 0 else 1;
      ghost var tail := if w.Int? then rest else Enc(w.hi) + rest;
      if w.Num? { Join2(Enc(2 * w.lo + 1), Enc(w.hi), rest); }
      var first := Peek();
      EncStep(2 * u + tag, tail);
      var isnum := first % 2;
      var lo := ReadEncoded33(u, tag, tail);
      if isnum == 1 {
        var hi := ReadEncoded(w.hi, rest);
        r := Num(lo, hi);
      } else {
        r := Int(S32(lo));
      }
    }

    method Peek() returns (b: int)
      requires Valid() && n > 0
      ensures b == Window()[0]
    {
      b := if |sb| > 0 then sb[p] else chunk[p];
    }

    // -------------------------------------------------------------- prototypes

    /** phead of the dump grammar. */
    method ReadHead(ghost q: Proto, ghost rest: Bytes) returns (h: Head)
      requires Valid() && ProtoOk(q) && env.strip == (flags / 2 % 2 == 1) && Window() == EncHead(env, q) + rest
      modifies this`p, this`n
      ensures Valid() && h == HeadOf(env, q) && Window() == rest
    {
      hide Window, Enc, EncDbgHead, ProtoOk;
      HeadBounds(q);
      ghost var a, b, c, d := Enc(|q.kgc|), Enc(|q.knum|), Enc(|q.bc|), EncDbgHead(env, q);
      ghost var four := [q.flags % 8, q.numparams, q.framesize, |q.uv| / 2];
      Join2(four, a + (b + (c + d)), rest);
      TabSplit(a, b, c, d, rest);
      ghost var tail := a + (b + (c + (d + rest)));
      Cons4(q.flags % 8, q.numparams, q.framesize, |q.uv| / 2, tail);
      var fl := ByteOf(q.flags % 8, [q.numparams] + ([q.framesize] + ([|q.uv| / 2] + tail)));
      var numparams := ByteOf(q.numparams, [q.framesize] + ([|q.uv| / 2] + tail));
      var framesize := ByteOf(q.framesize, [|q.uv| / 2] + tail);
      var sizeuv := ByteOf(|q.uv| / 2, tail);
      var sizekgc := ReadEncoded(|q.kgc|, b + (c + (d + rest)));
      var sizekn := ReadEncoded(|q.knum|, c + (d + rest));
      var sizebc := ReadEncoded(|q.bc|, d + rest);
      var sizedbg, first, lines := DbgHead(q, rest);
      h := Head(fl, numparams, framesize, sizeuv, sizekgc, sizekn, sizebc, sizedbg, first, lines);
    }

    method DbgHead(ghost q: Proto, ghost rest: Bytes) returns (sizedbg: int, first: int, lines: int)
      requires Valid() && ProtoOk(q) && env.strip == (flags / 2 % 2 == 1) && Window() == EncDbgHead(env, q) + rest
      modifies this`p, this`n
      ensures Valid() && Window() == rest && sizedbg == |DbgInfo(DbgOf(env, q))|
      ensures first == (if DbgOf(env, q).Dbg? then q.dbg.first else 0)
      ensures lines == (if DbgOf(env, q).Dbg? then q.dbg.lines else 0)
    {
      hide Window, Enc, KgcOk, InsOk, ValOk;
      sizedbg, first, lines := 0, 0, 0;
      if flags / 2 % 2 == 0 {
        if q.dbg.Dbg? {
          Split3(Enc(|q.dbg.info|), Enc(q.dbg.first), Enc(q.dbg.lines), rest);
        }
        sizedbg := ReadEncoded(if q.dbg.Dbg? then |q.dbg.info| else 0, if q.dbg.Dbg?
            then Enc(q.dbg.first) + (Enc(q.dbg.lines) + rest) else rest);
        if sizedbg > 0 {
          first := ReadEncoded(q.dbg.first, Enc(q.dbg.lines) + rest);
          lines := ReadEncoded(q.dbg.lines, rest);
        }
      } else {
        assert [] + rest == rest;
      }
    }

    /** pdata of the dump grammar. */
    method Body(ghost q: Proto, ghost rest: Bytes) returns (ok: bool, r: RProto)
      requires Valid() && EnvOk(env) && ProtoOk(q) && env.strip == (flags / 2 % 2 == 1)
      requires Window() == EncBody(env, q) + rest
      modifies this`p, this`n, this`stack
      ensures ok <==> CountChildren(q.kgc, |q.kgc|) <= |old(stack)|
      ensures ok ==> Valid() && r == BuiltProto(env, q, old(stack)) && Window() == rest
      ensures ok ==> stack == old(stack)[..|old(stack)| - CountChildren(q.kgc, |q.kgc|)]
    {
      hide Window, Enc, EncHead, CodeBytes, EncKgcs, EncKnums, KgcOk, InsOk, ValOk, EnvOk, Built;
      ghost var code, ks, kn, dbg := CodeBytes(env, q.traced, q.bc), EncKgcs(env, q.kgc), EncKnums(env, q.knum),
          DbgInfo(DbgOf(env, q));
      BodySplit(EncHead(env, q), code, q.uv, ks, kn, dbg, rest);
      CodeLength(env, q.traced, q.bc);
      var h := ReadHead(q, code + (q.uv + (ks + (kn + (dbg + rest)))));
      var bytes := Block(code, 4 * h.sizebc, q.uv + (ks + (kn + (dbg + rest))));
      var uv := Block(q.uv, 2 * h.sizeuv, ks + (kn + (dbg + rest)));
      var kgc, knum;
      ok, kgc := Kgcs(q.kgc, h.sizekgc, kn + (dbg + rest));
      if !ok { return false, RProto(0, 0, 0, [], [], [], [], NoDbg); }
      knum := Knums(q.knum, h.sizekn, dbg + rest);
      var info := Block(dbg, h.sizedbg, rest);
      CodeBack(env, q);
      r := RProto(h.flags, h.numparams, h.framesize, uv, ToIns(bytes), kgc, knum, if h.sizedbg > 0
          then Dbg(h.first, h.lines, info) else NoDbg);
      assert knum == DumpSpec.Knums(env, q);
      assert DbgOf(env, q) == if h.sizedbg > 0 then Dbg(h.first, h.lines, info) else NoDbg;
    }

    /** bcread_proto: the next prototype of the dump, or its end. */
    method ReadProto(ghost ps: seq<Proto>) returns (r: Item)
      requires Valid() && EnvOk(env) && env.strip == (flags / 2 % 2 == 1) && Rest() == EncProtos(env, ps) + [0]
      requires ps != [] ==> ProtoOk(ps[0]) && |EncBody(env, ps[0])| < TWO_32
      modifies this`sb, this`sz, this`chunk, this`p, this`n, this`blocks, this`eof, this`stack
      ensures r.Bad? ==>
        |old(Rest())| >= LJ_MAX_MEM || (ps != [] && CountChildren(ps[0].kgc, |ps[0].kgc|) > |old(stack)|)
      ensures ps == [] && !r.Bad? ==> r == End && Valid() && Rest() == [] && stack == old(stack)
      ensures ps != [] && CountChildren(ps[0].kgc, |ps[0].kgc|) > |old(stack)| ==> r.Bad?
      ensures ps != [] && !r.Bad? ==>
        && r == Got(BuiltProto(env, ps[0], old(stack))) && Valid() && Rest() == EncProtos(env, ps[1..]) + [0]
        && stack == old(stack)[..|old(stack)| - CountChildren(ps[0].kgc, |ps[0].kgc|)]
    {
      hide Window, Rest, Enc, EncBody, EncProtos, ProtoOk, EnvOk, BuiltProto, CountChildren;
      FirstPart(env, ps);
      var ok, len := ReadLength(if ps == [] then 0 else |EncBody(env, ps[0])|,
                                if ps == [] then [] else EncBody(env, ps[0]) + (EncProtos(env, ps[1..]) + [0]));
      if !ok { return Bad; }
      if len == 0 { return End; }
      r := ReadData(len, ps[0], EncProtos(env, ps[1..]) + [0]);
    }

    /**
     The length prefix; zero is the end mark. It cannot be read if fewer than five bytes are left
     after the end of the input was seen, or if a block is too big.
     */
    method ReadLength(ghost v: nat, ghost more: Bytes) returns (ok: bool, len: nat)
      requires Valid() && Rest() == Enc(v) + more && v < TWO_32
      modifies this`sb, this`sz, this`chunk, this`p, this`n, this`blocks, this`eof
      ensures ok ==> Valid() && len == v && Rest() == more
      ensures !ok ==> (old(eof) && |old(Rest())| < 5 && v > 0) || |old(Rest())| >= LJ_MAX_MEM
    {
      hide Window, Tail, Enc;
      ghost var rest, w := Rest(), Window();
      if n > 0 {
        var first := Peek();
        ZeroFirst(v, more);
        if first == 0 {
          var z := Byte();
          Dropped(w, 1, rest);
          return true, 0;
        }
      }
      AllAtEof();
      EncLength(v);
      len := 0;
      ok := Want(5);
      if !ok { return; }
      w := Window();
      InWindow(Enc(v), more);
      len := ReadEncoded(v, w[|Enc(v)|..]);
      Dropped(w, |Enc(v)|, rest);
      Behind(Enc(v), more);
    }

    /** The data of a prototype, which must be exactly len bytes, and all of them there. */
    method ReadData(len: nat, ghost q: Proto, ghost next: Bytes) returns (r: Item)
      requires Valid() && EnvOk(env) && env.strip == (flags / 2 % 2 == 1)
      requires ProtoOk(q) && Rest() == EncBody(env, q) + next && |EncBody(env, q)| <= len
      modifies this`sb, this`sz, this`chunk, this`p, this`n, this`blocks, this`eof, this`stack
      ensures CountChildren(q.kgc, |q.kgc|) > |old(stack)| || len != |EncBody(env, q)| ==> r.Bad?
      ensures r.Bad? ==>
        CountChildren(q.kgc, |q.kgc|) > |old(stack)| || len != |EncBody(env, q)| || |old(Rest())| >= LJ_MAX_MEM
      ensures !r.Bad? ==> r == Got(BuiltProto(env, q, old(stack))) && Valid() && Rest() == next
      ensures !r.Bad? ==> stack == old(stack)[..|old(stack)| - CountChildren(q.kgc, |q.kgc|)]
    {
      hide Window, Tail, EncBody, ProtoOk, EnvOk, BuiltProto, CountChildren;
      AllAtEof();
      var ok := Need(len);
      if !ok { return Bad; }
      ghost var w := Window();
      InWindow(EncBody(env, q), next);
      var startn := n;
      var pt;
      ok, pt := Body(q, w[|EncBody(env, q)|..]);
      if !ok { return Bad; }
      Dropped(w, |EncBody(env, q)|, EncBody(env, q) + next);
      Behind(EncBody(env, q), next);
      if len != startn - n { return Bad; }
      return Got(pt);
    }

    /** The header behind its first byte: three fixed bytes, known flags, and a name unless stripped. */
    method ReadHeader(ghost a: int, ghost b: int, ghost c: int, ghost fl: nat, ghost name: Bytes, ghost more: Bytes)
        returns (ok: bool, chunkname: Bytes)
      requires Valid() && !eof && fl < TWO_32 && |name| < TWO_32
      requires Rest() == [a] + ([b] + ([c] + (Enc(fl) + NamePart(fl, name, more))))
      modifies this`sb, this`sz, this`chunk, this`p, this`n, this`blocks, this`eof, this`flags
      ensures ok ==> a == BCDUMP_HEAD2 && b == BCDUMP_HEAD3 && c == BCDUMP_VERSION && fl < 8
      ensures !ok ==>
        a != BCDUMP_HEAD2 || b != BCDUMP_HEAD3 || c != BCDUMP_VERSION || fl >= 8 || |old(Rest())| >= LJ_MAX_MEM
      ensures ok ==> Valid() && flags == fl && Rest() == more && (fl / 2 % 2 == 0 ==> chunkname == name)
    {
      hide Window, Tail, Enc;
      chunkname := [];
      ok := Want(13);
      if !ok { return; }
      ghost var rest := Rest();
      ghost var tail := NamePart(fl, name, more);
      EncLength(fl);
      ok := ExpectByte(a, BCDUMP_HEAD2, [b] + ([c] + (Enc(fl) + tail)));
      if !ok { return; }
      ok := ExpectByte(b, BCDUMP_HEAD3, [c] + (Enc(fl) + tail));
      if !ok { return; }
      ok := ExpectByte(c, BCDUMP_VERSION, Enc(fl) + tail);
      if !ok { return; }
      flags := UlebOf(fl, tail);
      if flags >= 8 { return false, []; }
      if flags / 2 % 2 == 0 {
        EncLength(|name|);
        var len := UlebOf(|name|, name + more);
        AllAtEof();
        ok := Need(len);
        if !ok { return; }
        chunkname := BlockOf(name, len, more);
      }
      ok := true;
    }

    /** Reading where the next bytes of the whole rest are known and in the window. */
    method ExpectByte(ghost a: int, b: int, ghost more: Bytes) returns (ok: bool)
      requires Valid() && Rest() == [a] + more && (n >= 1 || Window() == Rest())
      modifies this`p, this`n
      ensures Valid() && ok == (a == b) && Rest() == more && n == old(n) - 1
    {
      hide Window, Tail;
      ghost var w := Window();
      InWindow([a], more);
      var x := ByteOf(a, w[1..]);
      Dropped(w, 1, [a] + more);
      Behind([a], more);
      ok := x == b;
    }

    method UlebOf(ghost v: nat, ghost more: Bytes) returns (r: nat)
      requires Valid() && v < TWO_32 && Rest() == Enc(v) + more && (n >= |Enc(v)| || Window() == Rest())
      modifies this`p, this`n
      ensures Valid() && r == v && Rest() == more && n == old(n) - |Enc(v)|
    {
      hide Window, Tail, Enc;
      ghost var w := Window();
      InWindow(Enc(v), more);
      r := ReadEncoded(v, w[|Enc(v)|..]);
      Dropped(w, |Enc(v)|, Enc(v) + more);
      Behind(Enc(v), more);
    }

    method BlockOf(ghost b: Bytes, len: nat, ghost more: Bytes) returns (r: Bytes)
      requires Valid() && len == |b| && Rest() == b + more && n >= len
      modifies this`p, this`n
      ensures Valid() && r == b && Rest() == more
    {
      hide Window, Tail;
      ghost var w := Window();
      InWindow(b, more);
      r := Block(b, len, w[|b|..]);
      Dropped(w, |b|, b + more);
      Behind(b, more);
    }

    /**
     lj_bcread on any list of prototypes: each takes its children from the stack, and the result is
     the one prototype left at the end, however the input was cut into blocks.
     */
    method ReadDump(ghost fl: nat, ghost name: Bytes, ghost ps: seq<Proto>)
        returns (r: Option<RProto>, chunkname: Bytes)
      requires Valid() && EnvOk(env) && !eof && stack == [] && |name| < TWO_32
      requires fl < 8 && env.strip == (fl / 2 % 2 == 1)
      requires Rest() == [BCDUMP_HEAD2] +
          ([BCDUMP_HEAD3] + ([BCDUMP_VERSION] + (Enc(fl) + NamePart(fl, name, EncProtos(env, ps) + [0]))))
      requires forall i {:trigger ps[i]} :: 0 <= i < |ps| ==> ProtoOk(ps[i]) && |EncBody(env, ps[i])| < TWO_32
      modifies this
      ensures var st := RunAll(env, [], ps);
        && (r.Some? ==> st.Some? && st.value == [r.value])
        && (st.Some? && |st.value| == 1 && |old(Rest())| < LJ_MAX_MEM ==> r == Some(st.value[0]))
      ensures !env.strip && r.Some? ==> chunkname == name
    {
      hide Window, Rest, Enc, EncBody, EncProtos, ProtoOk, EnvOk, BuiltProto, CountChildren, NamePart;
      var ok;
      RestShorter(fl, name, EncProtos(env, ps) + [0]);
      ghost var all := Rest();
      ok, chunkname := ReadHeader(BCDUMP_HEAD2, BCDUMP_HEAD3, BCDUMP_VERSION, fl, name, EncProtos(env, ps) + [0]);
      if !ok { return None, chunkname; }
      ghost var i := 0;
      assert ps[0..] == ps;
      while true
        invariant 0 <= i <= |ps| && Valid() && env.strip == (flags / 2 % 2 == 1) && |Rest()| <= |all|
        invariant Rest() == EncProtos(env, ps[i..]) + [0] && RunAll(env, [], ps) == RunAll(env, stack, ps[i..])
        decreases |ps| - i
      {
        ghost var before := stack;
        if i < |ps| {
          assert ps[i..][0] == ps[i] && ps[i..][1..] == ps[i + 1..];
          ShorterProtos(env, ps[i..]);
        }
        var item := ReadProto(ps[i..]);
        if item.End? { break; }
        if item.Bad? { return None, chunkname; }
        stack := stack + [item.pt];
        i := i + 1;
      }
      LeftNothing();
      if n > 0 || |stack| != 1 { return None, chunkname; }
      r := Some(stack[0]);
      stack := [];
    }

    lemma {:induction false} LeftNothing()
      requires Valid() && Rest() == []
      ensures n == 0
    {
    }

    lemma {:induction false} ZeroFirst(v: nat, more: Bytes)
      requires Valid() && n > 0 && Rest() == Enc(v) + more
      ensures Window()[0] == 0 <==> v == 0
      ensures v == 0 ==> Rest()[1..] == more
    {
      assert Rest()[0] == Window()[0];
      EncStep(v, more);
    }

    lemma {:induction false} AllAtEof()
      requires Valid()
      ensures eof ==> n == |Rest()|
    {
    }

    /** After k bytes of the window w have been read. */
    lemma {:induction false} Dropped(w: Bytes, k: nat, rest: Bytes)
      requires Valid() && k <= |w| && Window() == w[k..] && rest == w + Tail()
      ensures Rest() == rest[k..]
    {
    }

    /** What is needed next lies wholly in the window. */
    lemma {:induction false} InWindow(a: Bytes, more: Bytes)
      requires Valid() && Rest() == a + more && (n >= |a| || Window() == Rest())
      ensures |a| <= n && Window() == a + Window()[|a|..] && Rest() == Window() + Tail()
    {
      assert Window() == Rest()[..n];
      assert Rest()[..n][..|a|] == a;
    }
  }

  /** The name of the chunk, present unless the flags say stripped. */
  ghost function NamePart(fl: nat, name: Bytes, more: Bytes): Bytes {
    if fl / 2 % 2 == 0 then Enc(|name|) + (name + more) else more
  }

  lemma {:induction false} RestShorter(fl: nat, name: Bytes, more: Bytes)
    ensures |[BCDUMP_HEAD2] + ([BCDUMP_HEAD3] + ([BCDUMP_VERSION] + (Enc(fl) + NamePart(fl, name, more))))| >= |more|
  {
  }

  lemma {:induction false} ShorterProtos(env: Env, ps: seq<Proto>)
    requires ps != []
    ensures |EncProtos(env, ps[1..]) + [0]| <= |EncProtos(env, ps) + [0]|
  {
    hide EncProto;
  }

  lemma {:induction false} Behind(a: Bytes, more: Bytes)
    ensures (a + more)[|a|..] == more
  {
  }

  lemma {:induction false} FirstPart(env: Env, ps: seq<Proto>)
    ensures ps == [] ==> EncProtos(env, ps) + [0] == Enc(0) + []
    ensures ps != [] ==>
      var body := EncBody(env, ps[0]);
      |body| >= 4 && EncProtos(env, ps) + [0] == Enc(|body|) + (body + (EncProtos(env, ps[1..]) + [0]))
  {
    if ps != [] {
      var body := EncBody(env, ps[0]);
      assert |body| >= 4;
      hide EncBody, Enc;
      Join2(Enc(|body|) + body, EncProtos(env, ps[1..]), [0]);
      Join2(Enc(|body|), body, EncProtos(env, ps[1..]) + [0]);
    }
  }

  /** What bcread_proto comes back with: a prototype, the end mark, or an error. */
  datatype Item = End | Got(pt: RProto) | Bad

  datatype Head = Head(flags: int, numparams: int, framesize: int, sizeuv: int, sizekgc: int, sizekn: int, sizebc: int,
                       sizedbg: int, first: int, lines: int)

  ghost function HeadOf(env: Env, q: Proto): Head {
    var d := DbgOf(env, q);
    Head(q.flags % 8, q.numparams, q.framesize, |q.uv| / 2, |q.kgc|, |q.knum|, |q.bc|, |DbgInfo(d)|,
         if d.Dbg? then d.first else 0, if d.Dbg? then d.lines else 0)
  }

  /** Instructions out of their bytes. */
  function ToIns(b: Bytes): seq<Ins> {
    if |b| < 4 then [] else [Ins(b[0], b[1], b[2], b[3])] + ToIns(b[4..])
  }

  lemma {:induction false} CodeBackFrom(env: Env, traced: bool, bc: seq<Ins>)
    ensures |ToIns(CodeBytes(env, traced, bc))| == |bc|
    ensures forall i :: 0 <= i < |bc| ==> ToIns(CodeBytes(env, traced, bc))[i] == if traced then Unpatch(env,
        bc[i]) else bc[i]
    decreases |bc|
  {
    if bc != [] {
      CodeBackFrom(env, traced, bc[1..]);
      var code := CodeBytes(env, traced, bc);
      assert code[4..] == CodeBytes(env, traced, bc[1..]);
    }
  }

  lemma {:induction false} CodeBack(env: Env, q: Proto)
    ensures ToIns(CodeBytes(env, q.traced, q.bc)) == Code(env, q)
  {
    CodeBackFrom(env, q.traced, q.bc);
  }

  lemma {:induction false} HeadBounds(q: Proto)
    requires ProtoOk(q)
    ensures |q.kgc| < TWO_32 && |q.knum| < TWO_32 && |q.bc| < TWO_32
  {
  }

  lemma {:induction false} Cons4(a: int, b: int, c: int, d: int, rest: Bytes)
    ensures [a, b, c, d] + rest == [a] + ([b] + ([c] + ([d] + rest)))
  {
  }

  lemma {:induction false} BodySplit(a: Bytes, b: Bytes, c: Bytes, d: Bytes, e: Bytes, f: Bytes, rest: Bytes)
    ensures a + (b + (c + (d + (e + f)))) + rest == a + (b + (c + (d + (e + (f + rest)))))
  {
    Join2(a, b + (c + (d + (e + f))), rest);
    Join2(b, c + (d + (e + f)), rest);
    TabSplit(c, d, e, f, rest);
  }

  ghost function KgcTag(k: Kgc): nat {
    match k
    case KStr(s) => KGC_STR + |s|
    case KChild(_) => KGC_CHILD
    case KTab(_) => KGC_TAB
    case KI64(_, _) => KGC_I64
    case KU64(_, _) => KGC_U64
    case KComplex(_, _, _, _) => KGC_COMPLEX
  }

  /** The second pair of words of a complex constant. */
  ghost function KgcLast(k: Kgc, rest: Bytes): Bytes {
    if k.KComplex? then Enc(Nat(k.ilo)) + (Enc(Nat(k.ihi)) + rest) else rest
  }

  /** What follows the type code of a collectable constant. */
  ghost function KgcTail(env: Env, k: Kgc, rest: Bytes): Bytes {
    match k
    case KStr(s) => s + rest
    case KChild(_) => rest
    case KTab(t) => EncTab(env, t) + rest
    case KI64(lo, hi) => Enc(Nat(lo)) + (Enc(Nat(hi)) + rest)
    case KU64(lo, hi) => Enc(Nat(lo)) + (Enc(Nat(hi)) + rest)
    case KComplex(a, b, _, _) => Enc(Nat(a)) + (Enc(Nat(b)) + KgcLast(k, rest))
  }

  lemma {:induction false} KgcFirst(env: Env, k: Kgc, rest: Bytes)
    requires KgcOk(k)
    ensures EncKgc(env, k) + rest == Enc(KgcTag(k)) + KgcTail(env, k, rest) && KgcTag(k) < TWO_32
  {
    hide Enc, EncTab;
    match k
    case KStr(s) => Join2(Enc(KGC_STR + |s|), s, rest);
    case KChild(_) =>
    case KTab(t) => Join2(Enc(KGC_TAB), EncTab(env, t), rest);
    case KI64(lo, hi) => Split3(Enc(KGC_I64), Enc(lo), Enc(hi), rest);
    case KU64(lo, hi) => Split3(Enc(KGC_U64), Enc(lo), Enc(hi), rest);
    case KComplex(a, b, c, d) =>
      Join2(Enc(KGC_COMPLEX), Enc(a) + (Enc(b) + (Enc(c) + Enc(d))), rest);
      TabSplit(Enc(a), Enc(b), Enc(c), Enc(d), rest);
  }

  lemma {:induction false} Split3(a: Bytes, b: Bytes, c: Bytes, rest: Bytes)
    ensures a + (b + c) + rest == a + (b + (c + rest))
  {
    Join2(a, b + c, rest);
    Join2(b, c, rest);
  }

  /** Type code of a table constant. */
  ghost function Tag(w: Val): nat {
    match w
    case Nil => 0
    case False => 1
    case True => 2
    case Int(_) => KTAB_INT
    case Num(_, _) => KTAB_NUM
    case Str(s) => KTAB_STR + |s|
  }

  /** What follows the type code. */
  ghost function TagOf(w: Val, rest: Bytes): Bytes {
    match w
    case Int(k) => Enc(U32(k)) + rest
    case Num(lo, hi) => Enc(Nat(lo)) + Enc(Nat(hi)) + rest
    case Str(s) => s + rest
    case _ => rest
  }

  lemma {:induction false} TagFirst(env: Env, v: Val, narrow: bool, rest: Bytes)
    requires EnvOk(env) && ValOk(v)
    ensures var w := if narrow then Narrowed(env, v) else v;
      EncVal(env, v, narrow) + rest == Enc(Tag(w)) + TagOf(w, rest) && Tag(w) < TWO_32 && ValOk(w)
  {
    var w := if narrow then Narrowed(env, v) else v;
    match w
    case Int(k) =>
      assert Enc(KTAB_INT) == [KTAB_INT];
      Join2([KTAB_INT], Enc(U32(k)), rest);
    case Num(lo, hi) =>
      assert Enc(KTAB_NUM) == [KTAB_NUM];
      Join2([KTAB_NUM], Enc(lo) + Enc(hi), rest);
    case Str(s) => Join2(Enc(KTAB_STR + |s|), s, rest);
    case _ => assert Enc(Tag(w)) == [Tag(w)];
  }

  lemma {:induction false} TabSplit(a: Bytes, b: Bytes, c: Bytes, d: Bytes, rest: Bytes)
    ensures a + (b + (c + d)) + rest == a + (b + (c + (d + rest)))
  {
    Join2(a, b + (c + d), rest);
    Join2(b, c + d, rest);
    Join2(c, d, rest);
  }

  lemma {:induction false} PairsOk(t: Tab)
    requires TabOk(t)
    ensures var ps := UsedNodes(t.nodes); forall i {:trigger ps[i]} :: 0 <= i < |ps| ==>
        ValOk(ps[i].0) && ValOk(ps[i].1)
  {
    var ps := UsedNodes(t.nodes);
    forall i {:trigger ps[i]} | 0 <= i < |ps| ensures ValOk(ps[i].0) && ValOk(ps[i].1) {
      assert ps[i] in t.nodes;
      var j :| 0 <= j < |t.nodes| && t.nodes[j] == ps[i];
    }
  }

  /** v |= (b & 0x7f) << sh on 32 bit words, where the shifted bits are still clear. */
  function AddBits(r: int, b: int, shift: int): int { (r + b % 128 * shift) % TWO_32 }

  /** The value, on 32 bit words, that r and the bits still to come make up. */
  ghost function Acc(r: int, shift: int, w: int): int { (r + shift * w) % TWO_32 }

  /** The first byte of a number and the number behind it. */
  lemma {:induction false} NumeralStep(b: Bytes, k: nat)
    requires Numeral(b, k)
    ensures 0 <= b[0] < 256 && (b[0] < 128 <==> k == 1)
    ensures k > 1 ==> Numeral(b[1..], k - 1)
    ensures Dec(b).0 == b[0] % 128 + 128 * (if b[0] >= 128 then Dec(b[1..]).0 else 0)
  {
  }

  lemma {:induction false} AccStart(r: int, b: Bytes)
    requires b != [] && r == b[0] % 128
    requires Dec(b).0 == b[0] % 128 + 128 * (if b[0] >= 128 then Dec(b[1..]).0 else 0)
    ensures Acc(r, 128, if b[0] >= 128 then Dec(b[1..]).0 else 0) == Dec(b).0 % TWO_32
  {
    hide Dec;
  }

  lemma {:induction false} AccStart33(x: int, b: Bytes)
    requires b != [] && x == b[0] && 0 <= x < 256
    requires Dec(b).0 == b[0] % 128 + 128 * (if b[0] >= 128 then Dec(b[1..]).0 else 0)
    ensures Acc(x % 128 / 2, 64, if b[0] >= 128 then Dec(b[1..]).0 else 0) == Dec(b).0 / 2 % TWO_32
  {
    hide Dec;
  }

  lemma {:induction false} AccStep(r: int, shift: int, b: Bytes)
    requires b != [] && Dec(b).0 == b[0] % 128 + 128 * (if b[0] >= 128 then Dec(b[1..]).0 else 0)
    ensures 0 <= AddBits(r, b[0], shift) < TWO_32
    ensures Acc(AddBits(r, b[0], shift), shift * 128, if b[0] >= 128 then Dec(b[1..]).0 else 0) == Acc(r, shift,
        Dec(b).0)
  {
    hide Dec;
    var lo, hi := b[0] % 128, if b[0] >= 128 then Dec(b[1..]).0 else 0;
    Spread(shift, lo, hi);
    ModSum(r + lo * shift, shift * 128 * hi);
  }

  lemma {:induction false} Spread(shift: int, lo: int, hi: int)
    ensures shift * (lo + 128 * hi) == lo * shift + shift * 128 * hi
  {
  }

  lemma {:induction false} ModSum(x: int, y: int)
    ensures (x % TWO_32 + y) % TWO_32 == (x + y) % TWO_32
  {
  }

  lemma {:induction false} AccEnd(r: int, shift: int)
    requires 0 <= r < TWO_32
    ensures Acc(r, shift, 0) == r
  {
  }

  lemma {:induction false} Shift(w: Bytes, i: nat)
    requires i < |w|
    ensures w[i..] != [] && w[i..][0] == w[i] && w[i..][1..] == w[i + 1..]
  {
  }

  lemma {:induction false} BlockFirst(buf: Bytes, blocks: seq<Bytes>)
    requires buf != []
    ensures Input([buf] + blocks) == buf + Input(blocks)
  {
    assert ([buf] + blocks)[1..] == blocks;
  }

  /** The first byte of an encoding and what follows it. */
  lemma {:induction false} EncStep(v: nat, rest: Bytes)
    ensures (Enc(v) + rest)[0] == if v < 128 then v else v % 128 + 128
    ensures (Enc(v) + rest)[1..] == if v < 128 then rest else Enc(v / 128) + rest
  {
  }
}

/** Writing a prototype tree and reading the dump back. */
module DumpRoundTrip {
  import opened Wrappers
  import opened Bits
  import opened Uleb
  import opened DumpSpec
  import opened BcWrite
  import opened BcRead

  lemma {:induction false} FlatOk(p: Proto, q: Proto)
    requires ProtoOk(p) && q in Flat(p)
    ensures ProtoOk(q)
    decreases p, 1, 0
  {
    if q != p { ChildrenOk(p, |p.kgc|, q); }
  }

  lemma {:induction false} ChildrenOk(p: Proto, n: nat, q: Proto)
    requires ProtoOk(p) && n <= |p.kgc| && q in FlatChildren(p, n)
    ensures ProtoOk(q)
    decreases p, 0, n
  {
    if p.kgc[n - 1].KChild? && q in Flat(p.kgc[n - 1].child) {
      assert KgcOk(p.kgc[n - 1]);
      FlatOk(p.kgc[n - 1].child, q);
    } else {
      ChildrenOk(p, n - 1, q);
    }
  }

  /** The dump behind its first byte, as the reader takes it apart. */
  lemma {:induction false} DumpParts(env: Env, p: Proto, name: Bytes)
    ensures var d, fl, more := EncDump(env, p, name), HeadFlags(env, p), EncProtos(env, Flat(p)) + [0];
      && 0 <= fl < 8 && env.strip == (fl / 2 % 2 == 1) && d != [] && d[0] == BCDUMP_HEAD1
      && d[1..] == [BCDUMP_HEAD2] + ([BCDUMP_HEAD3] + ([BCDUMP_VERSION] + (Enc(fl) + NamePart(fl, name, more))))
  {
    hide Enc, EncProtos, Flat, HeadFlags;
    var fl, more := HeadFlags(env, p), EncProtos(env, Flat(p)) + [0];
    FlagsOk(env, p);
    var nm := if env.strip then [] else Enc(|name|) + name;
    FiveSplit(BCDUMP_HEAD1, BCDUMP_HEAD2, BCDUMP_HEAD3, BCDUMP_VERSION, fl, nm, more);
    if env.strip { Empty(more); } else { Join2(Enc(|name|), name, more); }
  }

  lemma {:induction false} FlagsOk(env: Env, p: Proto)
    ensures var fl := HeadFlags(env, p); 0 <= fl < 8 && env.strip == (fl / 2 % 2 == 1) && Enc(fl) == [fl]
  {
  }

  lemma {:induction false} Empty(more: Bytes)
    ensures [] + more == more
  {
  }

  lemma {:induction false} FiveSplit(a: int, b: int, c: int, d: int, e: int, nm: Bytes, more: Bytes)
    ensures [a, b, c, d, e] + nm + more != [] && ([a, b, c, d, e] + nm + more)[0] == a
    ensures ([a, b, c, d, e] + nm + more)[1..] == [b] + ([c] + ([d] + ([e] + (nm + more))))
  {
    Join2([a, b, c, d, e], nm, more);
    assert ([a, b, c, d, e] + (nm + more))[1..] == [b, c, d, e] + (nm + more);
    Cons4(b, c, d, e, nm + more);
  }

  /**
   A tree written as a dump and read back, through a callback that delivers the bytes in any cut
   into blocks, is the same tree: same shape, constants of equal value, instructions without the
   JIT compiler's patches, debug info unless stripped, and the same chunk name.
   */
  method RoundTrip(env: Env, p: Proto, name: Bytes, cut: Bytes -> seq<Bytes>)
      returns (r: Option<RProto>, chunkname: Bytes)
    requires EnvOk(env) && ProtoOk(p) && SizesOk(env, p) && |name| < TWO_32 && |EncDump(env, p, name)| < LJ_MAX_MEM
    requires forall b {:trigger cut(b)} :: b != [] ==> cut(b) != [] && cut(b)[0] != [] && Input(cut(b)) == b
    ensures r == Some(Norm(env, p)) && (AllKeysOk(env, p) ==> SameProto(env, p, r.value))
    ensures !env.strip ==> chunkname == name
  {
    hide AllKeysOk, SameProto, EncDump, Enc, EncProtos, Flat, HeadFlags, NamePart, ProtoOk, SizesOk, EnvOk, Norm,
        EncBody, Input;
    var w := new Writer(env);
    w.WriteDump(p, name);
    DumpParts(env, p, name);
    var blocks := cut(w.out);
    InputSplit(blocks);
    var ls := new LexState(env, blocks[0], 1, blocks[1..], 256);
    ghost var ps := Flat(p);
    forall i {:trigger ps[i]} | 0 <= i < |ps| ensures ProtoOk(ps[i]) && |EncBody(env, ps[i])| < TWO_32 {
      assert ps[i] in ps;
      FlatOk(p, ps[i]);
      SizeOf(env, p, ps[i]);
    }
    RunTree(env, [], p);
    if AllKeysOk(env, p) { NormIsSame(env, p); }
    assert [] + [Norm(env, p)] == [Norm(env, p)];
    r, chunkname := ls.ReadDump(HeadFlags(env, p), name, ps);
  }

  lemma {:induction false} SizeOf(env: Env, p: Proto, q: Proto)
    requires SizesOk(env, p) && q in Flat(p)
    ensures |EncBody(env, q)| < TWO_32
  {
  }

  lemma {:induction false} InputSplit(blocks: seq<Bytes>)
    requires blocks != [] && blocks[0] != []
    ensures Input(blocks)[1..] == blocks[0][1..] + Input(blocks[1..])
  {
    assert Input(blocks) == blocks[0] + Input(blocks[1..]);
  }
}

/**
 Pass 3 of the DynASM encoder: dasm_encode writes the bytes of all sections. The output is
 described item by item, so that every byte is accounted for.
 */
module DasmEncode {
  import opened DasmActions
  import opened DasmLabels
  import opened DasmPut
  import opened DasmLayout
  import opened DasmLink

  const S_PHASE := 0x0200_0000

  /** The count low bytes of n, least significant first. */
  function LE(n: int, count: nat): (r: seq<int>)
    ensures |r| == count
    decreases count
  {
    if count == 0 then [] else [n % 256] + LE(n / 256, count - 1)
  }

  /** What the encoder works from: linked buffers, layout, load address and global addresses. */
  datatype Unit = Unit(al: seq<int>, bufs: Bufs, items: Items, fin: Fin, base: int, globals: seq<int>)

  ghost predicate Placed(u: Unit, s: int, k: int) {
    0 <= s < |u.items| == |u.fin| == |u.bufs| && 0 <= k < |u.items[s]| && |u.fin[s]| == |u.items[s]| + 1
  }

  /** What a reference word stands for: a label's final offset, or the address of a global. */
  ghost function RefValue(u: Unit, s: int, k: int): int
    requires Placed(u, s, k)
  {
    var n := RefWord(u.bufs, u.items, s, k);
    if n < 0 then (if -n < |u.globals| then u.globals[-n] else 0)
    else if ValidPos(u.bufs, n) then Word(u.bufs, n) else 0
  }

  /** The displacement or address that a reference puts into the code. */
  ghost function RefCode(u: Unit, s: int, k: int): int
    requires Placed(u, s, k)
  {
    var ext := RefWord(u.bufs, u.items, s, k) < 0;
    if u.items[s][k].kind.Rel? then RefValue(u, s, k) - (if ext then u.base else 0) - u.fin[s][k + 1]
    else RefValue(u, s, k) + (if ext then 0 else u.base)
  }

  ghost predicate ShortRel(u: Unit, s: int, k: int, save: int)
    requires Placed(u, s, k)
  {
    u.items[s][k].kind.Rel? && u.fin[s][k + 1] == u.fin[s][k] + 4 - save
  }

  /** An immediate whose short form changes its opcode. */
  predicate ShortImm(k: Kind) { k.Imm? && (k.action == IMM_WB || k.action == IMM_DB) && FitsByte(k.value) }

  /**
   An opcode byte after the items below upto: a short jmp turns e9 into eb, a short jcc turns
   0f 8x into 7x and moves its displacement up, a short immediate turns its opcode into the next but one.
   */
  ghost function CodeByte(u: Unit, s: int, j: int, upto: int): int
    requires Placed(u, s, j) && u.items[s][j].kind.Code? && upto <= |u.items[s]|
  {
    var its := u.items[s];
    if j + 1 < upto && ShortRel(u, s, j + 1, 3) then 0xeb
    else if j + 1 < upto && ShortRel(u, s, j + 1, 4) then RefCode(u, s, j + 1) % 256
    else if j + 2 < upto && its[j + 1].kind.Code? && ShortRel(u, s, j + 2, 4) then its[j + 1].kind.byte - 0x10
    else if j + 2 < upto && its[j + 1].kind.Code? && ShortImm(its[j + 2].kind) then (its[j].kind.byte + 2) % 256
    else its[j].kind.byte
  }

  /** The bytes at the final place of item j once the items below upto have been encoded. */
  ghost function ItemBytes(u: Unit, s: int, j: int, upto: int): seq<int>
    requires Placed(u, s, j) && upto <= |u.items[s]|
  {
    var it := u.items[s][j];
    match it.kind
    case Start => []
    case Code(_) => [CodeByte(u, s, j, upto)]
    case Imm(a, n) => LE(n, if ImmLen(a, n) >= 0 then ImmLen(a, n) else 0)
    case Space(n) => if 0 <= it.p < |u.al| - 1 then seq(if n >= 0 then n else 0, i => u.al[it.p + 1]) else []
    case Rel(_, _) => if ShortRel(u, s, j, 4) then [] else if ShortRel(u, s, j, 3) then LE(RefCode(u, s, j), 1)
        else LE(RefCode(u, s, j), 4)
    case ImmLabel(_, _) => LE(RefCode(u, s, j), 4)
    case Label(_) => []
    case Align(_) => if u.fin[s][j + 1] >= u.fin[s][j] then seq(u.fin[s][j + 1] - u.fin[s][j], i => 0x90) else []
  }

  /** The first k items of section s are in place. */
  ghost predicate SectionOut(u: Unit, out: seq<int>, s: int, k: int) {
    && 0 <= s < |u.items| == |u.fin| == |u.bufs| && 0 <= k <= |u.items[s]| && |u.fin[s]| == |u.items[s]| + 1
    && (forall j {:trigger ItemOut(u, out, s, j, k)} :: 0 <= j < k ==> ItemOut(u, out, s, j, k))
  }

  ghost predicate ItemOut(u: Unit, out: seq<int>, s: int, j: int, upto: int)
    requires Placed(u, s, j) && upto <= |u.items[s]|
  {
    0 <= u.fin[s][j] <= u.fin[s][j + 1] <= |out| && out[u.fin[s][j]..u.fin[s][j + 1]] == ItemBytes(u, s, j, upto)
  }

  /** Items that rewrite opcode bytes in front of them. */
  ghost predicate Patches(u: Unit, s: int, k: int)
    requires Placed(u, s, k)
  {
    ShortRel(u, s, k, 3) || ShortRel(u, s, k, 4) || ShortImm(u.items[s][k].kind)
  }

  lemma {:induction false} Unpatched(u: Unit, s: int, j: int, k: int)
    requires Placed(u, s, k) && 0 <= j < k && (j < k - 2 || (j < k - 1 && ShortRel(u, s, k, 3)) || !Patches(u, s, k))
    ensures ItemBytes(u, s, j, k) == ItemBytes(u, s, j, k + 1)
  {
  }

  /** A layout fit for encoding. */
  ghost predicate Laid(u: Unit) {
    && Progress(u.al, u.bufs, u.items, u.fin) && Whole(u.items, u.fin) && Branches(u.bufs, u.items, u.fin)
  }

  lemma {:induction false} FinOrder(u: Unit, s: int, i: int, j: int)
    requires Laid(u) && 0 <= s < |u.fin| && 0 <= i <= j < |u.fin[s]|
    ensures 0 <= u.fin[s][i] <= u.fin[s][j]
  {
    Distances(u.al, u.items, u.fin, 0, 0, s, i);
    Distances(u.al, u.items, u.fin, s, i, s, j);
  }

  /** What is known of item k when its turn comes. */
  lemma {:induction false} ItemFacts(u: Unit, s: int, k: int)
    requires Laid(u) && Placed(u, s, k)
    ensures Records(u.al, u.items[s][k]) && LenOk(u.items[s][k], u.fin[s][k], u.fin[s][k + 1])
    ensures LinkedWords(u.bufs[s], u.items[s][k], u.fin[s][k], u.fin[s][k + 1])
    ensures 0 <= u.fin[s][k] <= u.fin[s][k + 1]
  {
    assert Done(u.fin, s, k);
    assert WordsAt(u.bufs, u.items, u.fin, s, k);
    assert Chained(u.al, u.items[s]);
    FinOrder(u, s, k, k + 1);
  }

  /** Opcode bytes in front of an item. */
  lemma {:induction false} RunBefore(u: Unit, s: int, k: int)
    requires Laid(u) && Placed(u, s, k) && !u.items[s][k].kind.Start? && u.items[s][k].run >= 1
    ensures k > 0 && u.items[s][k - 1].kind.Code? && u.fin[s][k - 1] == u.fin[s][k] - 1
    ensures u.items[s][k].op == u.items[s][k - 1].kind.byte && u.items[s][k - 1].run == u.items[s][k].run - 1
  {
    assert Chained(u.al, u.items[s]);
    assert k > 0;
    assert FollowsAt(u.al, u.items[s], k - 1);
    assert Done(u.fin, s, k - 1);
  }

  // ---------------------------------------------------------------- global addresses

  /** The address table once the items before (s, k) are encoded: the latest definition wins. */
  ghost function GlobalAt(u: Unit, g: int, s: int, k: int): int
    requires 0 <= g < |u.globals| && 0 <= s < |u.items| == |u.fin| && 0 <= k <= |u.items[s]| && Whole(u.items, u.fin)
    decreases s, k
  {
    if k > 0 then (if g >= 10 && u.items[s][k - 1].kind == Label(LG(g)) then u.base + u.fin[s][k - 1]
        else GlobalAt(u, g, s, k - 1))
    else if s > 0 then GlobalAt(u, g, s - 1, |u.items[s - 1]|)
    else u.globals[g]
  }

  lemma {:induction false} GlobalKept(u: Unit, g: int, s: int, k: int)
    requires 0 <= g < |u.globals| && 0 <= s < |u.items| == |u.fin| && 0 <= k <= |u.items[s]| && Whole(u.items, u.fin)
    requires NoLabel(u.items, g)
    ensures GlobalAt(u, g, s, k) == u.globals[g]
    decreases s, k
  {
    if k > 0 { GlobalKept(u, g, s, k - 1); } else if s > 0 { GlobalKept(u, g, s - 1, |u.items[s - 1]|); }
  }

  ghost predicate GlobalsOk(u: Unit, globals: seq<int>, s: int, k: int) {
    && |globals| == |u.globals| && 0 <= s < |u.items| == |u.fin| && 0 <= k <= |u.items[s]| && Whole(u.items, u.fin)
    && forall g {:trigger globals[g]} :: 0 <= g < |globals| ==> globals[g] == GlobalAt(u, g, s, k)
  }

  // ---------------------------------------------------------------- encoding one item

  /** References are fixed: to a label, or to a global that no section defines. */
  ghost predicate RefsKnown(u: Unit) {
    && |u.bufs| == |u.items|
    && (forall s, k {:trigger RefWord(u.bufs, u.items, s, k)} ::
          0 <= s < |u.items| && 0 <= k < |u.items[s]| && IsRef(u.items[s][k].kind) ==>
          var n := RefWord(u.bufs, u.items, s, k);
          if n < 0 then u.items[s][k].kind.slot.LG? && -n < |u.globals| && NoLabel(u.items, -n)
          else exists t, j :: LabelAt(u.items, t, j, n))
  }

  ghost predicate Encodable(u: Unit) {
    Laid(u) && RefsKnown(u) && LabelsInRange(u.items, |u.globals|)
    && (forall s {:trigger u.items[s]} :: 0 <= s < |u.items| ==> AtRest(u.al, u.items[s]))
  }

  /** Reading position of item k: behind item k - 1 in the buffer and in the action list. */
  ghost predicate ReadAt(u: Unit, s: int, k: int, b: int, p: int) {
    && 0 <= s < |u.items| && 0 < k <= |u.items[s]|
    && var last := u.items[s][k - 1];
    0 <= last.p < |u.al| && b == last.w + Words(last.kind) && p == AfterP(u.al, last)
  }

  lemma {:induction false} ReadFacts(u: Unit, s: int, k: int, b: int, p: int)
    requires Encodable(u) && ReadAt(u, s, k, b, p)
    ensures 0 <= p < |u.al|
    ensures IsEnd(u.al[p]) <==> k == |u.items[s]| || u.items[s][k].kind.Start?
    ensures k == |u.items[s]| ==> b == |u.bufs[s]|
    ensures k < |u.items[s]| ==> u.items[s][k].w == b && (!u.items[s][k].kind.Start? ==> u.items[s][k].p == p)
  {
    var its := u.items[s];
    assert Chained(u.al, its) && AtRest(u.al, its) && |u.bufs[s]| == EndWord(its);
    if k < |its| {
      assert FollowsAt(u.al, its, k - 1);
      assert Records(u.al, its[k]);
      if !its[k].kind.Start? { NotEnd(u.al, its[k]); }
    }
  }

  /** An item that rewrites nothing: its bytes are appended. */
  lemma {:induction false} Appended(u: Unit, out: seq<int>, bytes: seq<int>, s: int, k: int)
    requires Laid(u) && Placed(u, s, k) && SectionOut(u, out, s, k) && |out| == u.fin[s][k] && !Patches(u, s, k)
    requires bytes == ItemBytes(u, s, k, k + 1) && |bytes| == u.fin[s][k + 1] - u.fin[s][k]
    ensures SectionOut(u, out + bytes, s, k + 1) && |out + bytes| == u.fin[s][k + 1]
  {
    ItemFacts(u, s, k);
    hide Laid, ItemBytes;
    var out' := out + bytes;
    forall j {:trigger ItemOut(u, out', s, j, k + 1)} | 0 <= j < k + 1 ensures ItemOut(u, out', s, j, k + 1) {
      if j < k {
        assert ItemOut(u, out, s, j, k);
        Unpatched(u, s, j, k);
      }
    }
  }

  /** An item that rewrites the opcode bytes of the items from i on, then appends its own. */
  lemma {:induction false} Rewritten(u: Unit, out: seq<int>, out': seq<int>, s: int, i: int, k: int)
    requires Laid(u) && Placed(u, s, k) && SectionOut(u, out, s, k) && |out| == u.fin[s][k] && |out'| == u.fin[s][k + 1]
    requires 0 <= i <= k && (i == k - 2 || (i == k - 1 && ShortRel(u, s, k, 3)))
    requires 0 <= u.fin[s][i] <= |out'| && u.fin[s][i] <= |out| && out'[..u.fin[s][i]] == out[..u.fin[s][i]]
    requires forall j {:trigger ItemOut(u, out', s, j, k + 1)} :: i <= j <= k ==> ItemOut(u, out', s, j, k + 1)
    ensures SectionOut(u, out', s, k + 1)
  {
    forall j {:trigger ItemOut(u, out', s, j, k + 1)} | 0 <= j < k + 1 ensures ItemOut(u, out', s, j, k + 1) {
      if j < i {
        assert ItemOut(u, out, s, j, k);
        Unpatched(u, s, j, k);
        FinOrder(u, s, j, j + 1);
        FinOrder(u, s, j + 1, i);
        hide Laid, ItemBytes, SectionOut;
        SameSlice(out, out', u.fin[s][i], u.fin[s][j], u.fin[s][j + 1]);
      }
    }
  }

  lemma {:induction false} SameSlice(out: seq<int>, out': seq<int>, m: int, x: int, y: int)
    requires 0 <= x <= y <= m <= |out| && m <= |out'| && out'[..m] == out[..m]
    ensures out'[x..y] == out[x..y]
  {
    assert out'[x..y] == out'[..m][x..y];
    assert out[x..y] == out[..m][x..y];
  }

  /** The last opcode byte before item k is still as it was written. */
  lemma {:induction false} RawByte(u: Unit, out: seq<int>, s: int, k: int)
    requires Laid(u) && Placed(u, s, k) && SectionOut(u, out, s, k) && |out| == u.fin[s][k]
    requires !u.items[s][k].kind.Start? && u.items[s][k].run >= 1
    ensures k > 0 && |out| > 0 && u.items[s][k - 1].kind.Code?
    ensures out[|out| - 1] == u.items[s][k - 1].kind.byte == u.items[s][k].op
    ensures u.fin[s][k - 1] == |out| - 1 && u.items[s][k - 1].run == u.items[s][k].run - 1
  {
    RunBefore(u, s, k);
    ItemFacts(u, s, k - 1);
    assert ItemOut(u, out, s, k - 1, k);
    assert out[u.fin[s][k - 1]..u.fin[s][k]][0] == out[|out| - 1];
  }

  lemma {:induction false} ShortFacts(u: Unit, s: int, k: int)
    requires Laid(u) && Placed(u, s, k)
    ensures ShortRel(u, s, k, 3) ==> u.items[s][k].run >= 1
    ensures ShortRel(u, s, k, 4) ==> u.items[s][k].run >= 2
    ensures ShortImm(u.items[s][k].kind) ==> u.items[s][k].run >= 2 && u.fin[s][k + 1] == u.fin[s][k] + 1
    ensures 0 <= u.fin[s][k] <= u.fin[s][k + 1]
  {
    ItemFacts(u, s, k);
  }

  /** An opcode byte in its place. */
  lemma {:induction false} CodeOut(u: Unit, out: seq<int>, s: int, j: int, upto: int, b: int)
    requires Placed(u, s, j) && upto <= |u.items[s]| && u.items[s][j].kind.Code? && CodeByte(u, s, j, upto) == b
    requires u.fin[s][j + 1] == u.fin[s][j] + 1 && 0 <= u.fin[s][j] < |out| && out[u.fin[s][j]] == b
    ensures ItemOut(u, out, s, j, upto)
  {
    hide CodeByte;
  }

  /** The two opcode bytes in front of a short jcc. */
  lemma {:induction false} JccBytes(u: Unit, s: int, k: int)
    requires Placed(u, s, k) && k >= 2 && ShortRel(u, s, k, 4) && u.items[s][k - 1].kind.Code?
    requires u.items[s][k - 2].kind.Code?
    ensures CodeByte(u, s, k - 2, k + 1) == u.items[s][k - 1].kind.byte - 0x10
    ensures CodeByte(u, s, k - 1, k + 1) == RefCode(u, s, k) % 256
  {
    hide RefCode;
  }

  lemma {:induction false} JmpByte(u: Unit, s: int, k: int)
    requires Placed(u, s, k) && k >= 1 && ShortRel(u, s, k, 3) && u.items[s][k - 1].kind.Code?
    ensures CodeByte(u, s, k - 1, k + 1) == 0xeb
  {
    hide RefCode;
  }

  lemma {:induction false} ImmBytes(u: Unit, s: int, k: int)
    requires Placed(u, s, k) && k >= 2 && ShortImm(u.items[s][k].kind) && u.items[s][k - 1].kind.Code?
    requires u.items[s][k - 2].kind.Code?
    ensures CodeByte(u, s, k - 2, k + 1) == (u.items[s][k - 2].kind.byte + 2) % 256
    ensures CodeByte(u, s, k - 1, k + 1) == u.items[s][k - 1].kind.byte
  {
    hide RefCode;
  }

  /** A single byte in its place. */
  lemma {:induction false} LastOut(u: Unit, out: seq<int>, s: int, k: int, b: int)
    requires Placed(u, s, k) && ItemBytes(u, s, k, k + 1) == [b]
    requires u.fin[s][k + 1] == u.fin[s][k] + 1 && 0 <= u.fin[s][k] < |out| && out[u.fin[s][k]] == b
    ensures ItemOut(u, out, s, k, k + 1)
  {
    hide ItemBytes;
  }

  lemma {:induction false} ShortRelBytes(u: Unit, s: int, k: int)
    requires Placed(u, s, k) && ShortRel(u, s, k, 3)
    ensures ItemBytes(u, s, k, k + 1) == [RefCode(u, s, k) % 256]
  {
    hide RefCode;
    assert LE(RefCode(u, s, k), 1) == [RefCode(u, s, k) % 256];
  }

  lemma {:induction false} ShortImmBytes(u: Unit, s: int, k: int)
    requires Placed(u, s, k) && ShortImm(u.items[s][k].kind)
    ensures ItemBytes(u, s, k, k + 1) == [u.items[s][k].kind.value % 256]
  {
    assert LE(u.items[s][k].kind.value, 1) == [u.items[s][k].kind.value % 256];
  }

  /** jmp rel32 becomes jmp rel8. */
  lemma {:induction false} ShortJmp(u: Unit, out: seq<int>, s: int, k: int)
    requires Laid(u) && Placed(u, s, k) && SectionOut(u, out, s, k) && |out| == u.fin[s][k] && ShortRel(u, s, k, 3)
    ensures |out| >= 1 && u.fin[s][0] <= |out| - 1
    ensures var out' := out[..|out| - 1] + [0xeb] + [RefCode(u, s, k) % 256];
      SectionOut(u, out', s, k + 1) && |out'| == u.fin[s][k + 1]
  {
    hide Laid, SectionOut, RefCode, CodeByte, ItemBytes, ItemOut, LE;
    ShortFacts(u, s, k);
    RawByte(u, out, s, k);
    FinOrder(u, s, 0, k - 1);
    var b := RefCode(u, s, k) % 256;
    var out' := out[..|out| - 1] + [0xeb] + [b];
    JmpByte(u, s, k);
    CodeOut(u, out', s, k - 1, k + 1, 0xeb);
    ShortRelBytes(u, s, k);
    LastOut(u, out', s, k, b);
    Rewritten(u, out, out', s, k - 1, k);
  }

  /** jcc rel32, two opcode bytes, becomes jcc rel8 with one. */
  lemma {:induction false} ShortJcc(u: Unit, out: seq<int>, s: int, k: int)
    requires Laid(u) && Placed(u, s, k) && SectionOut(u, out, s, k) && |out| == u.fin[s][k] && ShortRel(u, s, k, 4)
    ensures |out| >= 2 && u.fin[s][0] <= |out| - 2 && out[|out| - 1] == u.items[s][k].op
    ensures var out' := out[..|out| - 2] + [u.items[s][k].op - 0x10] + [RefCode(u, s, k) % 256];
      SectionOut(u, out', s, k + 1) && |out'| == u.fin[s][k + 1]
  {
    hide Laid, SectionOut, RefCode, CodeByte;
    ShortFacts(u, s, k);
    RawByte(u, out, s, k);
    RunBefore(u, s, k - 1);
    FinOrder(u, s, 0, k - 2);
    var out' := out[..|out| - 2] + [u.items[s][k].op - 0x10] + [RefCode(u, s, k) % 256];
    JccBytes(u, s, k);
    CodeOut(u, out', s, k - 2, k + 1, u.items[s][k].op - 0x10);
    CodeOut(u, out', s, k - 1, k + 1, RefCode(u, s, k) % 256);
    assert ItemOut(u, out', s, k, k + 1);
    Rewritten(u, out, out', s, k - 2, k);
  }

  /** The byte form of an immediate has its own opcode. */
  lemma {:induction false} ShortImmediate(u: Unit, out: seq<int>, s: int, k: int)
    requires Laid(u) && Placed(u, s, k) && SectionOut(u, out, s, k) && |out| == u.fin[s][k]
    requires ShortImm(u.items[s][k].kind)
    ensures |out| >= 2 && u.fin[s][0] <= |out| - 2
    ensures var out' := out[|out| - 2 := (out[|out| - 2] + 2) % 256] + [u.items[s][k].kind.value % 256];
      SectionOut(u, out', s, k + 1) && |out'| == u.fin[s][k + 1]
  {
    hide Laid, SectionOut, RefCode, CodeByte, ItemBytes, ItemOut, LE;
    ShortFacts(u, s, k);
    RawByte(u, out, s, k);
    RunBefore(u, s, k - 1);
    RawBefore(u, out, s, k);
    FinOrder(u, s, 0, k - 2);
    var x, b := (out[|out| - 2] + 2) % 256, u.items[s][k].kind.value % 256;
    var out' := out[|out| - 2 := x] + [b];
    ImmBytes(u, s, k);
    CodeOut(u, out', s, k - 2, k + 1, x);
    CodeOut(u, out', s, k - 1, k + 1, u.items[s][k - 1].kind.byte);
    ShortImmBytes(u, s, k);
    LastOut(u, out', s, k, b);
    Rewritten(u, out, out', s, k - 2, k);
  }

  lemma {:induction false} RawBefore(u: Unit, out: seq<int>, s: int, k: int)
    requires Laid(u) && Placed(u, s, k) && SectionOut(u, out, s, k) && |out| == u.fin[s][k] && k >= 2
    requires u.items[s][k - 1].kind.Code? && u.items[s][k - 2].kind.Code? && u.fin[s][k - 2] == |out| - 2
    requires u.fin[s][k - 1] == |out| - 1
    ensures |out| >= 2 && out[|out| - 2] == u.items[s][k - 2].kind.byte
  {
    ItemFacts(u, s, k - 2);
    assert ItemOut(u, out, s, k - 2, k);
    assert out[u.fin[s][k - 2]..u.fin[s][k - 1]][0] == out[|out| - 2];
  }

  ghost predicate Of(u: Unit, d: Dasm, base: int)
    reads d
  {
    u == Unit(d.actionlist, d.bufs, d.items, d.fin, base, u.globals)
  }

  /** Encoding has come to item k of section s. */
  ghost predicate Upto(u: Unit, out: seq<int>, s: int, k: int) {
    && 0 <= s < |u.items| == |u.fin| && 0 <= k <= |u.items[s]| && |u.fin[s]| == |u.items[s]| + 1
    && SectionOut(u, out, s, k) && |out| == u.fin[s][k]
  }

  /** out' extends the sections encoded before s. */
  ghost predicate Extends(u: Unit, out: seq<int>, out': seq<int>, s: int)
    requires 0 <= s < |u.fin| && |u.fin[s]| > 0
  {
    0 <= u.fin[s][0] <= |out| && u.fin[s][0] <= |out'| && out'[..u.fin[s][0]] == out[..u.fin[s][0]]
  }

  lemma {:induction false} UptoAppended(u: Unit, out: seq<int>, bytes: seq<int>, s: int, k: int)
    requires Laid(u) && Placed(u, s, k) && Upto(u, out, s, k) && !Patches(u, s, k)
    requires bytes == ItemBytes(u, s, k, k + 1) && |bytes| == u.fin[s][k + 1] - u.fin[s][k]
    ensures Upto(u, out + bytes, s, k + 1) && Extends(u, out, out + bytes, s)
  {
    hide Laid, ItemBytes, Patches, SectionOut;
    Appended(u, out, bytes, s, k);
    FinOrder(u, s, 0, k);
  }

  /** A relative branch: long, short, or to an outside global. */
  method EncodeRel(d: Dasm, s: int, b: int, out: seq<int>, base: int, globals: seq<int>, ghost u: Unit, ghost k: int)
      returns (out': seq<int>)
    requires Of(u, d, base) && Encodable(u) && Placed(u, s, k) && Upto(u, out, s, k) && GlobalsOk(u, globals, s, k)
    requires u.items[s][k].kind.Rel? && b == u.items[s][k].w
    ensures Upto(u, out', s, k + 1) && Extends(u, out, out', s)
  {
    hide Laid, RefsKnown, SectionOut, GlobalsOk, LabelsInRange, LE, ItemBytes, RefValue, RefWord;
    RelWords(u, s, k);
    RelBytes(u, s, k);
    var n := d.bufs[s][b];
    if n < 0 {
      ExtGlobal(u, globals, s, k);
      n := globals[-n] - (base + |out| + 4);
      UptoAppended(u, out, LE(n, 4), s, k);
      return out + LE(n, 4);
    }
    RefLabel(u, s, k);
    var shrink := d.bufs[s][b + 1];
    n := Word(d.bufs, n) - (|out| + 4 - shrink);
    if shrink == 0 {
      UptoAppended(u, out, LE(n, 4), s, k);
      out' := out + LE(n, 4);
    } else if shrink == 4 {
      ShortJcc(u, out, s, k);
      out' := out[..|out| - 2] + [out[|out| - 1] - 0x10] + [n % 256];
    } else {
      ShortJmp(u, out, s, k);
      out' := out[..|out| - 1] + [0xeb] + [n % 256];
    }
    FinOrder(u, s, 0, k);
  }

  lemma {:induction false} RelBytes(u: Unit, s: int, k: int)
    requires Placed(u, s, k) && u.items[s][k].kind.Rel?
    ensures ShortRel(u, s, k, 0) ==> ItemBytes(u, s, k, k + 1) == LE(RefCode(u, s, k), 4) && !Patches(u, s, k)
  {
  }

  lemma {:induction false} RelWords(u: Unit, s: int, k: int)
    requires Laid(u) && RefsKnown(u) && Placed(u, s, k) && u.items[s][k].kind.Rel?
    ensures var it := u.items[s][k];
      && 0 <= it.w && it.w + 1 < |u.bufs[s]| && u.bufs[s][it.w] == RefWord(u.bufs, u.items, s, k)
      && var shrink := u.bufs[s][it.w + 1];
      && shrink == u.fin[s][k] + 4 - u.fin[s][k + 1] && (shrink == 0 || shrink == 3 || shrink == 4)
      && (RefWord(u.bufs, u.items, s, k) < 0 ==> shrink == 0)
  {
    ItemFacts(u, s, k);
    assert Done(u.fin, s, k);
    assert BranchOk(u.items, u.fin, s, k, RefWord(u.bufs, u.items, s, k));
  }

  /** The address of an undefined global is the one the caller gave. */
  lemma {:induction false} ExtGlobal(u: Unit, globals: seq<int>, s: int, k: int)
    requires Laid(u) && RefsKnown(u) && Placed(u, s, k) && IsRef(u.items[s][k].kind) && GlobalsOk(u, globals, s, k)
    requires RefWord(u.bufs, u.items, s, k) < 0
    ensures var n := RefWord(u.bufs, u.items, s, k); -n < |globals| && globals[-n] == RefValue(u, s, k)
    ensures u.items[s][k].kind.slot.LG?
  {
    hide Laid, GlobalAt;
    var n := RefWord(u.bufs, u.items, s, k);
    assert globals[-n] == GlobalAt(u, -n, s, k);
    GlobalKept(u, -n, s, k);
  }

  /** A reference to a label reads the label's final offset. */
  lemma {:induction false} RefLabel(u: Unit, s: int, k: int)
    requires Laid(u) && RefsKnown(u) && Placed(u, s, k) && IsRef(u.items[s][k].kind)
    requires RefWord(u.bufs, u.items, s, k) >= 0
    ensures ValidPos(u.bufs, RefWord(u.bufs, u.items, s, k))
    ensures RefValue(u, s, k) == Word(u.bufs, RefWord(u.bufs, u.items, s, k))
    ensures forall t, j {:trigger LabelAt(u.items, t, j, RefWord(u.bufs, u.items, s, k))} ::
        LabelAt(u.items, t, j, RefWord(u.bufs, u.items, s, k)) ==>
      Placed(u, t, j) && RefValue(u, s, k) == u.fin[t][j]
  {
    var n := RefWord(u.bufs, u.items, s, k);
    var t0, j0 :| LabelAt(u.items, t0, j0, n);
    hide RefsKnown;
    assert AllChained(u.al, u.items);
    LabelPositive(u.al, u.items, t0, j0, n);
    LabelWord(u.al, u.bufs, u.items, u.fin, t0, j0, n);
    forall t, j {:trigger LabelAt(u.items, t, j, n)} | LabelAt(u.items, t, j, n) ensures Placed(u, t, j)
        && RefValue(u, s, k) == u.fin[t][j] {
      LabelWord(u.al, u.bufs, u.items, u.fin, t, j, n);
      assert |u.fin[t]| == |u.items[t]| + 1;
    }
  }

  /** Immediate operands; the byte form of an IMM_WB or IMM_DB changes the opcode two bytes back. */
  method EncodeImm(d: Dasm, action: int, n: int, out: seq<int>, ghost u: Unit, ghost s: int, ghost k: int)
      returns (out': seq<int>)
    requires Laid(u) && Placed(u, s, k) && Upto(u, out, s, k)
    requires u.items[s][k].kind == Imm(action, n)
    ensures Upto(u, out', s, k + 1) && Extends(u, out, out', s)
  {
    ItemFacts(u, s, k);
    FinOrder(u, s, 0, k);
    hide Laid, SectionOut;
    if (action == IMM_WB || action == IMM_DB) && FitsByte(n) {
      ShortImmediate(u, out, s, k);
      out' := out[|out| - 2 := (out[|out| - 2] + 2) % 256] + [n % 256];
    } else {
      var len := if action == IMM_S || action == IMM_B then 1 else if action == IMM_W || action == IMM_WB then 2 else 4;
      UptoAppended(u, out, LE(n, len), s, k);
      out' := out + LE(n, len);
    }
  }

  /** Fill bytes. */
  method EncodeSpace(count: int, fill: int, out: seq<int>) returns (out': seq<int>)
    requires count >= 0
    ensures out' == out + seq(count, i => fill)
  {
    out' := out;
    var n := count;
    while n > 0
      invariant 0 <= n <= count && out' == out + seq(count - n, i => fill)
    {
      assert seq(count - n, i => fill) + [fill] == seq(count - (n - 1), i => fill);
      out' := out' + [fill];
      n := n - 1;
    }
  }

  lemma {:induction false} FirstMultiple(x: int, f: int, m: int)
    requires m >= 0 && f % (m + 1) == 0 && f - m <= x <= f
    ensures And(x, m) == 0 <==> x == f
  {
    var n := m + 1;
    var a, b := f / n, x / n;
    assert f == n * a && x == n * b + x % n;
    assert f - x == n * (a - b) - x % n by { assert n * a - n * b == n * (a - b); }
    MulBound(n, a - b);
  }

  lemma {:induction false} MulBound(n: int, d: int)
    requires n > 0
    ensures d >= 1 ==> n * d >= n
    ensures d <= -1 ==> n * d <= -n
    ensures d == 0 ==> n * d == 0
  {
  }

  /** Nops up to the next multiple of the alignment: exactly as many as pass 2 kept. */
  method EncodeAlign(m: int, out: seq<int>, ghost u: Unit, ghost s: int, ghost k: int) returns (out': seq<int>)
    requires Laid(u) && Placed(u, s, k) && Upto(u, out, s, k) && u.items[s][k].kind == Align(m)
    ensures Upto(u, out', s, k + 1) && Extends(u, out, out', s)
  {
    ItemFacts(u, s, k);
    hide Laid, SectionOut;
    ghost var f, f' := u.fin[s][k], u.fin[s][k + 1];
    AlignEnds(u.items[s][k], f, f');
    out' := out;
    FirstMultiple(|out'|, f', m);
    while And(|out'|, m) != 0
      invariant f <= |out'| <= f' && out' == out + seq(|out'| - f, i => 0x90)
      invariant And(|out'|, m) == 0 <==> |out'| == f'
      decreases f' - |out'|
    {
      assert seq(|out'| - f, i => 0x90) + [0x90] == seq(|out'| + 1 - f, i => 0x90);
      out' := out' + [0x90];
      FirstMultiple(|out'|, f', m);
    }
    UptoAppended(u, out, seq(f' - f, i => 0x90), s, k);
  }

  /** Absolute reference to a label or an outside global. */
  method EncodeAbs(d: Dasm, n0: int, out: seq<int>, base: int, globals: seq<int>, ghost u: Unit, ghost s: int,
      ghost k: int) returns (out': seq<int>)
    requires Of(u, d, base) && Encodable(u) && Placed(u, s, k) && Upto(u, out, s, k) && GlobalsOk(u, globals, s, k)
    requires u.items[s][k].kind.ImmLabel? && n0 == RefWord(u.bufs, u.items, s, k)
    ensures Upto(u, out', s, k + 1) && Extends(u, out, out', s)
  {
    hide Laid, RefsKnown, SectionOut, GlobalsOk, LabelsInRange, LE, RefValue, RefWord, ItemBytes, Patches;
    AbsBytes(u, s, k);
    var n := n0;
    if n < 0 {
      ExtGlobal(u, globals, s, k);
      n := globals[-n];
    } else {
      RefLabel(u, s, k);
      n := Word(d.bufs, n) + base;
    }
    UptoAppended(u, out, LE(n, 4), s, k);
    out' := out + LE(n, 4);
  }

  lemma {:induction false} AbsBytes(u: Unit, s: int, k: int)
    requires Laid(u) && Placed(u, s, k) && u.items[s][k].kind.ImmLabel?
    ensures u.fin[s][k + 1] == u.fin[s][k] + 4 && !Patches(u, s, k)
    ensures ItemBytes(u, s, k, k + 1) == LE(RefCode(u, s, k), 4)
  {
    ItemFacts(u, s, k);
  }

  lemma {:induction false} GlobalsStep(u: Unit, globals: seq<int>, s: int, k: int)
    requires Placed(u, s, k) && GlobalsOk(u, globals, s, k) && LabelsInRange(u.items, |u.globals|)
    ensures var kind := u.items[s][k].kind;
      if kind.Label? && kind.slot.LG? && kind.slot.lg >= 10
      then kind.slot.lg < |globals| && GlobalsOk(u, globals[kind.slot.lg := u.base + u.fin[s][k]], s, k + 1)
      else GlobalsOk(u, globals, s, k + 1)
  {
    var kind := u.items[s][k].kind;
    forall g {:trigger globals[g]} | 0 <= g < |globals|
      ensures GlobalAt(u, g, s, k + 1) == if g >= 10 && kind == Label(LG(g)) then u.base + u.fin[s][k] else globals[g] {
    }
  }

  /** One action of pass 3. */
  method EncodeAction(d: Dasm, s: int, b: int, p: int, out: seq<int>, base: int, globals: seq<int>, ghost u: Unit,
      ghost k: int) returns (b': int, p': int, out': seq<int>, globals': seq<int>)
    requires Of(u, d, base) && Encodable(u) && ReadAt(u, s, k, b, p) && 0 <= p < |u.al| && !IsEnd(u.al[p])
    requires Upto(u, out, s, k) && GlobalsOk(u, globals, s, k)
    ensures k < |u.items[s]| && ReadAt(u, s, k + 1, b', p') && Upto(u, out', s, k + 1) && Extends(u, out, out', s)
    ensures GlobalsOk(u, globals', s, k + 1)
  {
    hide Laid, RefsKnown, SectionOut, GlobalsOk, LabelsInRange, LE;
    ReadFacts(u, s, k, b, p);
    LaidShape(u);
    ItemFacts(u, s, k);
    GlobalsStep(u, globals, s, k);
    var action := d.actionlist[p];
    b', p', globals' := if action < DISP || action == ESC then b else b + 1, p + Width(action), globals;
    if action < DISP || action == ESC {
      var byte := if action == ESC then d.actionlist[p + 1] else action;
      UptoAppended(u, out, [byte], s, k);
      out' := out + [byte];
    } else {
      var n := d.bufs[s][b];
      if IsImm(action) {
        out' := EncodeImm(d, action, n, out, u, s, k);
      } else if action == SPACE {
        out' := EncodeSpace(n, d.actionlist[p + 1], out);
        UptoAppended(u, out, seq(n, i => d.actionlist[p + 1]), s, k);
      } else if action == REL_LG || action == REL_PC {
        out' := EncodeRel(d, s, b, out, base, globals, u, k);
        b' := b + 2;
      } else if action == IMM_LG || action == IMM_PC {
        out' := EncodeAbs(d, n, out, base, globals, u, s, k);
      } else if action == ALIGN {
        out' := EncodeAlign(d.actionlist[p + 1], out, u, s, k);
      } else {
        if action == LABEL_LG && d.actionlist[p + 1] >= 10 { globals' := globals[d.actionlist[p + 1] := base + n]; }
        UptoAppended(u, out, [], s, k);
        out' := out;
        assert out + [] == out;
      }
    }
  }

  lemma {:induction false} LaidShape(u: Unit)
    requires Laid(u)
    ensures |u.items| == |u.fin| == |u.bufs| && forall s {:trigger u.fin[s]} :: 0 <= s < |u.fin| ==>
        |u.fin[s]| == |u.items[s]| + 1
  {
  }

  // ---------------------------------------------------------------- dasm_encode

  /** A dasm_put starts with its word; nothing is written for it. */
  lemma {:induction false} StartRead(u: Unit, out: seq<int>, globals: seq<int>, s: int, k: int)
    requires Encodable(u) && Placed(u, s, k) && u.items[s][k].kind.Start? && Upto(u, out, s, k)
    requires GlobalsOk(u, globals, s, k)
    ensures 0 <= u.items[s][k].w < |u.bufs[s]|
    ensures ReadAt(u, s, k + 1, u.items[s][k].w + 1, u.bufs[s][u.items[s][k].w]) && Upto(u, out, s, k + 1)
    ensures GlobalsOk(u, globals, s, k + 1)
  {
    ItemFacts(u, s, k);
    hide Laid, SectionOut, GlobalsOk;
    GlobalsStep(u, globals, s, k);
    UptoAppended(u, out, [], s, k);
    assert out + [] == out;
  }

  /** A section begins with a dasm_put or is empty. */
  lemma {:induction false} SectionStart(u: Unit, s: int)
    requires Encodable(u) && 0 <= s < |u.items|
    ensures |u.items| == |u.bufs| == |u.fin| && |u.fin[s]| == |u.items[s]| + 1
    ensures if u.items[s] == [] then |u.bufs[s]| == 0
      else u.items[s][0].kind.Start? && u.items[s][0].w == 0 && Placed(u, s, 0)
  {
    assert Chained(u.al, u.items[s]) && |u.bufs[s]| == EndWord(u.items[s]);
    assert |u.fin[s]| == |u.items[s]| + 1;
  }

  ghost predicate BetweenPuts(u: Unit, s: int, k: int, b: int) {
    && 0 <= s < |u.items| == |u.bufs| && 0 <= k <= |u.items[s]|
    && (if k < |u.items[s]| then Placed(u, s, k) && u.items[s][k].kind.Start? && b == u.items[s][k].w
        else b == |u.bufs[s]|)
  }

  /** Pass 3 over one section. */
  method EncodeSection(d: Dasm, s: int, out0: seq<int>, base: int, globals0: seq<int>, ghost u: Unit)
      returns (out: seq<int>, globals: seq<int>)
    requires Of(u, d, base) && Encodable(u) && 0 <= s < |u.items| && Upto(u, out0, s, 0) && GlobalsOk(u, globals0, s, 0)
    ensures Upto(u, out, s, |u.items[s]|) && Extends(u, out0, out, s) && GlobalsOk(u, globals, s, |u.items[s]|)
  {
    SectionStart(u, s);
    FinOrder(u, s, 0, 0);
    hide Encodable, SectionOut, GlobalsOk, AfterP, Words;
    var b := 0;
    out, globals := out0, globals0;
    ghost var k, out1 := 0, out;
    while b != |d.bufs[s]|
      invariant out1 == out && BetweenPuts(u, s, k, b) && Upto(u, out, s, k) && Extends(u, out0, out, s)
      invariant GlobalsOk(u, globals, s, k)
      decreases |u.items[s]| - k
    {
      ghost var k0 := k;
      b, out, globals, k := EncodePut(d, s, b, out, base, globals, u, k);
      ExtendsTrans(u, out0, out1, out, s);
      out1 := out;
    }
    assert k == |u.items[s]| by { if k < |u.items[s]| { StartWord(u, s, k); } }
  }

  /** One dasm_put: its start word, then its actions up to SECTION or STOP. */
  method EncodePut(d: Dasm, s: int, b0: int, out0: seq<int>, base: int, globals0: seq<int>, ghost u: Unit,
      ghost k0: int) returns (b: int, out: seq<int>, globals: seq<int>, ghost k: int)
    requires Of(u, d, base) && Encodable(u) && BetweenPuts(u, s, k0, b0) && k0 < |u.items[s]|
    requires Upto(u, out0, s, k0) && GlobalsOk(u, globals0, s, k0)
    ensures k0 < k <= |u.items[s]| && BetweenPuts(u, s, k, b) && Upto(u, out, s, k) && Extends(u, out0, out, s)
    ensures GlobalsOk(u, globals, s, k)
  {
    hide Encodable, SectionOut, GlobalsOk, AfterP, Words;
    StartRead(u, out0, globals0, s, k0);
    ExtendsSelf(u, out0, s, k0);
    var p := d.bufs[s][b0];
    b, out, globals, k := b0 + 1, out0, globals0, k0 + 1;
    ReadFacts(u, s, k, b, p);
    while !IsEnd(d.actionlist[p])
      invariant ReadAt(u, s, k, b, p) && 0 <= p < |u.al| && Upto(u, out, s, k) && Extends(u, out0, out, s)
      invariant GlobalsOk(u, globals, s, k) && k0 < k
      decreases |u.items[s]| - k
    {
      ghost var out1 := out;
      b, p, out, globals := EncodeAction(d, s, b, p, out, base, globals, u, k);
      ExtendsTrans(u, out0, out1, out, s);
      k := k + 1;
      ReadFacts(u, s, k, b, p);
    }
    ReadFacts(u, s, k, b, p);
  }

  lemma {:induction false} ExtendsSelf(u: Unit, out: seq<int>, s: int, k: int)
    requires Encodable(u) && Upto(u, out, s, k)
    ensures Extends(u, out, out, s)
  {
    FinOrder(u, s, 0, k);
  }

  lemma {:induction false} ExtendsTrans(u: Unit, a: seq<int>, b: seq<int>, c: seq<int>, s: int)
    requires 0 <= s < |u.fin| && |u.fin[s]| > 0 && Extends(u, a, b, s) && Extends(u, b, c, s)
    ensures Extends(u, a, c, s)
  {
  }

  lemma {:induction false} StartWord(u: Unit, s: int, k: int)
    requires Encodable(u) && Placed(u, s, k) && u.items[s][k].kind.Start?
    ensures u.items[s][k].w < |u.bufs[s]|
  {
    ItemFacts(u, s, k);
  }

  /** All items of all sections are in place. */
  ghost predicate AllOut(u: Unit, out: seq<int>, n: int) {
    forall t {:trigger SectionOut(u, out, t, |u.items[t]|)} :: 0 <= t < n <= |u.items| ==>
        SectionOut(u, out, t, |u.items[t]|)
  }

  lemma {:induction false} AllOutStart(u: Unit, out: seq<int>)
    ensures AllOut(u, out, 0)
  {
  }

  lemma {:induction false} AllOutNext(u: Unit, out: seq<int>, s: int)
    requires 0 <= s < |u.items| && AllOut(u, out, s) && SectionOut(u, out, s, |u.items[s]|)
    ensures AllOut(u, out, s + 1)
  {
    hide SectionOut;
  }

  lemma {:induction false} EarlierKept(u: Unit, out: seq<int>, out': seq<int>, s: int)
    requires Laid(u) && 0 <= s < |u.items| && AllOut(u, out, s) && |u.fin| == |u.items| && 0 < |u.fin[s]|
    requires Extends(u, out, out', s)
    ensures AllOut(u, out', s)
  {
    LaidShape(u);
    hide Laid, Extends, ItemOut, ItemBytes;
    forall t | 0 <= t < s ensures SectionOut(u, out', t, |u.items[t]|) {
      assert SectionOut(u, out, t, |u.items[t]|);
      forall j {:trigger ItemOut(u, out', t, j, |u.items[t]|)} | 0 <= j < |u.items[t]|
          ensures ItemOut(u, out', t, j, |u.items[t]|) {
        assert ItemOut(u, out, t, j, |u.items[t]|);
        ItemKept(u, out, out', s, t, j);
      }
    }
  }

  /** An item of an earlier section stays as it is. */
  lemma {:induction false} ItemKept(u: Unit, out: seq<int>, out': seq<int>, s: int, t: int, j: int)
    requires Laid(u) && 0 <= t < s < |u.items| == |u.fin| && 0 < |u.fin[s]| && Extends(u, out, out', s)
    requires Placed(u, t, j) && ItemOut(u, out, t, j, |u.items[t]|)
    ensures ItemOut(u, out', t, j, |u.items[t]|)
  {
    Earlier(u, s, t, j);
    hide Laid, ItemBytes;
    SameSlice(out, out', u.fin[s][0], u.fin[t][j], u.fin[t][j + 1]);
  }

  lemma {:induction false} Earlier(u: Unit, s: int, t: int, j: int)
    requires Laid(u) && 0 <= t < s < |u.items| == |u.fin| && 0 < |u.fin[s]| && Placed(u, t, j)
    ensures u.fin[t][j + 1] <= u.fin[s][0]
  {
    hide Branches, LenOk, Chained;
    Distances(u.al, u.items, u.fin, t, j + 1, s, 0);
  }

  lemma {:induction false} RefKnownAt(bufs: Bufs, items: Items, log: Log, lgsize: int, s: int, k: int)
    requires |bufs| == |items| && 0 <= s < |items| && 0 <= k < |items[s]| && IsRef(items[s][k].kind)
    requires RefMeans(bufs, items, log, s, k) && LabelsInRange(items, lgsize)
    ensures var n := RefWord(bufs, items, s, k);
      if n < 0 then items[s][k].kind.slot.LG? && -n < lgsize && NoLabel(items, -n) else exists t, j ::
          LabelAt(items, t, j, n)
  {
    var i :| 0 <= i < |log| && log[i] == EventOf(items[s][k].kind, Pos(s, items[s][k].w))
        && RefFixed(items, log, i, RefWord(bufs, items, s, k));
    hide RefWord;
  }

  lemma {:induction false} RefsAreKnown(u: Unit, log: Log, lgsize: int)
    requires |u.bufs| == |u.items| && RefsMean(u.bufs, u.items, log) && LabelsInRange(u.items, lgsize)
    requires lgsize <= |u.globals|
    ensures RefsKnown(u)
  {
    forall s, k {:trigger RefWord(u.bufs, u.items, s, k)} | 0 <= s < |u.items| && 0 <= k < |u.items[s]|
        && IsRef(u.items[s][k].kind)
      ensures var n := RefWord(u.bufs, u.items, s, k);
        if n < 0 then u.items[s][k].kind.slot.LG? && -n < |u.globals| && NoLabel(u.items, -n) else exists t, j ::
            LabelAt(u.items, t, j, n) {
      assert RefMeans(u.bufs, u.items, log, s, k);
      RefKnownAt(u.bufs, u.items, log, lgsize, s, k);
      hide RefMeans, NoLabel, LabelAt, RefWord, LabelsInRange;
    }
  }

  lemma {:induction false} LinkedEncodable(d: Dasm, u: Unit, base: int)
    requires Linked(d) && Of(u, d, base) && |u.globals| >= |d.lglabels|
    ensures Encodable(u)
  {
    hide Progress, Whole, Branches, SameRefs, RefsMean, LogItems, SlotsMatch, AtRest, RefsKnown;
    LaidShape(u);
    RefsAreKnown(u, d.log, |d.lglabels|);
  }

  /**
   dasm_encode after a successful dasm_link: never a phase error, as many bytes as linking said,
   every byte as its item calls for, and every global label at its final address.
   */
  method Encode(d: Dasm, base: int, globals0: seq<int>) returns (st: int, out: seq<int>, globals: seq<int>)
    requires Linked(d) && |globals0| >= |d.lglabels|
    ensures st == S_OK && |out| == d.codesize
    ensures var u := Unit(d.actionlist, d.bufs, d.items, d.fin, base, globals0);
      AllOut(u, out, |d.items|) && GlobalsOk(u, globals, |d.items| - 1, |d.items[|d.items| - 1]|)
  {
    hide Linked, Encodable, Laid, SectionOut, GlobalsOk, AllOut, Encoding, Upto, Extends, CodeEnd;
    ghost var u := Unit(d.actionlist, d.bufs, d.items, d.fin, base, globals0);
    EncodeReady(d, u, base);
    out, globals := [], globals0;
    var s := 0;
    while s < |d.bufs|
      invariant 0 <= s <= |u.items| && Encoding(u, out, globals, s)
    {
      ghost var out1 := out;
      EncodingHere(u, out, globals, s);
      out, globals := EncodeSection(d, s, out, base, globals, u);
      EncodingNext(u, out1, out, globals, s);
      s := s + 1;
    }
    EncodingEnd(u, out, globals);
    st := if |out| != d.codesize then S_PHASE else S_OK;
  }

  /** The sections before s are encoded, and encoding stands at the start of section s. */
  ghost predicate Encoding(u: Unit, out: seq<int>, globals: seq<int>, s: int) {
    && 0 <= s <= |u.items| == |u.fin| && AllOut(u, out, s)
    && (s < |u.items| ==> Upto(u, out, s, 0) && GlobalsOk(u, globals, s, 0))
    && (0 < s == |u.items| ==> Upto(u, out, s - 1, |u.items[s - 1]|) && GlobalsOk(u, globals, s - 1, |u.items[s - 1]|))
  }

  /** The final offset of the last section's end. */
  ghost function CodeEnd(u: Unit): int {
    var t := |u.fin| - 1;
    if t >= 0 && u.fin[t] != [] then u.fin[t][|u.fin[t]| - 1] else 0
  }

  lemma {:induction false} EncodeReady(d: Dasm, u: Unit, base: int)
    requires Linked(d) && Of(u, d, base) && |u.globals| >= |d.lglabels|
    ensures Encodable(u) && 0 < |u.items| == |u.fin| == |u.bufs| && d.codesize == CodeEnd(u)
    ensures Encoding(u, [], u.globals, 0)
  {
    hide Linked, Encodable, Upto, GlobalsOk, AllOut, Laid, Whole;
    EncodeStart(d, u, base);
    StartOut(u);
    AllOutStart(u, []);
  }

  lemma {:induction false} EncodableShape(u: Unit)
    requires Encodable(u)
    ensures Laid(u) && 0 < |u.items| == |u.fin| == |u.bufs|
    ensures forall s :: 0 <= s < |u.fin| ==> |u.fin[s]| == |u.items[s]| + 1
  {
    LaidShape(u);
  }

  lemma {:induction false} EncodingHere(u: Unit, out: seq<int>, globals: seq<int>, s: int)
    requires Encoding(u, out, globals, s) && s < |u.items|
    ensures Upto(u, out, s, 0) && GlobalsOk(u, globals, s, 0) && AllOut(u, out, s) && 0 < |u.fin[s]|
  {
    hide GlobalsOk, AllOut, SectionOut;
  }

  lemma {:induction false} EncodingNext(u: Unit, out: seq<int>, out': seq<int>, globals': seq<int>, s: int)
    requires Encodable(u) && 0 <= s < |u.items| == |u.fin| && 0 < |u.fin[s]| && AllOut(u, out, s)
    requires Upto(u, out', s, |u.items[s]|) && GlobalsOk(u, globals', s, |u.items[s]|) && Extends(u, out, out', s)
    ensures Encoding(u, out', globals', s + 1)
  {
    hide Encodable, Laid, GlobalsOk, AllOut, SectionOut, Extends;
    EncodableShape(u);
    EarlierKept(u, out, out', s);
    AllOutNext(u, out', s);
    if s + 1 < |u.items| { NextStart(u, out', globals', s); }
  }

  lemma {:induction false} EncodingEnd(u: Unit, out: seq<int>, globals: seq<int>)
    requires Encoding(u, out, globals, |u.items|) && 0 < |u.items|
    ensures AllOut(u, out, |u.items|) && GlobalsOk(u, globals, |u.items| - 1, |u.items[|u.items| - 1]|)
    ensures |out| == CodeEnd(u)
  {
    hide GlobalsOk, AllOut, SectionOut;
  }

  lemma {:induction false} EncodeStart(d: Dasm, u: Unit, base: int)
    requires Linked(d) && Of(u, d, base) && |u.globals| >= |d.lglabels|
    ensures Encodable(u) && Laid(u) && 0 < |u.items| == |u.fin| == |u.bufs| && Whole(u.items, u.fin)
    ensures forall s {:trigger u.fin[s]} :: 0 <= s < |u.fin| ==> |u.fin[s]| == |u.items[s]| + 1
    ensures d.codesize == u.fin[|u.items| - 1][|u.items[|u.items| - 1]|]
  {
    hide Linking, RefsKnown, LabelsInRange, LogItems, SlotsMatch, LogOk, Progress, Branches, AtRest;
    LinkedEncodable(d, u, base);
    LaidShape(u);
  }

  lemma {:induction false} StartOut(u: Unit)
    requires Encodable(u)
    ensures |u.items| > 0 && Upto(u, [], 0, 0) && GlobalsOk(u, u.globals, 0, 0)
  {
    LaidShape(u);
    assert |u.fin[0]| == |u.items[0]| + 1;
  }

  lemma {:induction false} NextStart(u: Unit, out: seq<int>, globals: seq<int>, s: int)
    requires Encodable(u) && 0 <= s < |u.items| - 1 && Upto(u, out, s, |u.items[s]|)
    requires GlobalsOk(u, globals, s, |u.items[s]|)
    ensures Upto(u, out, s + 1, 0) && GlobalsOk(u, globals, s + 1, 0)
  {
    LaidShape(u);
    assert Starts(u.fin, s + 1);
    assert |u.fin[s + 1]| == |u.items[s + 1]| + 1;
  }
}

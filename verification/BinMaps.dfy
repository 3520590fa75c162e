/**
 The 32-bit bin maps as sequences of bits, lowest first, and the tricks on them: the mask of all bits
 above one, made by a two's complement, and the search for the lowest set bit.
 */
module BinMaps {
  import opened Bits

  type Map = seq<bool>

  /** The number a bit sequence stands for. */
  ghost function Value(w: Map): (v: nat)
    ensures v < Pow2(|w|)
  {
    if w == [] then 0 else (if w[0] then 1 else 0) + 2 * Value(w[1..])
  }

  function Not(w: Map): (r: Map)
    ensures |r| == |w| && forall i :: 0 <= i < |w| ==> r[i] == !w[i]
  {
    seq(|w|, i requires 0 <= i < |w| => !w[i])
  }

  function And(x: Map, y: Map): (r: Map)
    requires |x| == |y|
    ensures |r| == |x| && forall i :: 0 <= i < |x| ==> r[i] == (x[i] && y[i])
  {
    seq(|x|, i requires 0 <= i < |x| => x[i] && y[i])
  }

  function Or(x: Map, y: Map): (r: Map)
    requires |x| == |y|
    ensures |r| == |x| && forall i :: 0 <= i < |x| ==> r[i] == (x[i] || y[i])
  {
    seq(|x|, i requires 0 <= i < |x| => x[i] || y[i])
  }

  /** w << k */
  function ShiftUp(w: Map, k: nat): (r: Map)
    ensures |r| == |w| && forall i :: 0 <= i < |w| ==> r[i] == (i >= k && w[i - k])
  {
    seq(|w|, i requires 0 <= i < |w| => i >= k && w[i - k])
  }

  /** w >> k */
  function ShiftDown(w: Map, k: nat): (r: Map)
    ensures |r| == |w| && forall i :: 0 <= i < |w| ==> r[i] == (i + k < |w| && w[i + k])
  {
    seq(|w|, i requires 0 <= i < |w| => i + k < |w| && w[i + k])
  }

  /** w + 1: the carry runs through the low set bits, and is lost at the top. */
  function Inc(w: Map): (r: Map)
    ensures |r| == |w|
  {
    if w == [] then [] else if w[0] then [false] + Inc(w[1..]) else [true] + w[1..]
  }

  /** Inc adds one, and wraps from all ones to zero. */
  lemma {:induction false} IncAdds(w: Map)
    ensures Value(Inc(w)) == if Value(w) + 1 == Pow2(|w|) then 0 else Value(w) + 1
    decreases |w|
  {
    if w != [] {
      Pow2Step(|w| - 1);
      if w[0] {
        IncAdds(w[1..]);
        assert Inc(w)[1..] == Inc(w[1..]);
      } else {
        assert Inc(w)[1..] == w[1..];
      }
    }
  }

  /** A bit of w + 1 differs from that of w exactly if all bits below are set. */
  lemma {:induction false} IncBit(w: Map, i: nat)
    requires i < |w|
    ensures Inc(w)[i] == (w[i] != forall j :: 0 <= j < i ==> w[j])
    decreases |w|
  {
    if w[0] && i > 0 {
      IncBit(w[1..], i - 1);
      assert (forall j :: 0 <= j < i ==> w[j]) <==> forall j :: 0 <= j < i - 1 ==> w[1..][j] by {
        if forall j :: 0 <= j < i - 1 ==> w[1..][j] {
          forall j | 0 <= j < i ensures w[j] { if j > 0 { assert w[1..][j - 1]; } }
        }
      }
    }
  }

  /** idx2bit */
  function Idx2Bit(i: nat): (r: Map)
    requires i < 32
    ensures |r| == 32 && forall j :: 0 <= j < 32 ==> r[j] == (j == i)
  {
    seq(32, j => j == i)
  }

  /** left_bits: (x<<1) | (~(x<<1)+1) */
  function LeftBits(x: Map): (r: Map)
    ensures |r| == |x|
  {
    Or(ShiftUp(x, 1), Inc(Not(ShiftUp(x, 1))))
  }

  /** The mask of a single bit has exactly the bits above it. */
  lemma {:induction false} LeftBitsMask(i: nat, j: nat)
    requires i < 32 && j < 32
    ensures LeftBits(Idx2Bit(i))[j] <==> j > i
  {
    var y := ShiftUp(Idx2Bit(i), 1);
    assert forall k :: 0 <= k < 32 ==> y[k] == (k == i + 1);
    IncBit(Not(y), j);
    hide Inc;
    if j > i + 1 { assert !Not(y)[i + 1]; }
  }

  /** Position of the lowest set bit at or above from, or 32. */
  function LowestSet(m: Map, from: nat): (i: nat)
    requires |m| == 32 && from <= 32
    ensures from <= i <= 32
    ensures i < 32 ==> m[i]
    ensures forall j :: from <= j < i ==> !m[j]
    decreases 32 - from
  {
    if from == 32 then 32 else if m[from] then from else LowestSet(m, from + 1)
  }

  predicate IsZero(m: Map) { forall i :: 0 <= i < |m| ==> !m[i] }

  /** lj_ffs */
  function Ffs(m: Map): (i: nat)
    requires |m| == 32 && !IsZero(m)
    ensures i < 32 && m[i] && forall j :: 0 <= j < i ==> !m[j]
  {
    LowestSet(m, 0)
  }

  /** Masking with left_bits leads to the next non-empty bin. */
  lemma {:induction false} NextBin(m: Map, idx: nat)
    requires |m| == 32 && idx < 32
    ensures var left := And(LeftBits(Idx2Bit(idx)), m);
      && (IsZero(left) <==> LowestSet(m, idx + 1) == 32)
      && (!IsZero(left) ==> Ffs(left) == LowestSet(m, idx + 1))
  {
    hide LeftBits, LowestSet, Ffs;
    var left, n := And(LeftBits(Idx2Bit(idx)), m), LowestSet(m, idx + 1);
    forall j | 0 <= j < 32 ensures left[j] == (j > idx && m[j]) { LeftBitsMask(idx, j); }
    if n < 32 { assert left[n]; }
  }

  /** The map shifted down and up again has the same bits above idx. */
  lemma {:induction false} NextSmallBin(m: Map, idx: nat)
    requires |m| == 32 && idx < 32 && !ShiftDown(m, idx)[0]
    ensures var left := And(ShiftUp(ShiftDown(m, idx), idx), LeftBits(Idx2Bit(idx)));
      && (IsZero(ShiftDown(m, idx)) <==> LowestSet(m, idx + 1) == 32)
      && (IsZero(left) <==> IsZero(ShiftDown(m, idx)))
      && (!IsZero(left) ==> Ffs(left) == LowestSet(m, idx + 1))
  {
    hide LeftBits, LowestSet, Ffs;
    var s, n := ShiftDown(m, idx), LowestSet(m, idx + 1);
    var left := And(ShiftUp(s, idx), LeftBits(Idx2Bit(idx)));
    forall j | 0 <= j < 32 ensures left[j] == (j > idx && m[j]) { LeftBitsMask(idx, j); }
    if n < 32 { assert left[n] && s[n - idx]; }
  }
}

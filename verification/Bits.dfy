/** Words as numbers: powers of two, shifts, single bits and the two's complement reading. */
module Bits {

  const TWO_64: int := 0x1_0000_0000_0000_0000
  const TWO_32: int := 0x1_0000_0000

  /** Two's complement reading of an unsigned value below m. */
  function Signed(v: int, m: int): int { if 2 * v >= m then v - m else v }

  function Pow2(n: nat): (r: nat)
    ensures r >= 1
  {
    if n == 0 then 1 else 2 * Pow2(n - 1)
  }

  lemma {:induction false} Pow2Monotone(m: nat, n: nat)
    ensures m <= n ==> Pow2(m) <= Pow2(n)
    decreases n - m
  {
    if m < n { Pow2Monotone(m + 1, n); }
  }

  lemma {:induction false} Pow2Add(m: nat, n: nat)
    ensures Pow2(m + n) == Pow2(m) * Pow2(n)
  {
    if m > 0 {
      Pow2Add(m - 1, n);
      Pow2Step(m - 1);
      Pow2Step(m - 1 + n);
      hide Pow2;
      Regroup(Pow2(m - 1), Pow2(n));
    }
  }

  lemma {:induction false} Pow2Step(n: nat)
    ensures Pow2(n + 1) == 2 * Pow2(n)
  {
  }

  lemma {:induction false} Regroup(a: nat, b: nat)
    ensures 2 * (a * b) == (2 * a) * b
  {
  }

  lemma {:induction false} Pow2Values()
    ensures Pow2(7) == 128 && Pow2(8) == 256 && Pow2(14) == 0x4000
    ensures Pow2(15) == 32768 && Pow2(16) == 65536
    ensures Pow2(21) == 2097152 && Pow2(22) == 4194304 && Pow2(28) == 0x1000_0000 && Pow2(32) == TWO_32
  {
    Pow2Add(7, 7);
    Pow2Add(7, 8);
    Pow2Add(8, 8);
    Pow2Add(14, 7);
    Pow2Add(14, 14);
    Pow2Add(16, 16);
  }

  /** Bit index of the highest set bit (lj_fls). */
  function Fls(x: nat): (k: nat)
    requires x > 0
    ensures Pow2(k) <= x < 2 * Pow2(k)
  {
    if x == 1 then 0 else 1 + Fls(x / 2)
  }

  lemma {:induction false} FlsBounds(x: nat, e: nat)
    requires x > 0
    ensures Fls(x) >= e <==> x >= Pow2(e)
  {
    hide Fls;
    var k := Fls(x);
    Pow2Monotone(e, k);
    Pow2Step(k);
    Pow2Monotone(k + 1, e);
  }

  /** s >> k. */
  function Shr(s: nat, k: nat): nat {
    if k == 0 then s else Shr(s, k - 1) / 2
  }

  function BitAt(s: nat, b: nat): (r: nat)
    ensures r < 2
  {
    Shr(s, b) % 2
  }

  lemma {:induction false} ShrMonotone(x: nat, y: nat, k: nat)
    ensures x <= y ==> Shr(x, k) <= Shr(y, k)
  {
    if k > 0 { ShrMonotone(x, y, k - 1); }
  }

  lemma {:induction false} ShrHalf(s: nat, k: nat)
    requires k > 0
    ensures Shr(s, k) == Shr(s / 2, k - 1)
  {
    if k > 1 { ShrHalf(s, k - 1); }
  }

  lemma {:induction false} ShrZero(s: nat, k: nat)
    ensures s < Pow2(k) ==> Shr(s, k) == 0
  {
    if k > 0 {
      ShrZero(s / 2, k - 1);
      ShrHalf(s, k);
    }
  }

  lemma {:induction false} HalfOfSum(q: nat, n: nat, r: nat)
    requires n > 0
    ensures (q * Pow2(n) + r) / 2 == q * Pow2(n - 1) + r / 2
    ensures (q * Pow2(n) + r) % 2 == r % 2
  {
    var d := q * Pow2(n - 1);
    assert q * Pow2(n) == 2 * d;
  }

  /** Bits below the n-th do not depend on what stands from the n-th on. */
  lemma {:induction false} BitOfSum(q: nat, n: nat, r: nat, b: nat)
    requires b < n
    ensures BitAt(q * Pow2(n) + r, b) == BitAt(r, b)
    decreases b
  {
    HalfOfSum(q, n, r);
    if b > 0 {
      BitOfSum(q, n - 1, r / 2, b - 1);
      ShrHalf(q * Pow2(n) + r, b);
      ShrHalf(r, b);
    }
  }
}

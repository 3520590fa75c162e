/** 64 bit integer powers of the FFI. */
module Carith {
  import opened Bits

  const M := TWO_64

  function Pow(x: int, k: nat): int { if k == 0 then 1 else x * Pow(x, k - 1) }

  lemma {:induction false} MulMod(x: int, y: int)
    ensures (x % M) * y % M == x * y % M
    ensures x * (y % M) % M == x * y % M
  {
    ModAdd((x % M) * y, (x / M) * y);
    assert x * y == (x % M) * y + M * ((x / M) * y) by { assert x == x % M + M * (x / M); }
    ModAdd(x * (y % M), x * (y / M));
    assert x * y == x * (y % M) + M * (x * (y / M)) by { assert y == y % M + M * (y / M); }
  }

  lemma {:induction false} ModAdd(a: int, q: int)
    ensures (a + M * q) % M == a % M
  {
  }

  /** Powers can be taken of remainders. */
  lemma {:induction false} PowMod(x: int, k: nat)
    ensures Pow(x % M, k) % M == Pow(x, k) % M
    decreases k
  {
    if k > 0 {
      PowMod(x, k - 1);
      var a, b := Pow(x % M, k - 1), Pow(x, k - 1);
      MulMod(x, a);
      MulMod(x, b);
      assert (x % M) * a % M == x * a % M == x * (a % M) % M by { MulMod(x, a); }
      assert x * b % M == x * (b % M) % M by { MulMod(x, b); }
    }
  }

  /** Squaring the base halves the exponent. */
  lemma {:induction false} PowSquare(x: int, k: nat)
    ensures Pow(x * x, k) == Pow(x, 2 * k)
    decreases k
  {
    if k > 0 {
      PowSquare(x, k - 1);
      assert Pow(x, 2 * k) == x * Pow(x, 2 * k - 1) == x * (x * Pow(x, 2 * k - 2));
    }
  }

  lemma {:induction false} SquareStep(x: int, k: nat)
    ensures Pow(x * x % M, k) % M == Pow(x, 2 * k) % M
  {
    PowMod(x * x, k);
    PowSquare(x, k);
  }

  /** y times a power, one squaring and perhaps one multiplication later. */
  lemma {:induction false} OddStep(y: int, x: int, k: nat)
    requires k % 2 == 1
    ensures y * Pow(x, k) % M == (y * x % M) * Pow(x, k - 1) % M
  {
    MulMod(y * x, Pow(x, k - 1));
    assert y * Pow(x, k) == y * x * Pow(x, k - 1);
  }

  lemma {:induction false} ProductMod(y: int, a: int, b: int)
    requires a % M == b % M
    ensures y * a % M == y * b % M
  {
    MulMod(y, a);
    MulMod(y, b);
  }

  /** lj_carith_powu64: the power modulo 2^64, for every base and exponent. */
  method PowU64(x0: nat, k0: nat) returns (y: int)
    requires x0 < M && k0 < M
    ensures 0 <= y < M && y == Pow(x0, k0) % M
  {
    hide Pow;
    var x, k: nat := x0, k0;
    PowZero(x0);
    if k == 0 { return 1; }
    while k % 2 == 0
      invariant k > 0 && 0 <= x < M && Pow(x, k) % M == Pow(x0, k0) % M
      decreases k
    {
      SquareStep(x, k / 2);
      x := x * x % M;
      k := k / 2;
    }
    y := x;
    FirstFactor(x, k);
    k := k / 2;
    if k != 0 {
      while true
        invariant k > 0 && 0 <= x < M && 0 <= y < M && y * Pow(x, 2 * k) % M == Pow(x0, k0) % M
        decreases k
      {
        SquareStep(x, k);
        ProductMod(y, Pow(x * x % M, k), Pow(x, 2 * k));
        x := x * x % M;
        if k == 1 { break; }
        if k % 2 == 1 {
          OddStep(y, x, k);
          y := y * x % M;
        }
        k := k / 2;
      }
      PowOne(x);
      y := y * x % M;
    }
  }

  lemma {:induction false} PowZero(x: int)
    ensures Pow(x, 0) == 1
  {
  }

  lemma {:induction false} PowOne(x: int)
    ensures Pow(x, 1) == x
  {
    assert Pow(x, 1) == x * Pow(x, 0);
  }

  lemma {:induction false} FirstFactor(x: int, k: nat)
    requires k % 2 == 1
    ensures Pow(x, k) == x * Pow(x, 2 * (k / 2)) && (k / 2 == 0 ==> Pow(x, k) == x)
  {
  }

  /** C division: truncation towards zero. */
  function Quotient(a: int, b: int): int
    requires b != 0
  {
    if (a >= 0) == (b >= 0) then Abs(a) / Abs(b) else -(Abs(a) / Abs(b))
  }

  function Abs(x: int): int { if x < 0 then -x else x }

  lemma {:induction false} PowSize(x: int, k: nat)
    requires k > 0 && (x >= 2 || x <= -2)
    ensures Abs(Pow(x, k)) >= 2
    decreases k
  {
    if k == 1 {
      PowOne(x);
    } else {
      PowSize(x, k - 1);
      var p := Pow(x, k - 1);
      assert Abs(x * p) >= 2 by {
        if x > 0 && p > 0 { assert x * p >= 2 * p; }
        else if x > 0 { assert x * -p >= 2 * -p; }
        else if p > 0 { assert -x * p >= 2 * p; }
        else { assert -x * -p >= 2 * -p; }
      }
    }
  }

  lemma {:induction false} PowUnit(x: int, k: nat)
    requires x == 1 || x == -1
    ensures Pow(x, k) == if x == 1 || k % 2 == 0 then 1 else -1
    decreases k
  {
    if k > 0 { PowUnit(x, k - 1); }
  }

  /**
   lj_carith_powi64: the two's complement reading of the power; with a negative exponent the
   reciprocal truncated to an integer, and the largest integer for a zero base.
   */
  method PowI64(x: int, k: int) returns (r: int)
    requires -(M / 2) <= x < M / 2 && -(M / 2) <= k < M / 2
    ensures k >= 0 ==> r == Signed(Pow(x, k) % M, M)
    ensures k < 0 && x != 0 ==> Pow(x, -k) != 0 && r == Quotient(1, Pow(x, -k))
    ensures k < 0 && x == 0 ==> r == M / 2 - 1
  {
    hide Pow;
    PowZero(x);
    if k == 0 { return 1; }
    if k < 0 {
      if x == 0 { return 0x7fff_ffff_ffff_ffff; }
      if x == 1 || x == -1 { PowUnit(x, -k); } else { PowSize(x, -k); SmallQuotient(Pow(x, -k)); }
      if x == 1 { return 1; }
      if x == -1 { return if k % 2 == 1 then -1 else 1; }
      return 0;
    }
    PowMod(x, k);
    var u := PowU64(x % M, k);
    r := Signed(u, M);
  }

  lemma {:induction false} SmallQuotient(p: int)
    requires Abs(p) >= 2
    ensures Quotient(1, p) == 0
  {
  }
}

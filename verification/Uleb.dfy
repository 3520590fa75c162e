/**
 ULEB128 numbers as bytecode dumps use them (section 7.6 of DWARF version 4), with the 33 bit
 variant whose lowest bit is a tag, and the buffers they are written to and read from.
 */
module Uleb {
  import opened Bits

  type Bytes = seq<int>

  // ---------------------------------------------------------------- joining byte strings

  lemma {:induction false} Join2(c: Bytes, a: Bytes, b: Bytes)
    ensures c + a + b == c + (a + b)
  {
  }

  lemma {:induction false} Join3(c: Bytes, a: Bytes, b: Bytes, d: Bytes)
    ensures c + a + b + d == c + (a + (b + d))
  {
    Join2(c + a, b, d);
    Join2(c, a, b + d);
  }

  lemma {:induction false} Join4(c: Bytes, a: Bytes, b: Bytes, d: Bytes, e: Bytes)
    ensures c + a + b + d + e == c + (a + (b + (d + e)))
  {
    Join3(c + a, b, d, e);
    Join2(c, a, b + (d + e));
  }

  lemma {:induction false} Join5(c: Bytes, a: Bytes, b: Bytes, d: Bytes, e: Bytes, f: Bytes)
    ensures c + a + b + d + e + f == c + (a + (b + (d + (e + f))))
  {
    Join4(c + a, b, d, e, f);
    Join2(c, a, b + (d + (e + f)));
  }

  lemma {:induction false} Join6(c: Bytes, a: Bytes, b: Bytes, d: Bytes, e: Bytes, f: Bytes, g: Bytes)
    ensures c + a + b + d + e + f + g == c + (a + (b + (d + (e + (f + g)))))
  {
    Join5(c + a, b, d, e, f, g);
    Join2(c, a, b + (d + (e + (f + g))));
  }

  /** The encoding of a number of any size. */
  ghost function Enc(v: nat): (r: Bytes)
    ensures |r| >= 1
    decreases v
  {
    if v < 128 then [v] else [v % 128 + 128] + Enc(v / 128)
  }

  /** Value of the number that starts a byte string, and how many bytes it takes. */
  ghost function Dec(b: Bytes): (int, nat)
  {
    if b == [] then (0, 0)
    else if b[0] < 128 then (b[0], 1)
    else var (v, n) := Dec(b[1..]); (b[0] - 128 + 128 * v, n + 1)
  }

  /** The first k bytes of b are a number: the last of them, and no other, is below 128. */
  ghost predicate Numeral(b: Bytes, k: nat) {
    && 0 < k <= |b| && b[k - 1] < 128
    && (forall i :: 0 <= i < k ==> 0 <= b[i] < 256) && (forall i :: 0 <= i < k - 1 ==> b[i] >= 128)
  }

  lemma {:induction false} EncNumeral(v: nat, rest: Bytes)
    ensures Numeral(Enc(v) + rest, |Enc(v)|) && (Enc(v) + rest)[|Enc(v)|..] == rest
    decreases v
  {
    if v >= 128 {
      EncNumeral(v / 128, rest);
      var b, c := Enc(v) + rest, Enc(v / 128) + rest;
      assert b == [v % 128 + 128] + c;
      assert forall i :: 1 <= i < |Enc(v)| ==> b[i] == c[i - 1];
    }
  }

  /** Decoding an encoding, with anything behind it, gives the number back and stops right behind it. */
  lemma {:induction false} DecEnc(v: nat, rest: Bytes)
    ensures Dec(Enc(v) + rest) == (v, |Enc(v)|)
    decreases v
  {
    if v >= 128 {
      DecEnc(v / 128, rest);
      assert (Enc(v) + rest)[1..] == Enc(v / 128) + rest;
    }
  }

  /** The encoding takes one byte for every seven bits. */
  lemma {:induction false} EncLength(v: nat)
    ensures |Enc(v)| == 1 <==> v < 128
    ensures |Enc(v)| <= 5 <==> v < 0x8_0000_0000
    ensures |Enc(v)| <= 4 <==> v < 0x1000_0000
    ensures |Enc(v)| <= 3 <==> v < 0x20_0000
    ensures |Enc(v)| <= 2 <==> v < 0x4000
  {
    if v >= 128 {
      var a := v / 128;
      assert Enc(v) == [v % 128 + 128] + Enc(a);
      if a >= 128 {
        var b := a / 128;
        assert Enc(a) == [a % 128 + 128] + Enc(b);
        if b >= 128 {
          var c := b / 128;
          assert Enc(b) == [b % 128 + 128] + Enc(c);
          if c >= 128 {
            var d := c / 128;
            assert Enc(c) == [c % 128 + 128] + Enc(d);
            if d >= 128 { assert Enc(d) == [d % 128 + 128] + Enc(d / 128); }
          }
        }
      }
    }
  }

  /** (fls(n)+8)*9>>6: the room the size prefix of a prototype needs. */
  function PrefixLen(n: nat): int
    requires n > 0
  {
    (Fls(n) + 8) * 9 / 64
  }

  /** The reserved room is exactly what the number takes. */
  lemma {:induction false} PrefixLenExact(n: nat)
    requires 0 < n < TWO_32
    ensures PrefixLen(n) == |Enc(n)| <= 5
  {
    hide Fls, Pow2, Enc;
    EncLength(n);
    FlsBounds(n, 7);
    FlsBounds(n, 14);
    FlsBounds(n, 21);
    FlsBounds(n, 28);
    FlsBounds(n, 32);
    Pow2Values();
  }
}

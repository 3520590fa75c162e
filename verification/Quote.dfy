/**
 string.format("%q"): a string literal that the Lua lexer reads back as the same string (section
 2.1 of the Lua 5.1 Reference Manual).
 */
module Quote {
  import opened PatternSpec

  datatype Read = Done(s: Str, rest: Str) | Fail

  predicate IsBytes(s: Str) { forall i :: 0 <= i < |s| ==> 0 <= s[i] < 256 }

  // ---------------------------------------------------------------- reading a literal

  function HexVal(c: int): int { if IsDigit(c) then c % 16 else c % 16 + 9 }

  /** The escapes that stand for one character; -1 if c is none of them. */
  function SimpleEscape(c: int): int {
    match c
    case 97 => 7
    case 98 => 8
    case 102 => 12
    case 110 => 10
    case 114 => 13
    case 116 => 9
    case 118 => 11
    case 92 => 92
    case 34 => 34
    case 39 => 39
    case _ => -1
  }

  /** Blanks skipped by a \z escape. */
  function SkipSpace(b: Str): (r: Str)
    ensures |r| <= |b|
  {
    if b != [] && IsSpace(b[0]) then SkipSpace(b[1..]) else b
  }

  /** Length of a decimal escape: up to three digits. */
  function DigitCount(b: Str): (n: nat)
    ensures n <= 3 && n <= |b|
  {
    if |b| >= 1 && IsDigit(b[0]) then
      if |b| >= 2 && IsDigit(b[1]) then
        if |b| >= 3 && IsDigit(b[2]) then 3 else 2
      else 1
    else 0
  }

  function Decimal(b: Str, n: nat): int
    requires n <= |b|
  {
    if n == 0 then 0 else Decimal(b, n - 1) * 10 + (b[n - 1] - 48)
  }

  function Prepend(c: int, r: Read): Read { if r.Fail? then Fail else Done([c] + r.s, r.rest) }

  /** read_string behind the opening quote. */
  function ReadString(b: Str): Read
    decreases |b|
  {
    if b == [] then Fail
    else if b[0] == 34 then Done([], b[1..])
    else if b[0] == 10 || b[0] == 13 then Fail
    else if b[0] != 92 then Prepend(b[0], ReadString(b[1..]))
    else if |b| == 1 then Fail
    else
      var c := b[1];
      if SimpleEscape(c) >= 0 then Prepend(SimpleEscape(c), ReadString(b[2..]))
      else if c == 10 || c == 13 then
        Prepend(10, ReadString(if |b| > 2 && (b[2] == 10 || b[2] == 13) && b[2] != c then b[3..] else b[2..]))
      else if c == 120 then
        (if |b| >= 4 && IsXdigit(b[2]) && IsXdigit(b[3]) then Prepend(HexVal(b[2]) * 16 + HexVal(b[3]),
            ReadString(b[4..])) else Fail)
      else if c == 122 then ReadString(SkipSpace(b[2..]))
      else
        var n := DigitCount(b[1..]);
        if n == 0 || Decimal(b[1..], n) > 255 then Fail
        else Prepend(Decimal(b[1..], n), ReadString(b[1 + n..]))
  }

  // ---------------------------------------------------------------- quoting

  /** One character, given the one behind it. */
  function QuoteChar(c: int, next: int): Str {
    if c == 34 || c == 92 || c == 10 then [92, c]
    else if !IsCntrl(c) then [c]
    else if c >= 100 || IsDigit(next) then [92, 48 + c / 100, 48 + c / 10 % 10, 48 + c % 10]
    else if c >= 10 then [92, 48 + c / 10, 48 + c % 10]
    else [92, 48 + c]
  }

  function QuoteBody(s: Str): Str {
    if s == [] then [] else QuoteChar(s[0], At(s, 1)) + QuoteBody(s[1..])
  }

  /** The value of decimal digits. */
  function DigitsValue(d: Str): int {
    if d == [] then 0 else DigitsValue(d[..|d| - 1]) * 10 + (d[|d| - 1] - 48)
  }

  /**
   How a character c in front of next is written: a quote, a backslash and a newline behind a
   backslash; any other control character as a backslash and its decimal number, three digits if a
   digit follows, as few as possible if not; every other character as it is.
   */
  ghost predicate WrittenAs(c: int, next: int, x: Str) {
    if c == 34 || c == 92 || c == 10 then x == [92, c]
    else if 0 <= c < 32 || c == 127 then
      && 2 <= |x| <= 4 && x[0] == 92
      && (forall i :: 1 <= i < |x| ==> 48 <= x[i] <= 57) && DigitsValue(x[1..]) == c
      && (48 <= next <= 57 ==> |x| == 4) && (!(48 <= next <= 57) && |x| > 2 ==> x[1] != 48)
    else x == [c]
  }

  ghost predicate BodyWritten(s: Str, b: Str)
    decreases |s|
  {
    if s == [] then b == []
    else exists x, y {:trigger x + y} ::
      b == x + y && WrittenAs(s[0], if |s| > 1 then s[1] else 0, x) && BodyWritten(s[1..], y)
  }

  lemma {:induction false} QuoteWritten(c: int, next: int)
    requires 0 <= c < 256
    ensures WrittenAs(c, next, QuoteChar(c, next))
  {
    var x := QuoteChar(c, next);
    if IsCntrl(c) && c != 10 {
      var d := x[1..];
      ThreeDigits(c);
      if |d| == 1 { DigitsOne(d); } else if |d| == 2 { DigitsTwo(d); } else { DigitsThree(d); }
    }
  }

  lemma {:induction false} DigitsOne(d: Str)
    requires |d| == 1
    ensures DigitsValue(d) == d[0] - 48
  {
    assert d[..0] == [];
  }

  lemma {:induction false} DigitsTwo(d: Str)
    requires |d| == 2
    ensures DigitsValue(d) == (d[0] - 48) * 10 + (d[1] - 48)
  {
    DigitsOne(d[..1]);
  }

  lemma {:induction false} DigitsThree(d: Str)
    requires |d| == 3
    ensures DigitsValue(d) == (d[0] - 48) * 100 + (d[1] - 48) * 10 + (d[2] - 48)
  {
    DigitsTwo(d[..2]);
  }

  /** The body of a literal, character by character. */
  lemma {:induction false} QuoteBodyWritten(s: Str)
    requires IsBytes(s)
    ensures BodyWritten(s, QuoteBody(s))
    decreases |s|
  {
    hide QuoteChar, WrittenAs;
    if s != [] {
      QuoteWritten(s[0], At(s, 1));
      QuoteBodyWritten(s[1..]);
    }
  }

  /** Dividing by ten with a multiplication and a shift. */
  lemma {:induction false} TensByShift(c: int)
    requires 0 <= c < 100
    ensures c * 205 / 2048 == c / 10
  {
  }

  /** addquoted: opening quote, every character, closing quote. */
  method AddQuoted(s: Str) returns (b: Str)
    requires IsBytes(s)
    ensures b == [34] + QuoteBody(s) + [34] && BodyWritten(s, QuoteBody(s))
  {
    hide QuoteChar, BodyWritten;
    QuoteBodyWritten(s);
    b := [34];
    var i := 0;
    assert s[0..] == s;
    while i < |s|
      invariant 0 <= i <= |s| && b + QuoteBody(s[i..]) == [34] + QuoteBody(s)
    {
      assert s[i..][1..] == s[i + 1..] && At(s[i..], 1) == At(s, i + 1);
      ghost var b0 := b;
      b := AddChar(b, s[i], At(s, i + 1));
      assert b0 + (QuoteChar(s[i], At(s, i + 1)) + QuoteBody(s[i + 1..])) == b + QuoteBody(s[i + 1..]);
      i := i + 1;
    }
    b := b + [34];
  }

  /** One character of the string, with the one behind it in view. */
  method AddChar(b0: Str, c0: int, next: int) returns (b: Str)
    requires 0 <= c0 < 256
    ensures b == b0 + QuoteChar(c0, next)
  {
    var c := c0;
    b := b0;
    if c == 34 || c == 92 || c == 10 {
      b := b + [92];
    } else if IsCntrl(c) {
      b := b + [92];
      if c >= 100 || IsDigit(next) {
        b := b + [if c >= 100 then 49 else 48];
        if c >= 100 { c := c - 100; }
        TensByShift(c);
        var d := c * 205 / 2048;
        c := c - d * 10;
        b := b + [48 + d];
      } else if c >= 10 {
        TensByShift(c);
        var d := c * 205 / 2048;
        c := c - d * 10;
        b := b + [48 + d];
      }
      c := c + 48;
    }
    b := b + [c];
  }

  // ---------------------------------------------------------------- reading it back

  /** What follows an escape starts with a digit only if the next character of the string is one. */
  lemma {:induction false} NextDigit(s: Str, rest: Str)
    requires IsBytes(s)
    ensures var q := QuoteBody(s) + [34] + rest; q != [] && (IsDigit(q[0]) ==> IsDigit(At(s, 0)))
  {
  }

  lemma {:induction false} ReadPlain(c: int, tail: Str)
    requires c != 34 && c != 10 && c != 13 && c != 92
    ensures ReadString([c] + tail) == Prepend(c, ReadString(tail))
  {
    assert ([c] + tail)[1..] == tail;
  }

  lemma {:induction false} ReadSelf(c: int, tail: Str)
    requires c == 34 || c == 92 || c == 10
    requires c == 10 ==> tail != [] && tail[0] != 13
    ensures ReadString([92, c] + tail) == Prepend(c, ReadString(tail))
  {
    assert ([92, c] + tail)[2..] == tail;
  }

  lemma {:induction false} ReadDecimal(d: Str, tail: Str, c: int)
    requires d != [] && IsDigit(d[0]) && DigitCount(d + tail) == |d| && Decimal(d + tail, |d|) == c <= 255
    ensures ReadString([92] + d + tail) == Prepend(c, ReadString(tail))
  {
    hide DigitCount, Decimal, HexVal, SkipSpace, IsXdigit, Prepend;
    var b := [92] + d + tail;
    assert b[1..] == d + tail;
    assert b[1 + |d|..] == tail;
  }

  /** The digits of an escape, and nothing of what follows, are taken. */
  lemma {:induction false} Digits(d: Str, tail: Str, c: int, next: int)
    requires IsCntrl(c) && c != 10 && [92] + d == QuoteChar(c, next)
    requires tail != [] && (IsDigit(tail[0]) ==> IsDigit(next))
    ensures d != [] && IsDigit(d[0]) && DigitCount(d + tail) == |d| && Decimal(d + tail, |d|) == c
  {
    hide Decimal;
    var q, b := QuoteChar(c, next), d + tail;
    assert forall i :: 0 <= i < |d| ==> d[i] == q[i + 1];
    DecimalIs(b, |d|, c);
  }

  /** One quoted character is read back, whatever follows it. */
  lemma {:induction false} ReadChar(c: int, next: int, tail: Str)
    requires 0 <= c < 256 && tail != [] && (IsDigit(tail[0]) ==> IsDigit(next))
    requires c == 10 ==> tail[0] != 13
    ensures ReadString(QuoteChar(c, next) + tail) == Prepend(c, ReadString(tail))
  {
    hide ReadString, DigitCount, Decimal;
    if c == 34 || c == 92 || c == 10 {
      ReadSelf(c, tail);
    } else if !IsCntrl(c) {
      ReadPlain(c, tail);
    } else {
      var d := QuoteChar(c, next)[1..];
      assert QuoteChar(c, next) == [92] + d;
      Digits(d, tail, c, next);
      ReadDecimal(d, tail, c);
    }
  }

  lemma {:induction false} DecimalIs(b: Str, n: nat, c: int)
    requires 0 <= c < 256 && 1 <= n <= 3 && n <= |b|
    requires n == 1 ==> c < 10 && b[0] == 48 + c
    requires n == 2 ==> c < 100 && b[0] == 48 + c / 10 && b[1] == 48 + c % 10
    requires n == 3 ==> b[0] == 48 + c / 100 && b[1] == 48 + c / 10 % 10 && b[2] == 48 + c % 10
    ensures Decimal(b, n) == c
  {
    assert Decimal(b, 0) == 0;
    assert Decimal(b, 1) == b[0] - 48;
    if n >= 2 { assert Decimal(b, 2) == Decimal(b, 1) * 10 + (b[1] - 48); }
    if n >= 3 { assert Decimal(b, 3) == Decimal(b, 2) * 10 + (b[2] - 48); }
    hide Decimal;
    ThreeDigits(c);
  }

  lemma {:induction false} ThreeDigits(c: int)
    requires 0 <= c
    ensures c == c / 10 * 10 + c % 10 && c / 10 == c / 100 * 10 + c / 10 % 10
  {
  }

  /** A raw carriage return never follows: it is a control character and comes out as an escape. */
  lemma {:induction false} NoReturn(s: Str, rest: Str)
    ensures (QuoteBody(s) + [34] + rest)[0] != 13
  {
  }

  /** The literal reads back as the original, for every byte string and whatever follows it. */
  lemma {:induction false} QuoteRoundTrip(s: Str, rest: Str)
    requires IsBytes(s)
    ensures ReadString(QuoteBody(s) + [34] + rest) == Done(s, rest)
    decreases |s|
  {
    if s == [] {
      assert ([] + [34] + rest)[1..] == rest;
    } else {
      hide ReadString, QuoteChar;
      var q, tail := QuoteBody(s[1..]), QuoteBody(s[1..]) + [34] + rest;
      Regroup(QuoteChar(s[0], At(s, 1)), q, rest);
      QuoteRoundTrip(s[1..], rest);
      NextDigit(s[1..], rest);
      NoReturn(s[1..], rest);
      assert At(s[1..], 0) == At(s, 1);
      ReadChar(s[0], At(s, 1), tail);
      assert [s[0]] + s[1..] == s;
    }
  }

  lemma {:induction false} Regroup(a: Str, q: Str, rest: Str)
    ensures a + q + [34] + rest == a + (q + [34] + rest)
  {
  }
}

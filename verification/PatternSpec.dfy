/**
 What a Lua pattern means. Strings are sequences of bytes; reading at or behind the end of a
 pattern or subject gives the terminating zero.
 */
module PatternSpec {

  type Str = seq<int>

  const ESC := 37        // %
  const MAXCAPTURES := 32
  const CAP_UNFINISHED := -1
  const CAP_POSITION := -2

  function At(t: Str, i: int): int { if 0 <= i < |t| then t[i] else 0 }

  // ---------------------------------------------------------------- characters

  predicate IsDigit(c: int) { 48 <= c <= 57 }
  predicate IsLower(c: int) { 97 <= c <= 122 }
  predicate IsUpper(c: int) { 65 <= c <= 90 }
  predicate IsAlpha(c: int) { IsLower(c) || IsUpper(c) }
  predicate IsAlnum(c: int) { IsAlpha(c) || IsDigit(c) }
  predicate IsCntrl(c: int) { 0 <= c <= 31 || c == 127 }
  predicate IsSpace(c: int) { 9 <= c <= 13 || c == 32 }
  predicate IsPunct(c: int) { 33 <= c <= 126 && !IsAlnum(c) }
  predicate IsXdigit(c: int) { IsDigit(c) || 65 <= c <= 70 || 97 <= c <= 102 }

  /** Classes by letter; a letter without a class stands for itself. */
  function ClassOf(letter: int, c: int): (int, bool) {
    match letter
    case 1 => (1, IsAlpha(c))
    case 3 => (1, IsCntrl(c))
    case 4 => (1, IsDigit(c))
    case 7 => (1, IsAlnum(c) || IsPunct(c))
    case 12 => (1, IsLower(c))
    case 16 => (1, IsPunct(c))
    case 19 => (1, IsSpace(c))
    case 21 => (1, IsUpper(c))
    case 23 => (1, IsAlnum(c))
    case 24 => (1, IsXdigit(c))
    case _ => (0, false)
  }

  function MatchClass(c: int, cl: int): bool {
    if 0x40 <= cl < 0x80 && ClassOf(cl % 32, c).0 == 1 then
      (if cl / 32 % 2 == 1 then ClassOf(cl % 32, c).1 else !ClassOf(cl % 32, c).1)
    else if cl == 122 then c == 0
    else if cl == 90 then c != 0
    else cl == c
  }

  /** An upper case class letter is the complement of the lower case one. */
  lemma {:induction false} UpperIsComplement(c: int, cl: int)
    requires IsLower(cl) && (ClassOf(cl - 96, c).0 == 1 || cl == 122)
    ensures MatchClass(c, cl) <==> !MatchClass(c, cl - 32)
  {
    assert cl % 32 == cl - 96 && (cl - 32) % 32 == cl - 96;
  }

  // ---------------------------------------------------------------- pattern items

  /** End of a set, from a position inside it; -1 if it is not closed. */
  function SetEnd(pat: Str, q: int): (r: int)
    requires q >= 0
    ensures r == -1 || q < r - 1 < |pat|
    decreases |pat| - q
  {
    if At(pat, q) == 0 then -1 else
    var next := if At(pat, q) == ESC && At(pat, q + 1) != 0 then q + 2 else q + 1;
    if At(pat, next) == 93 then next + 1 else SetEnd(pat, next)
  }

  /** End of the single item at p; -1 if malformed. */
  function ClassEnd(pat: Str, p: int): (r: int)
    requires 0 <= p < |pat|
    ensures r == -1 || p < r <= |pat|
    ensures r >= 0 && At(pat, p) == 91 ==> p + 2 < r
  {
    if pat[p] == ESC then (if At(pat, p + 1) == 0 then -1 else p + 2)
    else if pat[p] == 91 then SetEnd(pat, if At(pat, p + 1) == 94 then p + 2 else p + 1)
    else p + 1
  }

  /** c is listed in the set between q and ec. */
  function SetHas(c: int, pat: Str, q: int, ec: int): bool
    decreases ec - q
  {
    if q >= ec then false
    else if At(pat, q) == ESC then MatchClass(c, At(pat, q + 1)) || SetHas(c, pat, q + 2, ec)
    else if At(pat, q + 1) == 45 && q + 2 < ec then At(pat, q) <= c <= At(pat, q + 2) || SetHas(c, pat, q + 3, ec)
    else At(pat, q) == c || SetHas(c, pat, q + 1, ec)
  }

  /** Set at p whose closing bracket is at ec; ^ negates. */
  function MatchSet(c: int, pat: Str, p: int, ec: int): bool {
    if At(pat, p + 1) == 94 then !SetHas(c, pat, p + 2, ec) else SetHas(c, pat, p + 1, ec)
  }

  function SingleMatch(c: int, pat: Str, p: int, ep: int): bool {
    if At(pat, p) == 46 then true
    else if At(pat, p) == ESC then MatchClass(c, At(pat, p + 1))
    else if At(pat, p) == 91 then MatchSet(c, pat, p, ep - 1)
    else At(pat, p) == c
  }

  /** The subject has a character at s and the item matches it. */
  function Fits(src: Str, pat: Str, s: int, p: int, ep: int): bool { 0 <= s < |src| && SingleMatch(src[s], pat, p, ep) }

  /** How many characters from s on the item matches in a row. */
  function Reps(src: Str, pat: Str, s: int, p: int, ep: int): (n: nat)
    requires 0 <= s <= |src|
    ensures s + n <= |src|
    ensures forall i :: s <= i < s + n ==> Fits(src, pat, i, p, ep)
    ensures !Fits(src, pat, s + n, p, ep)
    decreases |src| - s
  {
    if Fits(src, pat, s, p, ep) then 1 + Reps(src, pat, s + 1, p, ep) else 0
  }

  // ---------------------------------------------------------------- balanced strings

  /** From i on at nesting level cont: the end of the balanced string, or -1. */
  function BalanceFrom(src: Str, i: int, b: int, e: int, cont: int): (r: int)
    requires 0 <= i && cont > 0
    ensures r == -1 || i < r <= |src|
    decreases |src| - i
  {
    if i >= |src| then -1
    else if src[i] == e then (if cont == 1 then i + 1 else BalanceFrom(src, i + 1, b, e, cont - 1))
    else BalanceFrom(src, i + 1, b, e, if src[i] == b then cont + 1 else cont)
  }

  /** Nesting gained between i and j. */
  function Net(src: Str, i: int, j: int, b: int, e: int): int
    requires 0 <= i <= j <= |src|
    decreases j - i
  {
    if i == j then 0 else Net(src, i, j - 1, b, e) + (if src[j - 1] == e then -1 else if src[j - 1] == b then 1 else 0)
  }

  lemma {:induction false} NetSplit(src: Str, i: int, j: int, b: int, e: int)
    requires 0 <= i < j <= |src|
    ensures Net(src, i, j, b, e) == (if src[i] == e then -1 else if src[i] == b then 1 else 0) + Net(src, i + 1, j, b,
        e)
    decreases j - i
  {
    if i + 1 < j { NetSplit(src, i, j - 1, b, e); } else { assert Net(src, i, i, b, e) == 0; }
  }

  /** %b ends right behind the first closing character that brings the nesting down to zero. */
  lemma {:induction false} BalanceMeans(src: Str, i: int, b: int, e: int, cont: int)
    requires 0 <= i <= |src| && cont > 0
    ensures var r := BalanceFrom(src, i, b, e, cont);
      && (r >= 0 ==> cont + Net(src, i, r, b, e) == 0)
      && (forall j :: i <= j <= |src| && (r < 0 || j < r) ==> cont + Net(src, i, j, b, e) > 0)
    decreases |src| - i
  {
    var r := BalanceFrom(src, i, b, e, cont);
    if i < |src| {
      var d := if src[i] == e then -1 else if src[i] == b then 1 else 0;
      if cont + d > 0 { BalanceMeans(src, i + 1, b, e, cont + d); }
      if r >= 0 { NetSplit(src, i, r, b, e); }
      forall j | i <= j <= |src| && (r < 0 || j < r) ensures cont + Net(src, i, j, b, e) > 0 {
        if j > i { NetSplit(src, i, j, b, e); }
      }
    }
  }

  // ---------------------------------------------------------------- captures

  datatype Cap = Cap(init: int, len: int)

  /** Captures lie in the subject before s. */
  ghost predicate CapsOk(caps: seq<Cap>, s: int) {
    forall i {:trigger caps[i]} :: 0 <= i < |caps| ==>
      0 <= caps[i].init <= s && CAP_POSITION <= caps[i].len && (caps[i].len >= 0 ==> caps[i].init + caps[i].len <= s)
  }

  /** The innermost capture that is still open, or -1. */
  function ToClose(caps: seq<Cap>): (l: int)
    ensures -1 <= l < |caps|
    ensures l >= 0 ==> caps[l].len == CAP_UNFINISHED
    ensures forall i :: l < i < |caps| ==> caps[i].len != CAP_UNFINISHED
    decreases |caps|
  {
    if caps == [] then -1
    else if caps[|caps| - 1].len == CAP_UNFINISHED then |caps| - 1
    else ToClose(caps[..|caps| - 1])
  }

  predicate CaptureKnown(caps: seq<Cap>, digit: int) {
    var l := digit - 49; 0 <= l < |caps| && caps[l].len != CAP_UNFINISHED
  }

  /** Where a back reference ends, or -1; a position capture never matches. */
  function BackRef(src: Str, s: int, cap: Cap): (r: int)
    ensures r == -1 || (0 <= s <= r <= |src| && 0 <= cap.init && cap.init + cap.len <= |src| && r == s + cap.len
        && src[s..r] == src[cap.init..cap.init + cap.len])
  {
    if 0 <= s && 0 <= cap.init && 0 <= cap.len <= |src| - s && cap.init + cap.len <= |src|
        && src[cap.init..cap.init + cap.len] == src[s..s + cap.len]
    then s + cap.len else -1
  }

  // ---------------------------------------------------------------- all matches, in order of preference

  /** A way to match the rest of the pattern, or a malformed pattern met on the way. */
  datatype Out = Hit(end: int, caps: seq<Cap>) | Fault

  ghost function Results(src: Str, pat: Str, s: int, p: int, caps: seq<Cap>): seq<Out>
    requires 0 <= s <= |src| && 0 <= p <= |pat|
    decreases |pat| - p, 0
  {
    if At(pat, p) == 40 then
      (if |caps| >= MAXCAPTURES then [Fault]
       else if At(pat, p + 1) == 41 then Results(src, pat, s, p + 2, caps + [Cap(s, CAP_POSITION)])
       else Results(src, pat, s, p + 1, caps + [Cap(s, CAP_UNFINISHED)]))
    else if At(pat, p) == 41 then
      (var l := ToClose(caps);
       if l < 0 then [Fault] else Results(src, pat, s, p + 1, caps[l := Cap(caps[l].init, s - caps[l].init)]))
    else if At(pat, p) == 0 then [Hit(s, caps)]
    else if At(pat, p) == 36 && At(pat, p + 1) == 0 then (if s == |src| then [Hit(s, caps)] else [])
    else if At(pat, p) == ESC && At(pat, p + 1) == 98 then
      (if At(pat, p + 2) == 0 || At(pat, p + 3) == 0 then [Fault]
       else if At(src, s) != At(pat, p + 2) then []
       else var e := BalanceFrom(src, s + 1, At(pat, p + 2), At(pat, p + 3), 1);
         if e < 0 then [] else Results(src, pat, e, p + 4, caps))
    else if At(pat, p) == ESC && At(pat, p + 1) == 102 then
      (if At(pat, p + 2) != 91 then [Fault]
       else var ep := ClassEnd(pat, p + 2);
         if ep < 0 then [Fault]
         else if MatchSet(At(src, s - 1), pat, p + 2, ep - 1) || !MatchSet(At(src, s), pat, p + 2, ep - 1) then []
         else Results(src, pat, s, ep, caps))
    else if At(pat, p) == ESC && IsDigit(At(pat, p + 1)) then
      (if !CaptureKnown(caps, At(pat, p + 1)) then [Fault]
       else var e := BackRef(src, s, caps[At(pat, p + 1) - 49]);
         if e < 0 then [] else Results(src, pat, e, p + 2, caps))
    else
      var ep := ClassEnd(pat, p);
      if ep < 0 then [Fault]
      else if At(pat, ep) == 63 then
        (if Fits(src, pat, s, p, ep) then Results(src, pat, s + 1, ep + 1, caps) else []) + Results(src, pat, s,
            ep + 1, caps)
      else if At(pat, ep) == 42 then Longest(src, pat, s, Reps(src, pat, s, p, ep), ep + 1, caps)
      else if At(pat, ep) == 43 then
        (if Fits(src, pat, s, p, ep) then Longest(src, pat, s + 1, Reps(src, pat, s + 1, p, ep), ep + 1, caps) else [])
      else if At(pat, ep) == 45 then Shortest(src, pat, s, p, ep, caps)
      else if Fits(src, pat, s, p, ep) then Results(src, pat, s + 1, ep, caps) else []
  }

  /** The rest of the pattern after n repetitions, then after n - 1, down to none. */
  ghost function Longest(src: Str, pat: Str, s: int, n: nat, q: int, caps: seq<Cap>): seq<Out>
    requires 0 <= s && s + n <= |src| && 0 <= q <= |pat|
    decreases |pat| - q, n + 1
  {
    Results(src, pat, s + n, q, caps) + (if n == 0 then [] else Longest(src, pat, s, n - 1, q, caps))
  }

  /** The rest of the pattern after no repetition, then after one, and so on. */
  ghost function Shortest(src: Str, pat: Str, s: int, p: int, ep: int, caps: seq<Cap>): seq<Out>
    requires 0 <= s <= |src| && 0 <= ep < |pat|
    decreases |pat| - (ep + 1), |src| - s + 1
  {
    Results(src, pat, s, ep + 1, caps) + (if Fits(src, pat, s, p, ep) then Shortest(src, pat, s + 1, p, ep, caps)
        else [])
  }

  /** Results where the pattern starts with a single character item. */
  lemma {:induction false} UnfoldItem(src: Str, pat: Str, s: int, p: int, caps: seq<Cap>)
    requires 0 <= s <= |src| && 0 <= p <= |pat|
    requires At(pat, p) != 0 && At(pat, p) != 40 && At(pat, p) != 41 && !(At(pat, p) == 36 && At(pat, p + 1) == 0)
    requires !(At(pat, p) == ESC && (At(pat, p + 1) == 98 || At(pat, p + 1) == 102 || IsDigit(At(pat, p + 1))))
    ensures Results(src, pat, s, p, caps) ==
      var ep := ClassEnd(pat, p);
      if ep < 0 then [Fault]
      else if At(pat, ep) == 63 then
        (if Fits(src, pat, s, p, ep) then Results(src, pat, s + 1, ep + 1, caps) else []) + Results(src, pat, s,
            ep + 1, caps)
      else if At(pat, ep) == 42 then Longest(src, pat, s, Reps(src, pat, s, p, ep), ep + 1, caps)
      else if At(pat, ep) == 43 then
        (if Fits(src, pat, s, p, ep) then Longest(src, pat, s + 1, Reps(src, pat, s + 1, p, ep), ep + 1, caps) else [])
      else if At(pat, ep) == 45 then Shortest(src, pat, s, p, ep, caps)
      else if Fits(src, pat, s, p, ep) then Results(src, pat, s + 1, ep, caps) else []
  {
  }

  // ---------------------------------------------------------------- back references

  /** Results where the pattern continues with a back reference. */
  lemma {:induction false} UnfoldBackRef(src: Str, pat: Str, s: int, p: int, caps: seq<Cap>)
    requires 0 <= s <= |src| && 0 <= p <= |pat| && At(pat, p) == ESC && IsDigit(At(pat, p + 1))
    ensures Results(src, pat, s, p, caps) ==
      if !CaptureKnown(caps, At(pat, p + 1)) then [Fault]
      else
        var e := BackRef(src, s, caps[At(pat, p + 1) - 49]);
        if e < 0 then [] else Results(src, pat, e, p + 2, caps)
  {
  }

  /** A back reference to a position capture never matches: its length, taken as unsigned, is huge. */
  lemma {:induction false} PositionNeverMatches(src: Str, pat: Str, s: int, p: int, caps: seq<Cap>)
    requires 0 <= s <= |src| && 0 <= p <= |pat| && At(pat, p) == ESC && IsDigit(At(pat, p + 1))
    requires 0 <= At(pat, p + 1) - 49 < |caps| && caps[At(pat, p + 1) - 49].len == CAP_POSITION
    ensures Results(src, pat, s, p, caps) == []
  {
    hide Results;
    UnfoldBackRef(src, pat, s, p, caps);
  }

  /**
   Exactly when a back reference to a finished capture goes on: the capture is no position capture
   and its text stands at s; then the rest of the pattern is matched behind that text.
   */
  lemma {:induction false} BackRefGoesOn(src: Str, pat: Str, s: int, p: int, caps: seq<Cap>)
    requires 0 <= s <= |src| && 0 <= p <= |pat| && At(pat, p) == ESC && IsDigit(At(pat, p + 1))
    requires CapsOk(caps, s) && CaptureKnown(caps, At(pat, p + 1))
    ensures var cap := caps[At(pat, p + 1) - 49];
      && (BackRef(src, s, cap) >= 0 <==> cap.len != CAP_POSITION && TextStandsAt(src, cap, s))
      && Results(src, pat, s, p, caps) ==
         if cap.len != CAP_POSITION && TextStandsAt(src, cap, s) then Results(src, pat, s + cap.len, p + 2, caps)
             else []
  {
    hide Results;
    UnfoldBackRef(src, pat, s, p, caps);
    var cap := caps[At(pat, p + 1) - 49];
    if cap.len >= 0 && s + cap.len <= |src| {
      SameText(src, cap, s);
    }
  }

  lemma {:induction false} SameText(src: Str, cap: Cap, s: int)
    requires 0 <= s && 0 <= cap.init <= s && 0 <= cap.len && s + cap.len <= |src|
    ensures TextStandsAt(src, cap, s) <==> src[cap.init..cap.init + cap.len] == src[s..s + cap.len]
  {
    var a, b := src[cap.init..cap.init + cap.len], src[s..s + cap.len];
    if TextStandsAt(src, cap, s) {
      forall i | 0 <= i < cap.len ensures a[i] == b[i] {
        assert At(src, s + i) == At(src, cap.init + (s + i - s));
      }
    }
    if a == b {
      forall x {:trigger At(src, x)} | s <= x < s + cap.len ensures At(src, x) == At(src, cap.init + (x - s)) {
        assert a[x - s] == b[x - s];
      }
    }
  }

  /** The text of a finished capture stands at s. */
  ghost predicate TextStandsAt(src: Str, cap: Cap, s: int) {
    s + cap.len <= |src| && forall x {:trigger At(src, x)} :: s <= x < s + cap.len ==>
        At(src, x) == At(src, cap.init + (x - s))
  }

  /** The pattern ()%1 has no match, at any position of any subject. */
  lemma {:induction false} PositionPairNeverMatches(src: Str, s: int)
    requires 0 <= s <= |src|
    ensures Results(src, [40, 41, ESC, 49], s, 0, []) == []
  {
    var pat := [40, 41, ESC, 49];
    assert At(pat, 0) == 40 && At(pat, 1) == 41 && At(pat, 2) == ESC && At(pat, 3) == 49;
    var caps := [Cap(s, CAP_POSITION)];
    assert [] + [Cap(s, CAP_POSITION)] == caps;
    UnfoldPosition(src, pat, s, 0, []);
    hide Results;
    PositionNeverMatches(src, pat, s, 2, caps);
  }

  lemma {:induction false} UnfoldPosition(src: Str, pat: Str, s: int, p: int, caps: seq<Cap>)
    requires 0 <= s <= |src| && 0 <= p <= |pat| && At(pat, p) == 40 && At(pat, p + 1) == 41 && |caps| < MAXCAPTURES
    ensures Results(src, pat, s, p, caps) == Results(src, pat, s, p + 2, caps + [Cap(s, CAP_POSITION)])
  {
  }

  // ---------------------------------------------------------------- what matching means, without an order

  /** The characters from s up to x all match the item. */
  ghost predicate Run(src: Str, pat: Str, s: int, x: int, p: int, ep: int) {
    0 <= s <= x <= |src| && forall i {:trigger Fits(src, pat, i, p, ep)} :: s <= i < x ==> Fits(src, pat, i, p, ep)
  }

  /** The subject from s to e matches the pattern from p on, and takes captures caps to caps'. */
  ghost predicate Matches(src: Str, pat: Str, s: int, p: int, caps: seq<Cap>, e: int, caps': seq<Cap>)
    requires 0 <= s <= |src| && 0 <= p <= |pat|
    decreases |pat| - p
  {
    var c, d := At(pat, p), At(pat, p + 1);
    if c == 40 && d == 41 then |caps| < MAXCAPTURES && Matches(src, pat, s, p + 2, caps + [Cap(s, CAP_POSITION)], e,
        caps')
    else if c == 40 then |caps| < MAXCAPTURES && Matches(src, pat, s, p + 1, caps + [Cap(s, CAP_UNFINISHED)], e, caps')
    else if c == 41 then
      ToClose(caps) >= 0 && Matches(src, pat, s, p + 1,
          caps[ToClose(caps) := Cap(caps[ToClose(caps)].init, s - caps[ToClose(caps)].init)], e, caps')
    else if c == 0 then e == s && caps' == caps
    else if c == 36 && d == 0 then e == s == |src| && caps' == caps
    else if c == ESC && d == 98 then
      && At(pat, p + 2) != 0 && At(pat, p + 3) != 0 && At(src, s) == At(pat, p + 2)
      && var m := BalanceFrom(src, s + 1, At(pat, p + 2), At(pat, p + 3), 1);
      m >= 0 && Matches(src, pat, m, p + 4, caps, e, caps')
    else if c == ESC && d == 102 then
      && At(pat, p + 2) == 91
      && var ep := ClassEnd(pat, p + 2);
      && ep >= 0 && !MatchSet(At(src, s - 1), pat, p + 2, ep - 1) && MatchSet(At(src, s), pat, p + 2, ep - 1)
      && Matches(src, pat, s, ep, caps, e, caps')
    else if c == ESC && IsDigit(d) then
      && CaptureKnown(caps, d)
      && var m := BackRef(src, s, caps[d - 49]);
      m >= 0 && Matches(src, pat, m, p + 2, caps, e, caps')
    else
      var ep := ClassEnd(pat, p);
      && ep >= 0
      && var q := At(pat, ep);
      if q == 63 || q == 42 || q == 43 || q == 45 then
        exists x {:trigger Run(src, pat, s, x, p, ep)} :: Run(src, pat, s, x, p, ep) && (q == 63 ==> x <= s + 1)
            && (q == 43 ==> x > s)
          && Matches(src, pat, x, ep + 1, caps, e, caps')
      else Fits(src, pat, s, p, ep) && Matches(src, pat, s + 1, ep, caps, e, caps')
  }

  lemma {:induction false} RunMax(src: Str, pat: Str, s: int, x: int, p: int, ep: int)
    requires 0 <= s <= |src|
    ensures Run(src, pat, s, x, p, ep) <==> s <= x <= s + Reps(src, pat, s, p, ep)
  {
    var m := Reps(src, pat, s, p, ep);
    assert x > s + m && Run(src, pat, s, x, p, ep) ==> Fits(src, pat, s + m, p, ep);
  }

  /** o is a result of the pattern from q on at position x. */
  ghost predicate From(src: Str, pat: Str, x: int, q: int, caps: seq<Cap>, o: Out) {
    0 <= x <= |src| && 0 <= q <= |pat| && o in Results(src, pat, x, q, caps)
  }

  /** o is such a result at some position between lo and hi. */
  ghost predicate Somewhere(src: Str, pat: Str, lo: int, hi: int, q: int, caps: seq<Cap>, o: Out) {
    exists x {:trigger From(src, pat, x, q, caps, o)} :: lo <= x <= hi && From(src, pat, x, q, caps, o)
  }

  lemma {:induction false} SomewhereLast(src: Str, pat: Str, lo: int, hi: int, q: int, caps: seq<Cap>, o: Out)
    requires 0 <= lo <= hi <= |src| && 0 <= q <= |pat|
    ensures Somewhere(src, pat, lo, hi, q, caps, o) <==> o in Results(src, pat, hi, q, caps) || Somewhere(src, pat, lo,
        hi - 1, q, caps, o)
  {
    hide Results;
    assert From(src, pat, hi, q, caps, o) <==> o in Results(src, pat, hi, q, caps);
  }

  lemma {:induction false} SomewhereFirst(src: Str, pat: Str, lo: int, hi: int, q: int, caps: seq<Cap>, o: Out)
    requires 0 <= lo <= hi <= |src| && 0 <= q <= |pat|
    ensures Somewhere(src, pat, lo, hi, q, caps, o) <==> o in Results(src, pat, lo, q, caps) || Somewhere(src, pat,
        lo + 1, hi, q, caps, o)
  {
    hide Results;
    assert From(src, pat, lo, q, caps, o) <==> o in Results(src, pat, lo, q, caps);
  }

  lemma {:induction false} Nowhere(src: Str, pat: Str, lo: int, hi: int, q: int, caps: seq<Cap>, o: Out)
    ensures lo > hi ==> !Somewhere(src, pat, lo, hi, q, caps, o)
  {
  }

  lemma {:induction false} InEither(a: seq<Out>, b: seq<Out>, o: Out)
    ensures o in a + b <==> o in a || o in b
  {
  }

  lemma {:induction false} LongestStep(src: Str, pat: Str, s: int, n: nat, q: int, caps: seq<Cap>)
    requires 0 <= s && s + n <= |src| && 0 <= q <= |pat|
    ensures Longest(src, pat, s, n, q, caps) == Results(src, pat, s + n, q, caps) + (if n == 0 then []
        else Longest(src, pat, s, n - 1, q, caps))
  {
    hide Results;
  }

  lemma {:induction false} ShortestStep(src: Str, pat: Str, s: int, p: int, ep: int, caps: seq<Cap>)
    requires 0 <= s <= |src| && 0 <= ep < |pat|
    ensures Shortest(src, pat, s, p, ep, caps) ==
      Results(src, pat, s, ep + 1, caps) + (if Fits(src, pat, s, p, ep) then Shortest(src, pat, s + 1, p, ep, caps)
          else [])
  {
    hide Results;
  }

  /** What the longest-first list contains. */
  lemma {:induction false} LongestHas(src: Str, pat: Str, s: int, n: nat, q: int, caps: seq<Cap>, o: Out)
    requires 0 <= s && s + n <= |src| && 0 <= q <= |pat|
    ensures o in Longest(src, pat, s, n, q, caps) <==> Somewhere(src, pat, s, s + n, q, caps, o)
    decreases n
  {
    hide Results, Somewhere, From, Longest;
    LongestStep(src, pat, s, n, q, caps);
    SomewhereLast(src, pat, s, s + n, q, caps, o);
    if n > 0 { LongestHas(src, pat, s, n - 1, q, caps, o); } else { Nowhere(src, pat, s, s - 1, q, caps, o); }
    InEither(Results(src, pat, s + n, q, caps), if n == 0 then [] else Longest(src, pat, s, n - 1, q, caps), o);
  }

  lemma {:induction false} ShortestHas(src: Str, pat: Str, s: int, p: int, ep: int, caps: seq<Cap>, o: Out)
    requires 0 <= s <= |src| && 0 <= ep < |pat|
    ensures o in Shortest(src, pat, s, p, ep, caps) <==> Somewhere(src, pat, s, s + Reps(src, pat, s, p, ep), ep + 1,
        caps, o)
    decreases |src| - s
  {
    hide Results, SingleMatch, Somewhere, From, Shortest;
    ShortestStep(src, pat, s, p, ep, caps);
    SomewhereFirst(src, pat, s, s + Reps(src, pat, s, p, ep), ep + 1, caps, o);
    if Fits(src, pat, s, p, ep) { ShortestHas(src, pat, s + 1, p, ep, caps, o); }
        else { Nowhere(src, pat, s + 1, s, ep + 1, caps, o); }
    InEither(Results(src, pat, s, ep + 1, caps), if Fits(src, pat, s, p, ep)
        then Shortest(src, pat, s + 1, p, ep, caps) else [], o);
  }

  /** For *, the first match is one with the most repetitions that admit a match at all. */
  lemma {:induction false} LongestFirst(src: Str, pat: Str, s: int, n: nat, q: int, caps: seq<Cap>) returns (x: int)
    requires 0 <= s && s + n <= |src| && 0 <= q <= |pat|
    ensures s - 1 <= x <= s + n && forall y {:trigger Results(src, pat, y, q, caps)} :: x < y <= s + n ==>
        Results(src, pat, y, q, caps) == []
    ensures x == s - 1 <==> Longest(src, pat, s, n, q, caps) == []
    ensures x >= s ==> Results(src, pat, x, q, caps) != [] && Longest(src, pat, s, n, q, caps)[0] == Results(src, pat,
        x, q, caps)[0]
    decreases n
  {
    hide Results;
    if Results(src, pat, s + n, q, caps) != [] { x := s + n; }
        else if n > 0 { x := LongestFirst(src, pat, s, n - 1, q, caps); } else { x := s - 1; }
  }

  /** For -, the first match is one with the fewest. */
  lemma {:induction false} ShortestFirst(src: Str, pat: Str, s: int, p: int, ep: int, caps: seq<Cap>) returns (x: int)
    requires 0 <= s <= |src| && 0 <= ep < |pat|
    ensures s <= x && forall y {:trigger Results(src, pat, y, ep + 1, caps)} ::
      s <= y < x && y <= s + Reps(src, pat, s, p, ep) ==> Results(src, pat, y, ep + 1, caps) == []
    ensures x > s + Reps(src, pat, s, p, ep) <==> Shortest(src, pat, s, p, ep, caps) == []
    ensures x <= s + Reps(src, pat, s, p, ep) ==>
      && Results(src, pat, x, ep + 1, caps) != []
      && Shortest(src, pat, s, p, ep, caps)[0] == Results(src, pat, x, ep + 1, caps)[0]
    decreases |src| - s
  {
    hide Results, SingleMatch;
    if Results(src, pat, s, ep + 1, caps) != [] {
      x := s;
    } else if Fits(src, pat, s, p, ep) {
      x := ShortestFirst(src, pat, s + 1, p, ep, caps);
    } else {
      x := s + 1;
    }
  }

  /** Soundness and completeness: the list holds exactly the matches. */
  lemma {:induction false} ResultsAreMatches(src: Str, pat: Str, s: int, p: int, caps: seq<Cap>, e: int,
      caps': seq<Cap>)
    requires 0 <= s <= |src| && 0 <= p <= |pat|
    ensures Hit(e, caps') in Results(src, pat, s, p, caps) <==> Matches(src, pat, s, p, caps, e, caps')
    decreases |pat| - p
  {
    var c, d := At(pat, p), At(pat, p + 1);
    if c == 40 && d == 41 {
      ResultsAreMatches(src, pat, s, p + 2, caps + [Cap(s, CAP_POSITION)], e, caps');
    } else if c == 40 {
      ResultsAreMatches(src, pat, s, p + 1, caps + [Cap(s, CAP_UNFINISHED)], e, caps');
    } else if c == 41 {
      var l := ToClose(caps);
      if l >= 0 { ResultsAreMatches(src, pat, s, p + 1, caps[l := Cap(caps[l].init, s - caps[l].init)], e, caps'); }
    } else if c == 0 || (c == 36 && d == 0) {
    } else if c == ESC && d == 98 {
      if At(pat, p + 2) != 0 && At(pat, p + 3) != 0 && At(src, s) == At(pat, p + 2) {
        var m := BalanceFrom(src, s + 1, At(pat, p + 2), At(pat, p + 3), 1);
        if m >= 0 { ResultsAreMatches(src, pat, m, p + 4, caps, e, caps'); }
      }
    } else if c == ESC && d == 102 {
      if At(pat, p + 2) == 91
          && ClassEnd(pat, p + 2) >= 0 { ResultsAreMatches(src, pat, s, ClassEnd(pat, p + 2), caps, e, caps'); }
    } else if c == ESC && IsDigit(d) {
      if CaptureKnown(caps, d)
          && BackRef(src, s, caps[d - 49]) >= 0 { ResultsAreMatches(src, pat, BackRef(src, s, caps[d - 49]), p + 2,
          caps, e, caps'); }
    } else if ClassEnd(pat, p) >= 0 {
      ItemMatches(src, pat, s, p, caps, e, caps');
    }
  }

  /** An item behind ( ) $ and the special escapes, with a valid end. */
  ghost predicate PlainItem(pat: Str, p: int) {
    && 0 <= p < |pat| && pat[p] != 0 && pat[p] != 40 && pat[p] != 41 && !(pat[p] == 36 && At(pat, p + 1) == 0)
    && !(pat[p] == ESC && (At(pat, p + 1) == 98 || At(pat, p + 1) == 102 || IsDigit(At(pat, p + 1))))
        && ClassEnd(pat, p) >= 0
  }

  lemma {:induction false} ItemMatches(src: Str, pat: Str, s: int, p: int, caps: seq<Cap>, e: int, caps': seq<Cap>)
    requires 0 <= s <= |src| && PlainItem(pat, p)
    ensures Hit(e, caps') in Results(src, pat, s, p, caps) <==> Matches(src, pat, s, p, caps, e, caps')
    decreases |pat| - p, 0
  {
    var ep := ClassEnd(pat, p);
    var q := At(pat, ep);
    if q == 63 || q == 42 || q == 43 || q == 45 {
      RepeatHas(src, pat, s, p, caps, Hit(e, caps'));
      var lo, hi := Least(q, s), Most(q, s, Reps(src, pat, s, p, ep));
      var q1 := ep + 1;
      forall x | 0 <= x <= |src| ensures From(src, pat, x, q1, caps, Hit(e, caps')) <==>
          Matches(src, pat, x, q1, caps, e, caps') {
        ResultsAreMatches(src, pat, x, q1, caps, e, caps');
      }
      forall x ensures Run(src, pat, s, x, p, ep) && (q == 63 ==> x <= s + 1) && (q == 43 ==> x > s) <==>
          lo <= x <= hi { RunMax(src, pat, s, x, p, ep); }
      hide From, Results, Run;
      if x :| lo <= x <= hi && From(src, pat, x, q1, caps, Hit(e, caps')) { assert Run(src, pat, s, x, p, ep); }
      if x :|
        && Run(src, pat, s, x, p, ep) && (q == 63 ==> x <= s + 1) && (q == 43 ==> x > s) && 0 <= x <= |src|
        && Matches(src, pat, x, q1, caps, e, caps') {
        assert From(src, pat, x, q1, caps, Hit(e, caps'));
      }
    } else if Fits(src, pat, s, p, ep) {
      ResultsAreMatches(src, pat, s + 1, ep, caps, e, caps');
    }
  }

  /** First and last position that the repetitions of an item with suffix q may end at. */
  function Least(q: int, s: int): int { if q == 43 then s + 1 else s }
  function Most(q: int, s: int, max: int): int { if q == 63 && max > 0 then s + 1 else s + max }

  /** What the list for a repeated item contains. */
  lemma {:induction false} RepeatHas(src: Str, pat: Str, s: int, p: int, caps: seq<Cap>, o: Out)
    requires 0 <= s <= |src| && PlainItem(pat, p)
    requires var q := At(pat, ClassEnd(pat, p)); q == 63 || q == 42 || q == 43 || q == 45
    ensures var ep := ClassEnd(pat, p); var q := At(pat, ep);
      o in Results(src, pat, s, p, caps) <==> Somewhere(src, pat, Least(q, s), Most(q, s, Reps(src, pat, s, p, ep)),
          ep + 1, caps, o)
  {
    hide Results, From, Longest, Shortest, SingleMatch, SetEnd, Somewhere;
    var ep := ClassEnd(pat, p);
    var q := At(pat, ep);
    if q == 42 { StarHas(src, pat, s, p, caps, o); }
    else if q == 45 { MinusHas(src, pat, s, p, caps, o); }
    else if q == 43 { PlusHas(src, pat, s, p, caps, o); }
    else { OptionHas(src, pat, s, p, caps, o); }
  }

  lemma {:induction false} StarHas(src: Str, pat: Str, s: int, p: int, caps: seq<Cap>, o: Out)
    requires 0 <= s <= |src| && PlainItem(pat, p) && At(pat, ClassEnd(pat, p)) == 42
    ensures var ep := ClassEnd(pat, p);
      o in Results(src, pat, s, p, caps) <==> Somewhere(src, pat, s, s + Reps(src, pat, s, p, ep), ep + 1, caps, o)
  {
    hide Longest, Somewhere;
    LongestHas(src, pat, s, Reps(src, pat, s, p, ClassEnd(pat, p)), ClassEnd(pat, p) + 1, caps, o);
  }

  lemma {:induction false} MinusHas(src: Str, pat: Str, s: int, p: int, caps: seq<Cap>, o: Out)
    requires 0 <= s <= |src| && PlainItem(pat, p) && At(pat, ClassEnd(pat, p)) == 45
    ensures var ep := ClassEnd(pat, p);
      o in Results(src, pat, s, p, caps) <==> Somewhere(src, pat, s, s + Reps(src, pat, s, p, ep), ep + 1, caps, o)
  {
    hide Shortest, Somewhere;
    ShortestHas(src, pat, s, p, ClassEnd(pat, p), caps, o);
  }

  lemma {:induction false} PlusHas(src: Str, pat: Str, s: int, p: int, caps: seq<Cap>, o: Out)
    requires 0 <= s <= |src| && PlainItem(pat, p) && At(pat, ClassEnd(pat, p)) == 43
    ensures var ep := ClassEnd(pat, p);
      o in Results(src, pat, s, p, caps) <==> Somewhere(src, pat, s + 1, s + Reps(src, pat, s, p, ep), ep + 1, caps, o)
  {
    hide Longest, Somewhere;
    AtLeastOneHas(src, pat, s, Reps(src, pat, s, p, ClassEnd(pat, p)), ClassEnd(pat, p) + 1, caps, o);
  }

  lemma {:induction false} OptionHas(src: Str, pat: Str, s: int, p: int, caps: seq<Cap>, o: Out)
    requires 0 <= s <= |src| && PlainItem(pat, p) && At(pat, ClassEnd(pat, p)) == 63
    ensures var ep := ClassEnd(pat, p);
      o in Results(src, pat, s, p, caps) <==> Somewhere(src, pat, s, if Fits(src, pat, s, p, ep) then s + 1 else s,
          ep + 1, caps, o)
  {
    hide Longest, Shortest, Somewhere;
    OptionalHas(src, pat, s, ClassEnd(pat, p) + 1, caps, Fits(src, pat, s, p, ClassEnd(pat, p)), o);
  }

  lemma {:induction false} AtLeastOneHas(src: Str, pat: Str, s: int, max: nat, q: int, caps: seq<Cap>, o: Out)
    requires 0 <= s && s + max <= |src| && 0 <= q <= |pat|
    ensures o in (if max > 0 then Longest(src, pat, s + 1, max - 1, q, caps) else []) <==>
        Somewhere(src, pat, s + 1, s + max, q, caps, o)
  {
    hide Longest, Results, From, Somewhere;
    if max > 0 { LongestHas(src, pat, s + 1, max - 1, q, caps, o); } else { Nowhere(src, pat, s + 1, s, q, caps, o); }
  }

  lemma {:induction false} OptionalHas(src: Str, pat: Str, s: int, q: int, caps: seq<Cap>, one: bool, o: Out)
    requires 0 <= s <= |src| && 0 <= q <= |pat| && (one ==> s < |src|)
    ensures o in (if one then Results(src, pat, s + 1, q, caps) else []) + Results(src, pat, s, q, caps)
      <==> Somewhere(src, pat, s, if one then s + 1 else s, q, caps, o)
  {
    hide Results;
    assert From(src, pat, s, q, caps, o) <==> o in Results(src, pat, s, q, caps);
    assert one ==> (From(src, pat, s + 1, q, caps, o) <==> o in Results(src, pat, s + 1, q, caps));
  }

  /** A match ends behind its start, and its captures lie inside the subject. */
  lemma {:induction false} MatchInside(src: Str, pat: Str, s: int, p: int, caps: seq<Cap>, e: int, caps': seq<Cap>)
    requires 0 <= s <= |src| && 0 <= p <= |pat| && Matches(src, pat, s, p, caps, e, caps') && CapsOk(caps, s)
    requires |caps| <= MAXCAPTURES
    ensures s <= e <= |src| && CapsOk(caps', e) && |caps| <= |caps'| <= MAXCAPTURES
    decreases |pat| - p
  {
    var c, d := At(pat, p), At(pat, p + 1);
    hide CapsOk;
    if c == 40 {
      var len := if d == 41 then CAP_POSITION else CAP_UNFINISHED;
      CapsPush(caps, s, len);
      MatchInside(src, pat, s, if d == 41 then p + 2 else p + 1, caps + [Cap(s, len)], e, caps');
    } else if c == 41 {
      var l := ToClose(caps);
      CapsClose(caps, s, l);
      MatchInside(src, pat, s, p + 1, caps[l := Cap(caps[l].init, s - caps[l].init)], e, caps');
    } else if c == 0 || (c == 36 && d == 0) {
    } else {
      StepInside(src, pat, s, p, caps, e, caps');
    }
  }

  /** The cases in which the captures stay and the subject may advance. */
  lemma {:induction false} StepInside(src: Str, pat: Str, s: int, p: int, caps: seq<Cap>, e: int, caps': seq<Cap>)
    requires 0 <= s <= |src| && 0 <= p <= |pat| && Matches(src, pat, s, p, caps, e, caps') && CapsOk(caps, s)
    requires |caps| <= MAXCAPTURES
    requires var c := At(pat, p); c != 40 && c != 41 && c != 0 && !(c == 36 && At(pat, p + 1) == 0)
    ensures s <= e <= |src| && CapsOk(caps', e) && |caps| <= |caps'| <= MAXCAPTURES
    decreases |pat| - p, 0
  {
    var x, q := Step(src, pat, s, p, caps, e, caps');
    hide Matches;
    CapsLater(caps, s, x);
    MatchInside(src, pat, x, q, caps, e, caps');
  }

  lemma {:induction false} Step(src: Str, pat: Str, s: int, p: int, caps: seq<Cap>, e: int, caps': seq<Cap>)
      returns (x: int, q: int)
    requires 0 <= s <= |src| && 0 <= p <= |pat| && Matches(src, pat, s, p, caps, e, caps')
    requires var c := At(pat, p); c != 40 && c != 41 && c != 0 && !(c == 36 && At(pat, p + 1) == 0)
    ensures s <= x <= |src| && p < q <= |pat| && Matches(src, pat, x, q, caps, e, caps')
  {
    var c, d := At(pat, p), At(pat, p + 1);
    if c == ESC && d == 98 {
      x, q := BalanceFrom(src, s + 1, At(pat, p + 2), At(pat, p + 3), 1), p + 4;
    } else if c == ESC && d == 102 {
      x, q := s, ClassEnd(pat, p + 2);
    } else if c == ESC && IsDigit(d) {
      x, q := BackRef(src, s, caps[d - 49]), p + 2;
    } else {
      var ep := ClassEnd(pat, p);
      var suffix := At(pat, ep);
      if suffix == 63 || suffix == 42 || suffix == 43 || suffix == 45 {
        q := ep + 1;
        x :| Run(src, pat, s, x, p, ep) && (suffix == 63 ==> x <= s + 1) && (suffix == 43 ==> x > s)
            && Matches(src, pat, x, ep + 1, caps, e, caps');
      } else {
        x, q := s + 1, ep;
      }
    }
  }

  lemma {:induction false} CapsPush(caps: seq<Cap>, s: int, len: int)
    requires CapsOk(caps, s) && 0 <= s && CAP_POSITION <= len < 0
    ensures CapsOk(caps + [Cap(s, len)], s)
  {
  }

  lemma {:induction false} CapsClose(caps: seq<Cap>, s: int, l: int)
    requires CapsOk(caps, s) && 0 <= l < |caps|
    ensures CapsOk(caps[l := Cap(caps[l].init, s - caps[l].init)], s)
  {
  }

  lemma {:induction false} CapsLater(caps: seq<Cap>, s: int, x: int)
    requires CapsOk(caps, s) && s <= x
    ensures CapsOk(caps, x)
  {
  }

  lemma {:induction false} HitInside(src: Str, pat: Str, s: int, p: int, caps: seq<Cap>)
    requires 0 <= s <= |src| && 0 <= p <= |pat| && CapsOk(caps, s) && |caps| <= MAXCAPTURES
    ensures var rs := Results(src, pat, s, p, caps);
      rs != [] && rs[0].Hit? ==>
        s <= rs[0].end <= |src| && CapsOk(rs[0].caps, rs[0].end) && |rs[0].caps| <= MAXCAPTURES
            && Matches(src, pat, s, p, caps, rs[0].end, rs[0].caps)
  {
    var rs := Results(src, pat, s, p, caps);
    hide Results, Matches, CapsOk;
    if rs != [] && rs[0].Hit? {
      assert rs[0] in rs && rs[0] == Hit(rs[0].end, rs[0].caps);
      ResultsAreMatches(src, pat, s, p, caps, rs[0].end, rs[0].caps);
      MatchInside(src, pat, s, p, caps, rs[0].end, rs[0].caps);
    }
  }
}

/**
 The backtracking matcher of the Lua string library. It keeps captures in a fixed array that is
 updated in place and undone on failure, and it answers with the most preferred match.
 */
module Matcher {
  import opened PatternSpec

  const LJ_MAX_XLEVEL := 200

  /** A failed match, the end of a match, or an error raised on the way. */
  datatype Res = Null | End(pos: int) | Error | TooDeep

  lemma {:induction false} OneMoreRep(src: Str, pat: Str, s: int, p: int, ep: int)
    requires 0 <= s <= |src| && Fits(src, pat, s, p, ep)
    ensures s < |src| && Reps(src, pat, s, p, ep) == 1 + Reps(src, pat, s + 1, p, ep)
  {
  }

  lemma {:induction false} NoMoreReps(src: Str, pat: Str, s: int, p: int, ep: int)
    requires 0 <= s <= |src| && !Fits(src, pat, s, p, ep)
    ensures Reps(src, pat, s, p, ep) == 0
  {
  }

  lemma {:induction false} FitsInside(src: Str, pat: Str, s: int, p: int, ep: int)
    ensures Fits(src, pat, s, p, ep) ==> 0 <= s < |src|
  {
  }

  class MatchState {
    const src: Str
    const pat: Str
    const capture: array<Cap>
    var level: int
    var depth: int

    ghost predicate Valid()
      reads this, capture
    {
      capture.Length == MAXCAPTURES && 0 <= level <= MAXCAPTURES
    }

    ghost function Caps(): seq<Cap>
      reads this, capture
      requires Valid()
    {
      capture[..level]
    }

    constructor (src: Str, pat: Str)
      ensures Valid() && level == 0 && depth == 0 && this.src == src && this.pat == pat && fresh(capture)
    {
      this.src, this.pat := src, pat;
      capture := new Cap[MAXCAPTURES](_ => Cap(0, CAP_UNFINISHED));
      level, depth := 0, 0;
    }

    /**
     The answer is the first entry of rs. A failure leaves level, captures and depth as they were, a
     match leaves its own captures, and only a pattern longer than the nesting limit is too deep.
     */
    ghost predicate Answers(r: Res, rs: seq<Out>, caps0: seq<Cap>, depth0: int, room: int)
      reads this, capture
    {
      match r
      case Null => rs == [] && Valid() && Caps() == caps0 && depth == depth0
      case End(e) => rs != [] && Valid() && rs[0] == Hit(e, Caps()) && depth == depth0
      case Error => rs != [] && rs[0] == Fault
      case TooDeep => depth0 + room > LJ_MAX_XLEVEL
    }

    /** A position in the subject and one in the pattern, with captures taken before it. */
    ghost predicate Ready(s: int, p: int)
      reads this, capture
    {
      Valid() && 0 <= s <= |src| && 0 <= p <= |pat| && CapsOk(Caps(), s)
    }

    // -------------------------------------------------------------- pattern items

    method FindClassEnd(p0: int) returns (r: int)
      requires 0 <= p0 < |pat|
      ensures r == ClassEnd(pat, p0)
    {
      var p := p0 + 1;
      if pat[p0] == ESC {
        if At(pat, p) == 0 { return -1; }
        return p + 1;
      } else if pat[p0] == 91 {
        if At(pat, p) == 94 { p := p + 1; }
        if At(pat, p) == 0 { return -1; }
        ghost var q := p;
        p := if At(pat, p) == ESC && At(pat, p + 1) != 0 then p + 2 else p + 1;
        while At(pat, p) != 93
          invariant p0 < q < p && SetEnd(pat, q) == (if At(pat, p) == 93 then p + 1 else SetEnd(pat, p))
          invariant SetEnd(pat, q) == ClassEnd(pat, p0)
          decreases |pat| - p
        {
          if At(pat, p) == 0 { return -1; }
          q := p;
          p := if At(pat, p) == ESC && At(pat, p + 1) != 0 then p + 2 else p + 1;
        }
        return p + 1;
      } else {
        return p;
      }
    }

    method MatchBracketClass(c: int, p0: int, ec: int) returns (b: bool)
      ensures b == MatchSet(c, pat, p0, ec)
    {
      var sig := true;
      var p := p0 + 1;
      if At(pat, p0 + 1) == 94 { sig := false; p := p + 1; }
      while p < ec
        invariant sig == (At(pat, p0 + 1) != 94)
        invariant MatchSet(c, pat, p0, ec) == if SetHas(c, pat, p, ec) then sig else !sig
        decreases ec - p
      {
        if At(pat, p) == ESC {
          p := p + 1;
          if MatchClass(c, At(pat, p)) { return sig; }
        } else if At(pat, p + 1) == 45 && p + 2 < ec {
          p := p + 2;
          if At(pat, p - 2) <= c <= At(pat, p) { return sig; }
        } else if At(pat, p) == c {
          return sig;
        }
        p := p + 1;
      }
      return !sig;
    }

    method MatchSingle(c: int, p: int, ep: int) returns (b: bool)
      ensures b == SingleMatch(c, pat, p, ep)
    {
      if At(pat, p) == 46 { return true; }
      if At(pat, p) == ESC { return MatchClass(c, At(pat, p + 1)); }
      if At(pat, p) == 91 { b := MatchBracketClass(c, p, ep - 1); return; }
      return At(pat, p) == c;
    }

    /** There is a character at s and it matches. */
    method Matched(s: int, p: int, ep: int) returns (b: bool)
      requires 0 <= s <= |src|
      ensures b == Fits(src, pat, s, p, ep)
    {
      if s == |src| { return false; }
      b := MatchSingle(src[s], p, ep);
    }

    method MatchBalance(s0: int, p: int) returns (r: Res)
      requires 0 <= s0 <= |src| && 0 <= p
      ensures At(pat, p) == 0 || At(pat, p + 1) == 0 ==> r == Error
      ensures At(pat, p) != 0 && At(pat, p + 1) != 0 ==>
        var e := if At(src, s0) != At(pat, p) then -1 else BalanceFrom(src, s0 + 1, At(pat, p), At(pat, p + 1), 1);
        r == if e < 0 then Null else End(e)
    {
      if At(pat, p) == 0 || At(pat, p + 1) == 0 { return Error; }
      if At(src, s0) != At(pat, p) { return Null; }
      var b, e, cont, s := At(pat, p), At(pat, p + 1), 1, s0 + 1;
      while s < |src|
        invariant s > s0 && cont > 0 && BalanceFrom(src, s0 + 1, b, e, 1) == BalanceFrom(src, s, b, e, cont)
      {
        if src[s] == e {
          cont := cont - 1;
          if cont == 0 { return End(s + 1); }
        } else if src[s] == b {
          cont := cont + 1;
        }
        s := s + 1;
      }
      return Null;
    }

    // -------------------------------------------------------------- captures

    method CaptureToClose() returns (l: int)
      requires Valid()
      ensures l == ToClose(Caps())
    {
      l := level - 1;
      assert Caps() == capture[..level];
      while l >= 0
        invariant -1 <= l < level && ToClose(Caps()) == ToClose(capture[..l + 1])
      {
        assert capture[..l + 1][..l] == capture[..l];
        if capture[l].len == CAP_UNFINISHED { return; }
        l := l - 1;
      }
    }

    method MatchCapture(s: int, digit: int) returns (r: Res)
      requires Ready(s, 0)
      ensures !CaptureKnown(Caps(), digit) ==> r == Error
      ensures CaptureKnown(Caps(), digit) ==>
        var e := BackRef(src, s, Caps()[digit - 49]);
        r == if e < 0 then Null else End(e)
    {
      var l := digit - 49;
      if l < 0 || l >= level || capture[l].len == CAP_UNFINISHED { return Error; }
      assert capture[l] == Caps()[l];
      var init, len := capture[l].init, capture[l].len;
      if len != CAP_POSITION && |src| - s >= len && src[init..init + len] == src[s..s + len] { return End(s + len); }
      return Null;
    }

    method StartCapture(s: int, p: int, what: int) returns (r: Res)
      requires Ready(s, p) && CAP_POSITION <= what < 0
      modifies this, capture
      ensures var rs := if |old(Caps())| >= MAXCAPTURES then [Fault]
          else Results(src, pat, s, p, old(Caps()) + [Cap(s, what)]);
        Answers(r, rs, old(Caps()), old(depth), |pat| - p + 1)
      decreases |pat| - p, 2
    {
      hide Results, CapsOk;
      ghost var caps := Caps();
      if level >= MAXCAPTURES { return Error; }
      capture[level] := Cap(s, what);
      level := level + 1;
      assert Caps() == caps + [Cap(s, what)];
      CapsPush(caps, s, what);
      r := Match(s, p);
      if r == Null { level := level - 1; }
    }

    method EndCapture(s: int, p: int) returns (r: Res)
      requires Ready(s, p)
      modifies this, capture
      ensures var l := ToClose(old(Caps()));
        var rs := if l < 0 then [Fault]
            else Results(src, pat, s, p, old(Caps())[l := Cap(old(Caps())[l].init, s - old(Caps())[l].init)]);
        Answers(r, rs, old(Caps()), old(depth), |pat| - p + 1)
      decreases |pat| - p, 2
    {
      hide Results, CapsOk, ToClose;
      ghost var caps := Caps();
      var l := CaptureToClose();
      if l < 0 { return Error; }
      CapsClose(caps, s, l);
      capture[l] := Cap(capture[l].init, s - capture[l].init);
      assert Caps() == caps[l := Cap(caps[l].init, s - caps[l].init)];
      r := Match(s, p);
      if r == Null {
        capture[l] := Cap(capture[l].init, CAP_UNFINISHED);
        assert Caps() == caps;
      }
    }

    method CountReps(s: int, p: int, ep: int) returns (i: nat)
      requires 0 <= s <= |src|
      ensures i == Reps(src, pat, s, p, ep)
    {
      hide Fits;
      i := 0;
      var more := Matched(s, p, ep);
      while more
        invariant 0 <= i <= |src| - s && more == Fits(src, pat, s + i, p, ep)
        invariant Reps(src, pat, s, p, ep) == i + Reps(src, pat, s + i, p, ep)
        decreases |src| - s - i
      {
        OneMoreRep(src, pat, s + i, p, ep);
        i := i + 1;
        more := Matched(s + i, p, ep);
      }
      NoMoreReps(src, pat, s + i, p, ep);
    }

    /** Most repetitions first. */
    method MaxExpand(s: int, p: int, ep: int) returns (r: Res)
      requires Ready(s, 0) && 0 <= ep < |pat|
      modifies this, capture
      ensures Answers(r, Longest(src, pat, s, Reps(src, pat, s, p, ep), ep + 1, old(Caps())), old(Caps()), old(depth),
          |pat| - ep)
      decreases |pat| - ep - 1, 2
    {
      hide Results, CapsOk, Reps, Longest;
      ghost var caps := Caps();
      var i: int := CountReps(s, p, ep);
      ghost var max := i;
      while i >= 0
        invariant -1 <= i && s + i <= |src| && Valid() && Caps() == caps && CapsOk(caps, s) && depth == old(depth)
        invariant Longest(src, pat, s, max, ep + 1, caps) == if i < 0 then [] else Longest(src, pat, s, i, ep + 1, caps)
      {
        LongestStep(src, pat, s, i, ep + 1, caps);
        CapsLater(caps, s, s + i);
        r := Match(s + i, ep + 1);
        if r != Null { return; }
        i := i - 1;
      }
      return Null;
    }

    /** Fewest repetitions first. */
    method MinExpand(s0: int, p: int, ep: int) returns (r: Res)
      requires Ready(s0, 0) && 0 <= ep < |pat|
      modifies this, capture
      ensures Answers(r, Shortest(src, pat, s0, p, ep, old(Caps())), old(Caps()), old(depth), |pat| - ep)
      decreases |pat| - ep - 1, 2
    {
      hide Results, CapsOk, Fits;
      ghost var caps := Caps();
      var s := s0;
      while true
        invariant s0 <= s <= |src| && Valid() && Caps() == caps && CapsOk(caps, s) && depth == old(depth)
        invariant Shortest(src, pat, s0, p, ep, caps) == Shortest(src, pat, s, p, ep, caps)
        decreases |src| - s
      {
        r := Match(s, ep + 1);
        if r != Null { return; }
        var m := Matched(s, p, ep);
        FitsInside(src, pat, s, p, ep);
        if !m { return Null; }
        CapsLater(caps, s, s + 1);
        s := s + 1;
      }
    }

    /** Items %b, %f and %0 to %9 either fail, raise an error, or go on behind the item. */
    method MatchEscape(s: int, p: int) returns (r: Res, s': int, p': int)
      requires Ready(s, p) && At(pat, p) == ESC
      requires (At(pat, p + 1) == 98 || At(pat, p + 1) == 102 || IsDigit(At(pat, p + 1)))
      ensures !r.TooDeep?
      ensures r == Null ==> Results(src, pat, s, p, Caps()) == []
      ensures r == Error ==> Results(src, pat, s, p, Caps()) == [Fault]
      ensures r.End? ==> Ready(s', p') && p < p' && Results(src, pat, s, p, Caps()) == Results(src, pat, s', p', Caps())
    {
      hide CapsOk, ToClose, Matches, BalanceFrom, BackRef, ClassEnd, MatchSet, Longest, Shortest, Reps;
      var d := At(pat, p + 1);
      s', p' := s, p;
      if d == 98 {
        r := MatchBalance(s, p + 2);
        if r.End? { s', p' := r.pos, p + 4; }
      } else if d == 102 {
        if At(pat, p + 2) != 91 { return Error, s', p'; }
        var ep := FindClassEnd(p + 2);
        if ep < 0 { return Error, s', p'; }
        var before := MatchBracketClass(At(src, s - 1), p + 2, ep - 1);
        var here := MatchBracketClass(At(src, s), p + 2, ep - 1);
        if before || !here { return Null, s', p'; }
        r, p' := End(s), ep;
      } else {
        r := MatchCapture(s, d);
        if r.End? { s', p' := r.pos, p + 2; }
      }
      if r.End? { CapsLater(Caps(), s, s'); }
    }

    /** A single character item with its suffix; again says that matching goes on at (s', p'). */
    method MatchItem(s: int, p: int) returns (r: Res, again: bool, s': int, p': int)
      requires Ready(s, p) && At(pat, p) != 0 && At(pat, p) != 40 && At(pat, p) != 41
      requires !(At(pat, p) == 36 && At(pat, p + 1) == 0)
      requires !(At(pat, p) == ESC && (At(pat, p + 1) == 98 || At(pat, p + 1) == 102 || IsDigit(At(pat, p + 1))))
      modifies this, capture
      ensures again ==> Valid() && Caps() == old(Caps()) && depth == old(depth) && Ready(s', p') && p < p'
      ensures again ==> Results(src, pat, s, p, old(Caps())) == Results(src, pat, s', p', old(Caps()))
      ensures !again ==> Answers(r, Results(src, pat, s, p, old(Caps())), old(Caps()), old(depth), |pat| - p)
      decreases |pat| - p, 0
    {
      hide Results, CapsOk, ToClose, Matches, Fits, ClassEnd, SingleMatch, Longest, Shortest;
      ghost var caps := Caps();
      r, again, s', p' := Null, false, s, p;
      UnfoldItem(src, pat, s, p, caps);
      var ep := FindClassEnd(p);
      if ep < 0 { return Error, again, s', p'; }
      var m := Matched(s, p, ep);
      FitsInside(src, pat, s, p, ep);
      if m { CapsLater(caps, s, s + 1); }
      var suffix := At(pat, ep);
      if suffix == 63 {
        if m {
          r := Match(s + 1, ep + 1);
          if r != Null { return; }
        }
        again, p' := true, ep + 1;
      } else if suffix == 42 {
        r := MaxExpand(s, p, ep);
      } else if suffix == 43 {
        if m { r := MaxExpand(s + 1, p, ep); } else { r := Null; }
      } else if suffix == 45 {
        r := MinExpand(s, p, ep);
      } else if m {
        again, s', p' := true, s + 1, ep;
      } else {
        r := Null;
      }
    }

    /** match: the first entry of the list of results. */
    method Match(s0: int, p0: int) returns (r: Res)
      requires Ready(s0, p0)
      modifies this, capture
      ensures Answers(r, Results(src, pat, s0, p0, old(Caps())), old(Caps()), old(depth), |pat| - p0 + 1)
      decreases |pat| - p0, 1
    {
      hide Results, CapsOk, ToClose, Matches;
      ghost var caps, rs := Caps(), Results(src, pat, s0, p0, Caps());
      depth := depth + 1;
      if depth > LJ_MAX_XLEVEL { return TooDeep; }
      var s, p := s0, p0;
      while true
        invariant 0 <= s <= |src| && p0 <= p <= |pat| && Valid() && Caps() == caps && CapsOk(caps, s)
        invariant depth == old(depth) + 1
        invariant rs == Results(src, pat, s, p, caps)
        decreases |pat| - p
      {
        var c, d := At(pat, p), At(pat, p + 1);
        Unfold(src, pat, s, p, caps);
        if c == 40 {
          if d == 41 { r := StartCapture(s, p + 2, CAP_POSITION); }
              else { r := StartCapture(s, p + 1, CAP_UNFINISHED); }
          break;
        } else if c == 41 {
          r := EndCapture(s, p + 1);
          break;
        } else if c == 0 {
          r := End(s);
          break;
        } else if c == 36 && d == 0 {
          r := if s == |src| then End(s) else Null;
          break;
        } else if c == ESC && (d == 98 || d == 102 || IsDigit(d)) {
          var s', p';
          r, s', p' := MatchEscape(s, p);
          if !r.End? { break; }
          s, p := s', p';
        } else {
          var again, s', p';
          r, again, s', p' := MatchItem(s, p);
          if !again { break; }
          s, p := s', p';
        }
      }
      if r.Null? || r.End? { depth := depth - 1; }
    }

    /**
     The search of string.find and string.match: the leftmost start at which there is a match, and
     there the most preferred one.
     */
    method Find(init: int) returns (r: Res, start: int)
      requires Valid() && 0 <= init <= |src|
      modifies this, capture
      ensures var p := if At(pat, 0) == 94 then 1 else 0;
        && init <= start <= |src| + 1 && (p == 1 ==> start <= init + 1)
        && (forall x, e, caps :: init <= x < start && x <= |src| && !r.TooDeep? ==>
            !Matches(src, pat, x, p, [], e, caps))
        && (r.End? ==> start <= r.pos <= |src| && Valid() && CapsOk(Caps(), r.pos) && Matches(src, pat, start, p, [],
            r.pos, Caps()))
        && (r.End? ==> Results(src, pat, start, p, []) != [] && Results(src, pat, start, p, [])[0] == Hit(r.pos,
            Caps()))
        && (r.Null? ==> start == (if p == 1 then init + 1 else |src| + 1))
        && (r.Error? ==>
              start <= |src| && Results(src, pat, start, p, []) != [] && Results(src, pat, start, p, [])[0] == Fault)
        && (r.TooDeep? ==> |pat| - p + 1 > LJ_MAX_XLEVEL)
    {
      hide Results, Matches, Answers;
      var p := if At(pat, 0) == 94 then 1 else 0;
      start := init;
      while true
        invariant init <= start <= |src| && Valid() && (p == 1 ==> start == init)
        invariant forall x, e, caps :: init <= x < start ==> !Matches(src, pat, x, p, [], e, caps)
        decreases |src| - start
      {
        level, depth := 0, 0;
        assert Caps() == [];
        r := Match(start, p);
        AnswerMeans(r, start, p);
        if r != Null { return; }
        start := start + 1;
        if start > |src| || p == 1 { return; }
      }
    }

    lemma {:induction false} AnswerMeans(r: Res, s: int, p: int)
      requires 0 <= s <= |src| && 0 <= p <= |pat| && Answers(r, Results(src, pat, s, p, []), [], 0, |pat| - p + 1)
      ensures match r
        case Null => Valid() && forall e, caps :: !Matches(src, pat, s, p, [], e, caps)
        case End(e) => Valid() && s <= e <= |src| && CapsOk(Caps(), e) && Matches(src, pat, s, p, [], e, Caps())
            && Results(src, pat, s, p, []) != [] && Results(src, pat, s, p, [])[0] == Hit(e, Caps())
        case Error => Results(src, pat, s, p, []) != [] && Results(src, pat, s, p, [])[0] == Fault
        case TooDeep => |pat| - p + 1 > LJ_MAX_XLEVEL
    {
      hide Results, Matches;
      HitInside(src, pat, s, p, []);
      forall e, caps ensures Hit(e, caps) in Results(src, pat, s, p, []) <==> Matches(src, pat, s, p, [], e, caps) {
        ResultsAreMatches(src, pat, s, p, [], e, caps);
      }
    }
  }

  /** Results where the pattern starts with a capture mark or ends. */
  lemma {:induction false} Unfold(src: Str, pat: Str, s: int, p: int, caps: seq<Cap>)
    requires 0 <= s <= |src| && 0 <= p <= |pat|
    ensures At(pat, p) == 40 ==>
      (Results(src, pat, s, p, caps) ==
       if |caps| >= MAXCAPTURES then [Fault]
       else if At(pat, p + 1) == 41 then Results(src, pat, s, p + 2, caps + [Cap(s, CAP_POSITION)])
       else Results(src, pat, s, p + 1, caps + [Cap(s, CAP_UNFINISHED)]))
    ensures At(pat, p) == 41 ==>
      (var l := ToClose(caps);
       Results(src, pat, s, p, caps) ==
       if l < 0 then [Fault] else Results(src, pat, s, p + 1, caps[l := Cap(caps[l].init, s - caps[l].init)]))
    ensures At(pat, p) == 0 ==> Results(src, pat, s, p, caps) == [Hit(s, caps)]
    ensures At(pat, p) == 36 && At(pat, p + 1) == 0 ==>
        Results(src, pat, s, p, caps) == if s == |src| then [Hit(s, caps)] else []
  {
  }
}

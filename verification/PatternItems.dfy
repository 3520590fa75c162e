/**
 Patterns by their structure: what each item means by itself, how it is written down, and that
 matching the bytes is matching the items.
 */
module PatternItems {
  import opened PatternSpec

  // ---------------------------------------------------------------- classes

  predicate Between(lo: int, c: int, hi: int) { lo <= c <= hi }

  predicate LowerClass(l: int) {
    l == 97 || l == 99 || l == 100 || l == 103 || l == 108 || l == 112 || l == 115 || l == 117 || l == 119 || l == 120
    || l == 122
  }

  /** The letters that name a class: a c d g l p s u w x z, and their capitals for the complements. */
  predicate ClassLetter(l: int) { LowerClass(l) || LowerClass(l + 32) }

  /** The characters of each class, by ranges. */
  predicate ClassHas(l: int, c: int) {
    match l
    case 97 => Between(65, c, 90) || Between(97, c, 122)
    case 99 => Between(0, c, 31) || c == 127
    case 100 => Between(48, c, 57)
    case 103 => Between(33, c, 126)
    case 108 => Between(97, c, 122)
    case 112 => Between(33, c, 47) || Between(58, c, 64) || Between(91, c, 96) || Between(123, c, 126)
    case 115 => Between(9, c, 13) || c == 32
    case 117 => Between(65, c, 90)
    case 119 => Between(48, c, 57) || Between(65, c, 90) || Between(97, c, 122)
    case 120 => Between(48, c, 57) || Between(65, c, 70) || Between(97, c, 102)
    case _ => c == 0
  }

  predicate LetterHas(l: int, c: int) { if LowerClass(l) then ClassHas(l, c) else !ClassHas(l + 32, c) }

  lemma {:induction false} LowerMeans(l: int, c: int)
    requires LowerClass(l)
    ensures MatchClass(c, l) <==> ClassHas(l, c)
  {
  }

  /** A class letter matches exactly its characters, a capital exactly the others. */
  lemma {:induction false} ClassMeans(l: int, c: int)
    requires ClassLetter(l)
    ensures MatchClass(c, l) <==> LetterHas(l, c)
  {
    if LowerClass(l) {
      LowerMeans(l, c);
    } else {
      LowerMeans(l + 32, c);
      KnownClass(l + 32, c);
      UpperIsComplement(c, l + 32);
    }
  }

  lemma {:induction false} KnownClass(l: int, c: int)
    requires LowerClass(l)
    ensures IsLower(l) && (ClassOf(l - 96, c).0 == 1 || l == 122)
  {
  }

  /** Any other escaped character stands for itself. */
  lemma {:induction false} EscapeMeans(x: int, c: int)
    requires !IsAlnum(x)
    ensures MatchClass(c, x) <==> c == x
  {
  }

  // ---------------------------------------------------------------- items

  /** An element of a set; raw characters are written without an escape. */
  datatype Elem = One(c: int, raw: bool) | Range(lo: int, hi: int) | Letter(l: int)

  /** What a single item matches. */
  datatype Single = Lit(c: int, raw: bool) | Any | Class(l: int) | Set(neg: bool, es: seq<Elem>)

  datatype Suffix = Once | Opt | Star | Plus | Lazy

  datatype Node =
    | Item(x: Single, suffix: Suffix)
    | Open
    | Close
    | Position
    | Balance(b: int, e: int)
    | Frontier(neg: bool, es: seq<Elem>)
    | Back(d: int)
    | AtEnd

  predicate ElemHas(e: Elem, c: int) {
    match e
    case One(x, _) => c == x
    case Range(lo, hi) => lo <= c <= hi
    case Letter(l) => LetterHas(l, c)
  }

  ghost predicate SomeElem(es: seq<Elem>, c: int) {
    exists e :: e in es && ElemHas(e, c)
  }

  ghost predicate SetMeans(neg: bool, es: seq<Elem>, c: int) { SomeElem(es, c) != neg }

  ghost predicate SingleHas(x: Single, c: int) {
    match x
    case Lit(y, _) => c == y
    case Any => true
    case Class(l) => LetterHas(l, c)
    case Set(neg, es) => SetMeans(neg, es, c)
  }

  // ---------------------------------------------------------------- writing them down

  function Written(c: int, raw: bool): Str { if raw then [c] else [37, c] }

  function ElemText(e: Elem): (r: Str)
    ensures 1 <= |r| <= 3
  {
    match e
    case One(c, raw) => Written(c, raw)
    case Range(lo, hi) => [lo, 45, hi]
    case Letter(l) => [37, l]
  }

  function ElemsText(es: seq<Elem>): Str {
    if es == [] then [] else ElemText(es[0]) + ElemsText(es[1..])
  }

  function SetText(neg: bool, es: seq<Elem>): Str { [91] + (if neg then [94] else []) + ElemsText(es) + [93] }

  function SingleText(x: Single): Str {
    match x
    case Lit(c, raw) => Written(c, raw)
    case Any => [46]
    case Class(l) => [37, l]
    case Set(neg, es) => SetText(neg, es)
  }

  function SuffixText(q: Suffix): Str {
    match q
    case Once => []
    case Opt => [63]
    case Star => [42]
    case Plus => [43]
    case Lazy => [45]
  }

  function NodeText(n: Node): Str {
    match n
    case Item(x, q) => SingleText(x) + SuffixText(q)
    case Open => [40]
    case Close => [41]
    case Position => [40, 41]
    case Balance(b, e) => [37, 98, b, e]
    case Frontier(neg, es) => [37, 102] + SetText(neg, es)
    case Back(d) => [37, 48 + d]
    case AtEnd => [36]
  }

  function Text(ns: seq<Node>): Str {
    if ns == [] then [] else NodeText(ns[0]) + Text(ns[1..])
  }

  /** Escaped: anything but letters, digits and zero. Raw in a set: anything but ] ^ % - and zero. */
  predicate ElemOk(e: Elem) {
    match e
    case One(c, raw) => c != 0 && (if raw then c != 37 && c != 45 && c != 93 && c != 94 else !IsAlnum(c))
    case Range(lo, hi) => lo != 0 && lo != 37 && lo != 45 && lo != 93 && lo != 94 && hi != 0 && hi != 37 && hi != 93
    case Letter(l) => ClassLetter(l)
  }

  ghost predicate ElemsOk(es: seq<Elem>) { es != [] && forall e :: e in es ==> ElemOk(e) }

  /** Raw outside of sets: anything but ^ $ ( ) % . [ * + - ? and zero. */
  predicate Plain(c: int) {
    c != 0 && c != 94 && c != 36 && c != 40 && c != 41 && c != 37 && c != 46 && c != 91 && c != 42 && c != 43 && c != 45
    && c != 63
  }

  ghost predicate SingleOk(x: Single) {
    match x
    case Lit(c, raw) => c != 0 && if raw then Plain(c) else !IsAlnum(c)
    case Any => true
    case Class(l) => ClassLetter(l)
    case Set(_, es) => ElemsOk(es)
  }

  ghost predicate NodeOk(n: Node) {
    match n
    case Item(x, _) => SingleOk(x)
    case Balance(b, e) => b != 0 && e != 0
    case Frontier(_, es) => ElemsOk(es)
    case Back(d) => 1 <= d <= 9
    case _ => true
  }

  /** A pattern: the end mark only at the end, and () only as a position capture. */
  ghost predicate PatternOk(ns: seq<Node>) {
    ns != [] ==>
      && NodeOk(ns[0]) && PatternOk(ns[1..])
      && (ns[0].AtEnd? ==> |ns| == 1)
      && (ns[0].Open? && |ns| > 1 ==> !ns[1].Close?)
  }

  // ---------------------------------------------------------------- sets

  /** w stands in the pattern at q. */
  ghost predicate Stands(pat: Str, q: int, w: Str) {
    0 <= q && q + |w| <= |pat| && forall i {:trigger w[i]} :: 0 <= i < |w| ==> At(pat, q + i) == w[i]
  }

  lemma {:induction false} StandsSplit(pat: Str, q: int, v: Str, w: Str)
    ensures Stands(pat, q, v + w) <==> Stands(pat, q, v) && Stands(pat, q + |v|, w)
  {
    if Stands(pat, q, v + w) {
      forall i {:trigger v[i]} | 0 <= i < |v| ensures At(pat, q + i) == v[i] { assert (v + w)[i] == v[i]; }
      forall i {:trigger w[i]} | 0 <= i < |w| ensures At(pat, q + |v| + i) == w[i] { assert (v + w)[|v| + i] == w[i]; }
    }
    if Stands(pat, q, v) && Stands(pat, q + |v|, w) {
      forall i {:trigger (v + w)[i]} | 0 <= i < |v + w| ensures At(pat, q + i) == (v + w)[i] {
        if i < |v| { assert (v + w)[i] == v[i]; } else { assert (v + w)[i] == w[i - |v|]; }
      }
    }
  }

  /** The scan for the closing bracket steps over one element. */
  lemma {:induction false} SetEndStep(pat: Str, q: int, e: Elem)
    requires Stands(pat, q, ElemText(e)) && ElemOk(e)
    ensures var n := |ElemText(e)|; SetEnd(pat, q) == if At(pat, q + n) == 93 then q + n + 1 else SetEnd(pat, q + n)
  {
    var w := ElemText(e);
    assert At(pat, q + 0) == w[0];
    if e.Range? {
      assert At(pat, q + 1) == w[1] == 45 && At(pat, q + 2) == w[2];
      assert SetEnd(pat, q) == SetEnd(pat, q + 1) == SetEnd(pat, q + 2);
    } else if |w| == 2 {
      assert At(pat, q + 1) == w[1];
    }
  }

  lemma {:induction false} SetHasStep(pat: Str, q: int, ec: int, e: Elem, c: int)
    requires Stands(pat, q, ElemText(e)) && ElemOk(e) && q + |ElemText(e)| <= ec
    requires At(pat, q + |ElemText(e)|) != 45
    ensures SetHas(c, pat, q, ec) <==> ElemHas(e, c) || SetHas(c, pat, q + |ElemText(e)|, ec)
  {
    var w := ElemText(e);
    assert At(pat, q + 0) == w[0];
    if e.Range? {
      assert At(pat, q + 1) == w[1] && At(pat, q + 2) == w[2];
    } else if |w| == 2 {
      assert At(pat, q + 1) == w[1];
      hide MatchClass, LetterHas;
      if e.Letter? { ClassMeans(e.l, c); } else { EscapeMeans(e.c, c); }
    }
  }

  /** No element starts with a dash or a closing bracket, so neither does what follows one. */
  lemma {:induction false} FirstOf(es: seq<Elem>)
    requires es != [] && ElemOk(es[0])
    ensures ElemsText(es) != [] && ElemsText(es)[0] != 45 && ElemsText(es)[0] != 93 && ElemsText(es)[0] != 94
  {
  }

  /** A written set is found whole, and holds exactly what some element holds. */
  lemma {:induction false} SetRendered(pat: Str, q: int, es: seq<Elem>, c: int)
    requires Stands(pat, q, ElemsText(es) + [93]) && forall e :: e in es ==> ElemOk(e)
    ensures var ec := q + |ElemsText(es)|;
      && (es != [] ==> SetEnd(pat, q) == ec + 1)
      && (SetHas(c, pat, q, ec) <==> SomeElem(es, c))
    decreases |es|
  {
    hide ElemText, ElemHas, ElemOk, Stands, SetHas, SetEnd, SomeElem;
    var ec := q + |ElemsText(es)|;
    if es == [] {
      NoElems(pat, q, c);
    } else {
      var e, rest, w := es[0], es[1..], ElemText(es[0]);
      assert e in es;
      Join(w, ElemsText(rest));
      StandsSplit(pat, q, w, ElemsText(rest) + [93]);
      SetRendered(pat, q + |w|, rest, c);
      NextFirst(pat, q + |w|, rest);
      SetEndStep(pat, q, e);
      SetHasStep(pat, q, ec, e, c);
      SomeFirst(es, c);
    }
  }

  lemma {:induction false} Join(w: Str, v: Str)
    ensures w + v + [93] == w + (v + [93])
  {
  }

  lemma {:induction false} NoElems(pat: Str, q: int, c: int)
    ensures !SetHas(c, pat, q, q) && !SomeElem([], c)
  {
  }

  lemma {:induction false} SomeFirst(es: seq<Elem>, c: int)
    requires es != []
    ensures SomeElem(es, c) <==> ElemHas(es[0], c) || SomeElem(es[1..], c)
  {
    hide ElemHas;
    assert es == [es[0]] + es[1..];
  }

  /** Behind an element stands the closing bracket or the next element. */
  lemma {:induction false} NextFirst(pat: Str, q: int, es: seq<Elem>)
    requires Stands(pat, q, ElemsText(es) + [93]) && forall e :: e in es ==> ElemOk(e)
    ensures At(pat, q) != 45 && (At(pat, q) == 93 <==> es == [])
  {
    var w := ElemsText(es) + [93];
    assert At(pat, q + 0) == w[0];
    if es != [] {
      assert es[0] in es;
      FirstOf(es);
    }
  }

  /** A written set as a whole, with or without the complement. */
  lemma {:induction false} SetTextMeans(pat: Str, p: int, neg: bool, es: seq<Elem>, c: int)
    requires Stands(pat, p, SetText(neg, es)) && ElemsOk(es)
    ensures var n := |SetText(neg, es)|;
      ClassEnd(pat, p) == p + n && (MatchSet(c, pat, p, p + n - 1) <==> SetMeans(neg, es, c))
  {
    var head: Str := [91] + (if neg then [94] else []);
    var w := ElemsText(es) + [93];
    assert SetText(neg, es) == head + w;
    StandsSplit(pat, p, head, w);
    assert At(pat, p + 0) == head[0];
    if neg { assert At(pat, p + 1) == head[1]; } else { assert At(pat, p + 1 + 0) == w[0]; }
    assert es[0] in es;
    FirstOf(es);
    SetRendered(pat, p + |head|, es, c);
    hide SetHas, SetEnd, ElemsText, ElemOk, Stands;
  }

  /** A written single item is read whole, and matches what it is meant to match. */
  lemma {:induction false} SingleMeans(pat: Str, p: int, x: Single, c: int)
    requires Stands(pat, p, SingleText(x)) && SingleOk(x)
    ensures var n := |SingleText(x)|; ClassEnd(pat, p) == p + n && (SingleMatch(c, pat, p, p + n) <==> SingleHas(x, c))
  {
    hide MatchClass, MatchSet, SetMeans, LetterHas, SetEnd, ElemsText;
    var w := SingleText(x);
    assert At(pat, p + 0) == w[0];
    match x {
      case Set(neg, es) =>
        SetTextMeans(pat, p, neg, es, c);
      case Class(l) =>
        assert At(pat, p + 1) == w[1];
        ClassMeans(l, c);
      case Lit(y, raw) =>
        if !raw {
          assert At(pat, p + 1) == w[1];
          EscapeMeans(y, c);
        }
      case Any =>
    }
  }

  // ---------------------------------------------------------------- whole patterns

  /** The characters from s up to y are all of the kind x matches. */
  ghost predicate RunOf(src: Str, x: Single, s: int, y: int) {
    0 <= s <= y <= |src| && forall i :: s <= i < y ==> SingleHas(x, src[i])
  }

  predicate Count(q: Suffix, n: int) {
    match q
    case Once => n == 1
    case Opt => n <= 1
    case Star => true
    case Plus => n >= 1
    case Lazy => true
  }

  ghost predicate LastOpen(caps: seq<Cap>, l: int) {
    0 <= l < |caps| && caps[l].len == CAP_UNFINISHED && forall i :: l < i < |caps| ==> caps[i].len != CAP_UNFINISHED
  }

  /** From an opening b at s to right behind the first e that brings the nesting back to zero. */
  ghost predicate BalancedTo(src: Str, s: int, m: int, b: int, e: int) {
    && 0 <= s < m - 1 && m <= |src| && src[s] == b && 1 + Net(src, s + 1, m, b, e) == 0
    && StaysOpen(src, s + 1, m, b, e)
  }

  ghost predicate StaysOpen(src: Str, i: int, m: int, b: int, e: int)
    requires 0 <= i && m <= |src|
  {
    forall j {:trigger Net(src, i, j, b, e)} :: i <= j < m ==> 1 + Net(src, i, j, b, e) > 0
  }

  /** The text of a finished capture stands at s. */
  ghost predicate Repeats(src: Str, cap: Cap, s: int) {
    0 <= cap.init && 0 <= cap.len && cap.init + cap.len <= |src| && TextStandsAt(src, cap, s)
  }

  /** What a pattern given by its items matches: the subject from s to e, with captures caps to caps'. */
  ghost predicate Means(src: Str, ns: seq<Node>, s: int, caps: seq<Cap>, e: int, caps': seq<Cap>)
    requires 0 <= s <= |src|
    decreases |ns|
  {
    if ns == [] then e == s && caps' == caps else
    var rest := ns[1..];
    match ns[0]
    case Item(x, q) =>
      exists y {:trigger RunOf(src, x, s, y)} ::
        RunOf(src, x, s, y) && Count(q, y - s) && Means(src, rest, y, caps, e, caps')
    case Open => |caps| < 32 && Means(src, rest, s, caps + [Cap(s, CAP_UNFINISHED)], e, caps')
    case Position => |caps| < 32 && Means(src, rest, s, caps + [Cap(s, CAP_POSITION)], e, caps')
    case Close =>
      exists l {:trigger LastOpen(caps, l)} ::
        LastOpen(caps, l) && Means(src, rest, s, caps[l := Cap(caps[l].init, s - caps[l].init)], e, caps')
    case Balance(b, e') =>
      exists m {:trigger BalancedTo(src, s, m, b, e')} ::
        BalancedTo(src, s, m, b, e') && Means(src, rest, m, caps, e, caps')
    case Frontier(neg, es) =>
      !SetMeans(neg, es, At(src, s - 1)) && SetMeans(neg, es, At(src, s)) && Means(src, rest, s, caps, e, caps')
    case Back(d) =>
      0 < d <= |caps| && Repeats(src, caps[d - 1], s) && Means(src, rest, s + caps[d - 1].len, caps, e, caps')
    case AtEnd => s == |src| && e == s && caps' == caps
  }

  lemma {:induction false} BalanceFound(src: Str, s: int, m: int, b: int, e: int)
    requires 0 <= s < |src| && src[s] == b
    ensures BalancedTo(src, s, m, b, e) <==> m >= 0 && m == BalanceFrom(src, s + 1, b, e, 1)
  {
    hide Net, BalanceFrom;
    BalanceMeans(src, s + 1, b, e, 1);
    var r := BalanceFrom(src, s + 1, b, e, 1);
    var atM := if s + 1 <= m <= |src| then Net(src, s + 1, m, b, e) else 0;
    var atR := if s + 1 <= r <= |src| then Net(src, s + 1, r, b, e) else 0;
  }

  lemma {:induction false} LastOpenIs(caps: seq<Cap>, l: int)
    ensures LastOpen(caps, l) <==> l >= 0 && l == ToClose(caps)
  {
    hide ToClose;
    var t := ToClose(caps);
  }

  /** The pattern from p to its end is the text of ns. */
  ghost predicate Ends(pat: Str, p: int, ns: seq<Node>) {
    Stands(pat, p, Text(ns)) && p + |Text(ns)| == |pat|
  }

  lemma {:induction false} EndsNext(pat: Str, p: int, ns: seq<Node>)
    requires ns != [] && Ends(pat, p, ns)
    ensures Stands(pat, p, NodeText(ns[0])) && Ends(pat, p + |NodeText(ns[0])|, ns[1..])
  {
    hide NodeText, Stands;
    StandsSplit(pat, p, NodeText(ns[0]), Text(ns[1..]));
  }

  /** No item starts with a suffix, only Close with a closing parenthesis; the pattern ends with a zero. */
  lemma {:induction false} FirstChar(pat: Str, p: int, ns: seq<Node>)
    requires Ends(pat, p, ns) && PatternOk(ns)
    ensures var f := At(pat, p);
      && f != 63 && f != 42 && f != 43 && f != 45 && (ns == [] <==> f == 0) && (f == 41 <==> ns != [] && ns[0].Close?)
  {
    if ns != [] {
      EndsNext(pat, p, ns);
      var w := NodeText(ns[0]);
      assert At(pat, p + 0) == w[0];
    }
  }

  // ---------------------------------------------------------------- matching the text is matching the items

  /** Nothing but a single item, possibly with a suffix, starts at p. */
  ghost predicate PlainAt(pat: Str, p: int) {
    var c, d := At(pat, p), At(pat, p + 1);
    && c != 40 && c != 41 && c != 0 && c != 36
    && !(c == ESC && (d == 98 || d == 102 || IsDigit(d)))
  }

  lemma {:induction false} ItemUnfold(src: Str, pat: Str, s: int, p: int, caps: seq<Cap>, e: int, caps': seq<Cap>)
    requires 0 <= s <= |src| && 0 <= p <= |pat| && PlainAt(pat, p)
    ensures Matches(src, pat, s, p, caps, e, caps') <==>
      var ep := ClassEnd(pat, p);
      && ep >= 0
      && var q := At(pat, ep);
      if q == 63 || q == 42 || q == 43 || q == 45 then
        exists x {:trigger Run(src, pat, s, x, p, ep)} ::
          Run(src, pat, s, x, p, ep) && (q == 63 ==> x <= s + 1) && (q == 43 ==> x > s)
          && Matches(src, pat, x, ep + 1, caps, e, caps')
      else Fits(src, pat, s, p, ep) && Matches(src, pat, s + 1, ep, caps, e, caps')
  {
  }

  lemma {:induction false} SingleStarts(pat: Str, p: int, x: Single)
    requires Stands(pat, p, SingleText(x)) && SingleOk(x)
    ensures PlainAt(pat, p)
  {
    var w := SingleText(x);
    assert At(pat, p + 0) == w[0];
    if |w| > 1 { assert At(pat, p + 1) == w[1]; }
  }

  /** A run in the text is a run of the item. */
  lemma {:induction false} RunMeans(src: Str, pat: Str, s: int, y: int, p: int, x: Single)
    requires Stands(pat, p, SingleText(x)) && SingleOk(x)
    ensures ClassEnd(pat, p) == p + |SingleText(x)|
    ensures Run(src, pat, s, y, p, p + |SingleText(x)|) <==> RunOf(src, x, s, y)
  {
    hide SingleText, SingleHas, SingleMatch, SingleOk, ClassEnd;
    var ep := p + |SingleText(x)|;
    SingleMeans(pat, p, x, 0);
    forall c ensures SingleMatch(c, pat, p, ep) <==> SingleHas(x, c) { SingleMeans(pat, p, x, c); }
    if Run(src, pat, s, y, p, ep) {
      forall i | s <= i < y ensures SingleHas(x, src[i]) { assert Fits(src, pat, i, p, ep); }
    }
  }

  /** What the text shows of an item with its suffix. */
  lemma {:induction false} ItemShape(src: Str, pat: Str, s: int, p: int, x: Single, q: Suffix, rest: seq<Node>,
      next: int)
    requires Stands(pat, p, NodeText(Item(x, q))) && SingleOk(x) && 0 <= p < |pat|
    requires next == p + |NodeText(Item(x, q))| && Ends(pat, next, rest) && PatternOk(rest)
    ensures PlainAt(pat, p) && ClassEnd(pat, p) == next - (if q.Once? then 0 else 1) <= |pat|
    ensures var f := At(pat, ClassEnd(pat, p));
      (f == 63 <==> q.Opt?) && (f == 42 <==> q.Star?) && (f == 43 <==> q.Plus?) && (f == 45 <==> q.Lazy?)
    ensures forall y {:trigger RunOf(src, x, s, y)} {:trigger Run(src, pat, s, y, p, ClassEnd(pat, p))} ::
      Run(src, pat, s, y, p, ClassEnd(pat, p)) <==> RunOf(src, x, s, y)
  {
    hide ClassEnd, SingleText, SingleOk, PatternOk, Ends, PlainAt, Stands, SuffixText, RunOf, Run;
    var ep := p + |SingleText(x)|;
    StandsSplit(pat, p, SingleText(x), SuffixText(q));
    SingleStarts(pat, p, x);
    SuffixAt(pat, ep, q, rest);
    RunMeans(src, pat, s, 0, p, x);
    assert ClassEnd(pat, p) == ep;
    forall y {:trigger RunOf(src, x, s, y)} ensures Run(src, pat, s, y, p, ep) <==> RunOf(src, x, s, y) {
      RunMeans(src, pat, s, y, p, x);
    }
  }

  /** What an item with its suffix asks for, in the terms of the text. */
  lemma {:induction false} ItemMeans(src: Str, pat: Str, s: int, p: int, x: Single, q: Suffix, rest: seq<Node>,
      next: int, caps: seq<Cap>, e: int, caps': seq<Cap>)
    requires 0 <= s <= |src| && Stands(pat, p, NodeText(Item(x, q))) && SingleOk(x) && 0 <= p < |pat|
    requires next == p + |NodeText(Item(x, q))| && Ends(pat, next, rest) && PatternOk(rest) && 0 <= next <= |pat|
    requires forall y {:trigger Means(src, rest, y, caps, e, caps')} | 0 <= y <= |src| ::
      (Matches(src, pat, y, next, caps, e, caps') <==> Means(src, rest, y, caps, e, caps'))
    ensures Matches(src, pat, s, p, caps, e, caps') <==>
      exists y {:trigger RunOf(src, x, s, y)} ::
        RunOf(src, x, s, y) && Count(q, y - s) && Means(src, rest, y, caps, e, caps')
  {
    hide Matches, Means, NodeText, SingleOk, ClassEnd, PatternOk, Ends, PlainAt, Fits, RunOf, Run, Stands;
    ItemShape(src, pat, s, p, x, q, rest, next);
    ItemUnfold(src, pat, s, p, caps, e, caps');
    var ep := ClassEnd(pat, p);
    OneRun(src, pat, s, p, ep, x);
    forall y ensures (Run(src, pat, s, y, p, ep) ==> s <= y <= |src|) && (RunOf(src, x, s, y) ==> s <= y <= |src|) {
      RunInside(src, pat, s, y, p, ep, x);
    }
  }

  lemma {:induction false} RunInside(src: Str, pat: Str, s: int, y: int, p: int, ep: int, x: Single)
    ensures Run(src, pat, s, y, p, ep) ==> s <= y <= |src|
    ensures RunOf(src, x, s, y) ==> s <= y <= |src|
  {
  }

  /** The character behind a single item tells its suffix. */
  lemma {:induction false} SuffixAt(pat: Str, ep: int, q: Suffix, rest: seq<Node>)
    requires Stands(pat, ep, SuffixText(q)) && Ends(pat, ep + |SuffixText(q)|, rest) && PatternOk(rest)
    ensures var f := At(pat, ep);
      && (f == 63 <==> q.Opt?) && (f == 42 <==> q.Star?) && (f == 43 <==> q.Plus?) && (f == 45 <==> q.Lazy?)
    ensures ep + |SuffixText(q)| <= |pat| && |SuffixText(q)| == if q.Once? then 0 else 1
  {
    FirstChar(pat, ep + |SuffixText(q)|, rest);
    hide PatternOk, Ends;
    if !q.Once? { assert At(pat, ep + 0) == SuffixText(q)[0]; }
  }

  lemma {:induction false} OneRun(src: Str, pat: Str, s: int, p: int, ep: int, x: Single)
    requires 0 <= s <= |src| && (Run(src, pat, s, s + 1, p, ep) <==> RunOf(src, x, s, s + 1))
    ensures Fits(src, pat, s, p, ep) <==> RunOf(src, x, s, s + 1)
  {
    hide SingleHas, SingleMatch;
    assert s < |src| ==> (Run(src, pat, s, s + 1, p, ep) <==> Fits(src, pat, s, p, ep));
  }

  lemma {:induction false} CloseUnfold(src: Str, pat: Str, s: int, p: int, caps: seq<Cap>, e: int, caps': seq<Cap>)
    requires 0 <= s <= |src| && 0 <= p < |pat| && At(pat, p) == 41
    ensures Matches(src, pat, s, p, caps, e, caps') <==>
      var l := ToClose(caps);
      l >= 0 && Matches(src, pat, s, p + 1, caps[l := Cap(caps[l].init, s - caps[l].init)], e, caps')
  {
  }

  lemma {:induction false} OpenUnfold(src: Str, pat: Str, s: int, p: int, caps: seq<Cap>, e: int, caps': seq<Cap>)
    requires 0 <= s <= |src| && 0 <= p < |pat| && At(pat, p) == 40
    ensures At(pat, p + 1) == 41 ==>
      (Matches(src, pat, s, p, caps, e, caps') <==>
        |caps| < 32 && Matches(src, pat, s, p + 2, caps + [Cap(s, CAP_POSITION)], e, caps'))
    ensures At(pat, p + 1) != 41 ==>
      (Matches(src, pat, s, p, caps, e, caps') <==>
        |caps| < 32 && Matches(src, pat, s, p + 1, caps + [Cap(s, CAP_UNFINISHED)], e, caps'))
  {
  }

  lemma {:induction false} EndUnfold(src: Str, pat: Str, s: int, p: int, caps: seq<Cap>, e: int, caps': seq<Cap>)
    requires 0 <= s <= |src| && 0 <= p <= |pat|
    requires At(pat, p) == 0 || (At(pat, p) == 36 && At(pat, p + 1) == 0)
    ensures Matches(src, pat, s, p, caps, e, caps') <==> e == s && caps' == caps && (At(pat, p) == 36 ==> s == |src|)
  {
  }

  lemma {:induction false} BalanceUnfold(src: Str, pat: Str, s: int, p: int, caps: seq<Cap>, e: int, caps': seq<Cap>)
    requires 0 <= s <= |src| && 0 <= p && p + 4 <= |pat| && At(pat, p) == ESC && At(pat, p + 1) == 98
    requires At(pat, p + 2) != 0 && At(pat, p + 3) != 0
    ensures var m := BalanceFrom(src, s + 1, At(pat, p + 2), At(pat, p + 3), 1);
      Matches(src, pat, s, p, caps, e, caps') <==>
        At(src, s) == At(pat, p + 2) && m >= 0 && Matches(src, pat, m, p + 4, caps, e, caps')
  {
  }

  lemma {:induction false} FrontierUnfold(src: Str, pat: Str, s: int, p: int, caps: seq<Cap>, e: int, caps': seq<Cap>)
    requires 0 <= s <= |src| && 0 <= p && p + 2 < |pat| && At(pat, p) == ESC && At(pat, p + 1) == 102
    requires At(pat, p + 2) == 91 && ClassEnd(pat, p + 2) >= 0
    ensures var ep := ClassEnd(pat, p + 2);
      Matches(src, pat, s, p, caps, e, caps') <==>
        && !MatchSet(At(src, s - 1), pat, p + 2, ep - 1) && MatchSet(At(src, s), pat, p + 2, ep - 1)
        && Matches(src, pat, s, ep, caps, e, caps')
  {
  }

  lemma {:induction false} BackUnfold(src: Str, pat: Str, s: int, p: int, caps: seq<Cap>, e: int, caps': seq<Cap>)
    requires 0 <= s <= |src| && 0 <= p && p + 2 <= |pat| && At(pat, p) == ESC && IsDigit(At(pat, p + 1))
    ensures Matches(src, pat, s, p, caps, e, caps') <==>
      && CaptureKnown(caps, At(pat, p + 1))
      && var m := BackRef(src, s, caps[At(pat, p + 1) - 49]);
      m >= 0 && Matches(src, pat, m, p + 2, caps, e, caps')
  {
  }

  lemma {:induction false} RepeatMeans(src: Str, cap: Cap, s: int)
    requires 0 <= s <= |src|
    ensures BackRef(src, s, cap) >= 0 <==> Repeats(src, cap, s)
    ensures Repeats(src, cap, s) ==> BackRef(src, s, cap) == s + cap.len <= |src|
  {
    if 0 <= cap.init && 0 <= cap.len && cap.init + cap.len <= |src| && s + cap.len <= |src| {
      var a, b := src[cap.init..cap.init + cap.len], src[s..s + cap.len];
      if TextStandsAt(src, cap, s) {
        forall i | 0 <= i < cap.len ensures a[i] == b[i] { assert At(src, s + i) == At(src, cap.init + (s + i - s)); }
      }
      if a == b {
        forall x {:trigger At(src, x)} | s <= x < s + cap.len ensures At(src, x) == At(src, cap.init + (x - s)) {
          assert a[x - s] == b[x - s];
        }
      }
    }
  }

  /** The characters of a written node. */
  lemma {:induction false} CharsAt(pat: Str, p: int, w: Str)
    requires Stands(pat, p, w)
    ensures 0 <= p && p + |w| <= |pat|
    ensures |w| > 0 ==> At(pat, p) == w[0]
    ensures |w| > 1 ==> At(pat, p + 1) == w[1]
    ensures |w| > 2 ==> At(pat, p + 2) == w[2]
    ensures |w| > 3 ==> At(pat, p + 3) == w[3]
  {
    assert |w| > 0 ==> At(pat, p + 0) == w[0];
  }

  lemma {:induction false} OpenMeans(src: Str, pat: Str, p: int, ns: seq<Node>, s: int, caps: seq<Cap>, e: int,
      caps': seq<Cap>)
    requires 0 <= s <= |src| && Ends(pat, p, ns) && PatternOk(ns) && ns != [] && (ns[0].Open? || ns[0].Position?)
    requires var more := caps + [Cap(s, if ns[0].Open? then CAP_UNFINISHED else CAP_POSITION)];
      var next := p + |NodeText(ns[0])|;
      0 <= next <= |pat| && (Matches(src, pat, s, next, more, e, caps') <==> Means(src, ns[1..], s, more, e, caps'))
    ensures 0 <= p <= |pat| && (Matches(src, pat, s, p, caps, e, caps') <==> Means(src, ns, s, caps, e, caps'))
  {
    hide Matches, Ends, Stands;
    EndsNext(pat, p, ns);
    CharsAt(pat, p, NodeText(ns[0]));
    FirstChar(pat, p + |NodeText(ns[0])|, ns[1..]);
    OpenUnfold(src, pat, s, p, caps, e, caps');
  }

  lemma {:induction false} CloseMeans(src: Str, pat: Str, p: int, ns: seq<Node>, s: int, caps: seq<Cap>, e: int,
      caps': seq<Cap>)
    requires 0 <= s <= |src| && Ends(pat, p, ns) && ns != [] && ns[0].Close? && 0 <= p && p + 1 <= |pat|
    requires var l := ToClose(caps);
      l >= 0 ==>
        var less := caps[l := Cap(caps[l].init, s - caps[l].init)];
        (Matches(src, pat, s, p + 1, less, e, caps') <==> Means(src, ns[1..], s, less, e, caps'))
    ensures Matches(src, pat, s, p, caps, e, caps') <==> Means(src, ns, s, caps, e, caps')
  {
    hide Matches, Ends, Stands, LastOpen, ToClose;
    EndsNext(pat, p, ns);
    CharsAt(pat, p, NodeText(ns[0]));
    CloseUnfold(src, pat, s, p, caps, e, caps');
    forall l ensures LastOpen(caps, l) <==> l >= 0 && l == ToClose(caps) { LastOpenIs(caps, l); }
    assert LastOpen(caps, ToClose(caps)) <==> ToClose(caps) >= 0;
  }

  lemma {:induction false} BalancedMeans(src: Str, pat: Str, p: int, ns: seq<Node>, s: int, caps: seq<Cap>, e: int,
      caps': seq<Cap>)
    requires 0 <= s <= |src| && Ends(pat, p, ns) && PatternOk(ns) && ns != [] && ns[0].Balance?
    requires 0 <= p && p + 4 <= |pat|
    requires forall m {:trigger Means(src, ns[1..], m, caps, e, caps')} | 0 <= m <= |src| ::
      (Matches(src, pat, m, p + 4, caps, e, caps') <==> Means(src, ns[1..], m, caps, e, caps'))
    ensures Matches(src, pat, s, p, caps, e, caps') <==> Means(src, ns, s, caps, e, caps')
  {
    hide Matches, Ends, Stands, BalancedTo, BalanceFrom;
    EndsNext(pat, p, ns);
    var b, f := ns[0].b, ns[0].e;
    CharsAt(pat, p, NodeText(ns[0]));
    BalanceUnfold(src, pat, s, p, caps, e, caps');
    forall m
      ensures BalancedTo(src, s, m, b, f) <==> At(src, s) == b && m >= 0 && m == BalanceFrom(src, s + 1, b, f, 1) {
      Balanced(src, s, m, b, f);
    }
    var m := BalanceFrom(src, s + 1, b, f, 1);
    assert BalancedTo(src, s, m, b, f) <==> At(src, s) == b && m >= 0;
    BalanceInside(src, s, b, f);
  }

  lemma {:induction false} BalanceInside(src: Str, s: int, b: int, e: int)
    requires 0 <= s <= |src|
    ensures BalanceFrom(src, s + 1, b, e, 1) <= |src|
  {
  }

  lemma {:induction false} Balanced(src: Str, s: int, m: int, b: int, e: int)
    requires 0 <= s <= |src| && b != 0
    ensures BalancedTo(src, s, m, b, e) <==> At(src, s) == b && m >= 0 && m == BalanceFrom(src, s + 1, b, e, 1)
  {
    if s < |src| && src[s] == b { BalanceFound(src, s, m, b, e); }
  }

  lemma {:induction false} FrontierMeans(src: Str, pat: Str, p: int, ns: seq<Node>, s: int, caps: seq<Cap>, e: int,
      caps': seq<Cap>)
    requires 0 <= s <= |src| && Ends(pat, p, ns) && PatternOk(ns) && ns != [] && ns[0].Frontier?
    requires var next := p + |NodeText(ns[0])|;
      0 <= next <= |pat| && (Matches(src, pat, s, next, caps, e, caps') <==> Means(src, ns[1..], s, caps, e, caps'))
    ensures 0 <= p <= |pat| && (Matches(src, pat, s, p, caps, e, caps') <==> Means(src, ns, s, caps, e, caps'))
  {
    hide Matches, Ends, Stands, SetText, SetMeans, MatchSet, ElemsOk, ClassEnd;
    EndsNext(pat, p, ns);
    var neg, es := ns[0].neg, ns[0].es;
    StandsSplit(pat, p, [37, 102], SetText(neg, es));
    CharsAt(pat, p, [37, 102]);
    SetTextMeans(pat, p + 2, neg, es, At(src, s - 1));
    SetTextMeans(pat, p + 2, neg, es, At(src, s));
    SetStarts(pat, p + 2, neg, es);
    FrontierUnfold(src, pat, s, p, caps, e, caps');
  }

  lemma {:induction false} SetStarts(pat: Str, p: int, neg: bool, es: seq<Elem>)
    requires Stands(pat, p, SetText(neg, es))
    ensures 0 <= p < |pat| && At(pat, p) == 91 && p + |SetText(neg, es)| <= |pat|
  {
    CharsAt(pat, p, SetText(neg, es));
  }

  lemma {:induction false} BackMeans(src: Str, pat: Str, p: int, ns: seq<Node>, s: int, caps: seq<Cap>, e: int,
      caps': seq<Cap>)
    requires 0 <= s <= |src| && Ends(pat, p, ns) && PatternOk(ns) && ns != [] && ns[0].Back? && 0 <= p && p + 2 <= |pat|
    requires var l := ns[0].d - 1;
      0 <= l < |caps| && Repeats(src, caps[l], s) ==>
        (Matches(src, pat, s + caps[l].len, p + 2, caps, e, caps') <==>
          Means(src, ns[1..], s + caps[l].len, caps, e, caps'))
    ensures Matches(src, pat, s, p, caps, e, caps') <==> Means(src, ns, s, caps, e, caps')
  {
    hide Matches, Ends, Stands, BackRef, TextStandsAt;
    EndsNext(pat, p, ns);
    CharsAt(pat, p, NodeText(ns[0]));
    var d := ns[0].d;
    if d <= |caps| { RepeatMeans(src, caps[d - 1], s); }
    BackUnfold(src, pat, s, p, caps, e, caps');
  }

  lemma {:induction false} AtEndMeans(src: Str, pat: Str, p: int, ns: seq<Node>, s: int, caps: seq<Cap>, e: int,
      caps': seq<Cap>)
    requires 0 <= s <= |src| && Ends(pat, p, ns) && PatternOk(ns) && (ns != [] ==> ns[0].AtEnd?)
    ensures 0 <= p <= |pat| && (Matches(src, pat, s, p, caps, e, caps') <==> Means(src, ns, s, caps, e, caps'))
  {
    FirstChar(pat, p, ns);
    if ns != [] {
      EndsNext(pat, p, ns);
      CharsAt(pat, p, NodeText(ns[0]));
      assert ns[1..] == [];
      FirstChar(pat, p + 1, ns[1..]);
    }
    EndUnfold(src, pat, s, p, caps, e, caps');
    hide Matches;
  }

  /**
   The text of a list of items, matched as bytes, matches exactly what the items mean, with the same
   end and the same captures.
   */
  lemma {:induction false} TextMeans(src: Str, pat: Str, p: int, ns: seq<Node>, s: int, caps: seq<Cap>, e: int,
      caps': seq<Cap>)
    requires 0 <= s <= |src| && Ends(pat, p, ns) && PatternOk(ns)
    ensures 0 <= p <= |pat| && (Matches(src, pat, s, p, caps, e, caps') <==> Means(src, ns, s, caps, e, caps'))
    decreases |ns|
  {
    hide Matches, Means, Ends, SetText, SingleText, NodeOk, Stands, NodeText;
    if ns == [] || ns[0].AtEnd? {
      AtEndMeans(src, pat, p, ns, s, caps, e, caps');
    } else {
      EndsNext(pat, p, ns);
      var rest, next := ns[1..], p + |NodeText(ns[0])|;
      NodeInside(pat, p, ns);
      match ns[0] {
        case Item(x, q) =>
          forall y {:trigger Means(src, rest, y, caps, e, caps')} | 0 <= y <= |src|
            ensures Matches(src, pat, y, next, caps, e, caps') <==> Means(src, rest, y, caps, e, caps') {
            TextMeans(src, pat, next, rest, y, caps, e, caps');
          }
          ItemMeans(src, pat, s, p, x, q, rest, next, caps, e, caps');
          MeansItem(src, ns, s, caps, e, caps');
        case Open =>
          TextMeans(src, pat, next, rest, s, caps + [Cap(s, CAP_UNFINISHED)], e, caps');
          OpenMeans(src, pat, p, ns, s, caps, e, caps');
        case Position =>
          TextMeans(src, pat, next, rest, s, caps + [Cap(s, CAP_POSITION)], e, caps');
          OpenMeans(src, pat, p, ns, s, caps, e, caps');
        case Close =>
          var l := ToClose(caps);
          if l >= 0 { TextMeans(src, pat, next, rest, s, caps[l := Cap(caps[l].init, s - caps[l].init)], e, caps'); }
          CloseMeans(src, pat, p, ns, s, caps, e, caps');
        case Balance(_, _) =>
          forall y {:trigger Means(src, rest, y, caps, e, caps')} | 0 <= y <= |src|
            ensures Matches(src, pat, y, next, caps, e, caps') <==> Means(src, rest, y, caps, e, caps') {
            TextMeans(src, pat, next, rest, y, caps, e, caps');
          }
          BalancedMeans(src, pat, p, ns, s, caps, e, caps');
        case Frontier(_, _) =>
          TextMeans(src, pat, next, rest, s, caps, e, caps');
          FrontierMeans(src, pat, p, ns, s, caps, e, caps');
        case Back(d) =>
          if d <= |caps| && Repeats(src, caps[d - 1], s) {
            TextMeans(src, pat, next, rest, s + caps[d - 1].len, caps, e, caps');
          }
          BackMeans(src, pat, p, ns, s, caps, e, caps');
      }
    }
  }

  /** A node that is not the end mark lies inside the pattern and has at least one character. */
  lemma {:induction false} NodeInside(pat: Str, p: int, ns: seq<Node>)
    requires Ends(pat, p, ns) && PatternOk(ns) && ns != []
    ensures NodeOk(ns[0]) && 0 <= p < |pat| && p + |NodeText(ns[0])| <= |pat|
    ensures (ns[0].Open? || ns[0].Close? ==> |NodeText(ns[0])| == 1) && (ns[0].Back? ==> |NodeText(ns[0])| == 2)
    ensures (ns[0].Balance? ==> |NodeText(ns[0])| == 4) && (ns[0].Back? ==> 1 <= ns[0].d <= 9)
    ensures ns[0].Item? ==> SingleOk(ns[0].x)
  {
    EndsNext(pat, p, ns);
  }

  lemma {:induction false} MeansItem(src: Str, ns: seq<Node>, s: int, caps: seq<Cap>, e: int, caps': seq<Cap>)
    requires 0 <= s <= |src| && ns != [] && ns[0].Item?
    ensures Means(src, ns, s, caps, e, caps') <==>
      exists y {:trigger RunOf(src, ns[0].x, s, y)} ::
        RunOf(src, ns[0].x, s, y) && Count(ns[0].suffix, y - s) && Means(src, ns[1..], y, caps, e, caps')
  {
  }

  /** A whole pattern, at every start: matching its text is what its items mean. */
  lemma {:induction false} WholeText(src: Str, ns: seq<Node>, s: int, e: int, caps: seq<Cap>)
    requires 0 <= s <= |src| && PatternOk(ns)
    ensures Matches(src, Text(ns), s, 0, [], e, caps) <==> Means(src, ns, s, [], e, caps)
    ensures At(Text(ns), 0) != 94
  {
    hide Matches, Means, PatternOk;
    assert Ends(Text(ns), 0, ns);
    TextMeans(src, Text(ns), 0, ns, s, [], e, caps);
    NoAnchor(ns);
  }

  lemma {:induction false} NoAnchor(ns: seq<Node>)
    requires PatternOk(ns)
    ensures At(Text(ns), 0) != 94
  {
    if ns != [] { assert NodeText(ns[0])[0] != 94; }
  }

  // ---------------------------------------------------------------- preference

  /** The result from position s at p is the one from y at next. */
  ghost predicate SameFirst(src: Str, pat: Str, s: int, p: int, y: int, next: int, caps: seq<Cap>)
    requires 0 <= s <= |src| && 0 <= y <= |src| && 0 <= p <= |pat| && 0 <= next <= |pat|
  {
    && Results(src, pat, s, p, caps) != [] && Results(src, pat, y, next, caps) != []
    && Results(src, pat, s, p, caps)[0] == Results(src, pat, y, next, caps)[0]
  }

  /** No count of repetitions better than y admits a match: more of them, or fewer for -. */
  ghost predicate NoneBetter(src: Str, pat: Str, s: int, x: Single, q: Suffix, y: int, next: int, caps: seq<Cap>)
    requires 0 <= next <= |pat|
  {
    forall z {:trigger RunOf(src, x, s, z)} ::
      RunOf(src, x, s, z) && Count(q, z - s) && (if q.Lazy? then z < y else z > y) ==>
      Results(src, pat, z, next, caps) == []
  }

  ghost predicate NoneAtAll(src: Str, pat: Str, s: int, x: Single, q: Suffix, next: int, caps: seq<Cap>)
    requires 0 <= next <= |pat|
  {
    forall z {:trigger RunOf(src, x, s, z)} ::
      RunOf(src, x, s, z) && Count(q, z - s) ==> Results(src, pat, z, next, caps) == []
  }

  /**
   Which repetitions come first, by the suffix that is written: as many as possible behind ?, * and +,
   as few as possible behind -, among those with which the rest of the pattern has a result at all.
   */
  lemma {:induction false} Preference(src: Str, pat: Str, s: int, p: int, x: Single, q: Suffix, rest: seq<Node>,
      next: int, caps: seq<Cap>) returns (y: int)
    requires 0 <= s <= |src| && Stands(pat, p, NodeText(Item(x, q))) && SingleOk(x) && 0 <= p < |pat|
    requires next == p + |NodeText(Item(x, q))| && Ends(pat, next, rest) && PatternOk(rest) && 0 <= next <= |pat|
    ensures Results(src, pat, s, p, caps) == [] <==> NoneAtAll(src, pat, s, x, q, next, caps)
    ensures Results(src, pat, s, p, caps) != [] ==>
      && RunOf(src, x, s, y) && Count(q, y - s) && SameFirst(src, pat, s, p, y, next, caps)
      && NoneBetter(src, pat, s, x, q, y, next, caps)
  {
    hide Results, NodeText, SingleOk, ClassEnd, PatternOk, Ends, Fits, Run, RunOf, Stands, Reps, Longest, Shortest;
    ItemShape(src, pat, s, p, x, q, rest, next);
    UnfoldItem(src, pat, s, p, caps);
    hide PlainAt;
    var ep := ClassEnd(pat, p);
    var n := Reps(src, pat, s, p, ep);
    forall z {:trigger RunOf(src, x, s, z)} ensures RunOf(src, x, s, z) <==> s <= z <= s + n {
      RunMax(src, pat, s, z, p, ep);
    }
    FitsReps(src, pat, s, p, ep);
    y := s;
    if q.Star? {
      y := LongestFirst(src, pat, s, n, next, caps);
    } else if q.Plus? && n > 0 {
      y := LongestFirst(src, pat, s + 1, Reps(src, pat, s + 1, p, ep), next, caps);
    } else if q.Lazy? {
      y := ShortestFirst(src, pat, s, p, ep, caps);
    } else if n > 0 {
      y := if q.Opt? && Results(src, pat, s + 1, next, caps) == [] then s else s + 1;
    }
    assert Results(src, pat, s, p, caps) != [] ==> RunOf(src, x, s, y) && Count(q, y - s);
    assert RunOf(src, x, s, s);
    assert RunOf(src, x, s, s + 1) <==> n > 0;
  }

  lemma {:induction false} FitsReps(src: Str, pat: Str, s: int, p: int, ep: int)
    requires 0 <= s <= |src|
    ensures Fits(src, pat, s, p, ep) <==> Reps(src, pat, s, p, ep) > 0
    ensures Fits(src, pat, s, p, ep) ==> s < |src| && Reps(src, pat, s, p, ep) == 1 + Reps(src, pat, s + 1, p, ep)
  {
    hide SingleMatch;
  }
}

/** Lua patterns: their items, and the meaning of an item sequence as an ordered list of ways
    to match. */
module Patterns {
  import opened Wrappers

  const MAXCAPTURES: nat := 32

  // Characters of the pattern language.
  const ESC: int := 37
  const DOT: int := 46
  const LBRACKET: int := 91
  const RBRACKET: int := 93
  const CARET: int := 94
  const DOLLAR: int := 36
  const LPAREN: int := 40
  const RPAREN: int := 41
  const STAR: int := 42
  const PLUS: int := 43
  const MINUS: int := 45
  const QUEST: int := 63

  /** Reading past the end gives the terminating zero. */
  function At(s: seq<int>, i: int): int { if 0 <= i < |s| then s[i] else 0 }

  // ---------------------------------------------------------------- character classes

  predicate Digit(c: int) { 48 <= c <= 57 }
  predicate Lower(c: int) { 97 <= c <= 122 }
  predicate Upper(c: int) { 65 <= c <= 90 }
  predicate Alpha(c: int) { Lower(c) || Upper(c) }
  predicate Cntrl(c: int) { 0 <= c <= 31 || c == 127 }
  predicate Space(c: int) { 9 <= c <= 13 || c == 32 }
  predicate Punct(c: int) { 33 <= c <= 47 || 58 <= c <= 64 || 91 <= c <= 96 || 123 <= c <= 126 }
  predicate Xdigit(c: int) { Digit(c) || 65 <= c <= 70 || 97 <= c <= 102 }

  /** The class a letter stands for after the escape character, if any. */
  function Letter(l: int): Option<int -> bool> {
    match l
    case 97 => Some(c => Alpha(c))
    case 99 => Some(c => Cntrl(c))
    case 100 => Some(c => Digit(c))
    case 103 => Some(c => Alpha(c) || Digit(c) || Punct(c))
    case 108 => Some(c => Lower(c))
    case 112 => Some(c => Punct(c))
    case 115 => Some(c => Space(c))
    case 117 => Some(c => Upper(c))
    case 119 => Some(c => Alpha(c) || Digit(c))
    case 120 => Some(c => Xdigit(c))
    case _ => None
  }

  /** match_class: an upper-case letter negates its class; other characters stand for themselves. */
  predicate ClassHas(c: int, cl: int) {
    if Lower(cl) && Letter(cl).Some? then Letter(cl).value(c)
    else if Upper(cl) && Letter(cl + 32).Some? then !Letter(cl + 32).value(c)
    else if cl == 122 then c == 0
    else if cl == 90 then c != 0
    else cl == c
  }

  datatype Elem = Escaped(cl: int) | Range(lo: int, hi: int) | Char(ch: int)

  predicate ElemHas(e: Elem, c: int) {
    match e
    case Escaped(cl) => ClassHas(c, cl)
    case Range(lo, hi) => lo <= c <= hi
    case Char(ch) => c == ch
  }

  datatype Class = Any | One(elem: Elem) | Set(negated: bool, elems: seq<Elem>)

  /** Character c belongs to the class. */
  predicate Member(cl: Class, c: int) {
    match cl
    case Any => true
    case One(e) => ElemHas(e, c)
    case Set(negated, elems) => negated != (exists k :: 0 <= k < |elems| && ElemHas(elems[k], c))
  }

  // ---------------------------------------------------------------- parsing

  /** Where the brackets of a set that goes on at q end (classend). */
  function BracketEnd(pat: seq<int>, q: nat): Option<nat>
    decreases if q <= |pat| then |pat| - q else 0
  {
    if At(pat, q) == 0 then None
    else
      var r := if At(pat, q) == ESC && At(pat, q + 1) != 0 then q + 2 else q + 1;
      if At(pat, r) == RBRACKET then Some(r + 1) else BracketEnd(pat, r)
  }

  function ClassEnd(pat: seq<int>, p: nat): Option<nat> {
    if At(pat, p) == ESC then
      if At(pat, p + 1) == 0 then None else Some(p + 2)
    else if At(pat, p) == LBRACKET then BracketEnd(pat, if At(pat, p + 1) == CARET then p + 2 else p + 1)
    else Some(p + 1)
  }

  /** The elements of a set between p and its closing bracket at ec. */
  function Elements(pat: seq<int>, p: nat, ec: nat): seq<Elem>
    decreases if p <= ec then ec - p else 0
  {
    if p >= ec then []
    else if At(pat, p) == ESC then [Escaped(At(pat, p + 1))] + Elements(pat, p + 2, ec)
    else if At(pat, p + 1) == MINUS && p + 2 < ec then [Range(At(pat, p), At(pat, p + 2))] + Elements(pat, p + 3, ec)
    else [Char(At(pat, p))] + Elements(pat, p + 1, ec)
  }

  /** The set at p whose closing bracket is at ec. */
  function SetAt(pat: seq<int>, p: nat, ec: nat): Class {
    var negated := At(pat, p + 1) == CARET;
    Set(negated, Elements(pat, if negated then p + 2 else p + 1, ec))
  }

  function ClassAt(pat: seq<int>, p: nat, ep: nat): Class
    requires ep > 0
  {
    if At(pat, p) == DOT then Any
    else if At(pat, p) == ESC then One(Escaped(At(pat, p + 1)))
    else if At(pat, p) == LBRACKET then SetAt(pat, p, ep - 1)
    else One(Char(At(pat, p)))
  }

  datatype Quantifier = Once | Optional | Greedy | GreedyPlus | Lazy

  datatype Item = Open(position: bool) | Close | Balance(b: int, e: int) | Frontier(cl: Class) | Back(digit: int)
                | AtEnd | Rep(cl: Class, q: Quantifier)

  /** The item at p and where the next one starts; None when the pattern is malformed. */
  function ItemAt(pat: seq<int>, p: nat): (r: Option<(Item, nat)>)
    requires At(pat, p) != 0
    ensures r.Some? ==> p < r.value.1 <= |pat|
  {
    var c, d := At(pat, p), At(pat, p + 1);
    if c == LPAREN then if d == RPAREN then Some((Open(true), p + 2)) else Some((Open(false), p + 1))
    else if c == RPAREN then Some((Close, p + 1))
    else if c == ESC && d == 98 then
      if At(pat, p + 2) == 0 || At(pat, p + 3) == 0 then None
        else Some((Balance(At(pat, p + 2), At(pat, p + 3)), p + 4))
    else if c == ESC && d == 102 then
      (BracketInside(pat, if At(pat, p + 3) == CARET then p + 4 else p + 3);
       if At(pat, p + 2) != LBRACKET || ClassEnd(pat, p + 2).None? then None
       else Some((Frontier(SetAt(pat, p + 2, ClassEnd(pat, p + 2).value - 1)), ClassEnd(pat, p + 2).value)))
    else if c == ESC && Digit(d) then Some((Back(d), p + 2))
    else if c == DOLLAR && d == 0 then Some((AtEnd, p + 1))
    else if ClassEnd(pat, p).None? then None
    else
      ClassInside(pat, p);
      var ep := ClassEnd(pat, p).value;
      var cl := ClassAt(pat, p, ep);
      var q := At(pat, ep);
      if q == QUEST then Some((Rep(cl, Optional), ep + 1))
      else if q == STAR then Some((Rep(cl, Greedy), ep + 1))
      else if q == PLUS then Some((Rep(cl, GreedyPlus), ep + 1))
      else if q == MINUS then Some((Rep(cl, Lazy), ep + 1))
      else Some((Rep(cl, Once), ep))
  }

  lemma {:induction false} BracketInside(pat: seq<int>, q: nat)
    ensures BracketEnd(pat, q).Some? ==> q < BracketEnd(pat, q).value <= |pat|
    decreases if q <= |pat| then |pat| - q else 0
  {
    if At(pat, q) != 0 {
      BracketInside(pat, if At(pat, q) == ESC && At(pat, q + 1) != 0 then q + 2 else q + 1);
    }
  }

  lemma ClassInside(pat: seq<int>, p: nat)
    requires At(pat, p) != 0
    ensures ClassEnd(pat, p).Some? ==> p < ClassEnd(pat, p).value <= |pat|
  {
    BracketInside(pat, if At(pat, p + 1) == CARET then p + 2 else p + 1);
  }

  /** The items of a pattern from p on. */
  function Parse(pat: seq<int>, p: nat): Option<seq<Item>>
    decreases if p <= |pat| then |pat| - p else 0
  {
    if At(pat, p) == 0 then Some([])
    else
      match ItemAt(pat, p)
      case None => None
      case Some((item, next)) =>
        match Parse(pat, next)
        case None => None
        case Some(rest) => Some([item] + rest)
  }

  // ---------------------------------------------------------------- captures

  const UNFINISHED: int := -1
  const POSITION: int := -2

  datatype Capture = Capture(init: int, len: int)

  /** The innermost capture that is still open; -1 when there is none. */
  function LastOpen(caps: seq<Capture>): (l: int)
    ensures -1 <= l < |caps| && (l >= 0 ==> caps[l].len == UNFINISHED)
  {
    if caps == [] then -1
    else if caps[|caps| - 1].len == UNFINISHED then |caps| - 1
    else LastOpen(caps[..|caps| - 1])
  }

  /** Which captures are still open. */
  function Shape(caps: seq<Capture>): seq<bool> {
    if caps == [] then [] else Shape(caps[..|caps| - 1]) + [caps[|caps| - 1].len == UNFINISHED]
  }

  function LastTrue(st: seq<bool>): (l: int)
    ensures -1 <= l < |st| && (l >= 0 ==> st[l])
  {
    if st == [] then -1 else if st[|st| - 1] then |st| - 1 else LastTrue(st[..|st| - 1])
  }

  /** No item closes a capture that is not open, opens too many, or refers to one that is not
      finished. Every way to match meets the items in the same order. */
  predicate Proper(items: seq<Item>, st: seq<bool>) {
    if items == [] then true
    else
      match items[0]
      case Open(position) => |st| < MAXCAPTURES && Proper(items[1..], st + [!position])
      case Close => LastTrue(st) >= 0 && Proper(items[1..], st[LastTrue(st) := false])
      case Back(d) => 0 <= d - 49 < |st| && !st[d - 49] && Proper(items[1..], st)
      case _ => Proper(items[1..], st)
  }

  lemma {:induction false} ShapeAt(caps: seq<Capture>)
    ensures |Shape(caps)| == |caps| && LastTrue(Shape(caps)) == LastOpen(caps)
    ensures forall j :: 0 <= j < |caps| ==> Shape(caps)[j] == (caps[j].len == UNFINISHED)
  {
    if caps != [] {
      ShapeAt(caps[..|caps| - 1]);
      assert Shape(caps)[..|caps| - 1] == Shape(caps[..|caps| - 1]);
    }
  }

  lemma ShapePush(caps: seq<Capture>, c: Capture)
    ensures Shape(caps + [c]) == Shape(caps) + [c.len == UNFINISHED]
  {
    assert (caps + [c])[..|caps|] == caps;
  }

  lemma ShapeClose(caps: seq<Capture>, l: nat, c: Capture)
    requires l < |caps| && c.len != UNFINISHED
    ensures |Shape(caps)| == |caps| && Shape(caps[l := c]) == Shape(caps)[l := false]
  {
    hide Shape;
    ShapeAt(caps);
    ShapeAt(caps[l := c]);
    var a, b := Shape(caps[l := c]), Shape(caps)[l := false];
    assert |a| == |b| && forall j :: 0 <= j < |a| ==> a[j] == b[j];
  }

  // ---------------------------------------------------------------- ways to match

  /** One way to match: where it ends, and the captures at that point. */
  datatype Way = Way(end: int, caps: seq<Capture>)

  /** How many characters from s on belong to the class. */
  function RunLength(src: seq<int>, s: nat, cl: Class): (n: nat)
    ensures s <= |src| ==> s + n <= |src|
    ensures forall k :: s <= k < s + n ==> k < |src| && Member(cl, src[k])
    ensures s + n < |src| ==> !Member(cl, src[s + n])
    decreases if s <= |src| then |src| - s else 0
  {
    if s < |src| && Member(cl, src[s]) then 1 + RunLength(src, s + 1, cl) else 0
  }

  /** Where the balanced text that starts at s ends: the first place after it where as many
      closers as openers have been seen. */
  function BalancedFrom(src: seq<int>, s: nat, b: int, e: int, cont: nat): Option<nat>
    requires cont > 0
    decreases if s <= |src| then |src| - s else 0
  {
    if s >= |src| then None
    else if src[s] == e then if cont == 1 then Some(s + 1) else BalancedFrom(src, s + 1, b, e, cont - 1)
    else if src[s] == b then BalancedFrom(src, s + 1, b, e, cont + 1)
    else BalancedFrom(src, s + 1, b, e, cont)
  }

  function Balanced(src: seq<int>, s: nat, b: int, e: int): Option<nat> {
    if At(src, s) != b then None else BalancedFrom(src, s + 1, b, e, 1)
  }

  lemma {:induction false} BalancedInside(src: seq<int>, s: nat, b: int, e: int, cont: nat)
    requires cont > 0
    ensures BalancedFrom(src, s, b, e, cont).Some? ==> s < BalancedFrom(src, s, b, e, cont).value <= |src|
    decreases if s <= |src| then |src| - s else 0
  {
    if s < |src| {
      if src[s] == e {
        if cont > 1 {
          BalancedInside(src, s + 1, b, e, cont - 1);
        }
      } else {
        BalancedInside(src, s + 1, b, e, if src[s] == b then cont + 1 else cont);
      }
    }
  }

  predicate FrontierAt(src: seq<int>, s: nat, cl: Class) {
    !Member(cl, if s == 0 then 0 else At(src, s - 1)) && Member(cl, At(src, s))
  }

  /** The text of a finished capture occurs again at s. */
  predicate Repeats(src: seq<int>, s: nat, c: Capture) {
    && c.len >= 0 && c.init >= 0 && s + c.len <= |src| && c.init + c.len <= |src|
    && src[s..s + c.len] == src[c.init..c.init + c.len]
  }

  function CloseAt(caps: seq<Capture>, l: nat, s: nat): seq<Capture>
    requires l < |caps|
  {
    caps[l := Capture(caps[l].init, s - caps[l].init)]
  }

  /** All ways to match the items from s on, in the order in which they are preferred. */
  function Ways(items: seq<Item>, src: seq<int>, s: nat, caps: seq<Capture>): seq<Way>
    decreases items, 0, 0
  {
    if items == [] then [Way(s, caps)]
    else
      var rest := items[1..];
      match items[0]
      case Open(position) => Ways(rest, src, s, caps + [Capture(s, if position then POSITION else UNFINISHED)])
      case Close => if LastOpen(caps) < 0 then [] else Ways(rest, src, s, CloseAt(caps, LastOpen(caps), s))
      case Balance(b, e) =>
        (match Balanced(src, s, b, e)
         case None => []
         case Some(t) => Ways(rest, src, t, caps))
      case Frontier(cl) => if FrontierAt(src, s, cl) then Ways(rest, src, s, caps) else []
      case Back(d) =>
        if 0 <= d - 49 < |caps| && Repeats(src, s, caps[d - 49]) then Ways(rest, src, s + caps[d - 49].len, caps)
          else []
      case AtEnd => if s == |src| then Ways(rest, src, s, caps) else []
      case Rep(cl, q) =>
        var n := RunLength(src, s, cl);
        match q
        case Once => if n > 0 then Ways(rest, src, s + 1, caps) else []
        case Optional => (if n > 0 then Ways(rest, src, s + 1, caps) else []) + Ways(rest, src, s, caps)
        case Greedy => Downward(rest, src, s, n, caps)
        case GreedyPlus => if n > 0 then Downward(rest, src, s + 1, n - 1, caps) else []
        case Lazy => Upward(rest, src, s, n, caps)
  }

  /** The longest repetition first. */
  function Downward(rest: seq<Item>, src: seq<int>, s: nat, n: nat, caps: seq<Capture>): seq<Way>
    decreases rest, 1, n
  {
    Ways(rest, src, s + n, caps) + (if n == 0 then [] else Downward(rest, src, s, n - 1, caps))
  }

  /** The shortest repetition first. */
  function Upward(rest: seq<Item>, src: seq<int>, s: nat, n: nat, caps: seq<Capture>): seq<Way>
    decreases rest, 1, n
  {
    Ways(rest, src, s, caps) + (if n == 0 then [] else Upward(rest, src, s + 1, n - 1, caps))
  }
}

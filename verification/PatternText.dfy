/** The syntax of Lua patterns: how items are written, and that parsing is the inverse of it. */
module PatternText {
  import opened Wrappers
  import opened Patterns

  // ---------------------------------------------------------------- writing items

  function ShowElem(e: Elem): seq<int> {
    match e
    case Escaped(cl) => ['%' as int, cl]
    case Range(lo, hi) => [lo, '-' as int, hi]
    case Char(ch) => [ch]
  }

  function ShowElems(elems: seq<Elem>): seq<int> {
    if elems == [] then [] else ShowElem(elems[0]) + ShowElems(elems[1..])
  }

  function ShowClass(cl: Class): seq<int> {
    match cl
    case Any => ['.' as int]
    case One(e) => ShowElem(e)
    case Set(negated, elems) => (if negated then ['[' as int, '^' as int]
                                 else ['[' as int]) + ShowElems(elems) + [']' as int]
  }

  function ShowQuantifier(q: Quantifier): seq<int> {
    match q
    case Once => []
    case Optional => ['?' as int]
    case Greedy => ['*' as int]
    case GreedyPlus => ['+' as int]
    case Lazy => ['-' as int]
  }

  function ShowItem(item: Item): seq<int> {
    match item
    case Open(position) => if position then ['(' as int, ')' as int] else ['(' as int]
    case Close => [')' as int]
    case Balance(b, e) => ['%' as int, 'b' as int, b, e]
    case Frontier(cl) => ['%' as int, 'f' as int] + ShowClass(cl)
    case Back(digit) => ['%' as int, digit]
    case AtEnd => ['$' as int]
    case Rep(cl, q) => ShowClass(cl) + ShowQuantifier(q)
  }

  function Show(items: seq<Item>): seq<int> {
    if items == [] then [] else ShowItem(items[0]) + Show(items[1..])
  }

  // ---------------------------------------------------------------- what is written without ambiguity

  predicate Starts(text: seq<int>, c: char) { text != [] && text[0] == c as int }

  /** An element as the parser reads it: a bracket only comes first, and what looks like a range
      is one. */
  predicate PlainElem(e: Elem, first: bool, rest: seq<int>) {
    match e
    case Escaped(_) => true
    case Range(lo, hi) => lo != '%' as int && hi != ']' as int && (first || lo != ']' as int)
    case Char(c) => c != '%' as int && (first || c != ']' as int) && !(Starts(rest, '-') && |rest| >= 2)
  }

  predicate PlainElems(elems: seq<Elem>, first: bool) {
    elems == [] || (PlainElem(elems[0], first, ShowElems(elems[1..])) && PlainElems(elems[1..], false))
  }

  predicate PlainClass(cl: Class) {
    match cl
    case Any => true
    case One(Escaped(c)) => c != 'b' as int && c != 'f' as int && !('0' as int <= c <= '9' as int)
    case One(Range(_, _)) => false
    case One(Char(c)) => c != '(' as int && c != ')' as int && c != '%' as int && c != '[' as int && c != '.' as int
    case Set(negated, elems) => elems != [] && (Starts(ShowElems(elems), '^') ==> negated) && PlainElems(elems, true)
  }

  /** The item is read back when it is followed by a text. */
  predicate PlainItem(item: Item, rest: seq<int>) {
    match item
    case Open(position) => !position ==> !Starts(rest, ')')
    case Close => true
    case Balance(_, _) => true
    case Frontier(cl) => cl.Set? && PlainClass(cl)
    case Back(digit) => '0' as int <= digit <= '9' as int
    case AtEnd => rest == []
    case Rep(cl, q) =>
      && PlainClass(cl)
      && (q == Once ==> !Starts(rest, '?') && !Starts(rest, '*') && !Starts(rest, '+') && !Starts(rest, '-'))
      && (cl == One(Char('$' as int)) && q == Once ==> rest != [])
  }

  predicate PlainItems(items: seq<Item>) {
    items == [] || (PlainItem(items[0], Show(items[1..])) && PlainItems(items[1..]))
  }

  /** No range of a set ends with the escape character: there, the search for the closing bracket
      and the reading of the set disagree about what is escaped. */
  predicate EvenElems(elems: seq<Elem>) {
    forall k :: 0 <= k < |elems| && elems[k].Range? ==> elems[k].hi != '%' as int
  }

  predicate EvenClass(cl: Class) { cl.Set? ==> EvenElems(cl.elems) }

  predicate EvenItem(item: Item) {
    (item.Frontier? ==> EvenClass(item.cl)) && (item.Rep? ==> EvenClass(item.cl))
  }

  predicate Even(items: seq<Item>) { forall k :: 0 <= k < |items| ==> EvenItem(items[k]) }

  predicate NoZero(pat: seq<int>) { forall k :: 0 <= k < |pat| ==> pat[k] != 0 }

  // ---------------------------------------------------------------- pieces of a pattern

  function Part(s: seq<int>, a: nat, b: nat): seq<int> { if a <= b <= |s| then s[a..b] else [] }

  lemma PartJoin(s: seq<int>, a: nat, b: nat, c: nat)
    requires a <= b <= c <= |s|
    ensures Part(s, a, c) == Part(s, a, b) + Part(s, b, c)
  {
  }

  lemma PartShort(s: seq<int>, a: nat)
    ensures Part(s, a, a) == []
    ensures a < |s| ==> Part(s, a, a + 1) == [s[a]]
    ensures a + 1 < |s| ==> Part(s, a, a + 2) == [s[a], s[a + 1]]
    ensures a + 2 < |s| ==> Part(s, a, a + 3) == [s[a], s[a + 1], s[a + 2]]
    ensures a + 3 < |s| ==> Part(s, a, a + 4) == [s[a], s[a + 1], s[a + 2], s[a + 3]]
  {
  }

  /** A text that is two texts, one after the other. */
  lemma PartSplit(s: seq<int>, a: nat, c: nat, x: seq<int>, y: seq<int>)
    requires a <= c <= |s| && Part(s, a, c) == x + y
    ensures a + |x| <= c && c == a + |x| + |y| && Part(s, a, a + |x|) == x && Part(s, a + |x|, c) == y
  {
    assert s[a..c][..|x|] == x && s[a..c][|x|..] == y;
  }

  lemma PartFirst(s: seq<int>, a: nat, c: nat)
    requires a <= c <= |s|
    ensures |Part(s, a, c)| == c - a
    ensures a < c ==> Part(s, a, c)[0] == s[a]
    ensures a + 1 < c ==> Part(s, a, c)[1] == s[a + 1]
    ensures a + 2 < c ==> Part(s, a, c)[2] == s[a + 2]
    ensures a + 3 < c ==> Part(s, a, c)[3] == s[a + 3]
  {
  }

  lemma {:induction false} EvenTail(elems: seq<Elem>)
    requires elems != [] && EvenElems(elems)
    ensures EvenElems(elems[1..])
  {
    assert forall k :: 0 <= k < |elems[1..]| ==> elems[1..][k] == elems[k + 1];
  }

  // ---------------------------------------------------------------- what is read is what was written

  /** The element at q of a set whose closing bracket is at ec, and where the next one is. */
  function ElemAt(pat: seq<int>, q: nat, ec: nat): (Elem, nat) {
    var c, d := At(pat, q), At(pat, q + 1);
    if c == ESC then (Escaped(d), q + 2)
    else if d == MINUS && q + 2 < ec then (Range(c, At(pat, q + 2)), q + 3)
    else (Char(c), q + 1)
  }

  lemma ElementsStep(pat: seq<int>, q: nat, ec: nat)
    ensures Elements(pat, q, ec) == if q < ec then [ElemAt(pat, q, ec).0] + Elements(pat, ElemAt(pat, q, ec).1, ec)
            else []
  {
  }

  /** The elements of a set, up to its closing bracket. */
  lemma {:induction false} SetShows(pat: seq<int>, q: nat, ec: nat, first: bool)
    requires NoZero(pat) && BracketEnd(pat, q) == Some(ec + 1) && EvenElems(Elements(pat, q, ec))
    requires first || At(pat, q) != ']' as int
    ensures q < ec < |pat| && pat[ec] == ']' as int
    ensures var elems := Elements(pat, q, ec);
            elems != [] && ShowElems(elems) == Part(pat, q, ec) && PlainElems(elems, first)
    decreases if q <= |pat| then |pat| - q else 0
  {
    hide BracketEnd, Elements, ElemAt, Part, NoZero, EvenElems, ShowElem, PlainElem;
    var elems, next := Elements(pat, q, ec), ElemAt(pat, q, ec).1;
    SetInside(pat, q, ec);
    ElementsStep(pat, q, ec);
    ElementsStep(pat, next, ec);
    var e := ElemAt(pat, q, ec).0;
    assert elems[1..] == Elements(pat, next, ec) && elems[0] == e;
    SetNext(pat, q, ec);
    if next < ec {
      EvenTail(elems);
      SetShows(pat, next, ec, false);
      PartFirst(pat, next, ec);
    } else {
      PartShort(pat, next);
    }
    PartJoin(pat, q, next, ec);
    PlainFirst(pat, q, ec, first);
  }

  lemma SetInside(pat: seq<int>, q: nat, ec: nat)
    requires BracketEnd(pat, q) == Some(ec + 1)
    ensures q < ec < |pat| && pat[ec] == ']' as int
  {
    BracketLast(pat, q);
  }

  /** The search for the bracket and the reading of the elements move on together. */
  lemma SetNext(pat: seq<int>, q: nat, ec: nat)
    requires NoZero(pat) && BracketEnd(pat, q) == Some(ec + 1) && EvenElems(Elements(pat, q, ec))
    ensures var (e, next) := ElemAt(pat, q, ec);
            && q < next <= ec < |pat|
            && (next < ec ==> BracketEnd(pat, next) == Some(ec + 1) && At(pat, next) != ']' as int)
            && (e.Range? ==> e.hi != ']' as int) && ShowElem(e) == Part(pat, q, next)
  {
    hide BracketEnd, Part, NoZero;
    SetInside(pat, q, ec);
    PartShort(pat, q);
    var c, d := At(pat, q), At(pat, q + 1);
    if c == ESC {
      BracketUnit(pat, q, 2);
    } else if d == MINUS && q + 2 < ec {
      assert Elements(pat, q, ec)[0] == Range(c, pat[q + 2]);
      BracketUnit(pat, q, 1);
      BracketUnit(pat, q + 1, 1);
      BracketUnit(pat, q + 2, 1);
    } else {
      BracketUnit(pat, q, 1);
    }
  }

  lemma PlainFirst(pat: seq<int>, q: nat, ec: nat, first: bool)
    requires q < ec < |pat| && (first || pat[q] != ']' as int)
    requires var (e, next) := ElemAt(pat, q, ec); q < next <= ec && (e.Range? ==> e.hi != ']' as int)
    ensures var (e, next) := ElemAt(pat, q, ec); PlainElem(e, first, Part(pat, next, ec))
  {
    PartFirst(pat, ElemAt(pat, q, ec).1, ec);
  }

  lemma BracketUnit(pat: seq<int>, q: nat, n: nat)
    requires NoZero(pat) && BracketEnd(pat, q).Some? && n == if At(pat, q) == ESC then 2 else 1
    ensures q + n < |pat|
    ensures if pat[q + n] == ']' as int then BracketEnd(pat, q) == Some(q + n + 1)
            else BracketEnd(pat, q) == BracketEnd(pat, q + n) && BracketEnd(pat, q).value > q + n + 1
  {
    BracketLast(pat, q);
    if At(pat, q + n) != ']' as int {
      BracketLast(pat, q + n);
    }
  }

  lemma {:induction false} BracketLast(pat: seq<int>, q: nat)
    requires BracketEnd(pat, q).Some?
    ensures var r := BracketEnd(pat, q).value; q + 1 < r <= |pat| && pat[r - 1] == ']' as int
    decreases if q <= |pat| then |pat| - q else 0
  {
    var r := if At(pat, q) == ESC && At(pat, q + 1) != 0 then q + 2 else q + 1;
    if At(pat, r) != RBRACKET {
      BracketLast(pat, r);
    }
  }

  lemma SetClassShows(pat: seq<int>, p: nat)
    requires NoZero(pat) && At(pat, p) == LBRACKET && ClassEnd(pat, p).Some?
    ensures p + 1 < ClassEnd(pat, p).value <= |pat|
    ensures var ep := ClassEnd(pat, p).value;
            var cl := SetAt(pat, p, ep - 1);
            cl.Set? && (EvenClass(cl) ==> ShowClass(cl) == Part(pat, p, ep) && PlainClass(cl))
  {
    hide Elements, BracketEnd, ShowElems, PlainElems, EvenElems, Part, NoZero;
    var negated := At(pat, p + 1) == CARET;
    var q, ep := if negated then p + 2 else p + 1, ClassEnd(pat, p).value;
    BracketLast(pat, q);
    if EvenClass(SetAt(pat, p, ep - 1)) {
      SetShows(pat, q, ep - 1, true);
      PartShort(pat, p);
      PartShort(pat, ep - 1);
      PartJoin(pat, p, q, ep - 1);
      PartJoin(pat, p, ep - 1, ep);
      PartFirst(pat, q, ep - 1);
    }
  }

  lemma ClassShows(pat: seq<int>, p: nat, ep: nat)
    requires NoZero(pat) && p < |pat| && ClassEnd(pat, p) == Some(ep) && p < ep <= |pat|
    ensures EvenClass(ClassAt(pat, p, ep)) ==> ShowClass(ClassAt(pat, p, ep)) == Part(pat, p, ep)
    ensures var d := At(pat, p + 1);
            EvenClass(ClassAt(pat, p, ep)) && pat[p] != '(' as int && pat[p] != ')' as int
            && !(pat[p] == '%' as int && (d == 'b' as int || d == 'f' as int || '0' as int <= d <= '9' as int)) ==>
              PlainClass(ClassAt(pat, p, ep))
  {
    hide BracketEnd, Elements, ShowElems, PlainElems, EvenElems, Part;
    PartShort(pat, p);
    if pat[p] == LBRACKET {
      SetClassShows(pat, p);
    }
  }

  lemma RepShows(pat: seq<int>, p: nat)
    requires NoZero(pat) && p < |pat| && ItemAt(pat, p).Some? && ItemAt(pat, p).value.0.Rep?
    ensures var (item, next) := ItemAt(pat, p).value;
            EvenItem(item) ==> ShowItem(item) == Part(pat, p, next) && PlainItem(item, Part(pat, next, |pat|))
  {
    hide ClassAt, ClassEnd, SetAt, NoZero, ShowClass, PlainClass, Part, EvenClass;
    ZeroEnds(pat, p);
    var (item, next) := ItemAt(pat, p).value;
    var ep := ClassEnd(pat, p).value;
    ClassInside(pat, p);
    ClassShows(pat, p, ep);
    PartShort(pat, ep);
    PartJoin(pat, p, ep, next);
    PartFirst(pat, next, |pat|);
    if pat[p] == DOLLAR {
      DollarClass(pat, p);
    } else {
      NoDollar(pat, p, ep);
    }
    assert ShowClass(item.cl) + [] == ShowClass(item.cl);
  }

  lemma DollarClass(pat: seq<int>, p: nat)
    requires p < |pat| && pat[p] == DOLLAR
    ensures ClassEnd(pat, p) == Some(p + 1) && (At(pat, p + 1) != 0 ==> p + 1 < |pat|)
  {
  }

  lemma NoDollar(pat: seq<int>, p: nat, ep: nat)
    requires p < |pat| && pat[p] != DOLLAR && 0 < ep
    ensures ClassAt(pat, p, ep) != One(Char('$' as int))
  {
  }

  lemma ItemShows(pat: seq<int>, p: nat)
    requires NoZero(pat) && p < |pat| && ItemAt(pat, p).Some?
    ensures var (item, next) := ItemAt(pat, p).value;
            EvenItem(item) ==> ShowItem(item) == Part(pat, p, next) && PlainItem(item, Part(pat, next, |pat|))
  {
    hide SetAt, ClassEnd, ClassAt, ShowClass, PlainClass, Part, NoZero, EvenClass;
    ZeroEnds(pat, p);
    var (item, next) := ItemAt(pat, p).value;
    PartShort(pat, p);
    PartFirst(pat, next, |pat|);
    if item.Frontier? {
      SetClassShows(pat, p + 2);
      PartJoin(pat, p, p + 2, next);
    } else if item.Rep? {
      RepShows(pat, p);
    } else {
      ZeroEnds(pat, p + 1);
    }
  }

  lemma ZeroEnds(pat: seq<int>, p: nat)
    requires NoZero(pat)
    ensures At(pat, p) == 0 <==> p >= |pat|
    ensures Part(pat, |pat|, |pat|) == []
  {
  }

  lemma EvenItems(items: seq<Item>)
    requires items != [] && Even(items)
    ensures EvenItem(items[0]) && Even(items[1..])
  {
    hide EvenItem;
    assert forall k :: 0 <= k < |items[1..]| ==> items[1..][k] == items[k + 1];
  }

  /** Items are read as they are written. */
  lemma {:induction false} ParseShows(pat: seq<int>, p: nat)
    requires NoZero(pat) && p <= |pat| && Parse(pat, p).Some? && Even(Parse(pat, p).value)
    ensures Show(Parse(pat, p).value) == Part(pat, p, |pat|) && PlainItems(Parse(pat, p).value)
    decreases |pat| - p
  {
    hide ShowItem, PlainItem, ItemAt, EvenItem, Part, NoZero, Even;
    ZeroEnds(pat, p);
    if p < |pat| {
      var items := Parse(pat, p).value;
      var (item, next) := ItemAt(pat, p).value;
      assert items[1..] == Parse(pat, next).value && items[0] == item;
      EvenItems(items);
      ItemShows(pat, p);
      ParseShows(pat, next);
      PartJoin(pat, p, next, |pat|);
    }
  }

  // ---------------------------------------------------------------- what is written is read back

  /** A set is read back up to its closing bracket. */
  lemma {:induction false} SetReads(pat: seq<int>, q: nat, ec: nat, elems: seq<Elem>, first: bool)
    requires NoZero(pat) && q <= ec < |pat| && pat[ec] == ']' as int && Part(pat, q, ec) == ShowElems(elems)
    requires PlainElems(elems, first) && EvenElems(elems)
    ensures Elements(pat, q, ec) == elems && (elems != [] ==> BracketEnd(pat, q) == Some(ec + 1))
    decreases |elems|
  {
    hide NoZero, Part, EvenElems, BracketEnd, Elements, ElemAt, ShowElem, PlainElem;
    ElementsStep(pat, q, ec);
    if elems == [] {
      PartFirst(pat, q, ec);
    } else {
      var e, rest := elems[0], elems[1..];
      var next := q + |ShowElem(e)|;
      PartSplit(pat, q, ec, ShowElem(e), ShowElems(rest));
      ElemReads(pat, q, ec, e, first, ShowElems(rest));
      EvenTail(elems);
      EvenHead(elems);
      NextStarts(pat, next, ec, rest);
      SetReads(pat, next, ec, rest, false);
      BracketAt(pat, q, ec, e, next, first, ShowElems(rest));
    }
  }

  lemma EvenHead(elems: seq<Elem>)
    requires elems != [] && EvenElems(elems)
    ensures elems[0].Range? ==> elems[0].hi != '%' as int
  {
  }

  lemma ElemReads(pat: seq<int>, q: nat, ec: nat, e: Elem, first: bool, rest: seq<int>)
    requires q <= ec < |pat| && PlainElem(e, first, rest)
    requires var next := q + |ShowElem(e)|;
             next <= ec && Part(pat, q, next) == ShowElem(e) && Part(pat, next, ec) == rest
    ensures q < ec && ElemAt(pat, q, ec) == (e, q + |ShowElem(e)|)
  {
    var next := q + |ShowElem(e)|;
    PartFirst(pat, q, next);
    PartFirst(pat, next, ec);
  }

  /** No element but the first starts with a bracket. */
  lemma NextStarts(pat: seq<int>, q: nat, ec: nat, elems: seq<Elem>)
    requires q <= ec <= |pat| && Part(pat, q, ec) == ShowElems(elems) && PlainElems(elems, false)
    ensures q < ec ==> pat[q] != ']' as int && elems != []
  {
    PartFirst(pat, q, ec);
    if elems != [] {
      assert ShowElems(elems)[0] == ShowElem(elems[0])[0];
    }
  }

  /** The search for the bracket passes one element. */
  lemma BracketAt(pat: seq<int>, q: nat, ec: nat, e: Elem, next: nat, first: bool, rest: seq<int>)
    requires NoZero(pat) && q < next <= ec < |pat| && pat[ec] == ']' as int && ElemAt(pat, q, ec) == (e, next)
    requires next < ec ==> pat[next] != ']' as int && BracketEnd(pat, next) == Some(ec + 1)
    requires PlainElem(e, first, rest) && (e.Range? ==> e.hi != '%' as int)
    ensures BracketEnd(pat, q) == Some(ec + 1)
  {
    if e.Range? {
      assert BracketEnd(pat, q + 2) == Some(ec + 1);
      assert BracketEnd(pat, q + 1) == BracketEnd(pat, q + 2);
    }
  }

  lemma SetClassReads(pat: seq<int>, p: nat, ep: nat, cl: Class)
    requires NoZero(pat) && p <= ep <= |pat| && Part(pat, p, ep) == ShowClass(cl)
    requires PlainClass(cl) && EvenClass(cl) && cl.Set?
    ensures p + 1 < ep && ClassEnd(pat, p) == Some(ep) && SetAt(pat, p, ep - 1) == cl && At(pat, p) == LBRACKET
  {
    hide BracketEnd, Elements, PlainElems, EvenElems, NoZero, Part, ShowElems;
    var open := if cl.negated then ['[' as int, '^' as int] else ['[' as int];
    var q := p + |open|;
    PartSplit(pat, p, ep, open + ShowElems(cl.elems), [']' as int]);
    PartSplit(pat, p, ep - 1, open, ShowElems(cl.elems));
    PartFirst(pat, ep - 1, ep);
    PartFirst(pat, p, q);
    PartFirst(pat, q, ep - 1);
    ElemsNonempty(cl.elems);
    SetReads(pat, q, ep - 1, cl.elems, true);
  }

  lemma ElemsNonempty(elems: seq<Elem>)
    requires elems != []
    ensures ShowElems(elems) != []
  {
  }

  /** A class is read back in front of any text, and looks like no other item. */
  lemma ClassReads(pat: seq<int>, p: nat, ep: nat, cl: Class)
    requires NoZero(pat) && p <= ep <= |pat| && Part(pat, p, ep) == ShowClass(cl) && PlainClass(cl) && EvenClass(cl)
    ensures p < ep && ClassEnd(pat, p) == Some(ep) && ClassAt(pat, p, ep) == cl
    ensures pat[p] != '(' as int && pat[p] != ')' as int
    ensures var d := At(pat, p + 1);
            && (pat[p] == '%' as int ==> d != 'b' as int && d != 'f' as int && !('0' as int <= d <= '9' as int))
            && (pat[p] == '$' as int ==> cl == One(Char('$' as int)) && ep == p + 1)
  {
    hide PlainElems, EvenElems, Part, ShowElems;
    PartFirst(pat, p, ep);
    if cl.Set? {
      SetClassReads(pat, p, ep, cl);
    }
  }

  lemma RepReads(pat: seq<int>, p: nat, next: nat, cl: Class, q: Quantifier)
    requires var item := Rep(cl, q);
             && NoZero(pat) && p <= next <= |pat| && Part(pat, p, next) == ShowItem(item)
             && PlainItem(item, Part(pat, next, |pat|)) && EvenItem(item)
    ensures p < |pat| && ItemAt(pat, p) == Some((Rep(cl, q), next))
  {
    hide ClassEnd, ClassAt, ItemAt, ShowClass, PlainClass, EvenClass, Part, NoZero;
    var ep := p + |ShowClass(cl)|;
    PartSplit(pat, p, next, ShowClass(cl), ShowQuantifier(q));
    PartFirst(pat, ep, next);
    PartFirst(pat, next, |pat|);
    ClassReads(pat, p, ep, cl);
    ZeroEnds(pat, p);
    ZeroEnds(pat, p + 1);
    ItemRep(pat, p, cl, q, ep);
  }

  lemma ItemRep(pat: seq<int>, p: nat, cl: Class, q: Quantifier, ep: nat)
    requires p < ep <= |pat| && ClassEnd(pat, p) == Some(ep) && ClassAt(pat, p, ep) == cl && pat[p] != 0
    requires pat[p] != '(' as int && pat[p] != ')' as int
    requires var d := At(pat, p + 1);
             && (pat[p] == '%' as int ==> d != 'b' as int && d != 'f' as int && !('0' as int <= d <= '9' as int))
             && (pat[p] == '$' as int ==> d != 0)
    requires var c := At(pat, ep);
             match q
             case Once => c != '?' as int && c != '*' as int && c != '+' as int && c != '-' as int
             case Optional => c == '?' as int
             case Greedy => c == '*' as int
             case GreedyPlus => c == '+' as int
             case Lazy => c == '-' as int
    ensures ItemAt(pat, p) == Some((Rep(cl, q), if q == Once then ep else ep + 1))
  {
    hide ClassEnd, ClassAt;
  }

  lemma ItemReads(pat: seq<int>, p: nat, next: nat, item: Item)
    requires NoZero(pat) && p <= next <= |pat| && Part(pat, p, next) == ShowItem(item)
    requires PlainItem(item, Part(pat, next, |pat|)) && EvenItem(item)
    ensures p < |pat| && ItemAt(pat, p) == Some((item, next))
  {
    hide ClassEnd, SetAt, ClassAt, PlainClass, EvenClass, ShowClass, Part, NoZero;
    PartFirst(pat, p, next);
    PartFirst(pat, next, |pat|);
    ZeroEnds(pat, p + 1);
    match item
    case Rep(cl, q) => RepReads(pat, p, next, cl, q);
    case Frontier(cl) =>
      PartSplit(pat, p, next, ['%' as int, 'f' as int], ShowClass(cl));
      SetClassReads(pat, p + 2, next, cl);
      ZeroEnds(pat, p + 2);
    case Balance(b, e) =>
      ZeroEnds(pat, p + 2);
      ZeroEnds(pat, p + 3);
    case _ =>
  }

  /** Items are read back as they were written. */
  lemma {:induction false} ShowParses(pat: seq<int>, p: nat, items: seq<Item>)
    requires NoZero(pat) && p <= |pat| && Part(pat, p, |pat|) == Show(items) && PlainItems(items) && Even(items)
    ensures Parse(pat, p) == Some(items)
    decreases |items|
  {
    hide ShowItem, PlainItem, EvenItem, ItemAt, Part, NoZero, Even;
    ZeroEnds(pat, p);
    if items == [] {
      PartFirst(pat, p, |pat|);
    } else {
      var next := p + |ShowItem(items[0])|;
      PartSplit(pat, p, |pat|, ShowItem(items[0]), Show(items[1..]));
      EvenItems(items);
      ItemReads(pat, p, next, items[0]);
      ShowParses(pat, next, items[1..]);
      assert [items[0]] + items[1..] == items;
    }
  }

  /** The syntax: a pattern parses to items exactly when they, written one after the other without
      ambiguity, are the pattern. */
  lemma PatternSyntax(pat: seq<int>, items: seq<Item>)
    requires NoZero(pat) && Even(items)
    ensures Parse(pat, 0) == Some(items) <==> PlainItems(items) && Show(items) == pat
  {
    hide PlainItems, Parse, Show, Even;
    assert Part(pat, 0, |pat|) == pat;
    if Parse(pat, 0) == Some(items) {
      ParseShows(pat, 0);
    }
    if PlainItems(items) && Show(items) == pat {
      ShowParses(pat, 0, items);
    }
  }

  // ---------------------------------------------------------------- the classes of letters

  /** Whether the lower-case letter stands for a class. */
  predicate ClassLetter(l: int) { exists k :: 0 <= k < |LETTERS| && LETTERS[k] as int == l }

  const LETTERS := "acdglpsuwxz"

  /** What is in the classes: letters, control characters, digits, visible characters, lower-case
      letters, punctuation, white space, upper-case letters, letters and digits, hexadecimal digits
      and the zero; the upper-case letter stands for all other characters. Every other character
      stands for itself. */
  lemma LetterClasses(c: int)
    ensures ClassHas(c, 'a' as int) <==> 'a' as int <= c <= 'z' as int || 'A' as int <= c <= 'Z' as int
    ensures ClassHas(c, 'c' as int) <==> 0 <= c < ' ' as int || c == 127
    ensures ClassHas(c, 'd' as int) <==> '0' as int <= c <= '9' as int
    ensures ClassHas(c, 'g' as int) <==> ' ' as int < c < 127
    ensures ClassHas(c, 'l' as int) <==> 'a' as int <= c <= 'z' as int
    ensures ClassHas(c, 'p' as int) <==> ClassHas(c, 'g' as int) && !ClassHas(c, 'w' as int)
    ensures ClassHas(c, 's' as int) <==> c == ' ' as int || '\t' as int <= c <= '\r' as int
    ensures ClassHas(c, 'u' as int) <==> 'A' as int <= c <= 'Z' as int
    ensures ClassHas(c, 'w' as int) <==> ClassHas(c, 'a' as int) || ClassHas(c, 'd' as int)
    ensures ClassHas(c, 'x' as int) <==>
            ClassHas(c, 'd' as int) || 'a' as int <= c <= 'f' as int || 'A' as int <= c <= 'F' as int
    ensures ClassHas(c, 'z' as int) <==> c == 0
    ensures forall l :: ClassLetter(l) ==> (ClassHas(c, l - 32) <==> !ClassHas(c, l))
    ensures forall l :: !ClassLetter(l) && !ClassLetter(l + 32) ==> (ClassHas(c, l) <==> c == l)
  {
    forall l ensures ClassLetter(l) <==> l == 97 || l == 99 || l == 100 || l == 103 || l == 108 || l == 112
                                         || l == 115 || l == 117 || l == 119 || l == 120 || l == 122 {
      LetterCases(l);
    }
  }

  lemma LetterCases(l: int)
    ensures ClassLetter(l) <==> l == 97 || l == 99 || l == 100 || l == 103 || l == 108 || l == 112
                                || l == 115 || l == 117 || l == 119 || l == 120 || l == 122
  {
    var s := LETTERS;
    assert |s| == 11 && s[0] == 'a' && s[1] == 'c' && s[2] == 'd' && s[3] == 'g' && s[4] == 'l' && s[5] == 'p';
    assert s[6] == 's' && s[7] == 'u' && s[8] == 'w' && s[9] == 'x' && s[10] == 'z';
  }
}

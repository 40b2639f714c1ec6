/** What it means that a Lua pattern matches, without naming the matcher: the relation between
    items and text, and the match that is preferred. */
module PatternMeaning {
  import opened Wrappers
  import opened Patterns

  // ---------------------------------------------------------------- balanced text

  /** How often c occurs from s up to t. */
  ghost function Times(src: seq<int>, s: nat, t: nat, c: int): nat {
    if s <= t <= |src| then multiset(src[s..t])[c] else 0
  }

  /** The text from s up to t opens with b, and is the shortest with as many b as e; with b and e
      the same, the shortest that ends with a second one. */
  ghost predicate BalancedTo(src: seq<int>, s: nat, b: int, e: int, t: nat) {
    && s < t <= |src| && src[s] == b
    && if b == e then s + 1 < t && src[t - 1] == e && forall u :: s < u < t - 1 ==> src[u] != e
      else
        && Times(src, s, t, b) == Times(src, s, t, e)
        && forall u :: s < u < t ==> Times(src, s, u, b) > Times(src, s, u, e)
  }

  lemma TimesMore(src: seq<int>, s: nat, t: nat, c: int)
    requires s <= t < |src|
    ensures Times(src, s, t + 1, c) == Times(src, s, t, c) + (if src[t] == c then 1 else 0)
  {
    assert src[s..t + 1] == src[s..t] + [src[t]];
  }

  lemma {:induction false} BalancedOn(src: seq<int>, s: nat, u: nat, b: int, e: int, cont: nat, t: nat)
    requires b != e && s < u <= |src| && cont > 0 && Times(src, s, u, b) == Times(src, s, u, e) + cont
    ensures BalancedFrom(src, u, b, e, cont) == Some(t)
            <==> && u < t <= |src| && Times(src, s, t, b) == Times(src, s, t, e)
                 && forall v :: u <= v < t ==> Times(src, s, v, b) > Times(src, s, v, e)
    decreases |src| - u
  {
    if u < |src| {
      TimesMore(src, s, u, b);
      TimesMore(src, s, u, e);
      var next := if src[u] == e then cont - 1 else if src[u] == b then cont + 1 else cont;
      if next > 0 {
        BalancedOn(src, s, u + 1, b, e, next, t);
      }
    }
  }

  lemma {:induction false} SecondOn(src: seq<int>, u: nat, e: int, t: nat)
    ensures BalancedFrom(src, u, e, e, 1) == Some(t)
            <==> u < t <= |src| && src[t - 1] == e && forall v :: u <= v < t - 1 ==> src[v] != e
    decreases if u <= |src| then |src| - u else 0
  {
    if u < |src| {
      SecondOn(src, u + 1, e, t);
    }
  }

  /** The scan with its counter finds where the balanced text ends, or that there is no such text. */
  lemma BalancedIs(src: seq<int>, s: nat, b: int, e: int, t: nat)
    ensures Balanced(src, s, b, e) == Some(t) <==> BalancedTo(src, s, b, e, t)
  {
    hide BalancedFrom;
    NoneBeyond(src, s + 1, b, e);
    if s < |src| && src[s] == b {
      if b == e {
        SecondOn(src, s + 1, e, t);
      } else {
        assert src[s..s + 1] == [b];
        BalancedOn(src, s, s + 1, b, e, 1, t);
      }
    }
  }

  lemma NoneBeyond(src: seq<int>, s: nat, b: int, e: int)
    ensures s >= |src| ==> BalancedFrom(src, s, b, e, 1) == None
  {
  }

  // ---------------------------------------------------------------- the matching relation

  /** The innermost capture that is still open. */
  ghost predicate Innermost(caps: seq<Capture>, l: nat) {
    l < |caps| && caps[l].len == UNFINISHED && forall j :: l < j < |caps| ==> caps[j].len != UNFINISHED
  }

  /** The n characters from a on are those from b on. */
  ghost predicate SameText(src: seq<int>, a: int, b: int, n: int) {
    n >= 0 && 0 <= a <= |src| - n && 0 <= b <= |src| - n && forall k :: a <= k < a + n ==> src[k] == src[k - a + b]
  }

  /** The items match the text from s to way.end, by some choice of repetitions. */
  ghost predicate Matches(items: seq<Item>, src: seq<int>, s: nat, caps: seq<Capture>, way: Way)
    decreases |items|
  {
    if items == [] then way == Way(s, caps)
    else
      var rest := items[1..];
      match items[0]
      case Open(position) => Matches(rest, src, s, caps + [Capture(s, if position then POSITION else UNFINISHED)], way)
      case Close =>
        exists l: nat :: Innermost(caps, l)
          && Matches(rest, src, s, caps[l := Capture(caps[l].init, s - caps[l].init)], way)
      case Balance(b, e) => exists t: nat :: BalancedTo(src, s, b, e, t) && Matches(rest, src, t, caps, way)
      case Frontier(cl) =>
        && !Member(cl, if 0 < s <= |src| then src[s - 1] else 0) && Member(cl, if s < |src| then src[s] else 0)
        && Matches(rest, src, s, caps, way)
      case Back(d) =>
        && 0 <= d - 49 < |caps|
        && (var c := caps[d - 49]; SameText(src, s, c.init, c.len) && Matches(rest, src, s + c.len, caps, way))
      case AtEnd => s == |src| && Matches(rest, src, s, caps, way)
      case Rep(cl, q) =>
        exists e: nat :: AllIn(src, s, e, cl) && Allowed(q, e - s) && Matches(rest, src, e, caps, way)
  }

  /** The numbers of repetitions that a quantifier admits. */
  predicate Allowed(q: Quantifier, i: int) {
    match q
    case Once => i == 1
    case Optional => i <= 1
    case Greedy => true
    case GreedyPlus => i >= 1
    case Lazy => true
  }

  /** All characters from s up to e belong to the class. */
  predicate AllIn(src: seq<int>, s: nat, e: nat, cl: Class) {
    s <= e <= |src| && forall k :: s <= k < e ==> Member(cl, src[k])
  }

  lemma RunIsMost(src: seq<int>, s: nat, e: nat, cl: Class)
    requires s <= |src|
    ensures AllIn(src, s, e, cl) <==> s <= e <= s + RunLength(src, s, cl)
  {
    hide Member;
    var n := RunLength(src, s, cl);
    if s + n < e <= |src| {
      assert !Member(cl, src[s + n]);
    }
  }

  lemma LastInnermost(caps: seq<Capture>, l: nat)
    ensures LastOpen(caps) == l <==> Innermost(caps, l)
  {
    if caps != [] && caps[|caps| - 1].len != UNFINISHED {
      LastInnermost(caps[..|caps| - 1], l);
    }
  }

  lemma RepeatsText(src: seq<int>, s: nat, c: Capture)
    ensures Repeats(src, s, c) <==> SameText(src, s, c.init, c.len)
  {
    if SameText(src, s, c.init, c.len) {
      var a, b := src[s..s + c.len], src[c.init..c.init + c.len];
      forall k | 0 <= k < c.len ensures a[k] == b[k] {
        assert src[s + k] == src[s + k - s + c.init];
      }
    }
    if Repeats(src, s, c) {
      forall k | s <= k < s + c.len ensures src[k] == src[k - s + c.init] {
        assert src[s..s + c.len][k - s] == src[c.init..c.init + c.len][k - s];
      }
    }
  }

  /** The list holds exactly the ways in which the items match. */
  lemma {:induction false} WaysAreMatches(items: seq<Item>, src: seq<int>, s: nat, caps: seq<Capture>, way: Way)
    requires s <= |src|
    ensures way in Ways(items, src, s, caps) <==> Matches(items, src, s, caps, way)
    decreases |items|, 1
  {
    if items != [] {
      var rest := items[1..];
      match items[0]
      case Open(position) => WaysAreMatches(rest, src, s,
                                            caps + [Capture(s, if position then POSITION else UNFINISHED)], way);
      case Close => CloseMatches(items, src, s, caps, way);
      case Balance(b, e) => BalanceMatches(items, src, s, caps, way, b, e);
      case Frontier(cl) => WaysAreMatches(rest, src, s, caps, way);
      case Back(d) =>
        if 0 <= d - 49 < |caps| {
          RepeatsText(src, s, caps[d - 49]);
        }
        if 0 <= d - 49 < |caps| && Repeats(src, s, caps[d - 49]) {
          WaysAreMatches(rest, src, s + caps[d - 49].len, caps, way);
        }
      case AtEnd => WaysAreMatches(rest, src, s, caps, way);
      case Rep(cl, q) =>
        RepMatches(items, src, s, caps, way, cl, q);
    }
  }

  lemma {:induction false} CloseMatches(items: seq<Item>, src: seq<int>, s: nat, caps: seq<Capture>, way: Way)
    requires s <= |src| && items != [] && items[0] == Close
    ensures way in Ways(items, src, s, caps) <==> Matches(items, src, s, caps, way)
    decreases |items|, 0
  {
    forall l: nat ensures LastOpen(caps) == l <==> Innermost(caps, l) {
      LastInnermost(caps, l);
    }
    if LastOpen(caps) >= 0 {
      WaysAreMatches(items[1..], src, s, CloseAt(caps, LastOpen(caps), s), way);
    }
  }

  lemma {:induction false} BalanceMatches(items: seq<Item>, src: seq<int>, s: nat, caps: seq<Capture>, way: Way,
                                          b: int, e: int)
    requires s <= |src| && items != [] && items[0] == Balance(b, e)
    ensures way in Ways(items, src, s, caps) <==> Matches(items, src, s, caps, way)
    decreases |items|, 0
  {
    hide BalancedTo, Balanced;
    forall t: nat ensures Balanced(src, s, b, e) == Some(t) <==> BalancedTo(src, s, b, e, t) {
      BalancedIs(src, s, b, e, t);
    }
    if Balanced(src, s, b, e).Some? {
      BalancedEnd(src, s, b, e, Balanced(src, s, b, e).value);
      WaysAreMatches(items[1..], src, Balanced(src, s, b, e).value, caps, way);
    }
  }

  lemma BalancedEnd(src: seq<int>, s: nat, b: int, e: int, t: nat)
    requires BalancedTo(src, s, b, e, t)
    ensures t <= |src|
  {
  }

  lemma {:induction false} RepMatches(items: seq<Item>, src: seq<int>, s: nat, caps: seq<Capture>, way: Way,
                                      cl: Class, q: Quantifier)
    requires s <= |src| && items != [] && items[0] == Rep(cl, q)
    ensures way in Ways(items, src, s, caps) <==> Matches(items, src, s, caps, way)
    decreases |items|, 0
  {
    var rest := items[1..];
    if way in Ways(items, src, s, caps) {
      var e := WayOfRep(items, src, s, caps, way, cl, q);
      RunIsMost(src, s, e, cl);
      WaysAreMatches(rest, src, e, caps, way);
      assert Matches(items, src, s, caps, way);
    }
    if Matches(items, src, s, caps, way) {
      var e: nat :| AllIn(src, s, e, cl) && Allowed(q, e - s) && Matches(rest, src, e, caps, way);
      RunIsMost(src, s, e, cl);
      WaysAreMatches(rest, src, e, caps, way);
      RepOfWay(items, src, s, caps, way, cl, q, e);
    }
  }

  lemma InBoth(way: Way, a: seq<Way>, b: seq<Way>)
    ensures way in a + b <==> way in a || way in b
  {
  }

  /** A way for a repeated class goes on from an admitted number of repetitions. */
  lemma WayOfRep(items: seq<Item>, src: seq<int>, s: nat, caps: seq<Capture>, way: Way, cl: Class, q: Quantifier)
    returns (e: nat)
    requires items != [] && items[0] == Rep(cl, q) && way in Ways(items, src, s, caps)
    ensures s <= e <= s + RunLength(src, s, cl) && Allowed(q, e - s) && way in Ways(items[1..], src, e, caps)
  {
    var rest, n := items[1..], RunLength(src, s, cl);
    match q
    case Once => e := s + 1;
    case Optional =>
      InBoth(way, if n > 0 then Ways(rest, src, s + 1, caps) else [], Ways(rest, src, s, caps));
      e := if way in Ways(rest, src, s, caps) then s else s + 1;
    case Greedy => e := DownwardFrom(rest, src, s, n, caps, way);
    case GreedyPlus => e := DownwardFrom(rest, src, s + 1, n - 1, caps, way);
    case Lazy => e := UpwardFrom(rest, src, s, n, caps, way);
  }

  /** Every way after an admitted number of repetitions is one for the repeated class. */
  lemma RepOfWay(items: seq<Item>, src: seq<int>, s: nat, caps: seq<Capture>, way: Way, cl: Class, q: Quantifier,
                 e: nat)
    requires items != [] && items[0] == Rep(cl, q)
    requires s <= e <= s + RunLength(src, s, cl) && Allowed(q, e - s) && way in Ways(items[1..], src, e, caps)
    ensures way in Ways(items, src, s, caps)
  {
    hide Downward, Upward, RunLength;
    var rest, n := items[1..], RunLength(src, s, cl);
    match q
    case Once =>
    case Optional => InBoth(way, if n > 0 then Ways(rest, src, s + 1, caps) else [], Ways(rest, src, s, caps));
    case Greedy => DownwardTo(rest, src, s, n, caps, way, e);
    case GreedyPlus => DownwardTo(rest, src, s + 1, n - 1, caps, way, e);
    case Lazy => UpwardTo(rest, src, s, n, caps, way, e);
  }

  lemma {:induction false} DownwardFrom(rest: seq<Item>, src: seq<int>, s: nat, n: nat, caps: seq<Capture>, way: Way)
    returns (e: nat)
    requires way in Downward(rest, src, s, n, caps)
    ensures s <= e <= s + n && way in Ways(rest, src, e, caps)
    decreases n
  {
    if way in Ways(rest, src, s + n, caps) {
      e := s + n;
    } else {
      e := DownwardFrom(rest, src, s, n - 1, caps, way);
    }
  }

  lemma {:induction false} DownwardTo(rest: seq<Item>, src: seq<int>, s: nat, n: nat, caps: seq<Capture>, way: Way,
                                      e: nat)
    requires s <= e <= s + n && way in Ways(rest, src, e, caps)
    ensures way in Downward(rest, src, s, n, caps)
    decreases n
  {
    if e < s + n {
      DownwardTo(rest, src, s, n - 1, caps, way, e);
      InBoth(way, Ways(rest, src, s + n, caps), Downward(rest, src, s, n - 1, caps));
    }
  }

  lemma {:induction false} UpwardFrom(rest: seq<Item>, src: seq<int>, s: nat, n: nat, caps: seq<Capture>, way: Way)
    returns (e: nat)
    requires way in Upward(rest, src, s, n, caps)
    ensures s <= e <= s + n && way in Ways(rest, src, e, caps)
    decreases n
  {
    if way in Ways(rest, src, s, caps) {
      e := s;
    } else {
      e := UpwardFrom(rest, src, s + 1, n - 1, caps, way);
    }
  }

  lemma {:induction false} UpwardTo(rest: seq<Item>, src: seq<int>, s: nat, n: nat, caps: seq<Capture>, way: Way,
                                    e: nat)
    requires s <= e <= s + n && way in Ways(rest, src, e, caps)
    ensures way in Upward(rest, src, s, n, caps)
    decreases n
  {
    if e > s {
      UpwardTo(rest, src, s + 1, n - 1, caps, way, e);
      InBoth(way, Ways(rest, src, s, caps), Upward(rest, src, s + 1, n - 1, caps));
    }
  }

  // ---------------------------------------------------------------- the preferred way

  /** Number f of repetitions comes before e in the order of preference. */
  predicate Better(q: Quantifier, f: int, e: int) { if q == Lazy then f < e else f > e }

  /** The match that is chosen: each repetition is the first in its order, the longest or, for a
      lazy item, the shortest, after which the rest of the items matches at all. */
  ghost predicate Chosen(items: seq<Item>, src: seq<int>, s: nat, caps: seq<Capture>, way: Way)
    decreases |items|
  {
    if items == [] then way == Way(s, caps)
    else
      var rest := items[1..];
      match items[0]
      case Open(position) => Chosen(rest, src, s, caps + [Capture(s, if position then POSITION else UNFINISHED)], way)
      case Close =>
        exists l: nat ::
          Innermost(caps, l) && Chosen(rest, src, s, caps[l := Capture(caps[l].init, s - caps[l].init)], way)
      case Balance(b, e) => exists t: nat :: BalancedTo(src, s, b, e, t) && Chosen(rest, src, t, caps, way)
      case Frontier(cl) =>
        && !Member(cl, if 0 < s <= |src| then src[s - 1] else 0) && Member(cl, if s < |src| then src[s] else 0)
        && Chosen(rest, src, s, caps, way)
      case Back(d) =>
        && 0 <= d - 49 < |caps|
        && (var c := caps[d - 49]; SameText(src, s, c.init, c.len) && Chosen(rest, src, s + c.len, caps, way))
      case AtEnd => s == |src| && Chosen(rest, src, s, caps, way)
      case Rep(cl, q) =>
        exists e: nat ::
          && AllIn(src, s, e, cl) && Allowed(q, e - s) && Chosen(rest, src, e, caps, way)
          && forall f: nat, w ::
               AllIn(src, s, f, cl) && Allowed(q, f - s) && Better(q, f, e) ==> !Matches(rest, src, f, caps, w)
  }

  /** The first of the ways is the match that is chosen. */
  lemma {:induction false} FirstIsChosen(items: seq<Item>, src: seq<int>, s: nat, caps: seq<Capture>, way: Way)
    requires s <= |src|
    ensures var ways := Ways(items, src, s, caps); ways != [] && ways[0] == way <==> Chosen(items, src, s, caps, way)
    decreases |items|, 1
  {
    if items != [] {
      var rest := items[1..];
      match items[0]
      case Open(position) => FirstIsChosen(rest, src, s,
                                           caps + [Capture(s, if position then POSITION else UNFINISHED)], way);
      case Close => CloseChosen(items, src, s, caps, way);
      case Balance(b, e) => BalanceChosen(items, src, s, caps, way, b, e);
      case Frontier(cl) => FirstIsChosen(rest, src, s, caps, way);
      case Back(d) =>
        if 0 <= d - 49 < |caps| {
          RepeatsText(src, s, caps[d - 49]);
        }
        if 0 <= d - 49 < |caps| && Repeats(src, s, caps[d - 49]) {
          FirstIsChosen(rest, src, s + caps[d - 49].len, caps, way);
        }
      case AtEnd => FirstIsChosen(rest, src, s, caps, way);
      case Rep(cl, q) =>
        RepChosen(items, src, s, caps, way, cl, q);
    }
  }

  lemma {:induction false} CloseChosen(items: seq<Item>, src: seq<int>, s: nat, caps: seq<Capture>, way: Way)
    requires s <= |src| && items != [] && items[0] == Close
    ensures var ways := Ways(items, src, s, caps); ways != [] && ways[0] == way <==> Chosen(items, src, s, caps, way)
    decreases |items|, 0
  {
    forall l: nat ensures LastOpen(caps) == l <==> Innermost(caps, l) {
      LastInnermost(caps, l);
    }
    if LastOpen(caps) >= 0 {
      FirstIsChosen(items[1..], src, s, CloseAt(caps, LastOpen(caps), s), way);
    }
  }

  lemma {:induction false} BalanceChosen(items: seq<Item>, src: seq<int>, s: nat, caps: seq<Capture>, way: Way,
                                         b: int, e: int)
    requires s <= |src| && items != [] && items[0] == Balance(b, e)
    ensures var ways := Ways(items, src, s, caps); ways != [] && ways[0] == way <==> Chosen(items, src, s, caps, way)
    decreases |items|, 0
  {
    hide BalancedTo, Balanced;
    forall t: nat ensures Balanced(src, s, b, e) == Some(t) <==> BalancedTo(src, s, b, e, t) {
      BalancedIs(src, s, b, e, t);
    }
    if Balanced(src, s, b, e).Some? {
      BalancedEnd(src, s, b, e, Balanced(src, s, b, e).value);
      FirstIsChosen(items[1..], src, Balanced(src, s, b, e).value, caps, way);
    }
  }

  lemma {:induction false} RepChosen(items: seq<Item>, src: seq<int>, s: nat, caps: seq<Capture>, way: Way,
                                     cl: Class, q: Quantifier)
    requires s <= |src| && items != [] && items[0] == Rep(cl, q)
    ensures var ways := Ways(items, src, s, caps); ways != [] && ways[0] == way <==> Chosen(items, src, s, caps, way)
    decreases |items|, 0
  {
    hide Ways, RunLength, Matches;
    var rest, ways := items[1..], Ways(items, src, s, caps);
    forall f: nat ensures AllIn(src, s, f, cl) <==> s <= f <= s + RunLength(src, s, cl) {
      RunIsMost(src, s, f, cl);
    }
    forall f: nat, w | s <= f <= |src| ensures w in Ways(rest, src, f, caps) <==> Matches(rest, src, f, caps, w) {
      WaysAreMatches(rest, src, f, caps, w);
    }
    if ways != [] {
      var e := PickOfRep(items, src, s, caps, cl, q);
      FirstIsChosen(rest, src, e, caps, way);
    }
    if Chosen(items, src, s, caps, way) {
      var e: nat := ChosenRep(items, src, s, caps, way, cl, q);
      FirstIsChosen(rest, src, e, caps, way);
      var w := Ways(rest, src, e, caps)[0];
      RepOfWay(items, src, s, caps, w, cl, q, e);
      var f := PickOfRep(items, src, s, caps, cl, q);
      assert Ways(rest, src, f, caps)[0] in Ways(rest, src, f, caps);
      assert !Better(q, f, e) && !Better(q, e, f);
    }
  }

  lemma ChosenRep(items: seq<Item>, src: seq<int>, s: nat, caps: seq<Capture>, way: Way, cl: Class, q: Quantifier)
    returns (e: nat)
    requires items != [] && items[0] == Rep(cl, q) && Chosen(items, src, s, caps, way)
    ensures AllIn(src, s, e, cl) && Allowed(q, e - s) && Chosen(items[1..], src, e, caps, way)
    ensures forall f: nat, w ::
              AllIn(src, s, f, cl) && Allowed(q, f - s) && Better(q, f, e) ==> !Matches(items[1..], src, f, caps, w)
  {
    hide Matches;
    e :| AllIn(src, s, e, cl) && Allowed(q, e - s) && Chosen(items[1..], src, e, caps, way)
         && forall f: nat, w ::
              AllIn(src, s, f, cl) && Allowed(q, f - s) && Better(q, f, e) ==> !Matches(items[1..], src, f, caps, w);
  }

  /** Where the first way of a repeated class goes on. */
  lemma PickOfRep(items: seq<Item>, src: seq<int>, s: nat, caps: seq<Capture>, cl: Class, q: Quantifier)
    returns (e: nat)
    requires items != [] && items[0] == Rep(cl, q) && Ways(items, src, s, caps) != []
    ensures var rest, n := items[1..], RunLength(src, s, cl);
            && s <= e <= s + n && Allowed(q, e - s)
            && Ways(rest, src, e, caps) != [] && Ways(items, src, s, caps)[0] == Ways(rest, src, e, caps)[0]
            && forall f: nat ::
                 s <= f <= s + n && Allowed(q, f - s) && Better(q, f, e) ==> Ways(rest, src, f, caps) == []
  {
    hide Downward, Upward, RunLength;
    var rest, n := items[1..], RunLength(src, s, cl);
    match q
    case Once => e := s + 1;
    case Optional => e := if n > 0 && Ways(rest, src, s + 1, caps) != [] then s + 1 else s;
    case Greedy => e := DownwardPick(rest, src, s, n, caps);
    case GreedyPlus => e := DownwardPick(rest, src, s + 1, n - 1, caps);
    case Lazy => e := UpwardPick(rest, src, s, n, caps);
  }

  lemma {:induction false} DownwardPick(rest: seq<Item>, src: seq<int>, s: nat, n: nat, caps: seq<Capture>)
    returns (e: nat)
    requires Downward(rest, src, s, n, caps) != []
    ensures s <= e <= s + n && Ways(rest, src, e, caps) != []
    ensures Downward(rest, src, s, n, caps)[0] == Ways(rest, src, e, caps)[0]
    ensures forall f: nat :: e < f <= s + n ==> Ways(rest, src, f, caps) == []
    decreases n
  {
    hide Ways;
    if Ways(rest, src, s + n, caps) != [] {
      e := s + n;
    } else {
      e := DownwardPick(rest, src, s, n - 1, caps);
    }
  }

  lemma {:induction false} UpwardPick(rest: seq<Item>, src: seq<int>, s: nat, n: nat, caps: seq<Capture>)
    returns (e: nat)
    requires Upward(rest, src, s, n, caps) != []
    ensures s <= e <= s + n && Ways(rest, src, e, caps) != []
    ensures Upward(rest, src, s, n, caps)[0] == Ways(rest, src, e, caps)[0]
    ensures forall f: nat :: s <= f < e ==> Ways(rest, src, f, caps) == []
    decreases n
  {
    hide Ways;
    if Ways(rest, src, s, caps) != [] {
      e := s;
    } else {
      e := UpwardPick(rest, src, s + 1, n - 1, caps);
    }
  }
}

/** What the matching of emphasis markers achieves: every open marker gets the nearest mate, the tags
    have the sizes of their markers, and the usual texts get the usual tags. */
module EmphasisLaws {
  import opened Wrappers
  import opened Emphasis

  // ---------------------------------------------------------------- the nearest mate

  /** A close marker that takes part in matching. */
  predicate Closes(mark: map<int, Marker>, x: int) { x in mark && !mark[x].open && !mark[x].cannotMatch }

  predicate SameKind(m: Marker, n: Marker) { m.ch == n.ch && m.size == n.size }

  /** x lies between open marker a and its mate. */
  ghost predicate Inside(t: Tokens, a: int, x: int) {
    MatchedOpen(t.mark, a) && Before(t.list, a, x) && Before(t.list, x, t.mark[a].mate)
  }

  /** A close marker of the same kind inside a pair is matched with an open marker in front of it. */
  ghost predicate NearestAt(t: Tokens, a: int, x: int) {
    Inside(t, a, x) && Closes(t.mark, x) && SameKind(t.mark[a], t.mark[x]) ==>
      t.mark[x].mate != 0 && Before(t.list, t.mark[x].mate, a)
  }

  ghost predicate Nearest(t: Tokens) { forall a, x :: NearestAt(t, a, x) }

  /** An unmatched close marker inside a pair could not have been used by its open marker. */
  ghost predicate PassedAt(t: Tokens, a: int, x: int) {
    Inside(t, a, x) && Closes(t.mark, x) && t.mark[x].mate == 0 ==>
      t.mark[a].size != 3 && t.mark[x].size != 3 && !SameKind(t.mark[a], t.mark[x])
  }

  /** The matched open markers are those in front of position i. */
  ghost predicate MatchedBefore(t: Tokens, i: int) {
    forall a :: MatchedOpen(t.mark, a) ==> exists p :: 0 <= p < i && p < |t.list| && t.list[p] == a
  }

  ghost predicate Near(t: Tokens, i: int) {
    MatchedBefore(t, i) && Nearest(t) && forall a, x :: PassedAt(t, a, x)
  }

  lemma BeforeLess(list: seq<int>, p: int, q: int)
    requires 0 <= p < q < |list|
    ensures Before(list, list[p], list[q])
  {
  }

  lemma BeforeWhere(list: seq<int>, x: int, y: int) returns (p: nat, q: nat)
    requires Before(list, x, y)
    ensures p < q < |list| && list[p] == x && list[q] == y
  {
    p, q :| 0 <= p < q < |list| && list[p] == x && list[q] == y;
  }

  lemma BeforePlaces(list: seq<int>, p: nat, q: nat)
    requires Distinct(list) && p < |list| && q < |list| && Before(list, list[p], list[q])
    ensures p < q
  {
    var a, b := BeforeWhere(list, list[p], list[q]);
  }

  lemma Later(t: Tokens, i: int, k: int)
    requires Near(t, i) && i <= k
    ensures Near(t, k)
  {
    hide Nearest, PassedAt;
  }

  // ---------------------------------------------------------------- a pair is found

  lemma MatchNear(t: Tokens, id: int, i: nat, j: nat)
    requires Paired(t, id) && Near(t, i) && Passed(t, i, j) && UOpen(t, i) && UClose(t, j) && i < j
    requires SameKind(t.mark[t.list[i]], t.mark[t.list[j]])
    ensures Near(Match(t, t.list[i], t.list[j], id), i + 1)
  {
    hide Nearest, PassedAt, Passed, NearestAt;
    var x, y := t.list[i], t.list[j];
    var u := Match(t, x, y, id);
    forall a ensures MatchedOpen(u.mark, a) <==> MatchedOpen(t.mark, a) || a == x {
      MatchKinds(t, id, i, j, a);
    }
    assert MatchedBefore(u, i + 1);
    forall a, z ensures PassedAt(u, a, z) && NearestAt(u, a, z) {
      if a == x {
        MatchNew(t, id, i, j, z);
      } else {
        MatchOld(t, id, i, j, a, z);
      }
    }
    AllNear(u);
  }

  lemma AllNear(t: Tokens)
    requires forall a, x :: NearestAt(t, a, x)
    ensures Nearest(t)
  {
  }

  lemma MatchKinds(t: Tokens, id: int, i: nat, j: nat, a: int)
    requires Paired(t, id) && UOpen(t, i) && UClose(t, j) && i < j
    ensures var x, y := t.list[i], t.list[j];
            var u := Match(t, x, y, id);
            && x != y && u.list == t.list && x != 0 && y != 0
            && (MatchedOpen(u.mark, a) <==> MatchedOpen(t.mark, a) || a == x)
            && (a in u.mark <==> a in t.mark)
            && (a in t.mark && a != x && a != y ==> u.mark[a] == t.mark[a])
            && u.mark[x] == t.mark[x].Matched(y, id) && u.mark[y] == t.mark[y].Matched(x, id)
  {
    hide Distinct, Mated, IdsOk;
  }

  /** Inside the new pair. */
  lemma MatchNew(t: Tokens, id: int, i: nat, j: nat, z: int)
    requires Paired(t, id) && Near(t, i) && Passed(t, i, j) && UOpen(t, i) && UClose(t, j) && i < j
    ensures var u := Match(t, t.list[i], t.list[j], id); PassedAt(u, t.list[i], z) && NearestAt(u, t.list[i], z)
  {
    hide Nearest, PassedAt;
    var x, y := t.list[i], t.list[j];
    var u := Match(t, x, y, id);
    MatchKinds(t, id, i, j, z);
    MatchKinds(t, id, i, j, x);
    if Inside(u, x, z) && Closes(u.mark, z) {
      var p, q := BeforeWhere(t.list, x, z);
      PairDistinct(t, id);
      BeforePlaces(t.list, i, q);
      BeforePlaces(t.list, q, j);
      if t.mark[z].mate == 0 {
        assert UClose(t, q) && Unsuited(t, i, q);
      } else {
        MateInFront(t, id, i, z);
      }
    }
    BothAt(u, x, z);
  }

  /** Both properties, spelled out. */
  lemma BothAt(u: Tokens, a: int, z: int)
    requires Inside(u, a, z) && Closes(u.mark, z) && u.mark[z].mate == 0 ==>
               u.mark[a].size != 3 && u.mark[z].size != 3 && !SameKind(u.mark[a], u.mark[z])
    requires Inside(u, a, z) && Closes(u.mark, z) && SameKind(u.mark[a], u.mark[z]) ==>
               u.mark[z].mate != 0 && Before(u.list, u.mark[z].mate, a)
    ensures PassedAt(u, a, z) && NearestAt(u, a, z)
  {
  }

  lemma PairDistinct(t: Tokens, id: int)
    requires Paired(t, id)
    ensures Distinct(t.list)
  {
  }

  /** The mate of a matched close marker is among the open markers matched so far. */
  lemma MateInFront(t: Tokens, id: int, i: nat, z: int)
    requires Paired(t, id) && Near(t, i) && i < |t.list| && z in t.mark && !t.mark[z].open && t.mark[z].mate != 0
    ensures Before(t.list, t.mark[z].mate, t.list[i])
  {
    hide Nearest, PassedAt, Distinct, IdsOk, Before;
    var o := t.mark[z].mate;
    assert MateOk(t, z);
    assert MatchedOpen(t.mark, o);
    var p :| 0 <= p < i && p < |t.list| && t.list[p] == o;
    BeforeLess(t.list, p, i);
  }

  /** Inside another pair: its open marker has passed the close marker that is matched now. */
  lemma MatchOld(t: Tokens, id: int, i: nat, j: nat, a: int, z: int)
    requires Paired(t, id) && Near(t, i) && UOpen(t, i) && UClose(t, j) && i < j && a != t.list[i]
    ensures var u := Match(t, t.list[i], t.list[j], id); PassedAt(u, a, z) && NearestAt(u, a, z)
  {
    hide Distinct, Mated, IdsOk, Before;
    var x, y := t.list[i], t.list[j];
    var u := Match(t, x, y, id);
    MatchKinds(t, id, i, j, a);
    MatchKinds(t, id, i, j, z);
    assert PassedAt(t, a, z) && NearestAt(t, a, z);
  }

  // ---------------------------------------------------------------- a marker is split

  /** How a split moves the order of handles. */
  lemma SplitOrder(t: Tokens, i: nat, x: int, y: int, first: nat, second: nat, u: int, v: int)
    requires Formed(t) && CanSplit(t, i, x, y, first, second)
    requires Before(Split(t, i, x, y, first, second).list, u, v)
    ensures var h, un, vn := t.list[i], u == x || u == y, v == x || v == y;
            && (!un && !vn ==> Before(t.list, u, v))
            && (!un && vn ==> u == h || Before(t.list, u, h))
            && (un && !vn ==> Before(t.list, h, v))
  {
    hide Split;
    SplitList(t, i, x, y, first, second);
    var l := Split(t, i, x, y, first, second).list;
    var p, q := BeforeWhere(l, u, v);
    var p', q' := if p <= i then p else p - 2, if q <= i then q else q - 2;
    Placed(t, i, x, y, first, second, p);
    Placed(t, i, x, y, first, second, q);
    if u != x && u != y && v != x && v != y {
      BeforeLess(t.list, p', q');
    } else if u != x && u != y && p' != i {
      BeforeLess(t.list, p', i);
    } else if v != x && v != y {
      BeforeLess(t.list, i, q');
    }
  }

  lemma Placed(t: Tokens, i: nat, x: int, y: int, first: nat, second: nat, p: nat)
    requires CanSplit(t, i, x, y, first, second) && p < |t.list| + 2
    ensures var l := Split(t, i, x, y, first, second).list;
            && |l| == |t.list| + 2
            && (l[p] == x <==> p == i + 1) && (l[p] == y <==> p == i + 2)
            && (p <= i ==> l[p] == t.list[p]) && (p > i + 2 ==> l[p] == t.list[p - 2])
  {
    SplitList(t, i, x, y, first, second);
    assert p <= i ==> t.list[p] in t.list;
    assert p > i + 2 ==> t.list[p - 2] in t.list;
  }

  lemma SplitMarks(t: Tokens, id: int, i: nat, x: int, y: int, first: nat, second: nat, a: int)
    requires Paired(t, id) && CanSplit(t, i, x, y, first, second)
    ensures var s, h := Split(t, i, x, y, first, second), t.list[i];
            && (MatchedOpen(s.mark, a) <==> MatchedOpen(t.mark, a))
            && (a in t.mark && a != h ==> a != x && a != y && s.mark[a] == t.mark[a])
            && (MatchedOpen(t.mark, a) ==> a != h && t.mark[a].mate in t.mark)
            && (Closes(s.mark, a) ==> a == x || a == y || (Closes(t.mark, a) && a != h))
            && (a == x || a == y ==> a in s.mark && s.mark[a].open == t.mark[h].open && s.mark[a].mate == 0)
  {
    hide Distinct, IdsOk;
    assert a in t.mark ==> a in t.list && MateOk(t, a);
  }

  lemma SplitOld(t: Tokens, id: int, i: nat, x: int, y: int, first: nat, second: nat, a: int, z: int)
    requires Paired(t, id) && CanSplit(t, i, x, y, first, second) && PassedAt(t, a, z) && NearestAt(t, a, z)
    requires z != x && z != y
    ensures var s := Split(t, i, x, y, first, second); PassedAt(s, a, z) && NearestAt(s, a, z)
  {
    hide Paired, Split, Before;
    var s := Split(t, i, x, y, first, second);
    SplitMarks(t, id, i, x, y, first, second, a);
    SplitMarks(t, id, i, x, y, first, second, z);
    PairFormedAll(t, id);
    if Inside(s, a, z) && Closes(s.mark, z) {
      MateSplit(t, id, i, x, y, first, second, a);
      SplitOrder(t, i, x, y, first, second, a, z);
      SplitOrder(t, i, x, y, first, second, z, s.mark[a].mate);
      if NearestAt(t, a, z) && t.mark[z].mate != 0 && Before(t.list, t.mark[z].mate, a) {
        SplitBefore(t, i, x, y, first, second, t.mark[z].mate, a);
      }
    }
  }

  lemma PairFormedAll(t: Tokens, id: int)
    requires Paired(t, id)
    ensures Formed(t)
  {
  }

  /** A matched open marker and its mate are no new handles. */
  lemma MateSplit(t: Tokens, id: int, i: nat, x: int, y: int, first: nat, second: nat, a: int)
    requires Paired(t, id) && CanSplit(t, i, x, y, first, second) && MatchedOpen(t.mark, a)
    ensures var s := Split(t, i, x, y, first, second);
            && a in s.mark && s.mark[a] == t.mark[a] && a != x && a != y && t.mark[a].mate != x && t.mark[a].mate != y
            && a != t.list[i]
  {
    hide Distinct, IdsOk;
    assert a in t.list && MateOk(t, a);
    assert t.mark[a].mate in t.list;
  }

  /** A pair with a piece of a split marker inside had the marker inside. */
  lemma InsideSplit(t: Tokens, id: int, i: nat, x: int, y: int, first: nat, second: nat, a: int, z: int)
    requires Paired(t, id) && CanSplit(t, i, x, y, first, second) && (z == x || z == y)
    ensures Inside(Split(t, i, x, y, first, second), a, z) ==> Inside(t, a, t.list[i])
  {
    hide Paired, Split, Before;
    var s := Split(t, i, x, y, first, second);
    SplitMarks(t, id, i, x, y, first, second, a);
    PairFormedAll(t, id);
    if Inside(s, a, z) {
      MateSplit(t, id, i, x, y, first, second, a);
      SplitOrder(t, i, x, y, first, second, a, z);
      SplitOrder(t, i, x, y, first, second, z, s.mark[a].mate);
    }
  }

  /** No pair has a piece of a split close marker inside: its open marker would have split it. */
  lemma SplitNew(t: Tokens, id: int, i: nat, x: int, y: int, first: nat, second: nat, a: int, z: int)
    requires Paired(t, id) && CanSplit(t, i, x, y, first, second) && (UOpen(t, i) || UClose(t, i)) && (z == x || z == y)
    requires PassedAt(t, a, t.list[i])
    ensures var s := Split(t, i, x, y, first, second); PassedAt(s, a, z) && NearestAt(s, a, z)
  {
    hide Paired, Split, Inside;
    SplitMarks(t, id, i, x, y, first, second, z);
    InsideSplit(t, id, i, x, y, first, second, a, z);
  }

  lemma SplitNear(t: Tokens, id: int, i: nat, x: int, y: int, first: nat, second: nat, k: int)
    requires Paired(t, id) && CanSplit(t, i, x, y, first, second) && (UOpen(t, i) || UClose(t, i)) && Near(t, k)
             && k <= i
    ensures Near(Split(t, i, x, y, first, second), k)
  {
    hide Paired, PassedAt, NearestAt, Split, CanSplit;
    var s := Split(t, i, x, y, first, second);
    forall a, z ensures PassedAt(s, a, z) && NearestAt(s, a, z) {
      assert PassedAt(t, a, z) && NearestAt(t, a, z) && PassedAt(t, a, t.list[i]);
      if z == x || z == y {
        SplitNew(t, id, i, x, y, first, second, a, z);
      } else {
        SplitOld(t, id, i, x, y, first, second, a, z);
      }
    }
    AllNear(s);
    forall a | MatchedOpen(s.mark, a) ensures exists p :: 0 <= p < k && p < |s.list| && s.list[p] == a {
      SplitMarks(t, id, i, x, y, first, second, a);
      var p :| 0 <= p < k && p < |t.list| && t.list[p] == a;
      Placed(t, i, x, y, first, second, p);
    }
  }

  // ---------------------------------------------------------------- the whole pass

  lemma MoveNear(c: Config)
    requires Inv(c) && !Clash(c) && Near(c.t, c.i)
    ensures Near(Move(c).t, Move(c).i)
  {
    hide Near, Paired, Settled, Total, Threes, Split, Match, Passed;
    if c.j > 0 && c.j < |c.t.list| && UOpen(c.t, c.i) && UClose(c.t, c.j) {
      var m, n := c.t.mark[c.t.list[c.i]], c.t.mark[c.t.list[c.j]];
      PairSizes(c.t, c.id, c.i, c.j);
      if n.size == 3 && m.size != 3 {
        SplitReady(c.t, c.id, c.j, c.next, 3 - m.size, m.size);
        SplitNear(c.t, c.id, c.j, c.next, c.next + 1, 3 - m.size, m.size, c.i);
      } else if n.ch == m.ch && n.size == m.size {
        MatchNear(c.t, c.id, c.i, c.j);
      } else if m.size == 3 {
        SplitReady(c.t, c.id, c.i, c.next, 3 - n.size, n.size);
        SplitNear(c.t, c.id, c.i, c.next, c.next + 1, 3 - n.size, n.size, c.i);
        Later(Move(c).t, c.i, c.i + 1);
      }
    } else {
      Later(c.t, c.i, c.i + 1);
    }
  }

  lemma {:induction false} MovesNear(c: Config, n: nat)
    requires Inv(c) && NeverClashes(c) && Near(c.t, c.i)
    ensures Near(Moves(c, n).t, Moves(c, n).i)
  {
    hide Inv, Clash, Move, Near;
    if n > 0 {
      MovesNear(c, n - 1);
      MovesInv(c, n - 1);
      assert !Clash(Moves(c, n - 1));
      MoveNear(Moves(c, n - 1));
    }
  }

  /** Every open marker is matched with the nearest close marker it could have: those of the same
      kind in between have mates in front of it. */
  lemma NearestMates(t: Tokens, next: int, u: Tokens)
    requires Unused(t.list, next) && Formed(t) && (forall x :: x in t.mark ==> t.mark[x].mate == 0)
    requires Leads(Start(t, next), u)
    ensures Nearest(u)
  {
    hide Inv, Formed, Unused, Moves, Nearest, PassedAt;
    var c := Start(t, next);
    StartInv(t, next);
    var n: nat :| Moves(c, n).Done() && Moves(c, n).t == u;
    assert Terminates(c);
    EndsUnlessClash(c);
    NothingMatched(t);
    MovesNear(c, n);
  }

  lemma NothingMatched(t: Tokens)
    requires forall x :: x in t.mark ==> t.mark[x].mate == 0
    ensures Near(t, 0)
  {
  }

  // ---------------------------------------------------------------- the tags of a marker

  function Level(tag: Tag): nat {
    match tag
    case Em => 1
    case Strong => 2
    case EndEm => 1
    case EndStrong => 2
  }

  predicate Opens(tag: Tag) { tag.Em? || tag.Strong? }

  function Levels(tags: seq<Tag>): nat { if tags == [] then 0 else Level(tags[0]) + Levels(tags[1..]) }

  /** A matched marker writes one tag for emphasis, two levels for a strong one, and both for a triple,
      the strong one outside: as many levels as it has characters. */
  lemma TagSizes(mark: map<int, Marker>, x: int)
    requires x in mark && MarkerOk(mark[x]) && mark[x].mate != 0
    ensures var tags := TagsOf(mark, x);
            && Levels(tags) == mark[x].size && (forall i :: 0 <= i < |tags| ==> Opens(tags[i]) == mark[x].open)
            && forall i, j :: 0 <= i < j < |tags| ==>
                 if mark[x].open then Level(tags[i]) > Level(tags[j]) else Level(tags[i]) < Level(tags[j])
  {
    var tags := TagsOf(mark, x);
    if mark[x].size == 3 {
      assert tags[1..] == [tags[1]] && [tags[1]][1..] == [];
      assert Levels([tags[1]]) == Level(tags[1]);
    } else {
      assert tags[1..] == [];
    }
  }

  // ---------------------------------------------------------------- three texts

  lemma Go(c: Config, n: nat, d: Config, e: Config)
    requires Moves(c, n) == d && Move(d) == e
    ensures Moves(c, n + 1) == e
  {
  }

  lemma TagsNext(list: seq<int>, mark: map<int, Marker>, k: nat)
    requires k < |list|
    ensures Tags(list[..k + 1], mark) == Tags(list[..k], mark) + TagsOf(mark, list[k])
  {
    assert list[..k + 1][..k] == list[..k];
  }

  /** Reading a handle that has no part in any pair. */
  lemma Idle(t: Tokens, k: nat)
    requires k < |t.list| && !MatchedOpen(t.mark, t.list[k]) && !MatchedClose(t.mark, t.list[k])
    ensures Run(t.list[..k + 1], t.mark) == Run(t.list[..k], t.mark)
    ensures Tags(t.list[..k + 1], t.mark) == Tags(t.list[..k], t.mark)
  {
    RunStep(t.list, k, t.mark);
    TagsNext(t.list, t.mark, k);
    assert Tags(t.list[..k], t.mark) + [] == Tags(t.list[..k], t.mark);
  }

  lemma Opened1(t: Tokens, k: nat, st: seq<int>, tags: seq<Tag>)
    requires k < |t.list| && MatchedOpen(t.mark, t.list[k])
    requires Run(t.list[..k], t.mark) == Some(st) && Tags(t.list[..k], t.mark) == tags
    ensures Run(t.list[..k + 1], t.mark) == Some(st + [t.list[k]])
    ensures Tags(t.list[..k + 1], t.mark) == tags + TagsOf(t.mark, t.list[k])
  {
    RunStep(t.list, k, t.mark);
    TagsNext(t.list, t.mark, k);
  }

  lemma Closed1(t: Tokens, k: nat, st: seq<int>, tags: seq<Tag>)
    requires k < |t.list| && MatchedClose(t.mark, t.list[k]) && st != [] && st[|st| - 1] == t.mark[t.list[k]].mate
    requires Run(t.list[..k], t.mark) == Some(st) && Tags(t.list[..k], t.mark) == tags
    ensures Run(t.list[..k + 1], t.mark) == Some(st[..|st| - 1])
    ensures Tags(t.list[..k + 1], t.mark) == tags + TagsOf(t.mark, t.list[k])
  {
    RunStep(t.list, k, t.mark);
    TagsNext(t.list, t.mark, k);
  }

  /** The tags of tokens whose first matched marker opens a pair around the second pair. */
  lemma TwoPairs(t: Tokens, a: nat, b: nat, c: nat, d: nat, end: nat)
    requires a < b < c < d < |t.list| == end
    requires forall k :: 0 <= k < end ==>
               (MatchedOpen(t.mark, t.list[k]) <==> k == a || k == b)
                 && (MatchedClose(t.mark, t.list[k]) <==> k == c || k == d)
    requires t.list[c] in t.mark && t.mark[t.list[c]].mate == t.list[b]
    requires t.list[d] in t.mark && t.mark[t.list[d]].mate == t.list[a]
    ensures Run(t.list, t.mark) == Some([])
    ensures Tags(t.list, t.mark) == TagsOf(t.mark, t.list[a]) + TagsOf(t.mark, t.list[b]) + TagsOf(t.mark, t.list[c])
                                    + TagsOf(t.mark, t.list[d])
  {
    hide Run, Tags, TagsOf;
    var l, m := t.list, t.mark;
    NoTags(t);
    IdleRun(t, 0, a);
    Opened1(t, a, [], []);
    assert [] + [l[a]] == [l[a]] && [] + TagsOf(m, l[a]) == TagsOf(m, l[a]);
    IdleRun(t, a + 1, b);
    Opened1(t, b, [l[a]], TagsOf(m, l[a]));
    IdleRun(t, b + 1, c);
    var st := [l[a]] + [l[b]];
    Closed1(t, c, st, TagsOf(m, l[a]) + TagsOf(m, l[b]));
    assert st[..1] == [l[a]];
    IdleRun(t, c + 1, d);
    Closed1(t, d, [l[a]], TagsOf(m, l[a]) + TagsOf(m, l[b]) + TagsOf(m, l[c]));
    assert [l[a]][..0] == [];
    IdleRun(t, d + 1, end);
    assert l[..end] == l;
  }

  lemma NoTags(t: Tokens)
    ensures Run(t.list[..0], t.mark) == Some([]) && Tags(t.list[..0], t.mark) == []
  {
  }

  lemma {:induction false} IdleRun(t: Tokens, i: nat, k: nat)
    requires i <= k <= |t.list|
    requires forall j :: i <= j < k ==> !MatchedOpen(t.mark, t.list[j]) && !MatchedClose(t.mark, t.list[j])
    ensures Run(t.list[..k], t.mark) == Run(t.list[..i], t.mark)
    ensures Tags(t.list[..k], t.mark) == Tags(t.list[..i], t.mark)
    decreases k
  {
    if i < k {
      IdleRun(t, i, k - 1);
      Idle(t, k - 1);
    }
  }

  /** Marker m of a text, or matched. */
  function Star(open: bool, size: nat): Marker { NewMarker(open, '*', size) }

  /** The tokens of ***a*** , before and after matching. */
  function Triple(matched: bool): Tokens {
    Tokens([1, 2, 3],
           map[1 := if matched then Star(true, 3).Matched(3, 0) else Star(true, 3),
               3 := if matched then Star(false, 3).Matched(1, 0) else Star(false, 3)])
  }

  lemma TripleAt(a: int)
    ensures |Triple(false).list| == |Triple(true).list| == 3
    ensures UOpen(Triple(false), a) <==> a == 0
    ensures UClose(Triple(false), a) <==> a == 2
    ensures !UOpen(Triple(true), a) && Match(Triple(false), 1, 3, 0) == Triple(true)
  {
  }

  lemma TripleMoves()
    ensures Moves(Start(Triple(false), 4), 5) == Config(Triple(true), 3, 0, 1, 4)
  {
    hide Moves, Match, UOpen, UClose;
    var t, u := Triple(false), Triple(true);
    var c := Start(t, 4);
    forall a ensures (UOpen(t, a) <==> a == 0) && (UClose(t, a) <==> a == 2) && !UOpen(u, a) {
      TripleAt(a);
    }
    TripleAt(0);
    Passes(t, 0, 2, 0, 4);
    Go(c, 2, Config(t, 0, 2, 0, 4), Config(u, 1, 0, 1, 4));
    Skips(u, 1, 3, 1, 4);
    MovesJoin(c, 3, 2);
  }

  /** ***a*** is written as strong emphasis around emphasis around a. */
  lemma TripleTags()
    ensures Moves(Start(Triple(false), 4), 5) == Config(Triple(true), 3, 0, 1, 4)
    ensures Run(Triple(true).list, Triple(true).mark) == Some([])
    ensures Tags(Triple(true).list, Triple(true).mark) == [Strong, Em, EndEm, EndStrong]
  {
    hide Moves, Run, Tags;
    var t := Triple(true);
    TripleMoves();
    NoTags(t);
    Opened1(t, 0, [], []);
    assert [] + [1] == [1] && [] + [Strong, Em] == [Strong, Em];
    Idle(t, 1);
    Closed1(t, 2, [1], [Strong, Em]);
    assert t.list[..3] == t.list && [1][..0] == [];
  }

  /** The tokens of *a **b*** after k moves that change them. */
  function Inner(k: nat): Tokens {
    Tokens(if k == 0 then [1, 2, 3, 4, 5] else [1, 2, 3, 4, 5, 6, 7],
           if k == 0 then map[1 := Star(true, 1), 3 := Star(true, 2), 5 := Star(false, 3)]
           else
             map[1 := if k > 1 then Star(true, 1).Matched(7, 0) else Star(true, 1),
                 3 := if k > 2 then Star(true, 2).Matched(6, 1) else Star(true, 2),
                 5 := Star(false, 3).Disable(),
                 6 := if k > 2 then Star(false, 2).Matched(3, 1) else Star(false, 2),
                 7 := if k > 1 then Star(false, 1).Matched(1, 0) else Star(false, 1)])
  }

  lemma InnerAt(k: nat, a: int)
    ensures var t := Inner(k);
            && |t.list| == (if k == 0 then 5 else 7) && (0 <= a < |t.list| ==> t.list[a] == a + 1)
            && (UOpen(t, a) <==> (a == 0 && k <= 1) || (a == 2 && k <= 2))
            && (UClose(t, a) <==> (a == 4 && k == 0) || (a == 5 && 1 <= k <= 2) || (a == 6 && k == 1))
  {
  }

  lemma InnerSteps()
    ensures Split(Inner(0), 4, 6, 7, 2, 1) == Inner(1)
    ensures Match(Inner(1), 1, 7, 0) == Inner(2) && Match(Inner(2), 3, 6, 1) == Inner(3)
  {
    assert Inner(0).list[..5] + [6, 7] + Inner(0).list[5..] == [1, 2, 3, 4, 5, 6, 7];
  }

  lemma InnerMoves()
    ensures Moves(Start(Inner(0), 6), 16) == Config(Inner(3), 7, 0, 2, 8)
  {
    hide Moves, Split, Match, UOpen, UClose;
    var c := Start(Inner(0), 6);
    forall k: nat, a ensures var t := Inner(k);
        && |t.list| == (if k == 0 then 5 else 7)
        && (UOpen(t, a) <==> (a == 0 && k <= 1) || (a == 2 && k <= 2))
        && (UClose(t, a) <==> (a == 4 && k == 0) || (a == 5 && 1 <= k <= 2) || (a == 6 && k == 1))
    {
      InnerAt(k, a);
    }
    InnerSteps();
    Passes(Inner(0), 0, 4, 0, 6);
    Go(c, 4, Config(Inner(0), 0, 4, 0, 6), Config(Inner(1), 0, 5, 0, 8));
    Go(c, 5, Config(Inner(1), 0, 5, 0, 8), Config(Inner(1), 0, 6, 0, 8));
    Go(c, 6, Config(Inner(1), 0, 6, 0, 8), Config(Inner(2), 1, 0, 1, 8));
    Skips(Inner(2), 1, 2, 1, 8);
    MovesJoin(c, 7, 1);
    Finds(Inner(2), 2, 5, 1, 8);
    MovesJoin(c, 8, 4);
    Skips(Inner(3), 3, 7, 2, 8);
    MovesJoin(c, 12, 4);
  }

  /** *a **b*** is written as emphasis around a and strong emphasis around b: the close marker is
      split so that the inner pair comes first. */
  lemma InnerTags()
    ensures Moves(Start(Inner(0), 6), 16) == Config(Inner(3), 7, 0, 2, 8)
    ensures Run(Inner(3).list, Inner(3).mark) == Some([])
    ensures Tags(Inner(3).list, Inner(3).mark) == [Em, Strong, EndStrong, EndEm]
  {
    hide Moves, Run, Tags;
    InnerMoves();
    var t := Inner(3);
    TwoPairs(t, 0, 2, 5, 6, 7);
  }

  /** The tokens of ***a** b* after k moves that change them. */
  function Outer(k: nat): Tokens {
    Tokens(if k == 0 then [1, 2, 3, 4, 5] else [1, 6, 7, 2, 3, 4, 5],
           if k == 0 then map[1 := Star(true, 3), 3 := Star(false, 2), 5 := Star(false, 1)]
           else
             map[1 := Star(true, 3).Disable(),
                 6 := if k > 1 then Star(true, 1).Matched(5, 0) else Star(true, 1),
                 7 := if k > 2 then Star(true, 2).Matched(3, 1) else Star(true, 2),
                 3 := if k > 2 then Star(false, 2).Matched(7, 1) else Star(false, 2),
                 5 := if k > 1 then Star(false, 1).Matched(6, 0) else Star(false, 1)])
  }

  lemma OuterAt(k: nat, a: int)
    ensures var t := Outer(k);
            && |t.list| == (if k == 0 then 5 else 7)
            && (UOpen(t, a) <==> (a == 0 && k == 0) || (a == 1 && k == 1) || (a == 2 && 1 <= k <= 2))
            && (UClose(t, a) <==>
                 if k == 0 then a == 2 || a == 4 else (a == 4 && k <= 2) || (a == 6 && k <= 1))
  {
  }

  lemma OuterSteps()
    ensures Split(Outer(0), 0, 6, 7, 1, 2) == Outer(1)
    ensures Match(Outer(1), 6, 5, 0) == Outer(2) && Match(Outer(2), 7, 3, 1) == Outer(3)
  {
    assert Outer(0).list[..1] + [6, 7] + Outer(0).list[1..] == [1, 6, 7, 2, 3, 4, 5];
  }

  lemma OuterMoves()
    ensures Moves(Start(Outer(0), 6), 16) == Config(Outer(3), 7, 0, 2, 8)
  {
    hide Moves, Split, Match, UOpen, UClose;
    var c := Start(Outer(0), 6);
    forall k: nat, a ensures var t := Outer(k);
        && |t.list| == (if k == 0 then 5 else 7)
        && (UOpen(t, a) <==> (a == 0 && k == 0) || (a == 1 && k == 1) || (a == 2 && 1 <= k <= 2))
        && (UClose(t, a) <==>
             if k == 0 then a == 2 || a == 4 else (a == 4 && k <= 2) || (a == 6 && k <= 1))
    {
      OuterAt(k, a);
    }
    OuterSteps();
    Passes(Outer(0), 0, 2, 0, 6);
    Go(c, 2, Config(Outer(0), 0, 2, 0, 6), Config(Outer(1), 1, 0, 0, 8));
    Passes(Outer(1), 1, 4, 0, 8);
    MovesJoin(c, 3, 3);
    Go(c, 6, Config(Outer(1), 1, 4, 0, 8), Config(Outer(1), 1, 5, 0, 8));
    Go(c, 7, Config(Outer(1), 1, 5, 0, 8), Config(Outer(1), 1, 6, 0, 8));
    Go(c, 8, Config(Outer(1), 1, 6, 0, 8), Config(Outer(2), 2, 0, 1, 8));
    Finds(Outer(2), 2, 4, 1, 8);
    MovesJoin(c, 9, 3);
    Skips(Outer(3), 3, 7, 2, 8);
    MovesJoin(c, 12, 4);
  }

  /** ***a** b* is written as emphasis around strong emphasis around a, and b: the open marker is
      split so that the outer pair comes first. */
  lemma OuterTags()
    ensures Moves(Start(Outer(0), 6), 16) == Config(Outer(3), 7, 0, 2, 8)
    ensures Run(Outer(3).list, Outer(3).mark) == Some([])
    ensures Tags(Outer(3).list, Outer(3).mark) == [Em, Strong, EndStrong, EndEm]
  {
    hide Moves, Run, Tags;
    OuterMoves();
    var t := Outer(3);
    TwoPairs(t, 1, 2, 4, 6, 7);
  }
}

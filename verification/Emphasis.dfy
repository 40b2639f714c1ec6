/** Emphasis spans of cpp-markdown: pairing open and close markers in a token list that grows
    while it is traversed, and undoing the pairs that do not nest. */
module Emphasis {
  import opened Wrappers

  /** A bold or italic marker; mate is the marker it is matched with, or 0. */
  datatype Marker = Marker(open: bool, ch: char, size: nat, mate: int, cannotMatch: bool, disabled: bool, id: int)
  {
    predicate UnmatchedOpen() { open && mate == 0 && !cannotMatch }
    predicate UnmatchedClose() { !open && mate == 0 && !cannotMatch }
    function Disable(): Marker { this.(cannotMatch := true, disabled := true) }
    function Matched(m: int, i: int): Marker { this.(mate := m, id := i) }
  }

  /** The token list, as handles; handles without a marker are other tokens. */
  datatype Tokens = Tokens(list: seq<int>, mark: map<int, Marker>)

  function NewMarker(open: bool, ch: char, size: nat): Marker {
    Marker(open, ch, size, 0, false, false, -1)
  }

  ghost predicate Distinct(list: seq<int>) {
    forall i, j :: 0 <= i < j < |list| ==> list[i] != list[j]
  }

  /** Active markers have sizes 1 to 3. */
  predicate MarkerOk(m: Marker) {
    && (m.disabled ==> m.cannotMatch && m.mate == 0)
    && (!m.disabled ==> 1 <= m.size <= 3)
    && (m.mate != 0 ==> m.id >= 0)
  }

  ghost predicate Formed(t: Tokens) {
    && Distinct(t.list)
    && (forall x :: x in t.mark ==> x in t.list && x > 0)
    && (forall x :: x in t.mark ==> MarkerOk(t.mark[x]))
  }

  /** x comes before y in the list. */
  ghost predicate Before(list: seq<int>, x: int, y: int) {
    exists i, j :: 0 <= i < j < |list| && list[i] == x && list[j] == y
  }

  /** What matching promises of a marker and its mate. */
  ghost predicate MateOk(t: Tokens, x: int) {
    x in t.mark && t.mark[x].mate != 0 ==>
      var m := t.mark[x];
      && m.mate in t.mark
      && var n := t.mark[m.mate];
      && n.mate == x && n.open != m.open && n.size == m.size && n.ch == m.ch && n.id == m.id && !m.disabled
      && (if m.open then Before(t.list, x, m.mate) else Before(t.list, m.mate, x))
  }

  ghost predicate Mated(t: Tokens) {
    forall x :: x in t.mark ==> MateOk(t, x)
  }

  /** An identifier belongs to one pair only, and is below the next one. */
  ghost predicate IdsOk(t: Tokens, id: int) {
    && (forall x :: x in t.mark && t.mark[x].mate != 0 ==> t.mark[x].id < id)
    && (forall x, y ::
          x in t.mark && y in t.mark && t.mark[x].mate != 0 && t.mark[y].mate != 0 && t.mark[x].id == t.mark[y].id ==>
            y == x || y == t.mark[x].mate)
  }

  ghost predicate Paired(t: Tokens, id: int) {
    Formed(t) && Mated(t) && IdsOk(t, id) && id >= 0
  }

  // ---------------------------------------------------------------- sizes

  function Weight(mark: map<int, Marker>, x: int): nat {
    if x in mark && !mark[x].disabled then mark[x].size else 0
  }

  /** Total size of the markers that are not disabled. */
  function Total(list: seq<int>, mark: map<int, Marker>): nat {
    if list == [] then 0 else Weight(mark, list[0]) + Total(list[1..], mark)
  }

  function Three(mark: map<int, Marker>, x: int): nat {
    if x in mark && !mark[x].disabled && mark[x].size == 3 then 1 else 0
  }

  /** How many active markers of size 3 there are. */
  function Threes(list: seq<int>, mark: map<int, Marker>): nat {
    if list == [] then 0 else Three(mark, list[0]) + Threes(list[1..], mark)
  }

  lemma {:induction false} TotalJoin(a: seq<int>, b: seq<int>, mark: map<int, Marker>)
    ensures Total(a + b, mark) == Total(a, mark) + Total(b, mark)
    ensures Threes(a + b, mark) == Threes(a, mark) + Threes(b, mark)
  {
    if a == [] {
      assert a + b == b;
    } else {
      assert (a + b)[1..] == a[1..] + b;
      TotalJoin(a[1..], b, mark);
    }
  }

  lemma {:induction false} TotalSame(a: seq<int>, m: map<int, Marker>, n: map<int, Marker>)
    requires forall x :: x in a ==> Weight(m, x) == Weight(n, x) && Three(m, x) == Three(n, x)
    ensures Total(a, m) == Total(a, n) && Threes(a, m) == Threes(a, n)
  {
    if a != [] {
      assert a[0] in a && forall x :: x in a[1..] ==> x in a;
      TotalSame(a[1..], m, n);
    }
  }

  /** Splitting the list around one handle. */
  lemma TotalAt(list: seq<int>, mark: map<int, Marker>, i: nat)
    requires i < |list|
    ensures Total(list, mark) == Total(list[..i], mark) + Weight(mark, list[i]) + Total(list[i + 1..], mark)
    ensures Threes(list, mark) == Threes(list[..i], mark) + Three(mark, list[i]) + Threes(list[i + 1..], mark)
  {
    assert list == list[..i] + list[i..] && list[i..] == [list[i]] + list[i + 1..];
    TotalJoin(list[..i], list[i..], mark);
    TotalJoin([list[i]], list[i + 1..], mark);
    assert [list[i]][1..] == [];
  }

  // ---------------------------------------------------------------- splitting a marker

  /** Marker i is disabled and replaced by two new ones, x and y, right after it. */
  function Split(t: Tokens, i: nat, x: int, y: int, first: nat, second: nat): Tokens
    requires i < |t.list| && t.list[i] in t.mark
  {
    var m := t.mark[t.list[i]];
    Tokens(t.list[..i + 1] + [x, y] + t.list[i + 1..],
           t.mark[t.list[i] := m.Disable()][x := NewMarker(m.open, m.ch, first)][y := NewMarker(m.open, m.ch, second)])
  }

  /** What a split needs: an active unmatched marker of size 3 and unused handles. */
  ghost predicate CanSplit(t: Tokens, i: nat, x: int, y: int, first: nat, second: nat) {
    && i < |t.list| && t.list[i] in t.mark
    && (var m := t.mark[t.list[i]]; m.size == 3 && m.mate == 0 && !m.disabled)
    && first + second == 3 && first > 0 && second > 0
    && x !in t.list && y !in t.list && x != y && x > 0 && y > 0
  }

  lemma SplitList(t: Tokens, i: nat, x: int, y: int, first: nat, second: nat)
    requires CanSplit(t, i, x, y, first, second)
    ensures var l := Split(t, i, x, y, first, second).list;
            && |l| == |t.list| + 2 && l[i + 1] == x && l[i + 2] == y
            && (forall j :: 0 <= j <= i ==> l[j] == t.list[j])
            && (forall j :: i < j < |t.list| ==> l[j + 2] == t.list[j])
            && (forall j :: i + 2 < j < |l| ==> l[j] == t.list[j - 2])
  {
  }

  lemma SplitFormed(t: Tokens, i: nat, x: int, y: int, first: nat, second: nat)
    requires Formed(t) && CanSplit(t, i, x, y, first, second)
    ensures Formed(Split(t, i, x, y, first, second))
  {
    hide Distinct;
    SplitDistinct(t, i, x, y, first, second);
    var s := Split(t, i, x, y, first, second);
    forall z ensures z in s.list <==> z in t.list || z == x || z == y {
      SplitMember(t, i, x, y, z);
    }
  }

  lemma SplitMember(t: Tokens, i: nat, x: int, y: int, z: int)
    requires i < |t.list|
    ensures z in t.list[..i + 1] + [x, y] + t.list[i + 1..] <==> z in t.list || z == x || z == y
  {
    assert t.list == t.list[..i + 1] + t.list[i + 1..];
  }

  lemma SplitDistinct(t: Tokens, i: nat, x: int, y: int, first: nat, second: nat)
    requires Distinct(t.list) && CanSplit(t, i, x, y, first, second)
    ensures Distinct(Split(t, i, x, y, first, second).list)
  {
    hide Split;
    SplitList(t, i, x, y, first, second);
    var l := Split(t, i, x, y, first, second).list;
    forall a, b | 0 <= a < b < |l| ensures l[a] != l[b] {
      var a', b' := if a <= i then a else a - 2, if b <= i then b else b - 2;
      assert a <= i ==> l[a] == t.list[a];
      assert b <= i ==> l[b] == t.list[b];
      assert a > i + 2 ==> l[a] == t.list[a - 2];
      assert b > i + 2 ==> l[b] == t.list[b - 2];
    }
  }

  lemma SplitBefore(t: Tokens, i: nat, x: int, y: int, first: nat, second: nat, u: int, v: int)
    requires CanSplit(t, i, x, y, first, second) && Before(t.list, u, v)
    ensures Before(Split(t, i, x, y, first, second).list, u, v)
  {
    hide Split;
    SplitList(t, i, x, y, first, second);
    var l := Split(t, i, x, y, first, second).list;
    var a, b :| 0 <= a < b < |t.list| && t.list[a] == u && t.list[b] == v;
    var a', b' := if a <= i then a else a + 2, if b <= i then b else b + 2;
    assert l[a'] == u && l[b'] == v;
  }

  /** Splitting keeps what has been matched, and the total size; a marker of size 3 is gone. */
  lemma SplitKeeps(t: Tokens, id: int, i: nat, x: int, y: int, first: nat, second: nat)
    requires Paired(t, id) && CanSplit(t, i, x, y, first, second)
    ensures var s := Split(t, i, x, y, first, second);
            && Paired(s, id)
            && Total(s.list, s.mark) == Total(t.list, t.mark) && Threes(s.list, s.mark) < Threes(t.list, t.mark)
  {
    hide Before, Distinct;
    SplitFormed(t, i, x, y, first, second);
    var s := Split(t, i, x, y, first, second);
    forall z | z in s.mark ensures MateOk(s, z) {
      if z in t.mark && t.mark[z].mate != 0 {
        assert MateOk(t, z);
        assert z != t.list[i] && t.mark[z].mate != t.list[i];
        assert z in t.list && t.mark[z].mate in t.list;
        if t.mark[z].open {
          SplitBefore(t, i, x, y, first, second, z, t.mark[z].mate);
        } else {
          SplitBefore(t, i, x, y, first, second, t.mark[z].mate, z);
        }
      }
    }
    SplitIds(t, id, i, x, y, first, second);
    SplitTotal(t, i, x, y, first, second);
  }

  lemma SplitIds(t: Tokens, id: int, i: nat, x: int, y: int, first: nat, second: nat)
    requires IdsOk(t, id) && CanSplit(t, i, x, y, first, second) && forall z :: z in t.mark ==> z in t.list
    ensures IdsOk(Split(t, i, x, y, first, second), id)
  {
  }

  lemma SplitTotal(t: Tokens, i: nat, x: int, y: int, first: nat, second: nat)
    requires CanSplit(t, i, x, y, first, second) && Distinct(t.list)
    ensures var s := Split(t, i, x, y, first, second);
            Total(s.list, s.mark) == Total(t.list, t.mark) && Threes(s.list, s.mark) < Threes(t.list, t.mark)
  {
    hide Total, Threes, Distinct;
    var s := Split(t, i, x, y, first, second);
    TotalAt(t.list, t.mark, i);
    var z, a, b := t.list[i], t.list[..i], t.list[i + 1..];
    assert s.list == a + ([z] + ([x, y] + b));
    TotalJoin(a, [z] + ([x, y] + b), s.mark);
    TotalJoin([z], [x, y] + b, s.mark);
    TotalJoin([x, y], b, s.mark);
    PairTotal(z, x, y, s.mark);
    SplitRest(t, i, x, y, first, second);
    TotalSame(a, s.mark, t.mark);
    TotalSame(b, s.mark, t.mark);
  }

  lemma SplitRest(t: Tokens, i: nat, x: int, y: int, first: nat, second: nat)
    requires CanSplit(t, i, x, y, first, second) && Distinct(t.list)
    ensures var m, n := t.mark, Split(t, i, x, y, first, second).mark;
            forall z :: z in t.list[..i] || z in t.list[i + 1..] ==>
              Weight(m, z) == Weight(n, z) && Three(m, z) == Three(n, z)
  {
    forall z | z in t.list[..i] || z in t.list[i + 1..] ensures z in t.list && z != t.list[i] {
    }
  }

  lemma PairTotal(z: int, x: int, y: int, mark: map<int, Marker>)
    ensures Total([z], mark) == Weight(mark, z) && Threes([z], mark) == Three(mark, z)
    ensures Total([x, y], mark) == Weight(mark, x) + Weight(mark, y)
            && Threes([x, y], mark) == Three(mark, x) + Three(mark, y)
  {
    assert [z][1..] == [] && [x, y][1..] == [y] && [y][1..] == [];
  }

  // ---------------------------------------------------------------- matching two markers

  function Match(t: Tokens, x: int, y: int, id: int): Tokens
    requires x in t.mark && y in t.mark
  {
    t.(mark := t.mark[x := t.mark[x].Matched(y, id)][y := t.mark[y].Matched(x, id)])
  }

  lemma MatchKeeps(t: Tokens, id: int, i: nat, j: nat)
    requires Paired(t, id) && i < j < |t.list| && t.list[i] in t.mark && t.list[j] in t.mark
    requires var m, n := t.mark[t.list[i]], t.mark[t.list[j]];
             m.UnmatchedOpen() && n.UnmatchedClose() && m.ch == n.ch && m.size == n.size
    ensures var s := Match(t, t.list[i], t.list[j], id);
            && Paired(s, id + 1)
            && Total(s.list, s.mark) == Total(t.list, t.mark) && Threes(s.list, s.mark) == Threes(t.list, t.mark)
  {
    hide Distinct;
    var x, y := t.list[i], t.list[j];
    var s := Match(t, x, y, id);
    assert x != y && Before(t.list, x, y);
    forall z | z in s.mark ensures MateOk(s, z) {
      assert MateOk(t, z);
    }
    TotalSame(t.list, t.mark, s.mark);
  }

  // ---------------------------------------------------------------- what matching achieves

  predicate UOpen(t: Tokens, a: int) { 0 <= a < |t.list| && t.list[a] in t.mark && t.mark[t.list[a]].UnmatchedOpen() }

  predicate UClose(t: Tokens, b: int) { 0 <= b < |t.list| && t.list[b] in t.mark && t.mark[t.list[b]].UnmatchedClose() }

  /** The markers at a and b fit neither whole nor after a split. */
  predicate Unsuited(t: Tokens, a: int, b: int)
    requires UOpen(t, a) && UClose(t, b)
  {
    var m, n := t.mark[t.list[a]], t.mark[t.list[b]];
    m.size != 3 && n.size != 3 && (m.ch != n.ch || m.size != n.size)
  }

  /** No open marker before i is left with a close marker it could be matched with. */
  ghost predicate Settled(t: Tokens, i: int) {
    forall a, b :: a < i && a < b && UOpen(t, a) && UClose(t, b) ==> Unsuited(t, a, b)
  }

  /** The search for a mate of the marker at i has passed everything before j. */
  ghost predicate Passed(t: Tokens, i: int, j: int) {
    UOpen(t, i) && forall b :: i < b < j && UClose(t, b) ==> Unsuited(t, i, b)
  }

  lemma SplitOpens(t: Tokens, i: nat, x: int, y: int, first: nat, second: nat, a: int)
    requires Formed(t) && CanSplit(t, i, x, y, first, second)
    ensures var s := Split(t, i, x, y, first, second);
            && (a <= i ==> (UOpen(s, a) <==> UOpen(t, a) && a != i) && (UClose(s, a) <==> UClose(t, a) && a != i))
            && (a > i + 2 ==> (UOpen(s, a) <==> UOpen(t, a - 2)) && (UClose(s, a) <==> UClose(t, a - 2)))
            && (0 <= a < |t.list| && a != i && t.list[a] in t.mark ==>
                 t.list[a] in s.mark && s.mark[t.list[a]] == t.mark[t.list[a]])
  {
    SplitList(t, i, x, y, first, second);
    if 0 <= a < |t.list| {
      assert t.list[a] in t.list;
    }
    if 0 <= a - 2 < |t.list| {
      assert t.list[a - 2] in t.list;
    }
  }

  /** A close marker of size 3 is split for the open marker at i, which nothing before it could use. */
  lemma SplitCloseSettled(t: Tokens, i: nat, j: nat, x: int, y: int, first: nat, second: nat)
    requires Formed(t) && Settled(t, i) && Passed(t, i, j) && i < j && CanSplit(t, j, x, y, first, second)
             && UClose(t, j)
    ensures var s := Split(t, j, x, y, first, second); Settled(s, i) && Passed(s, i, j + 1)
  {
    hide Split, Formed, CanSplit;
    var s := Split(t, j, x, y, first, second);
    SplitSize(t, j, x, y, first, second);
    NoneBefore(t, i, j);
    forall a ensures a < i ==> !UOpen(s, a) {
      SplitOpens(t, j, x, y, first, second, a);
    }
    forall b | i < b < j + 1 && UClose(s, b) ensures UOpen(s, i) && Unsuited(s, i, b) {
      SplitOpens(t, j, x, y, first, second, i);
      SplitOpens(t, j, x, y, first, second, b);
      assert Unsuited(t, i, b);
      SplitSame(t, j, x, y, first, second, i);
      SplitSame(t, j, x, y, first, second, b);
    }
    SplitOpens(t, j, x, y, first, second, i);
  }

  /** A close marker of size 3 is left only when no open marker before it is. */
  lemma NoneBefore(t: Tokens, i: nat, j: nat)
    requires Settled(t, i) && i < j && UClose(t, j) && t.mark[t.list[j]].size == 3
    ensures forall a :: a < i ==> !UOpen(t, a)
  {
    forall a | a < i ensures UOpen(t, a) ==> Unsuited(t, a, j) {
    }
  }

  lemma SplitSame(t: Tokens, j: nat, x: int, y: int, first: nat, second: nat, a: nat)
    requires Formed(t) && CanSplit(t, j, x, y, first, second) && a < j
    ensures Split(t, j, x, y, first, second).list[a] == t.list[a]
    ensures t.list[a] in t.mark ==>
              t.list[a] in Split(t, j, x, y, first, second).mark
                && Split(t, j, x, y, first, second).mark[t.list[a]] == t.mark[t.list[a]]
  {
    SplitList(t, j, x, y, first, second);
    assert t.list[a] in t.list;
  }

  lemma SplitSize(t: Tokens, i: nat, x: int, y: int, first: nat, second: nat)
    requires CanSplit(t, i, x, y, first, second)
    ensures i < |t.list| && t.list[i] in t.mark && t.mark[t.list[i]].size == 3
  {
  }

  /** The open marker at i is split: what comes before it is as settled as it was. */
  lemma SplitOpenSettled(t: Tokens, i: nat, x: int, y: int, first: nat, second: nat)
    requires Formed(t) && Settled(t, i) && CanSplit(t, i, x, y, first, second) && UOpen(t, i)
    ensures Settled(Split(t, i, x, y, first, second), i + 1)
  {
    hide Split, CanSplit;
    var s := Split(t, i, x, y, first, second);
    SplitOpens(t, i, x, y, first, second, i);
    SplitNewOpen(t, i, x, y, first, second);
    forall a, b | a < i + 1 && a < b && UOpen(s, a) && UClose(s, b) ensures Unsuited(s, a, b) {
      SplitOpens(t, i, x, y, first, second, a);
      SplitOpens(t, i, x, y, first, second, b);
      var b' := if b <= i then b else b - 2;
      assert UClose(t, b') && Unsuited(t, a, b');
      SplitSame(t, i, x, y, first, second, a);
      SplitMoved(t, i, x, y, first, second, b);
    }
  }

  lemma SplitNewOpen(t: Tokens, i: nat, x: int, y: int, first: nat, second: nat)
    requires Formed(t) && CanSplit(t, i, x, y, first, second) && UOpen(t, i)
    ensures var s := Split(t, i, x, y, first, second); !UClose(s, i) && !UClose(s, i + 1) && !UClose(s, i + 2)
  {
    SplitList(t, i, x, y, first, second);
  }

  lemma SplitMoved(t: Tokens, i: nat, x: int, y: int, first: nat, second: nat, b: nat)
    requires Formed(t) && CanSplit(t, i, x, y, first, second) && b != i && b != i + 1 && b != i + 2 && b < |t.list| + 2
    ensures var s, b' := Split(t, i, x, y, first, second), if b <= i then b else b - 2;
            && |s.list| == |t.list| + 2 && s.list[b] == t.list[b']
            && (t.list[b'] in t.mark ==> t.list[b'] in s.mark && s.mark[t.list[b']] == t.mark[t.list[b']])
  {
    SplitList(t, i, x, y, first, second);
    var b' := if b <= i then b else b - 2;
    assert t.list[b'] in t.list;
  }

  lemma MatchSettled(t: Tokens, i: nat, j: nat, id: int)
    requires Distinct(t.list) && Settled(t, i) && i < j && UOpen(t, i) && UClose(t, j) && t.list[i] != 0
             && t.list[j] != 0
    ensures t.list[i] != t.list[j] && Settled(Match(t, t.list[i], t.list[j], id), i + 1)
  {
    hide Distinct;
    var s := Match(t, t.list[i], t.list[j], id);
    MatchedGone(t, i, j, id);
    forall a, b | a < i + 1 && a < b && UOpen(s, a) && UClose(s, b) ensures Unsuited(s, a, b) {
      assert UOpen(t, a) && t.list[a] != t.list[i];
      assert UClose(t, b) && a != i;
      assert Unsuited(t, a, b);
    }
  }

  lemma MatchedGone(t: Tokens, i: nat, j: nat, id: int)
    requires i < j && UOpen(t, i) && UClose(t, j)
    ensures t.list[i] != t.list[j] && t.list[i] in t.mark && t.list[j] in t.mark
    ensures t.list[i] != 0 && t.list[j] != 0 ==>
              var s := Match(t, t.list[i], t.list[j], id);
              forall a :: (UOpen(s, a) ==>
                UOpen(t, a) && t.list[a] != t.list[i] && s.mark[t.list[a]] == t.mark[t.list[a]])
                       && (UClose(s, a) ==>
                            UClose(t, a) && t.list[a] != t.list[j] && s.mark[t.list[a]] == t.mark[t.list[a]])
  {
  }

  // ---------------------------------------------------------------- one move of the matching pass

  /** The matching pass: the outer loop is at i and, if j is not 0, the inner loop is at j;
      handles from next on are unused. */
  datatype Config = Config(t: Tokens, i: nat, j: nat, id: int, next: int)
  {
    predicate Done() { i >= |t.list| }

    /** What is left of the inner loop. */
    function Inner(): int { if j == 0 then |t.list| + 1 else |t.list| - j }
  }

  /** What is left of a marker of size 3 when a piece is split off. */
  function Rest(size: nat): nat { if size <= 3 then 3 - size else 0 }

  /** One step of the loops. */
  function Move(c: Config): Config {
    var t, i, j := c.t, c.i, c.j;
    if c.Done() then c
    else if j == 0 then if UOpen(t, i) then c.(j := i + 1) else c.(i := i + 1)
    else if j >= |t.list| then c.(i := i + 1, j := 0)
    else if UOpen(t, i) && UClose(t, j) then
      var m, n := t.mark[t.list[i]], t.mark[t.list[j]];
      if n.size == 3 && m.size != 3 then
        Config(Split(t, j, c.next, c.next + 1, Rest(m.size), m.size), i, j + 1, c.id, c.next + 2)
      else if n.ch == m.ch && n.size == m.size then
        Config(Match(t, t.list[i], t.list[j], c.id), i + 1, 0, c.id + 1, c.next)
      else if m.size == 3 then
        Config(Split(t, i, c.next, c.next + 1, Rest(n.size), n.size), i + 1, 0, c.id, c.next + 2)
      else c.(j := j + 1)
    else c.(j := j + 1)
  }

  function Moves(c: Config, n: nat): Config {
    if n == 0 then c else Move(Moves(c, n - 1))
  }

  /** An open marker of size 3 meets a close marker of size 3 with another character. */
  predicate Clash(c: Config) {
    0 < c.j && UOpen(c.t, c.i) && UClose(c.t, c.j) &&
    var m, n := c.t.mark[c.t.list[c.i]], c.t.mark[c.t.list[c.j]];
    m.size == 3 && n.size == 3 && m.ch != n.ch
  }

  ghost predicate Unused(list: seq<int>, next: int) {
    next > 0 && forall x :: x in list ==> x < next
  }

  /** What every move keeps as long as there is no clash. */
  ghost predicate Inv(c: Config) {
    && Paired(c.t, c.id) && Unused(c.t.list, c.next) && c.i <= |c.t.list| && Settled(c.t, c.i)
    && (c.j > 0 ==> c.i < c.j <= |c.t.list| && Passed(c.t, c.i, c.j))
  }

  ghost predicate Smaller(d: Config, c: Config) {
    var a, b := Threes(d.t.list, d.t.mark), Threes(c.t.list, c.t.mark);
    || a < b
    || (a == b && |d.t.list| == |c.t.list| && (d.i > c.i || (d.i == c.i && d.Inner() < c.Inner())))
  }

  ghost predicate Follows(d: Config, c: Config) {
    Inv(d) && Smaller(d, c) && Total(d.t.list, d.t.mark) == Total(c.t.list, c.t.mark)
  }

  lemma SplitUnused(t: Tokens, i: nat, next: int)
    requires i < |t.list| && Unused(t.list, next)
    ensures Unused(t.list[..i + 1] + [next, next + 1] + t.list[i + 1..], next + 2)
  {
    var l := t.list[..i + 1] + [next, next + 1] + t.list[i + 1..];
    forall x | x in l ensures x < next + 2 {
      SplitMember(t, i, next, next + 1, x);
    }
  }

  lemma SplitReady(t: Tokens, id: int, i: nat, next: int, first: nat, second: nat)
    requires Unused(t.list, next) && Paired(t, id) && (UOpen(t, i) || UClose(t, i)) && t.mark[t.list[i]].size == 3
    requires first + second == 3 && first > 0 && second > 0
    ensures CanSplit(t, i, next, next + 1, first, second)
  {
    PairFormed(t, id, i);
  }

  /** The markers that the inner loop compares. */
  ghost predicate Meets(c: Config) {
    0 < c.j && UOpen(c.t, c.i) && UClose(c.t, c.j)
  }

  lemma MoveSplitsClose(c: Config)
    requires Inv(c) && Meets(c) && c.t.mark[c.t.list[c.j]].size == 3 && c.t.mark[c.t.list[c.i]].size != 3
    ensures Follows(Move(c), c)
  {
    hide Paired, Total, Threes, Settled, Passed, Unsuited, CanSplit, Split;
    var t, i, j, next := c.t, c.i, c.j, c.next;
    PairSizes(t, c.id, i, j);
    var m := t.mark[t.list[i]];
    SplitReady(t, c.id, j, next, 3 - m.size, m.size);
    SplitCloseSettled(t, i, j, next, next + 1, 3 - m.size, m.size);
    SplitKeeps(t, c.id, j, next, next + 1, 3 - m.size, m.size);
    SplitUnused(t, j, next);
    SplitLength(t, j, next, next + 1, 3 - m.size, m.size);
  }

  lemma SplitLength(t: Tokens, i: nat, x: int, y: int, first: nat, second: nat)
    requires i < |t.list| && t.list[i] in t.mark
    ensures var l := Split(t, i, x, y, first, second).list;
            |l| == |t.list| + 2 && l == t.list[..i + 1] + [x, y] + t.list[i + 1..]
  {
  }

  lemma MoveMatches(c: Config)
    requires Inv(c) && Meets(c)
    requires var m, n := c.t.mark[c.t.list[c.i]], c.t.mark[c.t.list[c.j]]; m.ch == n.ch && m.size == n.size
    ensures Follows(Move(c), c)
  {
    hide Paired, Total, Threes, Settled, Passed;
    PairSizes(c.t, c.id, c.i, c.j);
    MatchKeeps(c.t, c.id, c.i, c.j);
    MatchSettled(c.t, c.i, c.j, c.id);
  }

  lemma MoveSplitsOpen(c: Config)
    requires Inv(c) && Meets(c) && c.t.mark[c.t.list[c.i]].size == 3 && c.t.mark[c.t.list[c.j]].size != 3
    ensures Follows(Move(c), c)
  {
    hide Paired, Total, Threes, Settled, Passed, CanSplit, Split;
    var t, i, j, next := c.t, c.i, c.j, c.next;
    PairSizes(t, c.id, i, j);
    var n := t.mark[t.list[j]];
    SplitReady(t, c.id, i, next, 3 - n.size, n.size);
    SplitOpenSettled(t, i, next, next + 1, 3 - n.size, n.size);
    SplitKeeps(t, c.id, i, next, next + 1, 3 - n.size, n.size);
    SplitUnused(t, i, next);
    SplitLength(t, i, next, next + 1, 3 - n.size, n.size);
  }

  lemma MovePasses(c: Config)
    requires Inv(c) && !c.Done() && (c.j == 0 || c.j >= |c.t.list| || !UClose(c.t, c.j) || Unsuited(c.t, c.i, c.j))
    ensures Follows(Move(c), c)
  {
    hide Paired, Total, Threes;
    if c.j == 0 && UOpen(c.t, c.i) {
      PassedStart(c.t, c.i);
    } else if c.j == 0 {
      SettledStep(c.t, c.i);
    } else if c.j >= |c.t.list| {
      PassedAll(c.t, c.i);
    } else {
      PassedStep(c.t, c.i, c.j);
    }
  }

  /** Without a clash a move keeps the invariant and the total size, and gets closer to the end. */
  lemma MoveKeeps(c: Config)
    requires Inv(c) && !c.Done() && !Clash(c)
    ensures Follows(Move(c), c)
  {
    hide Paired, Settled, Follows, Move;
    if c.j > 0 && UClose(c.t, c.j) {
      var m, n := c.t.mark[c.t.list[c.i]], c.t.mark[c.t.list[c.j]];
      if n.size == 3 && m.size != 3 {
        MoveSplitsClose(c);
      } else if n.ch == m.ch && n.size == m.size {
        MoveMatches(c);
      } else if m.size == 3 {
        MoveSplitsOpen(c);
      } else {
        MovePasses(c);
      }
    } else {
      MovePasses(c);
    }
  }

  // ---------------------------------------------------------------- when matching comes to an end

  lemma {:induction false} MovesShift(c: Config, n: nat)
    ensures Moves(Move(c), n) == Moves(c, n + 1)
  {
    if n > 0 {
      MovesShift(c, n - 1);
    }
  }

  ghost predicate NeverClashes(c: Config) {
    forall n: nat :: !Clash(Moves(c, n))
  }

  /** If no clash ever happens, the pass ends. */
  lemma {:induction false} Ends(c: Config) returns (n: nat)
    requires Inv(c) && NeverClashes(c)
    ensures Moves(c, n).Done()
    decreases Threes(c.t.list, c.t.mark), |c.t.list| - c.i, c.Inner()
  {
    hide Paired, Settled, Passed, Threes, Total, Move, Unused;
    if c.Done() {
      n := 0;
    } else {
      assert !Clash(Moves(c, 0));
      MoveKeeps(c);
      forall m: nat ensures !Clash(Moves(Move(c), m)) {
        MovesShift(c, m);
      }
      InnerNonnegative(c);
      InnerNonnegative(Move(c));
      n := Ends(Move(c));
      MovesShift(c, n);
      n := n + 1;
    }
  }

  lemma InnerNonnegative(c: Config)
    requires Inv(c)
    ensures c.i <= |c.t.list| && c.Inner() >= 0
  {
  }

  /** The open marker of the loops has size 0, and the inner loop is on its way to a close
      marker of size 3 at b. */
  ghost predicate Trapped(c: Config, b: int) {
    && Distinct(c.t.list) && Unused(c.t.list, c.next)
    && UOpen(c.t, c.i) && c.t.mark[c.t.list[c.i]].size == 0
    && c.i < b && c.j <= b && (c.j > 0 ==> c.i < c.j)
    && UClose(c.t, b) && c.t.mark[c.t.list[b]].size == 3
    && forall k :: c.i < k < b && c.j <= k && UClose(c.t, k) ==> 1 <= c.t.mark[c.t.list[k]].size <= 2
  }

  /** There is no way out: when the close marker is reached it is split into one of size 3,
      which is next, and one of size 0. */
  lemma TrapHolds(c: Config, b: int)
    requires Trapped(c, b)
    ensures !c.Done()
    ensures c.j == b ==> Trapped(Move(c), b + 1) && Move(c).j == b + 1 && |Move(c).t.list| == |c.t.list| + 2
    ensures c.j != b ==> Trapped(Move(c), b) && |Move(c).t.list| == |c.t.list| && Move(c).Inner() < c.Inner()
  {
    if c.j == b {
      TrapSplits(c);
    }
  }

  lemma TrapSplits(c: Config)
    requires Trapped(c, c.j)
    ensures Trapped(Move(c), c.j + 1) && Move(c).j == c.j + 1 && |Move(c).t.list| == |c.t.list| + 2
  {
    hide Distinct;
    var t, x, y := c.t, c.next, c.next + 1;
    SplitUnused(t, c.j, x);
    DistinctSplit(t.list, c.j, x, y);
    assert t.list[c.i] in t.list && t.list[c.j] in t.list;
    DistinctAt(t.list, c.i, c.j);
    assert Move(c).t == Split(t, c.j, x, y, 3, 0);
  }

  lemma DistinctAt(list: seq<int>, i: nat, j: nat)
    requires Distinct(list) && i < j < |list|
    ensures list[i] != list[j]
  {
  }

  lemma DistinctSplit(list: seq<int>, i: nat, x: int, y: int)
    requires Distinct(list) && i < |list| && x !in list && y !in list && x != y
    ensures Distinct(list[..i + 1] + [x, y] + list[i + 1..])
  {
    var l := list[..i + 1] + [x, y] + list[i + 1..];
    forall a, b | 0 <= a < b < |l| ensures l[a] != l[b] {
      assert a <= i ==> l[a] == list[a];
      assert b <= i ==> l[b] == list[b];
      assert a > i + 2 ==> l[a] == list[a - 2];
      assert b > i + 2 ==> l[b] == list[b - 2];
    }
  }

  /** In the trap the search makes n further splits, for every n. */
  lemma {:induction false} TrapSplitsOn(c: Config, b: int, n: nat) returns (k: nat, e: int)
    requires Trapped(c, b)
    ensures Trapped(Moves(c, k), e) && |Moves(c, k).t.list| == |c.t.list| + 2 * n
    decreases n, c.Inner()
  {
    hide Trapped, Move;
    if n == 0 {
      k, e := 0, b;
    } else {
      TrapHolds(c, b);
      TrapInner(c, b);
      if c.j == b {
        k, e := TrapSplitsOn(Move(c), b + 1, n - 1);
      } else {
        TrapInner(Move(c), b);
        k, e := TrapSplitsOn(Move(c), b, n);
      }
      MovesShift(c, k);
      k := k + 1;
    }
  }

  lemma TrapInner(c: Config, b: int)
    requires Trapped(c, b)
    ensures c.Inner() > 0
  {
  }

  lemma {:induction false} TrapStays(c: Config, b: int, n: nat) returns (e: int)
    requires Trapped(c, b)
    ensures Trapped(Moves(c, n), e) && !Moves(c, n).Done()
  {
    hide Trapped, Move;
    if n == 0 {
      e := b;
    } else {
      e := TrapStays(c, b, n - 1);
      TrapHolds(Moves(c, n - 1), e);
      e := if Moves(c, n - 1).j == e then e + 1 else e;
    }
    TrapHolds(Moves(c, n), e);
  }

  /** An open marker of size 3 is compared with the first close marker after it. */
  lemma NoneBetween(t: Tokens, i: nat, j: nat)
    requires Passed(t, i, j) && t.mark[t.list[i]].size == 3
    ensures forall b :: i < b < j ==> !UClose(t, b)
  {
  }

  /** Where a marker is when the open marker at i has been split for a clash. */
  lemma ClashMoves(c: Config, k: nat)
    requires Inv(c) && Clash(c) && c.i < k < |c.t.list|
    ensures var d := Split(c.t, c.i, c.next, c.next + 1, 0, 3);
            && k + 2 < |d.list| && d.list[k + 2] == c.t.list[k] && (UClose(d, k + 2) <==> UClose(c.t, k))
            && (c.t.list[k] in c.t.mark ==> d.mark[d.list[k + 2]] == c.t.mark[c.t.list[k]])
  {
    hide Paired, Settled, Passed;
    var t := c.t;
    ClashParts(c);
    DistinctAt(t.list, c.i, k);
    assert t.list[k] in t.list;
  }

  lemma ClashParts(c: Config)
    requires Inv(c) && Clash(c)
    ensures Distinct(c.t.list) && Unused(c.t.list, c.next) && Passed(c.t, c.i, c.j) && c.i < c.j < |c.t.list|
  {
    hide Settled, Passed, Unused;
    PairSizes(c.t, c.id, c.i, c.j);
  }

  lemma ClashOpens(c: Config)
    requires Inv(c) && Clash(c)
    ensures var d := Split(c.t, c.i, c.next, c.next + 1, 0, 3);
            && UOpen(d, c.i + 1) && d.mark[d.list[c.i + 1]].size == 0 && !UClose(d, c.i + 2)
            && Move(c) == Config(d, c.i + 1, 0, c.id, c.next + 2)
  {
    hide Paired, Settled, Passed;
    ClashParts(c);
  }

  /** A clash splits the open marker into pieces of sizes 0 and 3, and the trap is set. */
  lemma ClashTraps(c: Config)
    requires Inv(c) && Clash(c)
    ensures Trapped(Move(c), c.j + 2)
  {
    hide Inv, Move, Split, Passed, Distinct, Unused;
    var t, i, x, y := c.t, c.i, c.next, c.next + 1;
    ClashParts(c);
    SplitUnused(t, i, x);
    NewHandles(t.list, x);
    DistinctSplit(t.list, i, x, y);
    SplitLength(t, i, x, y, 0, 3);
    ClashOpens(c);
    ClashMoves(c, c.j);
    NoneBetween(t, i, c.j);
    forall k | i + 2 < k < c.j + 2 ensures !UClose(Move(c).t, k) {
      ClashMoves(c, k - 2);
    }
  }

  lemma NewHandles(list: seq<int>, next: int)
    requires Unused(list, next)
    ensures next !in list && next + 1 !in list
  {
  }

  /** After a clash the pass never ends. */
  lemma ClashForever(c: Config, n: nat, m: nat)
    requires Inv(c) && Clash(Moves(c, n)) && (forall k: nat :: k < n ==> !Clash(Moves(c, k)))
    ensures !Moves(c, m).Done()
  {
    hide Inv, Clash, Move, Trapped;
    if m <= n {
      MovesInv(c, n);
      if Moves(c, m).Done() {
        DoneStays(c, m, n - m);
      }
    } else {
      MovesInv(c, n);
      ClashTraps(Moves(c, n));
      var e := TrapStays(Move(Moves(c, n)), Moves(c, n).j + 2, m - n - 1);
      MovesJoin(c, n + 1, m - n - 1);
    }
  }

  lemma {:induction false} MovesInv(c: Config, n: nat)
    requires Inv(c) && forall k: nat :: k < n ==> !Clash(Moves(c, k))
    ensures Inv(Moves(c, n)) && Total(Moves(c, n).t.list, Moves(c, n).t.mark) == Total(c.t.list, c.t.mark)
  {
    hide Inv, Clash, Total, Move;
    if n > 0 {
      MovesInv(c, n - 1);
      if Moves(c, n - 1).Done() {
        MoveDone(Moves(c, n - 1));
      } else {
        MoveKeeps(Moves(c, n - 1));
      }
    }
  }

  lemma MoveDone(c: Config)
    requires c.Done()
    ensures Move(c) == c && !Clash(c)
  {
  }

  lemma {:induction false} DoneStays(c: Config, m: nat, k: nat)
    requires Moves(c, m).Done()
    ensures Moves(c, m + k) == Moves(c, m) && !Clash(Moves(c, m + k))
  {
    hide Clash, Move;
    MoveDone(Moves(c, m));
    if k > 0 {
      DoneStays(c, m, k - 1);
    }
  }

  lemma {:induction false} MovesJoin(c: Config, a: nat, b: nat)
    ensures Moves(Moves(c, a), b) == Moves(c, a + b)
  {
    hide Move;
    if b > 0 {
      MovesJoin(c, a, b - 1);
    }
  }

  lemma {:induction false} FirstClash(c: Config, n: nat) returns (m: nat)
    requires Clash(Moves(c, n))
    ensures m <= n && Clash(Moves(c, m)) && forall k: nat :: k < m ==> !Clash(Moves(c, k))
  {
    hide Clash, Moves;
    if k: nat :| k < n && Clash(Moves(c, k)) {
      m := FirstClash(c, k);
    } else {
      m := n;
    }
  }

  /** The pass ends with the tokens t. */
  ghost predicate Leads(c: Config, t: Tokens) {
    exists n: nat :: Moves(c, n).Done() && Moves(c, n).t == t
  }

  ghost predicate Terminates(c: Config) {
    exists n: nat :: Moves(c, n).Done()
  }

  /** Matching ends if and only if no open marker of size 3 ever meets an unmatched close
      marker of size 3 with another character. */
  lemma EndsUnlessClash(c: Config)
    requires Inv(c)
    ensures Terminates(c) <==> NeverClashes(c)
  {
    hide Inv, Clash, Moves;
    if NeverClashes(c) {
      var n := Ends(c);
      assert Moves(c, n).Done();
    } else {
      var n: nat :| Clash(Moves(c, n));
      var m := FirstClash(c, n);
      forall k: nat ensures !Moves(c, k).Done() {
        ClashForever(c, m, k);
      }
    }
  }

  // ---------------------------------------------------------------- triples of one or two characters

  /** The active markers of size 3 all carry character ch. */
  ghost predicate OneChar(t: Tokens, ch: char) {
    forall x :: x in t.mark && t.mark[x].size == 3 && !t.mark[x].disabled ==> t.mark[x].ch == ch
  }

  lemma MoveOneChar(c: Config, ch: char)
    requires Inv(c) && OneChar(c.t, ch)
    ensures !Clash(c) && OneChar(Move(c).t, ch)
  {
    hide Settled, Passed, Distinct, Mated, IdsOk;
    if Meets(c) {
      PairSizes(c.t, c.id, c.i, c.j);
    }
  }

  lemma {:induction false} MovesOneChar(c: Config, ch: char, n: nat)
    requires Inv(c) && OneChar(c.t, ch)
    ensures Inv(Moves(c, n)) && OneChar(Moves(c, n).t, ch) && !Clash(Moves(c, n))
  {
    hide Inv, OneChar, Clash, Move;
    if n > 0 {
      MovesOneChar(c, ch, n - 1);
      if Moves(c, n - 1).Done() {
        MoveDone(Moves(c, n - 1));
      } else {
        MoveKeeps(Moves(c, n - 1));
      }
      MoveOneChar(Moves(c, n - 1), ch);
    }
    MoveOneChar(Moves(c, n), ch);
  }

  /** With triples of one character only, matching always ends. */
  lemma OneCharEnds(c: Config, ch: char)
    requires Inv(c) && OneChar(c.t, ch)
    ensures Terminates(c)
  {
    hide Inv, OneChar, Clash, Moves;
    forall n: nat ensures !Clash(Moves(c, n)) {
      MovesOneChar(c, ch, n);
    }
    EndsUnlessClash(c);
  }

  /** The tokens of the text ***a___ : an open marker, a text, and a close marker. */
  function TwoTriples(): Tokens {
    Tokens([1, 2, 3], map[1 := NewMarker(true, '*', 3), 3 := NewMarker(false, '_', 3)])
  }

  lemma TwoTriplesClash()
    ensures var c := Start(TwoTriples(), 4);
            && Inv(c) && Moves(c, 2) == Config(TwoTriples(), 0, 2, 0, 4) && Clash(Moves(c, 2))
            && forall k: nat :: k < 2 ==> !Clash(Moves(c, k))
  {
    var t, c := TwoTriples(), Start(TwoTriples(), 4);
    StartInv(t, 4);
    assert Moves(c, 0) == c;
    assert Moves(c, 1) == Config(t, 0, 1, 0, 4);
    assert Moves(c, 2) == Config(t, 0, 2, 0, 4);
  }

  lemma TwoTriplesSplit()
    ensures var d := Move(Config(TwoTriples(), 0, 2, 0, 4));
            && |d.t.list| == 5 && UOpen(d.t, d.i) && d.t.mark[d.t.list[d.i]].size == 0
  {
  }

  /** Its matching never ends: the open marker is split into pieces of sizes 0 and 3, and from
      then on the list grows beyond every length. */
  lemma MixedTriples(n: nat) returns (k: nat)
    ensures var c := Start(TwoTriples(), 4);
            && Inv(c) && Clash(Moves(c, 2)) && !Terminates(c)
            && UOpen(Moves(c, 3).t, Moves(c, 3).i) && Moves(c, 3).t.mark[Moves(c, 3).t.list[Moves(c, 3).i]].size == 0
            && |Moves(c, k).t.list| == 5 + 2 * n
  {
    hide Inv, Clash, Move, Moves, TwoTriples, Trapped;
    var c := Start(TwoTriples(), 4);
    TwoTriplesClash();
    TwoTriplesSplit();
    MovesNext(c, 2);
    MovesInv(c, 2);
    ClashTraps(Moves(c, 2));
    var m, e := TrapSplitsOn(Moves(c, 3), 4, n);
    MovesJoin(c, 3, m);
    k := 3 + m;
    EndsUnlessClash(c);
  }

  class Spans {
    var list: seq<int>
    var mark: map<int, Marker>
    var next: int

    function View(): Tokens
      reads this
    {
      Tokens(list, mark)
    }

    /** The loops at i and j. */
    function At(i: nat, j: nat, id: int): Config
      reads this
    {
      Config(View(), i, j, id, next)
    }

    /** Disables the marker at i and puts two of the given sizes after it. */
    method SplitAt(i: nat, first: nat, second: nat)
      requires i < |list| && list[i] in mark
      modifies this
      ensures View() == Split(old(View()), i, old(next), old(next) + 1, first, second) && next == old(next) + 2
    {
      var m := mark[list[i]];
      mark := mark[list[i] := m.Disable()];
      mark := mark[next := NewMarker(m.open, m.ch, first)][next + 1 := NewMarker(m.open, m.ch, second)];
      list := list[..i + 1] + [next, next + 1] + list[i + 1..];
      next := next + 2;
    }

    /** Looks for a mate of the open marker at i. Where the program would be caught by a clash
        for ever, the search stops and says so. */
    method FindMate(i: nat, id: int, ghost c: Config, ghost n: nat) returns (id': int, stuck: bool, ghost n': nat)
      requires Inv(At(i, 0, id)) && UOpen(View(), i) && Moves(c, n) == At(i, 0, id)
      requires forall k: nat :: k < n ==> !Clash(Moves(c, k))
      modifies this
      ensures n' > n && forall k: nat :: k < n' ==> !Clash(Moves(c, k))
      ensures stuck ==> Clash(Moves(c, n'))
      ensures !stuck ==> Moves(c, n') == At(i + 1, 0, id') && Inv(At(i + 1, 0, id'))
      ensures var a, b := Threes(list, mark), Threes(old(list), old(mark)); a < b || (a == b && |list| == |old(list)|)
    {
      hide Inv, Threes, Move, Clash, Follows, Split;
      id', stuck, n' := id, false, n + 1;
      MoveEnters(At(i, 0, id));
      var j := i + 1;
      while j < |list|
        invariant i < j && n' > n && Inv(At(i, j, id)) && UOpen(View(), i) && Moves(c, n') == At(i, j, id)
        invariant forall k: nat :: k < n' ==> !Clash(Moves(c, k))
        invariant var a, b := Threes(list, mark), Threes(old(list), old(mark));
                  a < b || (a == b && |list| == |old(list)|)
        decreases Threes(list, mark), |list| - j
      {
        ghost var here := At(i, j, id);
        MoveCases(here);
        if list[j] in mark && mark[list[j]].UnmatchedClose() {
          var m, close := mark[list[i]], mark[list[j]];
          if m.size == 3 && close.size == 3 && m.ch != close.ch {
            return id, true, n';
          }
          MoveKeeps(here);
          FollowsThrees(here);
          n' := n' + 1;
          if close.size == 3 && m.size != 3 {
            SplitAt(j, 3 - m.size, m.size);
          } else if close.ch == m.ch && close.size == m.size {
            mark := mark[list[i] := m.Matched(list[j], id)];
            mark := mark[list[j] := close.Matched(list[i], id)];
            return id + 1, false, n';
          } else if m.size == 3 {
            SplitAt(i, 3 - close.size, close.size);
            return id, false, n';
          }
        } else {
          MoveKeeps(here);
          FollowsThrees(here);
          n' := n' + 1;
        }
        j := j + 1;
      }
      MoveLeaves(At(i, j, id));
      n' := n' + 1;
    }

    /** The matching pass: it ends with every marker settled, unless it meets a clash. */
    method Pair() returns (id: int, stuck: bool)
      requires Unused(list, next) && Formed(View()) && forall x :: x in mark ==> mark[x].mate == 0
      modifies this
      ensures stuck <==> !Terminates(old(Start(View(), next)))
      ensures !stuck ==> Leads(old(Start(View(), next)), View())
      ensures !stuck ==>
                Paired(View(), id) && Settled(View(), |list|) && Total(list, mark) == Total(old(list), old(mark))
    {
      hide Inv, Threes, Move, Clash, Paired, Settled, Total, Moves;
      id, stuck := 0, false;
      ghost var c := Start(View(), next);
      StartInv(View(), next);
      MovesNone(c);
      EndsUnlessClash(c);
      ghost var n := 0;
      var i := 0;
      while i < |list|
        invariant Inv(At(i, 0, id)) && Moves(c, n) == At(i, 0, id)
        invariant forall k: nat :: k < n ==> !Clash(Moves(c, k))
        decreases Threes(list, mark), |list| - i
      {
        if list[i] in mark && mark[list[i]].UnmatchedOpen() {
          id, stuck, n := FindMate(i, id, c, n);
          if stuck { return; }
        } else {
          MoveSkips(At(i, 0, id));
          MovesNext(c, n);
          n := n + 1;
        }
        i := i + 1;
      }
      InvParts(At(i, 0, id));
      MovesInv(c, n);
      assert Moves(c, n).Done();
    }

    /** The un-matching pass: the pairs that another one crosses from inside are undone, and
        afterwards the matched markers nest. */
    method Unmatch(ghost id: int)
      requires Paired(View(), id)
      modifies this`mark
      ensures mark == Kept(old(View()))
      ensures Paired(View(), id) && Run(list, mark) == Some([]) && Total(list, mark) == Total(list, old(mark))
    {
      hide Paired, Total, Run, Live, Undo, Crossed, Pruned, Kept;
      ghost var t0 := View();
      var stack: seq<int> := [];
      var k := 0;
      RunStart(list, mark);
      PruneStart(t0);
      while k < |list|
        invariant 0 <= k <= |list| && Paired(View(), id) && OnStack(View(), stack)
        invariant Run(list[..k], mark) == Some(Live(stack, mark)) && mark == Pruned(t0, k)
        invariant Total(list, mark) == Total(list, old(mark))
      {
        var x := list[k];
        ghost var t := View();
        PruneStep(t0, id, k);
        if MatchedOpen(mark, x) {
          PushStep(t, k, stack);
          stack := stack + [x];
        } else if MatchedClose(mark, x) {
          CloseTop(t, id, k, stack);
          var top := stack[|stack| - 1];
          CrossedTop(t0, t, id, k, stack);
          if mark[x].id != mark[top].id {
            UndoStep(t, id, k, stack);
            UndoIs(t, x);
            var mate := mark[x].mate;
            mark := mark[mate := mark[mate].Matched(0, -1)];
            mark := mark[x := mark[x].Matched(0, -1)];
            assert View() == Undo(t, x);
          } else {
            PopStep(t, k, stack);
            stack := stack[..|stack| - 1];
            ghost var st := Live(stack, mark);
            while stack != [] && mark[stack[|stack| - 1]].mate == 0
              invariant mark == t.mark && Opens(t, stack) && Live(stack, mark) == st
            {
              TrimStep(t, stack);
              stack := stack[..|stack| - 1];
            }
            OnStackIntro(t, stack);
          }
        } else {
          SkipStep(t, k, stack);
        }
        k := k + 1;
      }
      assert list[..k] == list;
      PruneEnd(t0, id);
      NothingLeft(View(), id, stack);
    }

    /** Both passes: unless matching meets a clash, the tags written are balanced and nested, and
        the pairs are those of the matching pass that no other pair crosses from inside. */
    method Match() returns (stuck: bool, ghost t: Tokens)
      requires Unused(list, next) && Formed(View()) && forall x :: x in mark ==> mark[x].mate == 0
      modifies this
      ensures stuck <==> !Terminates(old(Start(View(), next)))
      ensures !stuck ==> Leads(old(Start(View(), next)), t)
      ensures !stuck ==> list == t.list && mark == Kept(t) && Nest(Tags(list, mark), []) == Some([])
      ensures !stuck ==> Total(list, mark) == Total(old(list), old(mark))
    {
      hide Paired, Total, Run, Settled, Moves, Kept, Unused, Formed, Nest, Tags, Leads;
      var id;
      id, stuck := Pair();
      t := View();
      if !stuck {
        Unmatch(id);
        TagsBalanced(View(), id);
      }
    }
  }

  lemma MoveEnters(c: Config)
    requires Inv(c) && c.j == 0 && UOpen(c.t, c.i)
    ensures Move(c) == c.(j := c.i + 1) && Inv(Move(c)) && !Clash(c)
  {
    hide Paired;
    MoveKeeps(c);
  }

  lemma MoveSkips(c: Config)
    requires Inv(c) && c.j == 0 && !UOpen(c.t, c.i) && !c.Done()
    ensures Move(c) == c.(i := c.i + 1) && Inv(Move(c)) && !Clash(c)
  {
    hide Paired;
    MoveKeeps(c);
  }

  lemma MoveLeaves(c: Config)
    requires Inv(c) && c.j > 0 && c.j >= |c.t.list|
    ensures Move(c) == c.(i := c.i + 1, j := 0) && Inv(Move(c)) && !Clash(c)
  {
    hide Paired;
    MoveKeeps(c);
  }

  lemma MovesNone(c: Config)
    ensures Moves(c, 0) == c
  {
  }

  lemma MovesNext(c: Config, n: nat)
    ensures Moves(c, n + 1) == Move(Moves(c, n))
  {
  }

  lemma InvParts(c: Config)
    requires Inv(c)
    ensures Paired(c.t, c.id) && c.i <= |c.t.list| && Settled(c.t, c.i)
  {
  }

  lemma FollowsThrees(c: Config)
    requires Follows(Move(c), c)
    ensures Inv(Move(c))
    ensures var d := Move(c);
            var a, b := Threes(d.t.list, d.t.mark), Threes(c.t.list, c.t.mark);
            a < b || (a == b && |d.t.list| == |c.t.list|)
  {
  }

  /** What the inner loop does at j. */
  lemma MoveCases(c: Config)
    requires Inv(c) && 0 < c.j < |c.t.list| && UOpen(c.t, c.i)
    ensures !UClose(c.t, c.j) ==> Move(c) == c.(j := c.j + 1) && !Clash(c)
    ensures UClose(c.t, c.j) ==>
              var t := c.t;
              var m, n := t.mark[t.list[c.i]], t.mark[t.list[c.j]];
              && 1 <= m.size <= 3 && 1 <= n.size <= 3
              && (Clash(c) <==> m.size == 3 && n.size == 3 && m.ch != n.ch)
              && (if n.size == 3 && m.size != 3 then
                    Move(c) == Config(Split(t, c.j, c.next, c.next + 1, 3 - m.size, m.size), c.i, c.j + 1, c.id,
                                      c.next + 2)
                    && UOpen(Move(c).t, c.i)
                  else if n.ch == m.ch && n.size == m.size then
                    Move(c) == Config(Match(t, t.list[c.i], t.list[c.j], c.id), c.i + 1, 0, c.id + 1, c.next)
                    && t.list[c.i] != t.list[c.j]
                  else if m.size == 3 then
                    Move(c) == Config(Split(t, c.i, c.next, c.next + 1, 3 - n.size, n.size), c.i + 1, 0, c.id,
                                      c.next + 2)
                  else Move(c) == c.(j := c.j + 1))
  {
    hide Settled, Passed, Split, Paired;
    if UClose(c.t, c.j) {
      PairSizes(c.t, c.id, c.i, c.j);
      SplitOpenStays(c);
    }
  }

  lemma SplitOpenStays(c: Config)
    requires Inv(c) && Meets(c)
    ensures c.t.mark[c.t.list[c.j]].size == 3 && c.t.mark[c.t.list[c.i]].size != 3 ==> UOpen(Move(c).t, c.i)
  {
    hide Settled, Paired, Move, Clash;
    if c.t.mark[c.t.list[c.j]].size == 3 && c.t.mark[c.t.list[c.i]].size != 3 {
      MoveSplitsClose(c);
      MoveStays(c);
    }
  }

  lemma MoveStays(c: Config)
    requires Meets(c) && c.t.mark[c.t.list[c.j]].size == 3 && c.t.mark[c.t.list[c.i]].size != 3 && Inv(Move(c))
    ensures UOpen(Move(c).t, c.i)
  {
    hide Paired, Settled, Split;
  }

  lemma PairFormed(t: Tokens, id: int, i: nat)
    requires Paired(t, id) && i < |t.list| && t.list[i] in t.mark
    ensures MarkerOk(t.mark[t.list[i]])
  {
    assert Formed(t);
    var x := t.list[i];
    assert x in t.mark;
  }

  lemma PassedStart(t: Tokens, i: nat)
    requires UOpen(t, i)
    ensures Passed(t, i, i + 1)
  {
  }

  /** Sizes of an open marker and a close marker that are being compared. */
  lemma PairSizes(t: Tokens, id: int, i: nat, j: nat)
    requires Paired(t, id) && UOpen(t, i) && UClose(t, j)
    ensures var m, c := t.mark[t.list[i]], t.mark[t.list[j]];
            && 1 <= m.size <= 3 && 1 <= c.size <= 3
            && t.list[i] > 0 && t.list[j] > 0 && Formed(t)
  {
  }

  lemma PassedStep(t: Tokens, i: nat, j: nat)
    requires Passed(t, i, j) && (UClose(t, j) ==> Unsuited(t, i, j))
    ensures Passed(t, i, j + 1)
  {
  }

  lemma PassedAll(t: Tokens, i: nat)
    requires Settled(t, i) && Passed(t, i, |t.list|)
    ensures Settled(t, i + 1)
  {
  }

  lemma SettledStep(t: Tokens, i: nat)
    requires Settled(t, i) && !UOpen(t, i)
    ensures Settled(t, i + 1)
  {
  }

  /** Where the pass starts. */
  function Start(t: Tokens, next: int): Config { Config(t, 0, 0, 0, next) }

  lemma StartInv(t: Tokens, next: int)
    requires Formed(t) && Unused(t.list, next) && forall x :: x in t.mark ==> t.mark[x].mate == 0
    ensures Inv(Start(t, next))
  {
  }

  // ---------------------------------------------------------------- un-matching


  predicate MatchedOpen(mark: map<int, Marker>, x: int) { x in mark && mark[x].open && mark[x].mate != 0 }

  predicate MatchedClose(mark: map<int, Marker>, x: int) { x in mark && !mark[x].open && mark[x].mate != 0 }

  /** One marker read against the open markers that wait for their mates, innermost last. */
  function Step(mark: map<int, Marker>, st: seq<int>, x: int): Option<seq<int>> {
    if MatchedOpen(mark, x) then Some(st + [x])
    else if MatchedClose(mark, x) then
      if st != [] && st[|st| - 1] == mark[x].mate then Some(st[..|st| - 1]) else None
    else Some(st)
  }

  /** Reads the matched markers of a list as brackets: the ones still open, or None when a
      close marker meets another open marker than its own. */
  function Run(list: seq<int>, mark: map<int, Marker>): Option<seq<int>> {
    if list == [] then Some([])
    else
      match Run(list[..|list| - 1], mark)
      case None => None
      case Some(st) => Step(mark, st, list[|list| - 1])
  }

  /** The markers of a stack that are still matched. */
  function Live(stack: seq<int>, mark: map<int, Marker>): seq<int> {
    if stack == [] then []
    else Live(stack[..|stack| - 1], mark) + (if MatchedOpen(mark, stack[|stack| - 1]) then [stack[|stack| - 1]] else [])
  }

  lemma RunStep(list: seq<int>, k: nat, mark: map<int, Marker>)
    requires k < |list|
    ensures Run(list[..k + 1], mark) ==
            match Run(list[..k], mark) case None => None case Some(st) => Step(mark, st, list[k])
  {
    assert list[..k + 1][..k] == list[..k];
  }

  /** The open markers that wait are in the list, and their mates are not there yet. */
  ghost predicate Waiting(t: Tokens, k: nat, st: seq<int>)
    requires k <= |t.list|
  {
    && Distinct(st)
    && forall x :: x in st ==> MatchedOpen(t.mark, x) && x in t.list[..k] && t.mark[x].mate !in t.list[..k]
  }

  lemma {:induction false} RunWaiting(t: Tokens, id: int, k: nat)
    requires Paired(t, id) && k <= |t.list| && Run(t.list[..k], t.mark).Some?
    ensures Waiting(t, k, Run(t.list[..k], t.mark).value)
    ensures forall x :: MatchedOpen(t.mark, x) && x in t.list[..k] && t.mark[x].mate !in t.list[..k] ==>
              x in Run(t.list[..k], t.mark).value
  {
    hide Paired;
    if k > 0 {
      RunStep(t.list, k - 1, t.mark);
      RunWaiting(t, id, k - 1);
      var st, x := Run(t.list[..k - 1], t.mark).value, t.list[k - 1];
      PrefixAt(t, id, k - 1);
      WaitingStep(t, id, k - 1, st);
    }
  }

  /** The next token is new to the prefix; an open marker's mate comes later, a close marker's before. */
  lemma PrefixAt(t: Tokens, id: int, k: nat)
    requires Paired(t, id) && k < |t.list|
    ensures var x := t.list[k];
            && x !in t.list[..k] && (forall y :: y in t.list[..k + 1] <==> y in t.list[..k] || y == x)
            && (MatchedOpen(t.mark, x) ==> t.mark[x].mate !in t.list[..k + 1])
            && (MatchedClose(t.mark, x) ==> t.mark[x].mate in t.list[..k])
            && (forall y :: MatchedOpen(t.mark, y) ==>
                 MatchedClose(t.mark, t.mark[y].mate) && t.mark[t.mark[y].mate].mate == y)
            && (forall y :: MatchedClose(t.mark, y) ==>
                 MatchedOpen(t.mark, t.mark[y].mate) && t.mark[t.mark[y].mate].mate == y)
  {
    var x := t.list[k];
    assert t.list[..k + 1] == t.list[..k] + [x];
    MateFacts(t, id);
    if MatchedOpen(t.mark, x) {
      OrderAt(t, x, t.mark[x].mate, k);
    } else if MatchedClose(t.mark, x) {
      OrderAt(t, t.mark[x].mate, x, k);
    }
  }

  lemma MateFacts(t: Tokens, id: int)
    requires Paired(t, id)
    ensures Distinct(t.list)
    ensures forall y :: MatchedOpen(t.mark, y) ==>
              MatchedClose(t.mark, t.mark[y].mate)
              && t.mark[t.mark[y].mate].mate == y && Before(t.list, y, t.mark[y].mate)
    ensures forall y :: MatchedClose(t.mark, y) ==>
              MatchedOpen(t.mark, t.mark[y].mate)
              && t.mark[t.mark[y].mate].mate == y && Before(t.list, t.mark[y].mate, y)
  {
    hide Before, Distinct, IdsOk;
    forall y | y in t.mark && t.mark[y].mate != 0 ensures MateOk(t, y) && y > 0 {
      assert Formed(t);
    }
  }

  lemma OrderAt(t: Tokens, x: int, y: int, k: nat)
    requires Distinct(t.list) && Before(t.list, x, y) && k < |t.list|
    ensures t.list[k] == x ==> y !in t.list[..k + 1]
    ensures t.list[k] == y ==> x in t.list[..k]
  {
    var i, j :| 0 <= i < j < |t.list| && t.list[i] == x && t.list[j] == y;
    if t.list[k] == x {
      var pre := t.list[..k + 1];
      assert forall c :: 0 <= c < |pre| ==> pre[c] == t.list[c];
      assert y !in pre;
    }
    if t.list[k] == y {
      assert t.list[..k][i] == x;
    }
  }

  lemma WaitingStep(t: Tokens, id: int, k: nat, st: seq<int>)
    requires Paired(t, id) && k < |t.list| && Waiting(t, k, st) && Step(t.mark, st, t.list[k]).Some?
    requires forall x :: MatchedOpen(t.mark, x) && x in t.list[..k] && t.mark[x].mate !in t.list[..k] ==> x in st
    ensures Waiting(t, k + 1, Step(t.mark, st, t.list[k]).value)
    ensures forall x :: MatchedOpen(t.mark, x) && x in t.list[..k + 1] && t.mark[x].mate !in t.list[..k + 1] ==>
              x in Step(t.mark, st, t.list[k]).value
  {
    hide Paired;
    PrefixAt(t, id, k);
    var x := t.list[k];
    if MatchedClose(t.mark, x) {
      var n := |st| - 1;
      assert st == st[..n] + [st[n]];
      assert forall y :: y in st <==> y in st[..n] || y == st[n];
      assert st[n] !in st[..n];
    }
  }

  // ---------------------------------------------------------------- undoing one pair

  /** The pair of close marker x is undone. */
  function Undo(t: Tokens, x: int): Tokens
    requires x in t.mark && t.mark[x].mate in t.mark
  {
    var o := t.mark[x].mate;
    var m1 := t.mark[o := t.mark[o].Matched(0, -1)];
    t.(mark := m1[x := m1[x].Matched(0, -1)])
  }

  function Without(s: seq<int>, x: int): seq<int> {
    if s == [] then []
    else Without(s[..|s| - 1], x) + (if s[|s| - 1] == x then [] else [s[|s| - 1]])
  }

  /** Undoing a pair whose close marker is still to come takes its open marker off the stack. */
  lemma {:induction false} RunUndo(t: Tokens, id: int, x: int, k: nat)
    requires Paired(t, id) && MatchedClose(t.mark, x) && k <= |t.list| && x !in t.list[..k]
             && Run(t.list[..k], t.mark).Some?
    ensures t.mark[x].mate in t.mark
    ensures Run(t.list[..k], Undo(t, x).mark) == Some(Without(Run(t.list[..k], t.mark).value, t.mark[x].mate))
  {
    hide Paired;
    MateFacts(t, id);
    if k > 0 {
      assert t.list[..k] == t.list[..k - 1] + [t.list[k - 1]];
      RunStep(t.list, k - 1, t.mark);
      RunStep(t.list, k - 1, Undo(t, x).mark);
      RunUndo(t, id, x, k - 1);
      RunWaiting(t, id, k - 1);
      UndoOne(t, id, x, k - 1, Run(t.list[..k - 1], t.mark).value);
    }
  }

  lemma UndoOne(t: Tokens, id: int, x: int, k: nat, st: seq<int>)
    requires Paired(t, id) && MatchedClose(t.mark, x) && k < |t.list| && t.list[k] != x && t.mark[x].mate in t.mark
    requires Waiting(t, k, st) && Step(t.mark, st, t.list[k]).Some?
    ensures Step(Undo(t, x).mark, Without(st, t.mark[x].mate), t.list[k])
            == Some(Without(Step(t.mark, st, t.list[k]).value, t.mark[x].mate))
  {
    hide Paired;
    PrefixAt(t, id, k);
    var o, y := t.mark[x].mate, t.list[k];
    MateFacts(t, id);
    var u := Undo(t, x);
    if MatchedOpen(t.mark, y) {
      assert (st + [y])[..|st|] == st && (st + [y])[|st|] == y;
      assert Without(st + [y], o) == Without(st, o) + (if y == o then [] else [y]);
      assert MatchedOpen(u.mark, y) <==> y != o;
      assert !MatchedClose(u.mark, o);
      assert Without(st, o) + [] == Without(st, o);
    } else if MatchedClose(t.mark, y) {
      var n := |st| - 1;
      assert st[n] != o;
      assert Without(st, o) == Without(st[..n], o) + [st[n]];
      assert Without(st, o)[..|Without(st, o)| - 1] == Without(st[..n], o);
    }
  }

  lemma RunStart(list: seq<int>, mark: map<int, Marker>)
    ensures Run(list[..0], mark) == Some([]) && Live([], mark) == [] && Opens(Tokens(list, mark), [])
            && OnStack(Tokens(list, mark), [])
  {
  }

  /** The stack holds open markers. */
  ghost predicate Opens(t: Tokens, stack: seq<int>) {
    forall j :: 0 <= j < |stack| ==> stack[j] in t.mark && t.mark[stack[j]].open
  }

  /** The stack of the un-matching pass: its top is always still matched. */
  ghost predicate OnStack(t: Tokens, stack: seq<int>) {
    Opens(t, stack) && (stack != [] ==> t.mark[stack[|stack| - 1]].mate != 0)
  }

  lemma OnStackIntro(t: Tokens, stack: seq<int>)
    requires Opens(t, stack) && (stack != [] ==> stack[|stack| - 1] in t.mark && t.mark[stack[|stack| - 1]].mate != 0)
    ensures OnStack(t, stack)
  {
  }

  lemma TrimStep(t: Tokens, stack: seq<int>)
    requires Opens(t, stack) && stack != []
    ensures stack[|stack| - 1] in t.mark && Opens(t, stack[..|stack| - 1])
    ensures t.mark[stack[|stack| - 1]].mate == 0 ==> Live(stack[..|stack| - 1], t.mark) == Live(stack, t.mark)
  {
  }

  lemma {:induction false} LiveIn(stack: seq<int>, mark: map<int, Marker>, x: int)
    ensures x in Live(stack, mark) ==> x in stack && MatchedOpen(mark, x)
  {
    if stack != [] {
      LiveIn(stack[..|stack| - 1], mark, x);
    }
  }

  lemma PushStep(t: Tokens, k: nat, stack: seq<int>)
    requires k < |t.list| && MatchedOpen(t.mark, t.list[k]) && OnStack(t, stack)
             && Run(t.list[..k], t.mark) == Some(Live(stack, t.mark))
    ensures OnStack(t, stack + [t.list[k]]) && Run(t.list[..k + 1], t.mark) == Some(Live(stack + [t.list[k]], t.mark))
  {
    RunStep(t.list, k, t.mark);
    assert (stack + [t.list[k]])[..|stack|] == stack;
  }

  lemma SkipStep(t: Tokens, k: nat, stack: seq<int>)
    requires k < |t.list| && !MatchedOpen(t.mark, t.list[k]) && !MatchedClose(t.mark, t.list[k])
    requires Run(t.list[..k], t.mark) == Some(Live(stack, t.mark))
    ensures Run(t.list[..k + 1], t.mark) == Some(Live(stack, t.mark))
  {
    RunStep(t.list, k, t.mark);
  }

  /** At a matched close marker the stack is not empty, and its top decides by its identifier. */
  lemma CloseTop(t: Tokens, id: int, k: nat, stack: seq<int>)
    requires Paired(t, id) && k < |t.list| && MatchedClose(t.mark, t.list[k]) && OnStack(t, stack)
    requires Run(t.list[..k], t.mark) == Some(Live(stack, t.mark))
    ensures stack != [] && stack[|stack| - 1] in t.mark
    ensures var x, top := t.list[k], stack[|stack| - 1];
            && Opens(t, stack) && MatchedOpen(t.mark, top) && t.mark[x].mate in t.mark && t.mark[x].mate in stack
            && (t.mark[x].id == t.mark[top].id <==> top == t.mark[x].mate)
  {
    hide Run, Live, Waiting;
    PrefixAt(t, id, k);
    RunWaiting(t, id, k);
    var o := t.mark[t.list[k]].mate;
    LiveIn(stack, t.mark, o);
    assert o in stack;
    assert MateOk(t, t.list[k]) by {
      MateAt(t, id, t.list[k]);
    }
    SameIds(t, id, t.list[k], stack[|stack| - 1]);
  }

  lemma MateAt(t: Tokens, id: int, x: int)
    requires Paired(t, id) && x in t.mark
    ensures MateOk(t, x)
  {
  }

  lemma SameIds(t: Tokens, id: int, x: int, y: int)
    requires Paired(t, id) && x in t.mark && y in t.mark && t.mark[x].mate != 0 && t.mark[y].mate != 0 && y != x
    ensures t.mark[x].id == t.mark[y].id <==> y == t.mark[x].mate
  {
    assert MateOk(t, x);
  }

  lemma PopStep(t: Tokens, k: nat, stack: seq<int>)
    requires k < |t.list| && MatchedClose(t.mark, t.list[k]) && stack != [] && MatchedOpen(t.mark, stack[|stack| - 1])
    requires Opens(t, stack) && t.mark[t.list[k]].mate == stack[|stack| - 1]
             && Run(t.list[..k], t.mark) == Some(Live(stack, t.mark))
    ensures Opens(t, stack[..|stack| - 1]) && Run(t.list[..k + 1], t.mark) == Some(Live(stack[..|stack| - 1], t.mark))
  {
    hide Run, Live;
    RunStep(t.list, k, t.mark);
    LiveTop(stack, t.mark);
  }

  lemma LiveTop(stack: seq<int>, mark: map<int, Marker>)
    requires stack != [] && MatchedOpen(mark, stack[|stack| - 1])
    ensures var n := |stack| - 1;
            Live(stack, mark) != [] && Live(stack, mark)[|Live(stack, mark)| - 1] == stack[n]
            && Live(stack, mark)[..|Live(stack, mark)| - 1] == Live(stack[..n], mark)
  {
  }

  lemma UndoIs(t: Tokens, x: int)
    requires x in t.mark && t.mark[x].mate in t.mark
    ensures var o := t.mark[x].mate;
            var m1 := t.mark[o := t.mark[o].Matched(0, -1)];
            Undo(t, x) == t.(mark := m1[x := m1[x].Matched(0, -1)])
  {
  }

  /** A close marker whose mate is not on top loses it, and nothing else changes. */
  lemma UndoStep(t: Tokens, id: int, k: nat, stack: seq<int>)
    requires Paired(t, id) && k < |t.list| && MatchedClose(t.mark, t.list[k]) && OnStack(t, stack) && stack != []
    requires t.mark[t.list[k]].mate in t.mark && stack[|stack| - 1] != t.mark[t.list[k]].mate
    requires Run(t.list[..k], t.mark) == Some(Live(stack, t.mark))
    ensures var u := Undo(t, t.list[k]);
            && Paired(u, id) && OnStack(u, stack) && Run(t.list[..k + 1], u.mark) == Some(Live(stack, u.mark))
            && Total(u.list, u.mark) == Total(t.list, t.mark)
            && (forall y :: y in t.mark ==>
                 y in u.mark && (u.mark[y] == t.mark[y] || u.mark[y] == t.mark[y].Matched(0, -1)))
  {
    hide Paired, Run, Live, Undo, Total, Without;
    var x := t.list[k];
    var u := Undo(t, x);
    PrefixAt(t, id, k);
    RunUndo(t, id, x, k);
    LiveUndo(t, x, stack);
    RunStep(t.list, k, u.mark);
    UndoPaired(t, id, x);
    UndoMarks(t, x);
    UndoStack(t, x, stack);
    TotalSame(t.list, t.mark, u.mark);
  }

  lemma UndoStack(t: Tokens, x: int, stack: seq<int>)
    requires MatchedClose(t.mark, x) && MatchedOpen(t.mark, t.mark[x].mate) && OnStack(t, stack) && stack != []
    requires stack[|stack| - 1] != t.mark[x].mate
    ensures OnStack(Undo(t, x), stack)
  {
  }

  lemma UndoMarks(t: Tokens, x: int)
    requires MatchedClose(t.mark, x) && MatchedOpen(t.mark, t.mark[x].mate)
    ensures var u := Undo(t, x);
            && u.list == t.list && !MatchedClose(u.mark, x) && !MatchedOpen(u.mark, x)
            && (forall y :: y in t.mark ==>
                  y in u.mark && (u.mark[y] == t.mark[y]
                                  || (u.mark[y] == t.mark[y].Matched(0, -1) && (y == x || y == t.mark[x].mate))))
            && (forall y :: Weight(t.mark, y) == Weight(u.mark, y) && Three(t.mark, y) == Three(u.mark, y))
  {
  }

  lemma {:induction false} LiveUndo(t: Tokens, x: int, stack: seq<int>)
    requires MatchedClose(t.mark, x) && t.mark[x].mate in t.mark
    ensures Live(stack, Undo(t, x).mark) == Without(Live(stack, t.mark), t.mark[x].mate)
  {
    hide Undo, MatchedOpen, Without;
    if stack == [] {
      WithoutNone(t.mark[x].mate);
    } else {
      var n, y := |stack| - 1, stack[|stack| - 1];
      LiveUndo(t, x, stack[..n]);
      OpenUndo(t, x, y);
      if MatchedOpen(t.mark, y) {
        WithoutLast(Live(stack[..n], t.mark), y, t.mark[x].mate);
      } else {
        assert Live(stack, t.mark) == Live(stack[..n], t.mark);
      }
    }
  }

  lemma WithoutNone(x: int)
    ensures Without([], x) == []
  {
  }

  lemma OpenUndo(t: Tokens, x: int, y: int)
    requires MatchedClose(t.mark, x) && t.mark[x].mate in t.mark
    ensures MatchedOpen(Undo(t, x).mark, y) <==> MatchedOpen(t.mark, y) && y != t.mark[x].mate
  {
  }

  lemma WithoutLast(s: seq<int>, y: int, x: int)
    ensures Without(s + [y], x) == Without(s, x) + (if y == x then [] else [y])
  {
    assert (s + [y])[..|s|] == s;
  }

  lemma UndoPaired(t: Tokens, id: int, x: int)
    requires Paired(t, id) && MatchedClose(t.mark, x) && t.mark[x].mate in t.mark
    ensures Paired(Undo(t, x), id)
  {
    hide Distinct, Before;
    var u, o := Undo(t, x), t.mark[x].mate;
    assert MateOk(t, x);
    forall y | y in u.mark ensures MateOk(u, y) {
      assert MateOk(t, y);
    }
    assert Formed(u);
    UndoIds(t, id, x);
  }

  lemma UndoIds(t: Tokens, id: int, x: int)
    requires IdsOk(t, id) && x in t.mark && t.mark[x].mate in t.mark
    ensures IdsOk(Undo(t, x), id)
  {
  }

  /** At the end every open marker still matched has met its mate. */
  lemma NothingLeft(t: Tokens, id: int, stack: seq<int>)
    requires Paired(t, id) && Run(t.list, t.mark) == Some(Live(stack, t.mark))
    ensures Run(t.list, t.mark) == Some([])
  {
    hide Paired, Run, Live;
    var n := |t.list|;
    assert t.list[..n] == t.list;
    RunWaiting(t, id, n);
    MateFacts(t, id);
    var st := Run(t.list, t.mark).value;
    if st != [] {
      var x := st[0];
      assert x in st;
      BeforeIn(t.list, x, t.mark[x].mate);
    }
  }

  lemma BeforeIn(list: seq<int>, x: int, y: int)
    ensures Before(list, x, y) ==> x in list && y in list
  {
  }

  // ---------------------------------------------------------------- which pairs are undone

  function CloseOf(mark: map<int, Marker>, x: int): int {
    if MatchedOpen(mark, x) then mark[x].mate else x
  }

  /** A pair that opens between close marker x and its mate, and closes later. */
  ghost predicate Crosses(t: Tokens, x: int, y: int) {
    && MatchedClose(t.mark, x) && MatchedOpen(t.mark, y)
    && Before(t.list, t.mark[x].mate, y) && Before(t.list, y, x) && Before(t.list, x, t.mark[y].mate)
  }

  ghost predicate Crossed(t: Tokens, x: int) {
    exists y :: Crosses(t, x, y)
  }

  /** The markers once the close markers among the first k tokens have been checked. */
  ghost function Pruned(t: Tokens, k: nat): map<int, Marker>
    requires k <= |t.list|
  {
    map x | x in t.mark ::
      if CloseOf(t.mark, x) in t.list[..k] && Crossed(t, CloseOf(t.mark, x))
      then t.mark[x].Matched(0, -1)
      else t.mark[x]
  }

  /** What is left when every pair that another one crosses from inside is undone. */
  ghost function Kept(t: Tokens): map<int, Marker> {
    map x | x in t.mark :: if Crossed(t, CloseOf(t.mark, x)) then t.mark[x].Matched(0, -1) else t.mark[x]
  }

  lemma PruneStart(t: Tokens)
    ensures Pruned(t, 0) == t.mark
  {
  }

  lemma PruneEnd(t: Tokens, id: int)
    requires Paired(t, id)
    ensures Pruned(t, |t.list|) == Kept(t)
  {
    hide Crossed;
    MateFacts(t, id);
    assert t.list[..|t.list|] == t.list;
    forall x | x in t.mark ensures CloseOf(t.mark, x) in t.list {
      PairedIn(t, id, x);
      if MatchedOpen(t.mark, x) {
        BeforeIn(t.list, x, t.mark[x].mate);
      }
    }
  }

  lemma PairedIn(t: Tokens, id: int, x: int)
    requires Paired(t, id) && x in t.mark
    ensures x in t.list && x > 0
  {
  }

  /** Checking token k undoes its pair if it is crossed, and nothing otherwise. */
  lemma PruneStep(t: Tokens, id: int, k: nat)
    requires Paired(t, id) && k < |t.list|
    ensures var x, m := t.list[k], Pruned(t, k);
            && (MatchedClose(m, x) <==> MatchedClose(t.mark, x)) && (MatchedOpen(m, x) ==> MatchedOpen(t.mark, x))
            && (MatchedClose(m, x) ==> m[x].mate == t.mark[x].mate && m[x].mate in m)
            && (!MatchedClose(m, x) || !Crossed(t, x) ==> Pruned(t, k + 1) == m)
            && (MatchedClose(m, x) && Crossed(t, x) ==> Undo(Tokens(t.list, m), x).mark == Pruned(t, k + 1))
  {
    hide Paired, Crossed;
    var x := t.list[k];
    PrefixAt(t, id, k);
    MateFacts(t, id);
    NotCrossed(t, x);
    if MatchedClose(t.mark, x) {
      forall z | z in t.mark ensures CloseOf(t.mark, z) == x <==> z == x || z == t.mark[x].mate {
      }
    }
  }

  lemma NotCrossed(t: Tokens, x: int)
    ensures !MatchedClose(t.mark, x) ==> !Crossed(t, x)
  {
  }

  /** The open markers that wait, in the order of the list. */
  ghost predicate InOrder(list: seq<int>, st: seq<int>) {
    forall a, b :: 0 <= a < b < |st| ==> Before(list, st[a], st[b])
  }

  lemma BeforeAt(list: seq<int>, k: nat, y: int)
    requires k < |list| && y in list[..k]
    ensures Before(list, y, list[k])
  {
    var i :| 0 <= i < k && list[i] == y;
  }

  lemma BeforeOnce(list: seq<int>, x: int, y: int)
    requires Distinct(list) && Before(list, x, y)
    ensures !Before(list, y, x) && x != y
  {
  }

  lemma {:induction false} RunInOrder(t: Tokens, id: int, k: nat)
    requires Paired(t, id) && k <= |t.list| && Run(t.list[..k], t.mark).Some?
    ensures InOrder(t.list, Run(t.list[..k], t.mark).value)
  {
    hide Paired, Before;
    if k > 0 {
      RunStep(t.list, k - 1, t.mark);
      RunInOrder(t, id, k - 1);
      RunWaiting(t, id, k - 1);
      var st, x := Run(t.list[..k - 1], t.mark).value, t.list[k - 1];
      forall y | y in st ensures Before(t.list, y, x) {
        BeforeAt(t.list, k - 1, y);
      }
    }
  }

  /** The open marker on top of those that wait is the mate of close marker k if and only if
      no pair crosses from inside. */
  lemma TopUncrossed(t: Tokens, id: int, k: nat, st: seq<int>)
    requires Paired(t, id) && k < |t.list| && MatchedClose(t.mark, t.list[k]) && st != []
    requires InOrder(t.list, st) && forall y :: y in st <==> Pending(t, k, y)
    ensures st[|st| - 1] == t.mark[t.list[k]].mate <==> !Crossed(t, t.list[k])
  {
    hide Paired, Before;
    PrefixAt(t, id, k);
    MateFacts(t, id);
    var x := t.list[k];
    var o, top := t.mark[x].mate, st[|st| - 1];
    assert Pending(t, k, o) && Pending(t, k, top);
    if top != o {
      var a :| 0 <= a < |st| && st[a] == o;
      assert Before(t.list, o, top);
      BeforeAt(t.list, k, top);
      BeforeIn(t.list, top, t.mark[top].mate);
      LaterAt(t, k, t.mark[top].mate);
      assert Crosses(t, x, top);
    } else if Crossed(t, x) {
      var y :| Crosses(t, x, y);
      TopCrossed(t, id, k, st, y);
    }
  }

  lemma TopCrossed(t: Tokens, id: int, k: nat, st: seq<int>, y: int)
    requires Paired(t, id) && k < |t.list| && Crosses(t, t.list[k], y) && st != []
    requires InOrder(t.list, st) && forall z :: z in st <==> Pending(t, k, z)
    ensures st[|st| - 1] != t.mark[t.list[k]].mate
  {
    hide Paired, Before;
    MateFacts(t, id);
    EarlierAt(t, k, y);
    NotYetAt(t, k, t.mark[y].mate);
    assert Pending(t, k, y);
    var b :| 0 <= b < |st| && st[b] == y;
    BeforeOnce(t.list, t.mark[t.list[k]].mate, y);
    assert b < |st| - 1 ==> Before(t.list, y, st[|st| - 1]);
  }

  /** An open marker before position k whose mate is not there yet. */
  ghost predicate Pending(t: Tokens, k: nat, y: int)
    requires k <= |t.list|
  {
    MatchedOpen(t.mark, y) && y in t.list[..k] && t.mark[y].mate !in t.list[..k]
  }

  lemma LaterAt(t: Tokens, k: nat, y: int)
    requires k < |t.list| && y in t.list && y !in t.list[..k] && y != t.list[k]
    ensures Before(t.list, t.list[k], y)
  {
    var i :| 0 <= i < |t.list| && t.list[i] == y;
    assert forall a :: 0 <= a < k ==> t.list[a] in t.list[..k];
  }

  lemma EarlierAt(t: Tokens, k: nat, y: int)
    requires k < |t.list| && Distinct(t.list) && Before(t.list, y, t.list[k])
    ensures y in t.list[..k]
  {
    var i, j :| 0 <= i < j < |t.list| && t.list[i] == y && t.list[j] == t.list[k];
    assert j == k && t.list[..k][i] == y;
  }

  lemma NotYetAt(t: Tokens, k: nat, y: int)
    requires k < |t.list| && Distinct(t.list) && Before(t.list, t.list[k], y)
    ensures y !in t.list[..k]
  {
    var i, j :| 0 <= i < j < |t.list| && t.list[i] == t.list[k] && t.list[j] == y;
    assert i == k;
  }

  lemma CrossedTop(t0: Tokens, t: Tokens, id: int, k: nat, stack: seq<int>)
    requires Paired(t0, id) && Paired(t, id) && k < |t.list| && t.list == t0.list && t.mark == Pruned(t0, k)
    requires MatchedClose(t.mark, t.list[k]) && stack != [] && MatchedOpen(t.mark, stack[|stack| - 1])
    requires Run(t.list[..k], t.mark) == Some(Live(stack, t.mark))
    ensures stack[|stack| - 1] == t.mark[t.list[k]].mate <==> !Crossed(t0, t.list[k])
  {
    hide Paired, Run, Live, Crossed, Waiting, Pruned;
    var st := Live(stack, t.mark);
    RunWaiting(t, id, k);
    RunInOrder(t, id, k);
    LiveTop(stack, t.mark);
    PruneStep(t0, id, k);
    forall y ensures y in st <==> Pending(t0, k, y) {
      WaitingIs(t, k, st, y);
      PrunePending(t0, k, y);
    }
    TopUncrossed(t0, id, k, st);
  }

  lemma WaitingIs(t: Tokens, k: nat, st: seq<int>, y: int)
    requires k <= |t.list| && Waiting(t, k, st)
    requires forall x :: MatchedOpen(t.mark, x) && x in t.list[..k] && t.mark[x].mate !in t.list[..k] ==> x in st
    ensures y in st <==> Pending(t, k, y)
  {
  }

  lemma PrunePending(t: Tokens, k: nat, y: int)
    requires k <= |t.list|
    ensures Pending(t.(mark := Pruned(t, k)), k, y) <==> Pending(t, k, y)
  {
    hide Crossed;
  }

  lemma {:induction false} RunPrefix(list: seq<int>, mark: map<int, Marker>, k: nat)
    requires k <= |list| && Run(list, mark).Some?
    ensures Run(list[..k], mark).Some?
  {
    if k < |list| {
      RunPrefix(list[..|list| - 1], mark, k);
      assert list[..|list| - 1][..k] == list[..k];
    } else {
      assert list[..k] == list;
    }
  }

  /** Where the pairs nest already, none is undone. */
  lemma NestedKept(t: Tokens, id: int)
    requires Paired(t, id) && Run(t.list, t.mark).Some?
    ensures Kept(t) == t.mark
  {
    hide Paired, Run, Crossed;
    forall x | x in t.mark ensures !Crossed(t, x) {
      NotCrossed(t, x);
      if MatchedClose(t.mark, x) {
        PairedIn(t, id, x);
        var k :| 0 <= k < |t.list| && t.list[k] == x;
        NestedUncrossed(t, id, k);
      }
    }
    MateFacts(t, id);
  }

  lemma NestedUncrossed(t: Tokens, id: int, k: nat)
    requires Paired(t, id) && Run(t.list, t.mark).Some? && k < |t.list| && MatchedClose(t.mark, t.list[k])
    ensures !Crossed(t, t.list[k])
  {
    hide Paired, Run, Crossed, Waiting;
    RunPrefix(t.list, t.mark, k);
    RunPrefix(t.list, t.mark, k + 1);
    RunStep(t.list, k, t.mark);
    RunWaiting(t, id, k);
    RunInOrder(t, id, k);
    var st := Run(t.list[..k], t.mark).value;
    forall y ensures y in st <==> Pending(t, k, y) {
      WaitingIs(t, k, st, y);
    }
    TopUncrossed(t, id, k, st);
  }

  /** The tokens of the text *a _b* **c_ d** when the first k pairs have been matched: stars 1
      and 5, underscores 3 and 9, double stars 7 and 11, with text between them. */
  function Chain(k: nat): Tokens {
    Tokens([1, 2, 3, 4, 5, 6, 7, 8, 9, 10, 11],
           map[1 := ChainMarker(true, '*', 1, k, 0, 5), 5 := ChainMarker(false, '*', 1, k, 0, 1),
               3 := ChainMarker(true, '_', 1, k, 1, 9), 9 := ChainMarker(false, '_', 1, k, 1, 3),
               7 := ChainMarker(true, '*', 2, k, 2, 11), 11 := ChainMarker(false, '*', 2, k, 2, 7)])
  }

  /** A marker of pair i, which is matched if it is among the first k. */
  function ChainMarker(open: bool, ch: char, size: nat, k: nat, i: nat, mate: int): Marker {
    var m := NewMarker(open, ch, size);
    if i < k then m.Matched(mate, i) else m
  }

  lemma ChainKinds(k: nat, a: int)
    ensures var t := Chain(k);
            && (0 <= a < 11 ==> t.list[a] == a + 1)
            && (UOpen(t, a) <==> (a == 0 && k <= 0) || (a == 2 && k <= 1) || (a == 6 && k <= 2))
            && (UClose(t, a) <==> (a == 4 && k <= 0) || (a == 8 && k <= 1) || (a == 10 && k <= 2))
  {
  }

  lemma ChainMatch(k: nat)
    requires k < 3
    ensures var t, x, y := Chain(k), if k == 0 then 1 else if k == 1 then 3 else 7,
                           if k == 0 then 5 else if k == 1 then 9 else 11;
            x in t.mark && y in t.mark && t.mark[x].ch == t.mark[y].ch && t.mark[x].size == t.mark[y].size < 3
            && Match(t, x, y, k) == Chain(k + 1)
  {
  }

  /** The outer loop passes tokens that are no unmatched open markers. */
  lemma {:induction false} Skips(t: Tokens, i: nat, k: nat, id: int, next: int)
    requires i <= k <= |t.list| && forall a :: i <= a < k ==> !UOpen(t, a)
    ensures Moves(Config(t, i, 0, id, next), k - i) == Config(t, k, 0, id, next)
    decreases k
  {
    if i < k {
      Skips(t, i, k - 1, id, next);
    }
  }

  /** The inner loop passes tokens that are no unmatched close markers. */
  lemma {:induction false} Passes(t: Tokens, i: nat, j: nat, id: int, next: int)
    requires UOpen(t, i) && i < j <= |t.list| && forall b :: i < b < j ==> !UClose(t, b)
    ensures Moves(Config(t, i, 0, id, next), j - i) == Config(t, i, j, id, next)
    decreases j
  {
    hide UOpen, UClose, Split, Match;
    var c := Config(t, i, 0, id, next);
    assert i < |t.list|;
    if i + 1 < j {
      Passes(t, i, j - 1, id, next);
    } else {
      assert Moves(c, 0) == c && Moves(c, 1) == Move(c);
    }
  }

  /** The open marker at i is matched with the first unmatched close marker behind it. */
  lemma Finds(t: Tokens, i: nat, j: nat, id: int, next: int)
    requires UOpen(t, i) && i < j < |t.list| && (forall b :: i < b < j ==> !UClose(t, b)) && UClose(t, j)
    requires var m, n := t.mark[t.list[i]], t.mark[t.list[j]]; m.ch == n.ch && m.size == n.size < 3
    ensures Moves(Config(t, i, 0, id, next), j - i + 1)
         == Config(Match(t, t.list[i], t.list[j], id), i + 1, 0, id + 1, next)
  {
    hide Match, Split;
    Passes(t, i, j, id, next);
  }

  /** Pair k of the chain is found: its open marker is at i, its close marker at j, and the
      next open marker, or the end, at e. */
  lemma ChainPair(k: nat, i: nat, j: nat, e: nat)
    requires (k == 0 && i == 0 && j == 4 && e == 2) || (k == 1 && i == 2 && j == 8 && e == 6)
          || (k == 2 && i == 6 && j == 10 && e == 11)
    ensures Moves(Config(Chain(k), i, 0, k, 12), j - i + e - i) == Config(Chain(k + 1), e, 0, k + 1, 12)
  {
    hide Chain, UOpen, UClose, Match, Move, Moves;
    ChainSize(k);
    ChainSize(k + 1);
    ChainKinds(k, i);
    ChainKinds(k, j);
    forall b | i < b < j ensures !UClose(Chain(k), b) {
      ChainKinds(k, b);
    }
    var t := Chain(k + 1);
    forall a | i < a < e ensures !UOpen(t, a) {
      ChainKinds(k + 1, a);
    }
    ChainMatch(k);
    Finds(Chain(k), i, j, k, 12);
    Skips(Chain(k + 1), i + 1, e, k + 1, 12);
    MovesJoin(Config(Chain(k), i, 0, k, 12), j - i + 1, e - (i + 1));
  }

  lemma ChainSize(k: nat)
    ensures |Chain(k).list| == 11
  {
  }

  /** Matching finds the three pairs. */
  lemma ChainMoves()
    ensures Moves(Start(Chain(0), 12), 25) == Config(Chain(3), 11, 0, 3, 12)
  {
    hide Chain, Move, Moves;
    var c := Start(Chain(0), 12);
    ChainPair(0, 0, 4, 2);
    ChainPair(1, 2, 8, 6);
    ChainPair(2, 6, 10, 11);
    MovesJoin(c, 6, 10);
    MovesJoin(c, 16, 9);
  }

  lemma ChainStart()
    ensures Inv(Start(Chain(0), 12)) && OneChar(Chain(0), '*')
  {
    hide Distinct;
    ChainHandles();
    forall x | x in Chain(0).mark ensures 1 <= x <= 11 && MarkerOk(Chain(0).mark[x]) {
    }
    StartInv(Chain(0), 12);
  }

  lemma ChainHandles()
    ensures Distinct(Chain(0).list) && forall x :: x in Chain(0).list <==> 1 <= x <= 11
  {
    var l := Chain(0).list;
    forall i | 0 <= i < 11 ensures l[i] == i + 1 {
      ChainKinds(0, i);
    }
    forall x ensures x in l <==> 1 <= x <= 11 {
      if 1 <= x <= 11 {
        assert l[x - 1] == x;
      }
    }
  }

  lemma ChainPaired()
    ensures Paired(Chain(3), 3)
  {
    hide Chain, Paired, OneChar, Settled, Moves;
    ChainStart();
    ChainMoves();
    MovesOneChar(Start(Chain(0), 12), '*', 25);
  }

  lemma ChainBefore(k: nat, x: int, y: int)
    ensures Before(Chain(k).list, x, y) <==> 1 <= x < y <= 11
  {
    var l := Chain(k).list;
    forall i | 0 <= i < |l| ensures l[i] == i + 1 {
      ChainKinds(k, i);
    }
    if 1 <= x < y <= 11 {
      assert l[x - 1] == x && l[y - 1] == y;
    }
  }

  lemma ChainCrosses(x: int, y: int)
    ensures Crosses(Chain(3), x, y) <==> (x == 5 && y == 3) || (x == 9 && y == 7)
  {
    hide Before;
    var t := Chain(3);
    assert MatchedClose(t.mark, x) <==> x == 5 || x == 9 || x == 11;
    assert MatchedOpen(t.mark, y) <==> y == 1 || y == 3 || y == 7;
    if MatchedClose(t.mark, x) && MatchedOpen(t.mark, y) {
      ChainBefore(3, t.mark[x].mate, y);
      ChainBefore(3, y, x);
      ChainBefore(3, x, t.mark[y].mate);
    }
  }

  /** More pairs are undone than needed. Matching the tokens of *a _b* **c_ d** gives three
      pairs: the stars give way to the underscores, which give way to the double stars, and the
      double stars do not meet the stars at all. */
  lemma UndoneInVain()
    ensures Inv(Start(Chain(0), 12)) && Moves(Start(Chain(0), 12), 25) == Config(Chain(3), |Chain(3).list|, 0, 3, 12)
    ensures Paired(Chain(3), 3) && Before(Chain(3).list, Chain(3).mark[1].mate, 7)
    ensures var kept := Kept(Chain(3));
            && 1 in kept && kept[1].mate == 0 && 3 in kept && kept[3].mate == 0
            && 7 in kept && kept[7].mate == 11
  {
    hide Crosses, Inv, Paired, Moves, Before;
    ChainStart();
    ChainMoves();
    ChainPaired();
    var t := Chain(3);
    forall x, y ensures Crosses(t, x, y) <==> (x == 5 && y == 3) || (x == 9 && y == 7) {
      ChainCrosses(x, y);
    }
    assert Crosses(t, 5, 3) && Crosses(t, 9, 7);
    ChainBefore(3, 5, 7);
  }

  // ---------------------------------------------------------------- the tags written

  datatype Tag = Em | Strong | EndEm | EndStrong

  /** Tags of one token (writeAsHtml); text and unmatched markers write none. */
  function TagsOf(mark: map<int, Marker>, x: int): seq<Tag> {
    if MatchedOpen(mark, x) then
      (if mark[x].size == 1 then [Em] else if mark[x].size == 2 then [Strong] else [Strong, Em])
    else if MatchedClose(mark, x) then
      (if mark[x].size == 1 then [EndEm] else if mark[x].size == 2 then [EndStrong] else [EndEm, EndStrong])
    else []
  }

  function Tags(list: seq<int>, mark: map<int, Marker>): seq<Tag> {
    if list == [] then [] else Tags(list[..|list| - 1], mark) + TagsOf(mark, list[|list| - 1])
  }

  /** The tags still open after a sequence of tags; None when a closing tag meets another one. */
  function Nest(tags: seq<Tag>, st: seq<Tag>): Option<seq<Tag>> {
    if tags == [] then Some(st)
    else
      var n := |st| - 1;
      match tags[0]
      case Em => Nest(tags[1..], st + [Em])
      case Strong => Nest(tags[1..], st + [Strong])
      case EndEm => if st != [] && st[n] == Em then Nest(tags[1..], st[..n]) else None
      case EndStrong => if st != [] && st[n] == Strong then Nest(tags[1..], st[..n]) else None
  }

  lemma {:induction false} NestJoin(a: seq<Tag>, b: seq<Tag>, st: seq<Tag>)
    requires Nest(a, st).Some?
    ensures Nest(a + b, st) == Nest(b, Nest(a, st).value)
  {
    if a == [] {
      assert a + b == b;
    } else {
      assert (a + b)[1..] == a[1..] + b && (a + b)[0] == a[0];
      var n := |st| - 1;
      match a[0]
      case Em => NestJoin(a[1..], b, st + [Em]);
      case Strong => NestJoin(a[1..], b, st + [Strong]);
      case EndEm => NestJoin(a[1..], b, st[..n]);
      case EndStrong => NestJoin(a[1..], b, st[..n]);
    }
  }

  /** The tags that a stack of open markers has written. */
  function Opened(st: seq<int>, mark: map<int, Marker>): seq<Tag> {
    if st == [] then [] else Opened(st[..|st| - 1], mark) + TagsOf(mark, st[|st| - 1])
  }

  /** When the matched markers nest, so do the tags written for them. */
  lemma {:induction false} TagsNest(t: Tokens, id: int, k: nat)
    requires Paired(t, id) && k <= |t.list| && Run(t.list[..k], t.mark).Some?
    ensures Nest(Tags(t.list[..k], t.mark), []) == Some(Opened(Run(t.list[..k], t.mark).value, t.mark))
  {
    hide Paired, Nest;
    if k == 0 {
      NestNone([]);
    } else {
      RunStep(t.list, k - 1, t.mark);
      TagsNest(t, id, k - 1);
      RunWaiting(t, id, k - 1);
      assert t.list[..k][..k - 1] == t.list[..k - 1];
      var st, x := Run(t.list[..k - 1], t.mark).value, t.list[k - 1];
      NestJoin(Tags(t.list[..k - 1], t.mark), TagsOf(t.mark, x), []);
      TagsStep(t, id, k - 1, st);
    }
  }

  lemma NestNone(st: seq<Tag>)
    ensures Nest([], st) == Some(st)
  {
  }

  lemma TagsStep(t: Tokens, id: int, k: nat, st: seq<int>)
    requires Paired(t, id) && k < |t.list| && Step(t.mark, st, t.list[k]).Some? && Waiting(t, k, st)
    ensures Nest(TagsOf(t.mark, t.list[k]), Opened(st, t.mark))
            == Some(Opened(Step(t.mark, st, t.list[k]).value, t.mark))
  {
    hide Paired, Waiting;
    var x, o := t.list[k], Opened(st, t.mark);
    if MatchedOpen(t.mark, x) {
      assert (st + [x])[..|st|] == st;
      NestOpens(t.mark, x, o);
    } else if MatchedClose(t.mark, x) {
      MateAt(t, id, x);
      PrefixAt(t, id, k);
      var n := |st| - 1;
      NestCloses(t.mark, x, st[n], Opened(st[..n], t.mark));
    }
  }

  lemma NestOpens(mark: map<int, Marker>, x: int, o: seq<Tag>)
    requires MatchedOpen(mark, x)
    ensures Nest(TagsOf(mark, x), o) == Some(o + TagsOf(mark, x))
  {
    NestOne(Em, [], o);
    NestOne(Strong, [], o);
    NestOne(Strong, [Em], o);
    NestOne(Em, [], o + [Strong]);
    assert (o + [Strong]) + [Em] == o + [Strong, Em];
    assert [Strong] + [Em] == [Strong, Em] && [Em] + [] == [Em] && [Strong] + [] == [Strong];
  }

  /** Reading one tag. */
  lemma NestOne(a: Tag, rest: seq<Tag>, st: seq<Tag>)
    ensures a == Em || a == Strong ==> Nest([a] + rest, st) == Nest(rest, st + [a])
    ensures a == EndEm ==> Nest([a] + rest, st + [Em]) == Nest(rest, st)
    ensures a == EndStrong ==> Nest([a] + rest, st + [Strong]) == Nest(rest, st)
    ensures Nest([], st) == Some(st)
  {
    assert ([a] + rest)[1..] == rest;
    assert (st + [Em])[..|st|] == st && (st + [Strong])[..|st|] == st;
  }

  lemma NestCloses(mark: map<int, Marker>, x: int, y: int, o: seq<Tag>)
    requires MatchedClose(mark, x) && MatchedOpen(mark, y) && mark[x].size == mark[y].size
    ensures Nest(TagsOf(mark, x), o + TagsOf(mark, y)) == Some(o)
  {
    NestOne(EndEm, [], o);
    NestOne(EndStrong, [], o);
    NestOne(EndEm, [EndStrong], o + [Strong]);
    assert o + [Strong, Em] == (o + [Strong]) + [Em];
    assert [EndEm] + [EndStrong] == [EndEm, EndStrong] && [EndEm] + [] == [EndEm] && [EndStrong] + [] == [EndStrong];
  }

  /** After both passes the tags of the whole list are balanced and nested. */
  lemma TagsBalanced(t: Tokens, id: int)
    requires Paired(t, id) && Run(t.list, t.mark) == Some([])
    ensures Nest(Tags(t.list, t.mark), []) == Some([])
  {
    assert t.list[..|t.list|] == t.list;
    TagsNest(t, id, |t.list|);
  }
}

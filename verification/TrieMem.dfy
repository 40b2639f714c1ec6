/** Tries in memory: chunks at addresses with size, ring, child and parent words. */
module TrieMem {
  import opened Powers
  import opened TreeIndex
  import opened Trie

  /** The words of a tree chunk; 0 is the null pointer. */
  datatype Chunk = Chunk(size: int, fd: int, bk: int, kid0: int, kid1: int, parent: int)
  {
    function Kid(right: bool): int { if right then kid1 else kid0 }
    function WithKid(right: bool, x: int): Chunk { if right then this.(kid1 := x) else this.(kid0 := x) }
  }

  type Mem = map<int, Chunk>

  function At(m: Mem, a: int): Chunk { if a in m then m[a] else Chunk(0, 0, 0, 0, 0, 0) }

  /** The chunks of c form one ring, in this order. */
  ghost predicate Linked(m: Mem, c: seq<int>) {
    |c| > 0 && At(m, c[|c| - 1]).fd == c[0] && At(m, c[0]).bk == c[|c| - 1] &&
    forall i :: 0 <= i < |c| - 1 ==> At(m, c[i]).fd == c[i + 1] && At(m, c[i + 1]).bk == c[i]
  }

  ghost predicate NodeOk(m: Mem, t: Tree, q: int)
    requires t.Node?
  {
    && At(m, t.a).parent == q && At(m, t.a).size == t.size
    && Linked(m, [t.a] + t.ring)
    && (forall x :: x in t.ring ==>
          At(m, x).size == t.size && At(m, x).parent == 0 && At(m, x).kid0 == 0 && At(m, x).kid1 == 0)
  }

  /** Pointer p, held by q, leads to trie t. */
  ghost predicate IsTree(m: Mem, p: int, t: Tree, q: int)
    decreases t
  {
    if t.Nil? then p == 0
    else p == t.a && NodeOk(m, t, q) && IsTree(m, At(m, t.a).kid0, t.l, t.a) && IsTree(m, At(m, t.a).kid1, t.r, t.a)
  }

  predicate SameAt(m: Mem, n: Mem, x: int) { At(m, x) == At(n, x) }

  ghost predicate SameOn(m: Mem, n: Mem, t: Tree) {
    forall x :: In(t, x) ==> SameAt(m, n, x)
  }

  lemma NodeFrame(m: Mem, n: Mem, t: Tree, q: int)
    requires t.Node? && NodeOk(m, t, q) && forall x :: t.Here(x) ==> SameAt(m, n, x)
    ensures NodeOk(n, t, q)
  {
    var c := [t.a] + t.ring;
    assert forall i :: 0 <= i < |c| ==> t.Here(c[i]);
    assert forall x :: x in t.ring ==> t.Here(x);
  }

  /** A trie depends on the words of its own chunks only. */
  lemma {:induction false} TreeFrame(m: Mem, n: Mem, p: int, t: Tree, q: int)
    requires IsTree(m, p, t, q) && SameOn(m, n, t)
    ensures IsTree(n, p, t, q)
    decreases t
  {
    if t.Node? {
      assert In(t, t.a);
      NodeFrame(m, n, t, q);
      TreeFrame(m, n, At(m, t.a).kid0, t.l, t.a);
      TreeFrame(m, n, At(m, t.a).kid1, t.r, t.a);
    }
  }

  // ---------------------------------------------------------------- linking a chunk in

  /** Where a chunk goes: below a node, or into the ring of a node. */
  datatype Place = Below(at: int, right: bool) | Same(at: int)

  function Spot(t: Tree, s: nat, lo: nat, k: nat): Place
    requires t.Node?
    decreases t
  {
    if t.size == s || k == 0 then Same(t.a)
    else if s < lo + Pow2(k - 1) then
      if t.l.Nil? then Below(t.a, false) else Spot(t.l, s, lo, k - 1)
    else
      if t.r.Nil? then Below(t.a, true) else Spot(t.r, s, lo + Pow2(k - 1), k - 1)
  }

  /** Chunk x without children, in a ring of its own, held by q. */
  function Alone(x: int, s: nat, q: int): Chunk { Chunk(s, x, x, 0, 0, q) }

  function LinkIn(m: Mem, place: Place, x: int, s: nat): Mem {
    match place
    case Below(at, right) => m[x := Alone(x, s, at)][at := At(m, at).WithKid(right, x)]
    case Same(at) =>
      var f := At(m, at).fd;
      var m1 := m[at := At(m, at).(fd := x)];
      m1[f := At(m1, f).(bk := x)][x := Chunk(s, f, at, 0, 0, 0)]
  }

  /** The spot is a chunk of the trie, and so is its neighbour in the ring. */
  lemma {:induction false} SpotIn(m: Mem, p: int, t: Tree, q: int, s: nat, lo: nat, k: nat)
    requires IsTree(m, p, t, q) && t.Node?
    ensures var place := Spot(t, s, lo, k);
            In(t, place.at) && (place.Same? ==> In(t, At(m, place.at).fd))
    decreases t
  {
    hide NodeOk, Pow2;
    if t.size == s || k == 0 {
      RingHead(m, t, q);
    } else if s < lo + Pow2(k - 1) {
      if t.l.Node? {
        SpotIn(m, At(m, t.a).kid0, t.l, t.a, s, lo, k - 1);
      }
    } else if t.r.Node? {
      SpotIn(m, At(m, t.a).kid1, t.r, t.a, s, lo + Pow2(k - 1), k - 1);
    }
  }

  /** Linking x in touches x and chunks of the trie only. */
  lemma LinkTouches(m: Mem, p: int, t: Tree, q: int, x: int, s: nat, lo: nat, k: nat, y: int)
    requires IsTree(m, p, t, q) && t.Node? && !In(t, y) && y != x
    ensures SameAt(m, LinkIn(m, Spot(t, s, lo, k), x, s), y)
  {
    hide IsTree, Spot, In;
    SpotIn(m, p, t, q, s, lo, k);
  }

  lemma RingHead(m: Mem, t: Tree, q: int)
    requires t.Node? && NodeOk(m, t, q)
    ensures t.Here(At(m, t.a).fd) && t.Here(At(m, t.a).bk)
    ensures At(m, t.a).fd == if t.ring == [] then t.a else t.ring[0]
    ensures At(m, t.a).bk == if t.ring == [] then t.a else t.ring[|t.ring| - 1]
  {
    var c := [t.a] + t.ring;
    assert c[0] == t.a;
    if t.ring != [] {
      assert c[1] == t.ring[0] && c[|c| - 1] == t.ring[|t.ring| - 1];
    }
  }

  lemma RingInsert(m: Mem, t: Tree, q: int, x: int)
    requires t.Node? && NodeOk(m, t, q) && RingOk(t) && !t.Here(x) && x > 0
    ensures NodeOk(LinkIn(m, Same(t.a), x, t.size), t.(ring := [x] + t.ring), q)
  {
    hide Linked;
    RingHead(m, t, q);
    RingInsertLinked(m, t, x);
    var n := LinkIn(m, Same(t.a), x, t.size);
    forall y | y in [x] + t.ring
      ensures At(n, y).size == t.size && At(n, y).parent == 0 && At(n, y).kid0 == 0 && At(n, y).kid1 == 0
    {
      assert y == x || y in t.ring;
    }
  }

  lemma RingInsertLinked(m: Mem, t: Tree, x: int)
    requires t.Node? && Linked(m, [t.a] + t.ring) && RingOk(t) && !t.Here(x)
    ensures Linked(LinkIn(m, Same(t.a), x, t.size), [t.a] + ([x] + t.ring))
  {
    var n := LinkIn(m, Same(t.a), x, t.size);
    var c, d := [t.a] + t.ring, [t.a] + ([x] + t.ring);
    assert forall i :: 0 <= i < |c| ==> c[i] != x;
    assert d[0] == c[0] && d[1] == x && forall i :: 2 <= i < |d| ==> d[i] == c[i - 1];
    assert At(m, c[0]).fd == if |c| == 1 then c[0] else c[1];
    forall i | 0 <= i < |d| - 1 ensures At(n, d[i]).fd == d[i + 1] && At(n, d[i + 1]).bk == d[i] {
      if i >= 2 {
        assert At(m, c[i - 1]).fd == c[i] && At(m, c[i]).bk == c[i - 1];
        CircleDistinct(t, i - 1, 0);
        CircleDistinct(t, i, 1);
      }
    }
    if |c| > 1 {
      CircleDistinct(t, |c| - 1, 0);
    }
  }

  lemma LinkTouchesAll(m: Mem, p: int, t: Tree, q: int, x: int, s: nat, lo: nat, k: nat, u: Tree)
    requires IsTree(m, p, t, q) && t.Node? && Disjoint(t, u) && !In(u, x)
    ensures SameOn(m, LinkIn(m, Spot(t, s, lo, k), x, s), u)
  {
    hide IsTree, Spot, LinkIn, SameAt;
    forall y | In(u, y) ensures SameAt(m, LinkIn(m, Spot(t, s, lo, k), x, s), y) {
      LinkTouches(m, p, t, q, x, s, lo, k, y);
    }
  }

  /** Linking x into a subtree leaves the node above it as it is. */
  lemma LinkAbove(m: Mem, p: int, t: Tree, q: int, x: int, s: nat, lo: nat, k: nat, v: Tree, w: int)
    requires IsTree(m, p, t, q) && t.Node? && v.Node? && Outside(v, t) && !v.Here(x) && NodeOk(m, v, w)
    ensures NodeOk(LinkIn(m, Spot(t, s, lo, k), x, s), v, w)
    ensures SameAt(m, LinkIn(m, Spot(t, s, lo, k), x, s), v.a)
  {
    hide IsTree, Spot, LinkIn, SameAt, NodeOk;
    var n := LinkIn(m, Spot(t, s, lo, k), x, s);
    forall y | v.Here(y) ensures SameAt(m, n, y) {
      LinkTouches(m, p, t, q, x, s, lo, k, y);
    }
    NodeFrame(m, n, v, w);
  }

  lemma AloneTree(m: Mem, x: int, s: nat, q: int)
    requires x > 0
    ensures IsTree(m[x := Alone(x, s, q)], x, Node(x, [], s, Nil, Nil), q)
  {
    assert [x] + [] == [x];
  }

  /** Linking x in at its spot represents insertion. */
  lemma {:induction false} InsertRep(m: Mem, p: int, t: Tree, q: int, x: int, s: nat, lo: nat, k: nat)
    requires IsTree(m, p, t, q) && t.Node? && Apart(t) && Shape(t, lo, k)
    requires lo <= s < lo + Pow2(k) && !In(t, x) && x > 0
    ensures IsTree(LinkIn(m, Spot(t, s, lo, k), x, s), p, Insert(t, x, s, lo, k), q)
    decreases t
  {
    hide NodeOk, LinkIn, RingOk;
    if t.size == s {
      RingInsertRep(m, p, t, q, x);
    } else if s < lo + Pow2(k - 1) {
      if t.l.Nil? {
        BelowRep(m, p, t, q, x, s, false);
      } else {
        InsertRep(m, At(m, t.a).kid0, t.l, t.a, x, s, lo, k - 1);
        LinkAbove(m, At(m, t.a).kid0, t.l, t.a, x, s, lo, k - 1, t, q);
        LinkTouchesAll(m, At(m, t.a).kid0, t.l, t.a, x, s, lo, k - 1, t.r);
        var n := LinkIn(m, Spot(t, s, lo, k), x, s);
        TreeFrame(m, n, At(m, t.a).kid1, t.r, t.a);
        NodeKids(n, t, q, Insert(t.l, x, s, lo, k - 1), t.r);
      }
    } else {
      if t.r.Nil? {
        BelowRep(m, p, t, q, x, s, true);
      } else {
        InsertRep(m, At(m, t.a).kid1, t.r, t.a, x, s, lo + Pow2(k - 1), k - 1);
        LinkAbove(m, At(m, t.a).kid1, t.r, t.a, x, s, lo + Pow2(k - 1), k - 1, t, q);
        DisjointSym(t.l, t.r);
        LinkTouchesAll(m, At(m, t.a).kid1, t.r, t.a, x, s, lo + Pow2(k - 1), k - 1, t.l);
        var n := LinkIn(m, Spot(t, s, lo, k), x, s);
        TreeFrame(m, n, At(m, t.a).kid0, t.l, t.a);
        NodeKids(n, t, q, t.l, Insert(t.r, x, s, lo + Pow2(k - 1), k - 1));
      }
    }
  }

  lemma DisjointSym(t: Tree, u: Tree)
    requires Disjoint(t, u)
    ensures Disjoint(u, t)
  {
  }

  /** The node words do not depend on the children. */
  lemma NodeKids(m: Mem, t: Tree, q: int, l: Tree, r: Tree)
    requires t.Node? && NodeOk(m, t, q)
    ensures NodeOk(m, t.(l := l, r := r), q)
    ensures NodeOk(m, t.(l := l), q) && NodeOk(m, t.(r := r), q)
  {
  }

  lemma RingInsertRep(m: Mem, p: int, t: Tree, q: int, x: int)
    requires IsTree(m, p, t, q) && t.Node? && Apart(t) && !In(t, x) && x > 0
    ensures IsTree(LinkIn(m, Same(t.a), x, t.size), p, t.(ring := [x] + t.ring), q)
  {
    hide NodeOk, LinkIn;
    RingInsert(m, t, q, x);
    var n := LinkIn(m, Same(t.a), x, t.size);
    forall y | In(t.l, y) || In(t.r, y) ensures SameAt(m, n, y) {
      SameTouches(m, t, q, x, y);
    }
    TreeFrame(m, n, At(m, t.a).kid0, t.l, t.a);
    TreeFrame(m, n, At(m, t.a).kid1, t.r, t.a);
    SameKids(m, t.a, x, t.size);
  }

  lemma SameTouches(m: Mem, t: Tree, q: int, x: int, y: int)
    requires t.Node? && NodeOk(m, t, q) && !t.Here(y) && y != x
    ensures SameAt(m, LinkIn(m, Same(t.a), x, t.size), y)
  {
    RingHead(m, t, q);
  }

  lemma SameKids(m: Mem, at: int, x: int, s: nat)
    requires at != x
    ensures var n := LinkIn(m, Same(at), x, s); At(n, at).kid0 == At(m, at).kid0 && At(n, at).kid1 == At(m, at).kid1
  {
  }

  /** A new child where there was none. */
  lemma BelowRep(m: Mem, p: int, t: Tree, q: int, x: int, s: nat, right: bool)
    requires IsTree(m, p, t, q) && t.Node? && Apart(t) && !In(t, x) && x > 0
    requires if right then t.r.Nil? else t.l.Nil?
    ensures var leaf := Node(x, [], s, Nil, Nil);
            IsTree(LinkIn(m, Below(t.a, right), x, s), p, if right then t.(r := leaf) else t.(l := leaf), q)
  {
    hide NodeOk;
    var leaf := Node(x, [], s, Nil, Nil);
    var n := LinkIn(m, Below(t.a, right), x, s);
    AloneTree(m, x, s, t.a);
    TreeFrame(m[x := Alone(x, s, t.a)], n, x, leaf, t.a);
    BelowNode(m, t, q, x, s, right);
    if right {
      TreeFrame(m, n, At(m, t.a).kid0, t.l, t.a);
      NodeKids(n, t, q, t.l, leaf);
    } else {
      TreeFrame(m, n, At(m, t.a).kid1, t.r, t.a);
      NodeKids(n, t, q, leaf, t.r);
    }
  }

  lemma BelowNode(m: Mem, t: Tree, q: int, x: int, s: nat, right: bool)
    requires t.Node? && NodeOk(m, t, q) && RingOk(t) && !t.Here(x)
    ensures NodeOk(LinkIn(m, Below(t.a, right), x, s), t, q)
  {
    var n := LinkIn(m, Below(t.a, right), x, s);
    var c := [t.a] + t.ring;
    assert forall i :: 0 <= i < |c| ==> t.Here(c[i]) && c[i] != x;
    assert forall y :: y in t.ring ==> t.Here(y) && y != t.a;
  }

  // ---------------------------------------------------------------- taking a chunk out

  /** The pointer that holds the leaf of a trie with children. */
  function LeafSpot(t: Tree): (place: Place)
    requires t.Node? && (t.l.Node? || t.r.Node?)
    ensures place.Below?
  {
    if t.r.Node? then if t.r.l.Nil? && t.r.r.Nil? then Below(t.a, true) else LeafSpot(t.r)
    else if t.l.l.Nil? && t.l.r.Nil? then Below(t.a, false) else LeafSpot(t.l)
  }

  function ClearKid(m: Mem, place: Place): Mem
    requires place.Below?
  {
    m[place.at := At(m, place.at).WithKid(place.right, 0)]
  }

  lemma {:induction false} LeafSpotIn(t: Tree)
    requires t.Node? && (t.l.Node? || t.r.Node?)
    ensures LeafSpot(t).Below? && In(t, LeafSpot(t).at)
  {
    if t.r.Node? {
      if t.r.l.Node? || t.r.r.Node? {
        LeafSpotIn(t.r);
      }
    } else if t.l.l.Node? || t.l.r.Node? {
      LeafSpotIn(t.l);
    }
  }

  /** Clearing the pointer to the leaf represents dropping it. */
  lemma {:induction false} DropLeafRep(m: Mem, p: int, t: Tree, q: int)
    requires IsTree(m, p, t, q) && Apart(t) && t.Node? && (t.l.Node? || t.r.Node?)
    ensures LeafSpot(t).Below? && IsTree(ClearKid(m, LeafSpot(t)), p, DropLeaf(t), q)
    decreases t
  {
    hide NodeOk, RingOk, ClearKid;
    LeafSpotIn(t);
    var n := ClearKid(m, LeafSpot(t));
    var sub := if t.r.Node? then t.r else t.l;
    var other := if t.r.Node? then t.l else t.r;
    if sub.l.Nil? && sub.r.Nil? {
      ClearTouches(m, LeafSpot(t), other);
      ClearNode(m, t, q, t.r.Node?);
      TreeFrame(m, n, if t.r.Node? then At(m, t.a).kid0 else At(m, t.a).kid1, other, t.a);
    } else {
      DropLeafRep(m, if t.r.Node? then At(m, t.a).kid1 else At(m, t.a).kid0, sub, t.a);
      LeafSpotIn(sub);
      ClearTouches(m, LeafSpot(t), other);
      ClearAbove(m, LeafSpot(t), t, q);
      TreeFrame(m, n, if t.r.Node? then At(m, t.a).kid0 else At(m, t.a).kid1, other, t.a);
    }
    NodeKids(n, t, q, DropLeaf(t).l, DropLeaf(t).r);
  }

  lemma ClearTouches(m: Mem, place: Place, u: Tree)
    requires place.Below? && !In(u, place.at)
    ensures SameOn(m, ClearKid(m, place), u)
  {
  }

  lemma ClearAbove(m: Mem, place: Place, t: Tree, q: int)
    requires place.Below? && t.Node? && NodeOk(m, t, q) && !t.Here(place.at)
    ensures NodeOk(ClearKid(m, place), t, q) && SameAt(m, ClearKid(m, place), t.a)
  {
    NodeFrame(m, ClearKid(m, place), t, q);
  }

  lemma ClearNode(m: Mem, t: Tree, q: int, right: bool)
    requires t.Node? && NodeOk(m, t, q) && RingOk(t)
    ensures var n := ClearKid(m, Below(t.a, right));
            NodeOk(n, t, q) && At(n, t.a) == At(m, t.a).WithKid(right, 0)
  {
    var n := ClearKid(m, Below(t.a, right));
    var c := [t.a] + t.ring;
    assert forall i :: 0 <= i < |c| ==> t.Here(c[i]);
  }

  /** The leaf keeps its words when the pointer to it is cleared. */
  lemma {:induction false} LeafNode(m: Mem, p: int, t: Tree, q: int)
    requires IsTree(m, p, t, q) && t.Node? && (t.l.Node? || t.r.Node?)
    ensures NodeOk(m, Leaf(t), LeafSpot(t).at) && At(m, Leaf(t).a).kid0 == 0 && At(m, Leaf(t).a).kid1 == 0
    ensures forall y :: Leaf(t).Here(y) ==> In(t, y)
    ensures At(m, LeafSpot(t).at).Kid(LeafSpot(t).right) == Leaf(t).a
    decreases t
  {
    hide NodeOk, Leaf, LeafSpot;
    LeafSpotIn(t);
    LeafStep(t);
    var sub := if t.r.Node? then t.r else t.l;
    var kid := if t.r.Node? then At(m, t.a).kid1 else At(m, t.a).kid0;
    assert IsTree(m, kid, sub, t.a);
    assert forall y :: In(sub, y) ==> In(t, y);
    if sub.l.Node? || sub.r.Node? {
      LeafNode(m, kid, sub, t.a);
    } else {
      assert IsTree(m, At(m, sub.a).kid0, Nil, sub.a) && IsTree(m, At(m, sub.a).kid1, Nil, sub.a);
    }
  }

  lemma LeafStep(t: Tree)
    requires t.Node? && (t.l.Node? || t.r.Node?)
    ensures var sub := if t.r.Node? then t.r else t.l;
            && Leaf(t) == Leaf(sub)
            && if sub.l.Node? || sub.r.Node? then LeafSpot(t) == LeafSpot(sub)
            else Leaf(sub) == sub && LeafSpot(t) == Below(t.a, t.r.Node?)
  {
  }

  // ---------------------------------------------------------------- taking over a position

  /** Chunk r takes the place of x below q and adopts the children of x. */
  function Adopt(m: Mem, x: int, r: int, q: int): Mem {
    var c0, c1 := At(m, x).kid0, At(m, x).kid1;
    var m1 := m[r := At(m, r).(parent := q)];
    var m2 := if c0 != 0 then m1[r := At(m1, r).(kid0 := c0)] else m1;
    var m3 := if c0 != 0 then m2[c0 := At(m2, c0).(parent := r)] else m2;
    var m4 := if c1 != 0 then m3[r := At(m3, r).(kid1 := c1)] else m3;
    if c1 != 0 then m4[c1 := At(m4, c1).(parent := r)] else m4
  }

  /** Below a new parent. */
  lemma ReparentRep(m: Mem, n: Mem, p: int, t: Tree, q: int, q': int)
    requires IsTree(m, p, t, q) && Apart(t)
    requires t.Node? ==> At(n, t.a) == At(m, t.a).(parent := q')
    requires forall y :: In(t, y) && y != p ==> SameAt(m, n, y)
    ensures IsTree(n, p, t, q')
  {
    hide RingOk;
    if t.Node? {
      ReparentNode(m, n, t, q, q');
      TreeFrame(m, n, At(m, t.a).kid0, t.l, t.a);
      TreeFrame(m, n, At(m, t.a).kid1, t.r, t.a);
    }
  }

  lemma ReparentNode(m: Mem, n: Mem, t: Tree, q: int, q': int)
    requires t.Node? && NodeOk(m, t, q) && RingOk(t)
    requires At(n, t.a) == At(m, t.a).(parent := q')
    requires forall y :: t.Here(y) && y != t.a ==> SameAt(m, n, y)
    ensures NodeOk(n, t, q')
  {
    var c := [t.a] + t.ring;
    assert forall i :: 0 <= i < |c| ==> t.Here(c[i]);
    assert forall i :: 1 <= i < |c| ==> c[i] == t.ring[i - 1] && c[i] != t.a;
    assert forall y :: y in t.ring ==> t.Here(y) && y != t.a;
  }

  lemma AdoptAt(m: Mem, x: int, r: int, q: int, y: int)
    requires r != At(m, x).kid0 && r != At(m, x).kid1
    requires At(m, x).kid0 != 0 ==> At(m, x).kid0 != At(m, x).kid1
    ensures var c0, c1, n := At(m, x).kid0, At(m, x).kid1, Adopt(m, x, r, q);
            && At(n, r) == At(m, r).(parent := q, kid0 := if c0 != 0 then c0 else At(m, r).kid0,
                                     kid1 := if c1 != 0 then c1 else At(m, r).kid1)
            && (y != r && y != 0 && (y == c0 || y == c1) ==> At(n, y) == At(m, y).(parent := r))
            && (y != r && (y == 0 || (y != c0 && y != c1)) ==> SameAt(m, n, y))
  {
  }

  /** What is left of the root's node when chunk x is replaced by r: m is the memory in which
      x still stands above the remaining children l and w, and r is ready to take over. */
  lemma AdoptRep(m: Mem, x: int, q: int, t: Tree)
    requires t.Node? && Apart(t) && x != t.a && !In(t.l, x) && !In(t.r, x)
    requires IsTree(m, At(m, x).kid0, t.l, x) && IsTree(m, At(m, x).kid1, t.r, x)
    requires NodeOk(m, t, At(m, t.a).parent) && At(m, t.a).kid0 == 0 && At(m, t.a).kid1 == 0
    ensures IsTree(Adopt(m, x, t.a, q), t.a, t, q)
    ensures forall y :: !In(t, y) ==> SameAt(m, Adopt(m, x, t.a, q), y)
  {
    hide NodeOk, Adopt, RingOk;
    var c0, c1, n := At(m, x).kid0, At(m, x).kid1, Adopt(m, x, t.a, q);
    RootPointers(m, x, t);
    AdoptAt(m, x, t.a, q, 0);
    forall y ensures !In(t, y) ==> SameAt(m, n, y) {
      AdoptAt(m, x, t.a, q, y);
      RootIn(t.l, c0);
      RootIn(t.r, c1);
    }
    AdoptKid(m, x, t, q, false);
    AdoptKid(m, x, t, q, true);
    AdoptNode(m, x, t, q);
  }

  lemma RootIn(t: Tree, p: int)
    ensures t.Node? && p == t.a ==> In(t, p)
  {
  }

  lemma RootPointers(m: Mem, x: int, t: Tree)
    requires t.Node? && Apart(t)
    requires IsTree(m, At(m, x).kid0, t.l, x) && IsTree(m, At(m, x).kid1, t.r, x)
    ensures At(m, x).kid0 == (if t.l.Nil? then 0 else t.l.a) && At(m, x).kid1 == (if t.r.Nil? then 0 else t.r.a)
    ensures t.a != At(m, x).kid0 && t.a != At(m, x).kid1
    ensures At(m, x).kid0 != 0 ==> At(m, x).kid0 != At(m, x).kid1
    ensures t.l.Node? ==> t.l.a > 0 && In(t.l, t.l.a) && !In(t.r, t.l.a) && !t.Here(t.l.a)
    ensures t.r.Node? ==> t.r.a > 0 && In(t.r, t.r.a) && !In(t.l, t.r.a) && !t.Here(t.r.a)
  {
    hide NodeOk;
    if t.l.Node? {
      RootIn(t.l, t.l.a);
    }
    if t.r.Node? {
      RootIn(t.r, t.r.a);
    }
  }

  lemma AdoptKid(m: Mem, x: int, t: Tree, q: int, right: bool)
    requires t.Node? && Apart(t)
    requires IsTree(m, At(m, x).kid0, t.l, x) && IsTree(m, At(m, x).kid1, t.r, x)
    ensures var n := Adopt(m, x, t.a, q);
            if right then IsTree(n, At(m, x).kid1, t.r, t.a) else IsTree(n, At(m, x).kid0, t.l, t.a)
  {
    hide NodeOk, Adopt, RingOk;
    RootPointers(m, x, t);
    var n := Adopt(m, x, t.a, q);
    var u := if right then t.r else t.l;
    var p := if right then At(m, x).kid1 else At(m, x).kid0;
    AdoptAt(m, x, t.a, q, p);
    forall y | In(u, y) && y != p ensures SameAt(m, n, y) {
      AdoptAt(m, x, t.a, q, y);
      ApartPositive(u, y);
    }
    ReparentRep(m, n, p, u, x, t.a);
  }

  lemma AdoptNode(m: Mem, x: int, t: Tree, q: int)
    requires t.Node? && Apart(t) && NodeOk(m, t, At(m, t.a).parent)
    requires IsTree(m, At(m, x).kid0, t.l, x) && IsTree(m, At(m, x).kid1, t.r, x)
    ensures NodeOk(Adopt(m, x, t.a, q), t, q)
  {
    hide Adopt;
    RootPointers(m, x, t);
    var n := Adopt(m, x, t.a, q);
    AdoptAt(m, x, t.a, q, t.a);
    forall y | t.Here(y) && y != t.a ensures SameAt(m, n, y) {
      AdoptAt(m, x, t.a, q, y);
    }
    AdoptedNode(m, n, t, q);
  }

  lemma AdoptedNode(m: Mem, n: Mem, t: Tree, q: int)
    requires t.Node? && RingOk(t) && NodeOk(m, t, At(m, t.a).parent)
    requires At(n, t.a).size == At(m, t.a).size && At(n, t.a).fd == At(m, t.a).fd && At(n, t.a).bk == At(m, t.a).bk
    requires At(n, t.a).parent == q
    requires forall y :: t.Here(y) && y != t.a ==> SameAt(m, n, y)
    ensures NodeOk(n, t, q)
  {
    var c := [t.a] + t.ring;
    assert forall i :: 0 <= i < |c| ==> t.Here(c[i]);
    assert forall i :: 1 <= i < |c| ==> c[i] == t.ring[i - 1] && c[i] != t.a;
    assert forall y :: y in t.ring ==> t.Here(y) && y != t.a;
  }

  // ---------------------------------------------------------------- removal

  /** Take x out of its ring. */
  function RingOut(m: Mem, x: int): Mem {
    var f, r := At(m, x).fd, At(m, x).bk;
    var m1 := m[f := At(m, f).(bk := r)];
    m1[r := At(m1, r).(fd := f)]
  }

  /** The memory once the first chunk of u no longer stands for its size: taken out of its
      ring, or a leaf was cut off to replace it. */
  function Detached(m: Mem, u: Tree): Mem
    requires u.Node?
  {
    if u.ring != [] then RingOut(m, u.a)
    else if u.l.Node? || u.r.Node? then ClearKid(m, LeafSpot(u))
    else m
  }

  function RootOf(t: Tree): int { if t.Nil? then 0 else t.a }

  /** The child pointer of q that led to x now leads to r. */
  function Hang(m: Mem, q: int, x: int, r: int): Mem {
    m[q := At(m, q).WithKid(At(m, q).kid0 != x, r)]
  }

  /** The whole effect of unlinking x, a chunk of node u; `top` when u is the root of a bin. */
  function Unlinked(m: Mem, u: Tree, x: int, top: bool): Mem
    requires u.Node?
  {
    if x != u.a then RingOut(m, x)
    else
      var q, r, m1 := At(m, x).parent, RootOf(RemoveRoot(u)), Detached(m, u);
      var m2 := if top then m1 else Hang(m1, q, x, r);
      if r == 0 then m2 else Adopt(m2, x, r, q)
  }

  /** The ring without its first chunk. */
  lemma RingOutHead(m: Mem, t: Tree, q: int)
    requires t.Node? && NodeOk(m, t, q) && RingOk(t) && t.ring != []
    ensures var t', n := RemoveRoot(t), RingOut(m, t.a);
            NodeOk(n, t', 0) && At(n, t'.a).kid0 == 0 && At(n, t'.a).kid1 == 0
  {
    RingHead(m, t, q);
    RingOutFirst(m, t);
    var t', k := RemoveRoot(t), |t.ring| - 1;
    assert t.ring == t.ring[..k] + [t.ring[k]];
    assert forall y :: y == t'.a || y in t'.ring ==> y in t.ring;
    RingOutKeeps(m, t.a);
  }

  lemma RingOutKeeps(m: Mem, x: int)
    ensures forall y :: var c, d := At(m, y), At(RingOut(m, x), y);
              c.size == d.size && c.kid0 == d.kid0 && c.kid1 == d.kid1 && c.parent == d.parent
  {
  }

  lemma RingOutFirst(m: Mem, t: Tree)
    requires t.Node? && RingOk(t) && t.ring != [] && Linked(m, [t.a] + t.ring)
    ensures var t' := RemoveRoot(t); Linked(RingOut(m, t.a), [t'.a] + t'.ring)
  {
    var t', n, c, k := RemoveRoot(t), RingOut(m, t.a), [t.a] + t.ring, |t.ring| - 1;
    var d := [t'.a] + t'.ring;
    assert d[0] == c[k + 1] && forall i :: 1 <= i < |d| ==> d[i] == c[i];
    assert At(m, c[0]).fd == c[1] && At(m, c[0]).bk == c[k + 1];
    forall i | 0 <= i < |d| - 1 ensures At(n, d[i]).fd == d[i + 1] && At(n, d[i + 1]).bk == d[i] {
      if i > 0 {
        assert At(m, c[i]).fd == c[i + 1] && At(m, c[i + 1]).bk == c[i];
        CircleDistinct(t, i, k + 1);
        CircleDistinct(t, i + 1, 1);
      }
    }
    if k > 0 {
      assert At(m, c[k]).fd == c[k + 1] && At(m, c[k + 1]).bk == c[k];
      CircleDistinct(t, 1, k + 1);
    }
  }

  lemma RingOutTouches(m: Mem, t: Tree, q: int, x: int, y: int)
    requires t.Node? && NodeOk(m, t, q) && t.Here(x) && !t.Here(y)
    ensures SameAt(m, RingOut(m, x), y)
  {
    RingMember(m, t, q, x);
  }

  lemma RingMember(m: Mem, t: Tree, q: int, x: int)
    requires t.Node? && NodeOk(m, t, q) && t.Here(x)
    ensures t.Here(At(m, x).fd) && t.Here(At(m, x).bk)
  {
    var c := [t.a] + t.ring;
    assert x in c;
    var i :| 0 <= i < |c| && c[i] == x;
    assert forall j :: 0 <= j < |c| ==> t.Here(c[j]);
    if i > 0 {
      assert At(m, c[i - 1 + 1]).bk == c[i - 1];
    }
    if i < |c| - 1 {
      assert At(m, c[i]).fd == c[i + 1];
    }
  }

  lemma {:induction false} WithoutSplit(s: seq<int>, i: nat)
    requires Distinct(s) && i < |s|
    ensures Without(s, s[i]) == s[..i] + s[i + 1..]
  {
    if i > 0 {
      var x, tail := s[i], s[1..];
      assert s[0] != x && tail[i - 1] == x;
      WithoutSplit(tail, i - 1);
      SplitTail(s, i);
    }
  }

  lemma SplitTail(s: seq<int>, i: nat)
    requires 0 < i < |s|
    ensures [s[0]] + (s[1..][..i - 1] + s[1..][i..]) == s[..i] + s[i + 1..]
  {
  }

  /** The ring without chunk i, which is not the first. */
  lemma RingOutMember(m: Mem, t: Tree, q: int, i: nat)
    requires t.Node? && NodeOk(m, t, q) && RingOk(t) && i < |t.ring|
    ensures NodeOk(RingOut(m, t.ring[i]), t.(ring := t.ring[..i] + t.ring[i + 1..]), q)
    ensures At(RingOut(m, t.ring[i]), t.a).kid0 == At(m, t.a).kid0
    ensures At(RingOut(m, t.ring[i]), t.a).kid1 == At(m, t.a).kid1
  {
    RingOutLinked(m, t, i);
    RingOutKeeps(m, t.ring[i]);
    assert forall y :: y in t.ring[..i] + t.ring[i + 1..] ==> y in t.ring;
  }

  lemma RingOutLinked(m: Mem, t: Tree, i: nat)
    requires t.Node? && Linked(m, [t.a] + t.ring) && RingOk(t) && i < |t.ring|
    ensures Linked(RingOut(m, t.ring[i]), [t.a] + (t.ring[..i] + t.ring[i + 1..]))
  {
    hide RingOut, RingOk;
    var n, d := RingOut(m, t.ring[i]), [t.a] + (t.ring[..i] + t.ring[i + 1..]);
    forall j | 0 <= j < |d| - 1 ensures At(n, d[j]).fd == d[j + 1] && At(n, d[j + 1]).bk == d[j] {
      RingOutPair(m, t, i, j);
    }
    RingOutEnds(m, t, i);
  }

  /** Neighbours of a chunk that is not the first of its ring. */
  lemma RingNeighbours(m: Mem, c: seq<int>, i: nat)
    requires Linked(m, c) && 0 < i < |c|
    ensures At(m, c[i]).bk == c[i - 1]
    ensures At(m, c[i]).fd == if i + 1 < |c| then c[i + 1] else c[0]
  {
    assert At(m, c[i - 1 + 1]).bk == c[i - 1];
  }

  lemma CircleDistinct(t: Tree, i: nat, j: nat)
    requires t.Node? && RingOk(t) && i < |t.ring| + 1 && j < |t.ring| + 1 && i != j
    ensures ([t.a] + t.ring)[i] != ([t.a] + t.ring)[j]
  {
  }

  /** What taking c[i + 1] out of ring c leaves in the words of the others. */
  lemma RingOutWords(m: Mem, c: seq<int>, i: nat, y: int)
    requires Linked(m, c) && i + 1 < |c|
    ensures var n := RingOut(m, c[i + 1]);
            var next := if i + 2 < |c| then c[i + 2] else c[0];
            && At(n, c[i]).fd == next && At(n, next).bk == c[i]
            && (y != c[i] ==> At(n, y).fd == At(m, y).fd) && (y != next ==> At(n, y).bk == At(m, y).bk)
  {
    RingNeighbours(m, c, i + 1);
  }

  lemma RingOutPair(m: Mem, t: Tree, i: nat, j: nat)
    requires t.Node? && RingOk(t) && i < |t.ring| && Linked(m, [t.a] + t.ring)
    requires j < |t.ring| - 1
    ensures var n, d := RingOut(m, t.ring[i]), [t.a] + (t.ring[..i] + t.ring[i + 1..]);
            At(n, d[j]).fd == d[j + 1] && At(n, d[j + 1]).bk == d[j]
  {
    hide RingOut, RingOk;
    var n, c := RingOut(m, t.ring[i]), [t.a] + t.ring;
    var d := [t.a] + (t.ring[..i] + t.ring[i + 1..]);
    assert c[i + 1] == t.ring[i];
    RingOutWords(m, c, i, d[j]);
    RingOutWords(m, c, i, d[j + 1]);
    if j < i {
      assert d[j] == c[j] && d[j + 1] == c[j + 1];
      assert At(m, c[j]).fd == c[j + 1] && At(m, c[j + 1]).bk == c[j];
      CircleDistinct(t, j, i);
      CircleDistinct(t, j + 1, if i + 2 < |c| then i + 2 else 0);
    } else if j == i {
      assert d[j] == c[i] && d[j + 1] == c[i + 2];
    } else {
      assert d[j] == c[j + 1] && d[j + 1] == c[j + 2];
      assert At(m, c[j + 1]).fd == c[j + 2] && At(m, c[j + 2]).bk == c[j + 1];
      CircleDistinct(t, j + 1, i);
      CircleDistinct(t, j + 2, i + 2);
    }
  }

  lemma RingOutEnds(m: Mem, t: Tree, i: nat)
    requires t.Node? && RingOk(t) && i < |t.ring| && Linked(m, [t.a] + t.ring)
    ensures var n, d := RingOut(m, t.ring[i]), [t.a] + (t.ring[..i] + t.ring[i + 1..]);
            At(n, d[|d| - 1]).fd == d[0] && At(n, d[0]).bk == d[|d| - 1]
  {
    var n, c := RingOut(m, t.ring[i]), [t.a] + t.ring;
    var d := [t.a] + (t.ring[..i] + t.ring[i + 1..]);
    RingNeighbours(m, c, i + 1);
    assert c[i + 1] == t.ring[i];
    if i + 1 < |t.ring| {
      assert d[|d| - 1] == c[|c| - 1];
      CircleDistinct(t, |c| - 1, i);
      CircleDistinct(t, 0, i + 2);
    } else {
      assert d[|d| - 1] == c[i];
    }
  }

  /** The node that holds chunk x. */
  function SubAt(t: Tree, x: int): (u: Tree)
    requires In(t, x)
    ensures u.Node? && u.Here(x)
  {
    if t.Here(x) then t else if In(t.l, x) then SubAt(t.l, x) else SubAt(t.r, x)
  }

  lemma {:induction false} SubAtIn(t: Tree, x: int, y: int)
    requires In(t, x)
    ensures In(SubAt(t, x), y) ==> In(t, y)
  {
    if !t.Here(x) {
      if In(t.l, x) {
        SubAtIn(t.l, x, y);
      } else {
        SubAtIn(t.r, x, y);
      }
    }
  }

  /** The pointer to the leaf is held by a node that stays. */
  lemma {:induction false} LeafSpotStays(t: Tree)
    requires t.Node? && (t.l.Node? || t.r.Node?)
    ensures In(DropLeaf(t), LeafSpot(t).at)
  {
    if t.r.Node? {
      if t.r.l.Node? || t.r.r.Node? {
        LeafSpotStays(t.r);
      }
    } else if t.l.l.Node? || t.l.r.Node? {
      LeafSpotStays(t.l);
    }
  }

  /** Once the first chunk of u is detached, the rest is ready to take over. */
  lemma DetachedReady(m: Mem, u: Tree, q: int)
    requires u.Node? && IsTree(m, u.a, u, q) && Apart(u) && RemoveRoot(u).Node?
    ensures var n, t := Detached(m, u), RemoveRoot(u);
            && IsTree(n, At(n, u.a).kid0, t.l, u.a) && IsTree(n, At(n, u.a).kid1, t.r, u.a)
            && NodeOk(n, t, At(n, t.a).parent) && At(n, t.a).kid0 == 0 && At(n, t.a).kid1 == 0
  {
    hide NodeOk, RingOk, ClearKid, RingOut;
    if u.ring != [] {
      DetachedRing(m, u, q);
    } else {
      DetachedLeaf(m, u, q);
    }
  }

  lemma DetachedRing(m: Mem, u: Tree, q: int)
    requires u.Node? && IsTree(m, u.a, u, q) && Apart(u) && u.ring != []
    ensures var n, t := RingOut(m, u.a), RemoveRoot(u);
            && IsTree(n, At(n, u.a).kid0, t.l, u.a) && IsTree(n, At(n, u.a).kid1, t.r, u.a)
            && NodeOk(n, t, At(n, t.a).parent) && At(n, t.a).kid0 == 0 && At(n, t.a).kid1 == 0
  {
    hide NodeOk, RingOut;
    var n := RingOut(m, u.a);
    RingOutHead(m, u, q);
    NodeParent(n, RemoveRoot(u), 0);
    forall y | In(u.l, y) || In(u.r, y) ensures SameAt(m, n, y) {
      RingOutTouches(m, u, q, u.a, y);
    }
    RingOutKids(m, u.a);
    TreeFrame(m, n, At(m, u.a).kid0, u.l, u.a);
    TreeFrame(m, n, At(m, u.a).kid1, u.r, u.a);
  }

  lemma NodeParent(m: Mem, t: Tree, q: int)
    requires t.Node? && NodeOk(m, t, q)
    ensures At(m, t.a).parent == q
  {
  }

  lemma RingOutKids(m: Mem, x: int)
    ensures At(RingOut(m, x), x).kid0 == At(m, x).kid0 && At(RingOut(m, x), x).kid1 == At(m, x).kid1
    ensures At(RingOut(m, x), x).parent == At(m, x).parent
  {
  }

  lemma DetachedLeaf(m: Mem, u: Tree, q: int)
    requires u.Node? && IsTree(m, u.a, u, q) && Apart(u) && u.ring == [] && (u.l.Node? || u.r.Node?)
    ensures var n, t := ClearKid(m, LeafSpot(u)), RemoveRoot(u);
            && IsTree(n, At(n, u.a).kid0, t.l, u.a) && IsTree(n, At(n, u.a).kid1, t.r, u.a)
            && NodeOk(n, t, At(n, t.a).parent) && At(n, t.a).kid0 == 0 && At(n, t.a).kid1 == 0
  {
    hide NodeOk, RingOk;
    var n, leaf, t := ClearKid(m, LeafSpot(u)), Leaf(u), RemoveRoot(u);
    DropLeafRep(m, u.a, u, q);
    LeafNode(m, u.a, u, q);
    DropLeafApart(u);
    LeafSpotStays(u);
    ClearAbove(m, LeafSpot(u), leaf, LeafSpot(u).at);
    NodeParent(n, leaf, LeafSpot(u).at);
    NodeKids(n, leaf, LeafSpot(u).at, t.l, t.r);
  }

  /** Taking over the root: m2 is the detached memory, up to words outside the trie. */
  lemma RootRep(m: Mem, u: Tree, q: int, m2: Mem)
    requires u.Node? && IsTree(m, u.a, u, q) && Apart(u)
    requires SameOn(Detached(m, u), m2, u)
    ensures var r := RootOf(RemoveRoot(u));
            var n := if r == 0 then m2 else Adopt(m2, u.a, r, q);
            IsTree(n, r, RemoveRoot(u), q) && forall y :: !In(u, y) ==> SameAt(m2, n, y)
  {
    hide NodeOk, RingOk, Detached, Adopt;
    var t, m1 := RemoveRoot(u), Detached(m, u);
    if t.Node? {
      DetachedReady(m, u, q);
      RemoveRootApart(u);
      RootStays(u);
      forall y | In(t, y) ensures In(u, y) && y != u.a {
        RemoveRootHas(u, y, 0);
      }
      ReadyFrame(m1, m2, u, t);
      AdoptRep(m2, u.a, q, t);
      RootPositive(t);
    }
  }

  lemma RootPositive(t: Tree)
    requires t.Node? && Apart(t)
    ensures t.a > 0
  {
  }

  lemma RootStays(u: Tree)
    requires u.Node?
    ensures In(u, u.a)
  {
  }

  lemma ReadyFrame(m1: Mem, m2: Mem, u: Tree, t: Tree)
    requires t.Node? && u.Node? && SameOn(m1, m2, u) && (forall y :: In(t, y) ==> In(u, y))
    requires IsTree(m1, At(m1, u.a).kid0, t.l, u.a) && IsTree(m1, At(m1, u.a).kid1, t.r, u.a)
    requires NodeOk(m1, t, At(m1, t.a).parent) && At(m1, t.a).kid0 == 0 && At(m1, t.a).kid1 == 0
    ensures IsTree(m2, At(m2, u.a).kid0, t.l, u.a) && IsTree(m2, At(m2, u.a).kid1, t.r, u.a)
    ensures NodeOk(m2, t, At(m2, t.a).parent) && At(m2, t.a).kid0 == 0 && At(m2, t.a).kid1 == 0
  {
    hide NodeOk;
    assert In(u, u.a) && In(t, t.a);
    TreeFrame(m1, m2, At(m1, u.a).kid0, t.l, u.a);
    TreeFrame(m1, m2, At(m1, u.a).kid1, t.r, u.a);
    NodeFrame(m1, m2, t, At(m1, t.a).parent);
  }

  /** Detaching touches chunks of the node's trie only, and keeps the words that lead to it. */
  lemma DetachedTouches(m: Mem, u: Tree, q: int, y: int)
    requires u.Node? && IsTree(m, u.a, u, q) && !In(u, y)
    ensures SameAt(m, Detached(m, u), y)
    ensures At(Detached(m, u), u.a).parent == At(m, u.a).parent
  {
    hide NodeOk, RingOut;
    if u.ring != [] {
      RingOutTouches(m, u, q, u.a, y);
      RingOutKids(m, u.a);
    } else if u.l.Node? || u.r.Node? {
      LeafSpotIn(u);
    }
  }

  lemma UnlinkMember(m: Mem, p: int, t: Tree, q: int, x: int)
    requires IsTree(m, p, t, q) && Apart(t) && t.Node? && x in t.ring
    ensures x != t.a && IsTree(RingOut(m, x), p, Remove(t, x), q)
    ensures forall y :: !In(t, y) ==> SameAt(m, RingOut(m, x), y)
  {
    hide NodeOk, RingOut;
    var n := RingOut(m, x);
    var i :| 0 <= i < |t.ring| && t.ring[i] == x;
    RingOutMember(m, t, q, i);
    WithoutSplit(t.ring, i);
    forall y | !t.Here(y) ensures SameAt(m, n, y) {
      RingOutTouches(m, t, q, x, y);
    }
    TreeFrame(m, n, At(m, t.a).kid0, t.l, t.a);
    TreeFrame(m, n, At(m, t.a).kid1, t.r, t.a);
  }

  /** Unlinking the root of a bin's trie. */
  lemma UnlinkTop(m: Mem, p: int, t: Tree, q: int)
    requires IsTree(m, p, t, q) && Apart(t) && t.Node?
    ensures IsTree(Unlinked(m, t, t.a, true), RootOf(Remove(t, t.a)), Remove(t, t.a), q)
    ensures forall y :: !In(t, y) ==> SameAt(m, Unlinked(m, t, t.a, true), y)
  {
    hide NodeOk, RingOk, Detached, Adopt;
    RootRep(m, t, q, Detached(m, t));
    NodeParentOf(m, p, t, q);
    forall y | !In(t, y) ensures SameAt(m, Unlinked(m, t, t.a, true), y) {
      DetachedTouches(m, t, q, y);
    }
  }

  lemma NodeParentOf(m: Mem, p: int, t: Tree, q: int)
    requires IsTree(m, p, t, q) && t.Node?
    ensures At(m, t.a).parent == q && p == t.a && At(m, t.a).kid0 == RootOf(t.l) && At(m, t.a).kid1 == RootOf(t.r)
    ensures NodeOk(m, t, q)
  {
  }

  /** Unlinking the root of a child. */
  lemma UnlinkChild(m: Mem, p: int, t: Tree, q: int, right: bool)
    requires IsTree(m, p, t, q) && Apart(t) && t.Node?
    requires if right then t.r.Node? else t.l.Node?
    ensures var u := if right then t.r else t.l;
            var n := Unlinked(m, u, u.a, false);
            && IsTree(n, p, if right then t.(r := RemoveRoot(u)) else t.(l := RemoveRoot(u)), q)
            && forall y :: !In(t, y) ==> SameAt(m, n, y)
  {
    hide NodeOk, RingOk, Detached, Adopt;
    var u := if right then t.r else t.l;
    var other := if right then t.l else t.r;
    var r, m1 := RootOf(RemoveRoot(u)), Detached(m, u);
    var m2 := Hang(m1, t.a, u.a, r);
    var n := Unlinked(m, u, u.a, false);
    NodeParentOf(m, p, t, q);
    NodeParentOf(m, u.a, u, t.a);
    assert In(t, t.a) && In(u, u.a);
    DetachedTouches(m, u, t.a, t.a);
    RootRep(m, u, t.a, m2);
    forall y | !In(u, y) && y != t.a ensures SameAt(m, n, y) {
      DetachedTouches(m, u, t.a, y);
    }
    OtherRoot(t, u, other, right);
    HangNode(m, n, t, q, right, r);
    TreeFrame(m, n, RootOf(other), other, t.a);
    NodeKids(n, t, q, RemoveRoot(u), RemoveRoot(u));
  }

  lemma OtherRoot(t: Tree, u: Tree, other: Tree, right: bool)
    requires Apart(t) && t.Node? && u.Node? && u == (if right then t.r else t.l)
             && other == (if right then t.l else t.r)
    ensures u.a > 0 && RootOf(other) != u.a
    ensures forall y :: In(other, y) ==> !In(u, y) && y != t.a
    ensures forall y :: t.Here(y) ==> !In(u, y)
  {
    assert In(u, u.a);
    if other.Node? {
      assert In(other, other.a);
    }
  }

  lemma HangNode(m: Mem, n: Mem, t: Tree, q: int, right: bool, r: int)
    requires t.Node? && NodeOk(m, t, q) && RingOk(t)
    requires At(n, t.a) == At(m, t.a).WithKid(right, r)
    requires forall y :: t.Here(y) && y != t.a ==> SameAt(m, n, y)
    ensures NodeOk(n, t, q)
  {
    var c := [t.a] + t.ring;
    assert forall i :: 0 <= i < |c| ==> t.Here(c[i]);
    assert forall i :: 1 <= i < |c| ==> c[i] == t.ring[i - 1] && c[i] != t.a;
    assert forall y :: y in t.ring ==> t.Here(y) && y != t.a;
  }

  /** Unlinking a chunk that is not the first of the root. */
  lemma {:induction false} UnlinkBelow(m: Mem, p: int, t: Tree, q: int, x: int)
    requires IsTree(m, p, t, q) && Apart(t) && In(t, x) && x != t.a
    ensures IsTree(Unlinked(m, SubAt(t, x), x, false), p, Remove(t, x), q)
    ensures forall y :: !In(t, y) ==> SameAt(m, Unlinked(m, SubAt(t, x), x, false), y)
    decreases t
  {
    hide NodeOk, RingOk, Unlinked, RingOut;
    if t.Here(x) {
      UnlinkMember(m, p, t, q, x);
      UnlinkedRing(m, t, x);
    } else {
      var right := !In(t.l, x);
      var u := if right then t.r else t.l;
      if x == u.a {
        UnlinkChild(m, p, t, q, right);
      } else {
        UnlinkDeeper(m, p, t, q, x, right);
        UnlinkBelow(m, RootOf(u), u, t.a, x);
        UnlinkKeeps(m, Unlinked(m, SubAt(u, x), x, false), p, t, q, x, right);
      }
    }
  }

  /** A chunk below the root lies in the child that holds it. */
  lemma UnlinkDeeper(m: Mem, p: int, t: Tree, q: int, x: int, right: bool)
    requires IsTree(m, p, t, q) && Apart(t) && In(t, x) && !t.Here(x) && right == !In(t.l, x)
    ensures var u := if right then t.r else t.l;
            && In(u, x) && SubAt(t, x) == SubAt(u, x) && Apart(u) && IsTree(m, RootOf(u), u, t.a)
            && Remove(t, x) == if right then t.(r := Remove(u, x)) else t.(l := Remove(u, x))
  {
    NodeParentOf(m, p, t, q);
  }

  lemma UnlinkKeeps(m: Mem, n: Mem, p: int, t: Tree, q: int, x: int, right: bool)
    requires IsTree(m, p, t, q) && Apart(t) && In(t, x) && !t.Here(x) && right == !In(t.l, x)
    requires var u := if right then t.r else t.l;
             && u.Node? && IsTree(n, RootOf(u), Remove(u, x), t.a)
             && (forall y :: !In(u, y) ==> SameAt(m, n, y))
    ensures var u := if right then t.r else t.l;
            IsTree(n, p, if right then t.(r := Remove(u, x)) else t.(l := Remove(u, x)), q)
    ensures forall y :: !In(t, y) ==> SameAt(m, n, y)
  {
    hide NodeOk, RingOk, Remove;
    var u := if right then t.r else t.l;
    var other := if right then t.l else t.r;
    NodeParentOf(m, p, t, q);
    OtherRoot(t, u, other, right);
    NodeFrame(m, n, t, q);
    TreeFrame(m, n, RootOf(other), other, t.a);
    NodeKids(n, t, q, Remove(u, x), Remove(u, x));
    assert t.Here(t.a) && SameAt(m, n, t.a);
  }

  lemma UnlinkedRing(m: Mem, t: Tree, x: int)
    requires t.Node? && x != t.a
    ensures Unlinked(m, t, x, false) == RingOut(m, x)
  {
  }
}

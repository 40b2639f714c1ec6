/** The bitwise tries of the allocator as values: every node holds the chunks of one size,
    which lies in the interval of sizes its position stands for. */
module Trie {
  import opened Powers
  import opened TreeIndex

  /** A node: its first chunk, the other chunks of the same size, and its children. */
  datatype Tree = Nil | Node(a: int, ring: seq<int>, size: nat, l: Tree, r: Tree)
  {
    predicate Here(x: int) { Node? && (x == a || x in ring) }
  }

  /** The trie holds chunk x with size s. */
  predicate Has(t: Tree, x: int, s: nat) {
    t.Node? && ((t.Here(x) && s == t.size) || Has(t.l, x, s) || Has(t.r, x, s))
  }

  predicate In(t: Tree, x: int) {
    t.Node? && (t.Here(x) || In(t.l, x) || In(t.r, x))
  }

  lemma {:induction false} HasIn(t: Tree, x: int, s: nat)
    requires Has(t, x, s)
    ensures In(t, x)
  {
    if Has(t.l, x, s) {
      HasIn(t.l, x, s);
    } else if Has(t.r, x, s) {
      HasIn(t.r, x, s);
    }
  }

  lemma {:induction false} InHas(t: Tree, x: int) returns (s: nat)
    requires In(t, x)
    ensures Has(t, x, s)
  {
    if t.Here(x) {
      s := t.size;
    } else if In(t.l, x) {
      s := InHas(t.l, x);
    } else {
      s := InHas(t.r, x);
    }
  }

  ghost predicate Distinct(s: seq<int>) {
    forall i, j :: 0 <= i < j < |s| ==> s[i] != s[j]
  }

  ghost predicate Disjoint(t: Tree, u: Tree) {
    forall x :: !(In(t, x) && In(u, x))
  }

  ghost predicate RingOk(t: Tree) {
    t.Node? ==> t.a !in t.ring && Distinct(t.ring) && t.a > 0 && forall x :: x in t.ring ==> x > 0
  }

  ghost predicate Outside(t: Tree, u: Tree) {
    forall x :: In(u, x) ==> !t.Here(x)
  }

  /** All chunks are at different, valid addresses. */
  ghost predicate Apart(t: Tree) {
    t.Node? ==>
      && RingOk(t) && Outside(t, t.l) && Outside(t, t.r)
      && Disjoint(t.l, t.r) && Apart(t.l) && Apart(t.r)
  }

  lemma {:induction false} ApartPositive(t: Tree, x: int)
    requires Apart(t) && In(t, x)
    ensures x > 0
  {
    if In(t.l, x) {
      ApartPositive(t.l, x);
    } else if In(t.r, x) {
      ApartPositive(t.r, x);
    }
  }

  /** The sizes of a subtree with k bits left lie in [lo, lo + 2^k); the left child takes the
      lower half, the right child the upper half, and no size occurs in two nodes. */
  ghost predicate Shape(t: Tree, lo: nat, k: nat)
    decreases t
  {
    t.Node? ==>
      && lo <= t.size < lo + Pow2(k)
      && (if k == 0 then t.l.Nil? && t.r.Nil?
          else Shape(t.l, lo, k - 1) && Shape(t.r, lo + Pow2(k - 1), k - 1))
      && (forall x :: !Has(t.l, x, t.size) && !Has(t.r, x, t.size))
  }

  lemma {:induction false} InInterval(t: Tree, lo: nat, k: nat, x: int, s: nat)
    requires Shape(t, lo, k) && Has(t, x, s)
    ensures lo <= s < lo + Pow2(k)
    decreases t
  {
    if Has(t.r, x, s) {
      InInterval(t.r, lo + Pow2(k - 1), k - 1, x, s);
    } else if Has(t.l, x, s) {
      InInterval(t.l, lo, k - 1, x, s);
    }
  }

  // ---------------------------------------------------------------- insertion

  function Insert(t: Tree, x: int, s: nat, lo: nat, k: nat): Tree {
    if t.Nil? then Node(x, [], s, Nil, Nil)
    else if t.size == s then t.(ring := [x] + t.ring)
    else if k == 0 then t
    else if s < lo + Pow2(k - 1) then t.(l := Insert(t.l, x, s, lo, k - 1))
    else t.(r := Insert(t.r, x, s, lo + Pow2(k - 1), k - 1))
  }

  /** Insertion adds exactly the new chunk. */
  lemma {:induction false} InsertHas(t: Tree, x: int, s: nat, lo: nat, k: nat, y: int, u: nat)
    requires Shape(t, lo, k) && lo <= s < lo + Pow2(k)
    ensures Has(Insert(t, x, s, lo, k), y, u) <==> Has(t, y, u) || (y == x && u == s)
    ensures In(Insert(t, x, s, lo, k), y) <==> In(t, y) || y == x
    decreases t
  {
    if t.Node? && t.size != s {
      if s < lo + Pow2(k - 1) {
        InsertHas(t.l, x, s, lo, k - 1, y, u);
      } else {
        InsertHas(t.r, x, s, lo + Pow2(k - 1), k - 1, y, u);
      }
    }
  }

  /** Another left subtree, made of the same chunks or new ones. */
  lemma ApartLeft(t: Tree, l': Tree, x: int)
    requires t.Node? && Apart(t) && Apart(l') && !In(t.r, x) && !t.Here(x)
    requires forall y :: In(l', y) ==> In(t.l, y) || y == x
    ensures Apart(t.(l := l'))
  {
    var t' := t.(l := l');
    assert Disjoint(l', t.r);
    assert Outside(t', l') && Outside(t', t.r);
  }

  lemma ApartRight(t: Tree, r': Tree, x: int)
    requires t.Node? && Apart(t) && Apart(r') && !In(t.l, x) && !t.Here(x)
    requires forall y :: In(r', y) ==> In(t.r, y) || y == x
    ensures Apart(t.(r := r'))
  {
    var t' := t.(r := r');
    assert Disjoint(t.l, r');
    assert Outside(t', r') && Outside(t', t.l);
  }

  lemma {:induction false} InsertApart(t: Tree, x: int, s: nat, lo: nat, k: nat)
    requires Shape(t, lo, k) && Apart(t) && lo <= s < lo + Pow2(k) && !In(t, x) && x > 0
    ensures Apart(Insert(t, x, s, lo, k))
    decreases t
  {
    if t.Node? && t.size != s {
      if s < lo + Pow2(k - 1) {
        InsertApart(t.l, x, s, lo, k - 1);
        var l' := Insert(t.l, x, s, lo, k - 1);
        forall y ensures In(l', y) ==> In(t.l, y) || y == x {
          InsertHas(t.l, x, s, lo, k - 1, y, s);
        }
        ApartLeft(t, l', x);
      } else {
        InsertApart(t.r, x, s, lo + Pow2(k - 1), k - 1);
        var r' := Insert(t.r, x, s, lo + Pow2(k - 1), k - 1);
        forall y ensures In(r', y) ==> In(t.r, y) || y == x {
          InsertHas(t.r, x, s, lo + Pow2(k - 1), k - 1, y, s);
        }
        ApartRight(t, r', x);
      }
    } else if t.Node? {
      ApartRing(t, x);
    }
  }

  lemma ApartRing(t: Tree, x: int)
    requires t.Node? && Apart(t) && !In(t, x) && x > 0
    ensures Apart(t.(ring := [x] + t.ring))
  {
    var t' := t.(ring := [x] + t.ring);
    assert RingOk(t') && Outside(t', t.l) && Outside(t', t.r);
  }

  lemma {:induction false} InsertShape(t: Tree, x: int, s: nat, lo: nat, k: nat)
    requires Shape(t, lo, k) && lo <= s < lo + Pow2(k)
    ensures Shape(Insert(t, x, s, lo, k), lo, k)
    decreases t
  {
    if t.Node? && t.size != s {
      if s < lo + Pow2(k - 1) {
        InsertShape(t.l, x, s, lo, k - 1);
        var l' := Insert(t.l, x, s, lo, k - 1);
        forall y ensures !Has(l', y, t.size) {
          InsertHas(t.l, x, s, lo, k - 1, y, t.size);
        }
      } else {
        InsertShape(t.r, x, s, lo + Pow2(k - 1), k - 1);
        var r' := Insert(t.r, x, s, lo + Pow2(k - 1), k - 1);
        forall y ensures !Has(r', y, t.size) {
          InsertHas(t.r, x, s, lo + Pow2(k - 1), k - 1, y, t.size);
        }
      }
    }
  }

  // ---------------------------------------------------------------- removal

  /** The leaf reached by going right where possible, else left. */
  function Leaf(t: Tree): (leaf: Tree)
    requires t.Node?
    ensures leaf.Node? && leaf.l.Nil? && leaf.r.Nil?
  {
    if t.r.Node? then Leaf(t.r) else if t.l.Node? then Leaf(t.l) else t
  }

  function DropLeaf(t: Tree): Tree
    requires t.Node?
  {
    if t.r.Node? then t.(r := DropLeaf(t.r)) else if t.l.Node? then t.(l := DropLeaf(t.l)) else Nil
  }

  /** Remove the first chunk of the root: the last of its ring takes over, or a leaf. */
  function RemoveRoot(t: Tree): Tree
    requires t.Node?
  {
    if t.ring != [] then Node(t.ring[|t.ring| - 1], t.ring[..|t.ring| - 1], t.size, t.l, t.r)
    else if t.r.Node? then
      var leaf := Leaf(t.r); Node(leaf.a, leaf.ring, leaf.size, t.l, DropLeaf(t.r))
    else if t.l.Node? then
      var leaf := Leaf(t.l); Node(leaf.a, leaf.ring, leaf.size, DropLeaf(t.l), t.r)
    else Nil
  }

  function Without(s: seq<int>, x: int): (r: seq<int>) {
    if s == [] then [] else if s[0] == x then s[1..] else [s[0]] + Without(s[1..], x)
  }

  function Remove(t: Tree, x: int): Tree {
    if t.Nil? then Nil
    else if x == t.a then RemoveRoot(t)
    else if x in t.ring then t.(ring := Without(t.ring, x))
    else if In(t.l, x) then t.(l := Remove(t.l, x))
    else t.(r := Remove(t.r, x))
  }

  lemma DistinctCons(x: int, s: seq<int>)
    requires Distinct(s) && x !in s
    ensures Distinct([x] + s)
  {
  }

  lemma {:induction false} WithoutFacts(s: seq<int>, x: int)
    requires Distinct(s)
    ensures Distinct(Without(s, x))
    ensures forall y :: y in Without(s, x) <==> y in s && y != x
  {
    if s != [] {
      assert s == [s[0]] + s[1..];
      assert forall y :: y in s <==> y == s[0] || y in s[1..];
      assert s[0] !in s[1..];
      WithoutFacts(s[1..], x);
      if s[0] != x {
        DistinctCons(s[0], Without(s[1..], x));
      }
    }
  }

  /** Dropping the leaf takes away the leaf's chunks, and nothing else. */
  lemma {:induction false} DropLeafHas(t: Tree, y: int, u: nat)
    requires t.Node?
    ensures Has(t, y, u) <==> Has(DropLeaf(t), y, u) || (Leaf(t).Here(y) && u == Leaf(t).size)
    ensures In(t, y) <==> In(DropLeaf(t), y) || Leaf(t).Here(y)
  {
    if t.r.Node? {
      DropLeafHas(t.r, y, u);
    } else if t.l.Node? {
      DropLeafHas(t.l, y, u);
    }
  }

  lemma {:induction false} DropLeafApart(t: Tree)
    requires t.Node? && Apart(t)
    ensures Apart(DropLeaf(t)) && RingOk(Leaf(t)) && Outside(Leaf(t), DropLeaf(t))
  {
    if t.r.Node? {
      DropLeafApart(t.r);
      var r' := DropLeaf(t.r);
      forall y ensures In(t.r, y) <==> In(r', y) || Leaf(t.r).Here(y) {
        DropLeafHas(t.r, y, 0);
      }
      var t' := t.(r := r');
      assert Outside(t', t'.l) && Outside(t', r') && Disjoint(t.l, r');
    } else if t.l.Node? {
      DropLeafApart(t.l);
      var l' := DropLeaf(t.l);
      forall y ensures In(t.l, y) <==> In(l', y) || Leaf(t.l).Here(y) {
        DropLeafHas(t.l, y, 0);
      }
      var t' := t.(l := l');
      assert Outside(t', l') && Outside(t', t'.r) && Disjoint(l', t.r);
    }
  }

  lemma {:induction false} DropLeafShape(t: Tree, lo: nat, k: nat)
    requires t.Node? && Shape(t, lo, k)
    ensures Shape(DropLeaf(t), lo, k) && lo <= Leaf(t).size < lo + Pow2(k)
    ensures forall y :: !Has(DropLeaf(t), y, Leaf(t).size)
    decreases t
  {
    hide Pow2;
    if t.r.Node? {
      var leaf, r' := Leaf(t.r), DropLeaf(t.r);
      Pow2Twice(k - 1);
      DropLeafShape(t.r, lo + Pow2(k - 1), k - 1);
      LeafSize(t.r, t.size);
      forall y ensures !Has(t.l, y, leaf.size) {
        NotInInterval(t.l, lo, k - 1, y, leaf.size);
      }
      assert Shape(t.(r := r'), lo, k);
    } else if t.l.Node? {
      var leaf, l' := Leaf(t.l), DropLeaf(t.l);
      Pow2Twice(k - 1);
      DropLeafShape(t.l, lo, k - 1);
      LeafSize(t.l, t.size);
      assert Shape(t.(l := l'), lo, k);
    }
  }

  lemma LeafSize(t: Tree, s: nat)
    requires t.Node? && forall y :: !Has(t, y, s)
    ensures Leaf(t).size != s && forall y :: !Has(DropLeaf(t), y, s)
  {
    DropLeafHas(t, Leaf(t).a, s);
    forall y ensures !Has(DropLeaf(t), y, s) {
      DropLeafHas(t, y, s);
    }
  }

  lemma NotInInterval(t: Tree, lo: nat, k: nat, x: int, s: nat)
    requires Shape(t, lo, k) && s >= lo + Pow2(k)
    ensures !Has(t, x, s)
  {
    if Has(t, x, s) {
      InInterval(t, lo, k, x, s);
    }
  }

  lemma RemoveRootHas(t: Tree, y: int, u: nat)
    requires t.Node? && Apart(t)
    ensures Has(RemoveRoot(t), y, u) <==> Has(t, y, u) && y != t.a
    ensures In(RemoveRoot(t), y) <==> In(t, y) && y != t.a
  {
    if t.ring != [] {
      var n := |t.ring| - 1;
      assert t.ring == t.ring[..n] + [t.ring[n]];
    } else if t.r.Node? {
      DropLeafHas(t.r, y, u);
    } else if t.l.Node? {
      DropLeafHas(t.l, y, u);
    }
    if Has(t.l, y, u) {
      HasIn(t.l, y, u);
    }
    if Has(t.r, y, u) {
      HasIn(t.r, y, u);
    }
  }

  lemma RemoveRootApart(t: Tree)
    requires t.Node? && Apart(t)
    ensures Apart(RemoveRoot(t))
  {
    var t' := RemoveRoot(t);
    if t.ring != [] {
      var n := |t.ring| - 1;
      assert t.ring == t.ring[..n] + [t.ring[n]];
      assert t.ring[n] in t.ring && forall y :: y in t.ring[..n] ==> y in t.ring;
      assert forall y :: t'.Here(y) ==> t.Here(y);
      assert Outside(t', t'.l) && Outside(t', t'.r);
    } else if t.r.Node? || t.l.Node? {
      var sub := if t.r.Node? then t.r else t.l;
      DropLeafApart(sub);
      forall y ensures In(sub, y) <==> In(DropLeaf(sub), y) || Leaf(sub).Here(y) {
        DropLeafHas(sub, y, 0);
      }
      assert forall y :: t'.Here(y) <==> Leaf(sub).Here(y);
      assert Outside(t', t'.l) && Outside(t', t'.r) && Disjoint(t'.l, t'.r);
    }
  }

  lemma RemoveRootShape(t: Tree, lo: nat, k: nat)
    requires t.Node? && Shape(t, lo, k)
    ensures Shape(RemoveRoot(t), lo, k)
  {
    if t.ring == [] && t.r.Node? {
      DropLeafShape(t.r, lo + Pow2(k - 1), k - 1);
      var s := Leaf(t.r).size;
      forall y ensures !Has(t.l, y, s) {
        if Has(t.l, y, s) {
          InInterval(t.l, lo, k - 1, y, s);
        }
      }
    } else if t.ring == [] && t.l.Node? {
      DropLeafShape(t.l, lo, k - 1);
    }
  }

  /** Removal takes away exactly chunk x. */
  lemma {:induction false} RemoveHas(t: Tree, x: int, y: int, u: nat)
    requires Apart(t)
    ensures Has(Remove(t, x), y, u) <==> Has(t, y, u) && y != x
    ensures In(Remove(t, x), y) <==> In(t, y) && y != x
  {
    if t.Nil? {
    } else if x == t.a {
      RemoveRootHas(t, y, u);
    } else {
      if Has(t.l, y, u) {
        HasIn(t.l, y, u);
      }
      if Has(t.r, y, u) {
        HasIn(t.r, y, u);
      }
      if x in t.ring {
        WithoutFacts(t.ring, x);
      } else if In(t.l, x) {
        RemoveHas(t.l, x, y, u);
      } else {
        RemoveHas(t.r, x, y, u);
      }
    }
  }

  lemma {:induction false} RemoveApart(t: Tree, x: int)
    requires Apart(t)
    ensures Apart(Remove(t, x))
  {
    if t.Nil? {
    } else if x == t.a {
      RemoveRootApart(t);
    } else if x in t.ring {
      WithoutFacts(t.ring, x);
      var t' := Remove(t, x);
      assert RingOk(t') && Outside(t', t.l) && Outside(t', t.r);
    } else {
      RemoveApart(t.l, x);
      RemoveApart(t.r, x);
      var l', r' := Remove(t.l, x), Remove(t.r, x);
      forall y ensures (In(l', y) ==> In(t.l, y)) && (In(r', y) ==> In(t.r, y)) {
        RemoveHas(t.l, x, y, 0);
        RemoveHas(t.r, x, y, 0);
      }
      var t' := Remove(t, x);
      assert Disjoint(l', t.r) && Disjoint(t.l, r');
      assert Outside(t', l') && Outside(t', r') && Outside(t', t.l) && Outside(t', t.r);
    }
  }

  lemma {:induction false} RemoveShape(t: Tree, x: int, lo: nat, k: nat)
    requires Apart(t) && Shape(t, lo, k)
    ensures Shape(Remove(t, x), lo, k)
    decreases t
  {
    if t.Nil? {
    } else if x == t.a {
      RemoveRootShape(t, lo, k);
    } else if x in t.ring {
    } else if k > 0 {
      RemoveShape(t.l, x, lo, k - 1);
      RemoveShape(t.r, x, lo + Pow2(k - 1), k - 1);
      var l', r' := Remove(t.l, x), Remove(t.r, x);
      forall y ensures !Has(l', y, t.size) && !Has(r', y, t.size) {
        RemoveHas(t.l, x, y, t.size);
        RemoveHas(t.r, x, y, t.size);
      }
    }
  }
}

/** The bins as the allocator updates them: small-bin rings and tree bins in one memory. */
module BinTable {
  import opened Powers
  import opened TreeIndex
  import opened Trie
  import opened TrieMem
  import opened HeapWords
  import opened Bins
  import opened BinStores
  import opened TrieSearch

  // ---------------------------------------------------------------- what a node's words say

  lemma {:induction false} NodeOf(m: Mem, p: int, t: Tree, q: int, x: int)
    requires IsTree(m, p, t, q) && Apart(t) && In(t, x) && q != 0
    ensures var u := SubAt(t, x);
            && IsTree(m, u.a, u, At(m, u.a).parent) && Apart(u) && At(m, u.a).parent != 0
            && (u.a == t.a <==> u == t) && (u.a != t.a ==> In(t, At(m, u.a).parent) && !In(u, At(m, u.a).parent))
            && (u == t ==> At(m, u.a).parent == q)
    decreases t
  {
    hide NodeOk, RingOk;
    NodeParentOf(m, p, t, q);
    if !t.Here(x) {
      var s := if In(t.l, x) then t.l else t.r;
      RootPositive(t);
      NodeOf(m, RootOf(s), s, t.a, x);
      NodeBelow(t, s, x);
    }
  }

  lemma NodeBelow(t: Tree, s: Tree, x: int)
    requires t.Node? && Apart(t) && (s == t.l || s == t.r) && In(s, x)
    ensures var u := SubAt(s, x); u.a != t.a && !In(u, t.a) && t.a > 0
  {
    var u := SubAt(s, x);
    SubAtIn(s, x, u.a);
    SubAtIn(s, x, t.a);
    assert In(u, u.a);
  }

  /** The words of a chunk that is not the first of its node. */
  lemma MemberWords(m: Mem, u: Tree, q: int, x: int)
    requires u.Node? && NodeOk(m, u, q) && RingOk(u) && u.Here(x) && x != u.a
    ensures At(m, x).parent == 0 && At(m, x).bk != x
  {
    var i :| 0 <= i < |u.ring| && u.ring[i] == x;
    var c := [u.a] + u.ring;
    RingNeighbours(m, c, i + 1);
    CircleDistinct(u, i, i + 1);
  }

  /** The words of the first chunk of a node. */
  lemma FirstWords(m: Mem, u: Tree, q: int)
    requires u.Node? && IsTree(m, u.a, u, q) && Apart(u)
    ensures var c := At(m, u.a);
            && (c.bk == u.a <==> u.ring == []) && (u.ring != [] ==> c.bk == RootOf(RemoveRoot(u)))
            && c.kid0 == RootOf(u.l) && c.kid1 == RootOf(u.r) && c.parent == q
  {
    NodeParentOf(m, u.a, u, q);
    RingHead(m, u, q);
  }

  /** Chunks of a trie are large chunks held in bins. */
  lemma TreeKeys(h: Held, i: nat, t: Tree, a: int)
    requires TreeHolds(h, i, t) && In(t, a)
    ensures LargeIn(h, a) && a in LargeKeys(h)
  {
    hide TreeHolds;
    TreeInHeld(h, i, t, a);
  }

  class BinTable {
    var mem: Words
    var smallmap: set<nat>
    var treemap: set<nat>
    var roots: seq<int>
    ghost var trees: seq<Tree>
    ghost var rings: seq<seq<int>>
    ghost var held: Held

    ghost function Get(): BinState
      reads this
    {
      BinState(mem, smallmap, treemap, roots, trees, rings, held)
    }

    /** init_bins: all bins are empty. */
    constructor ()
      ensures BinsOk(Get()) && held == map[] && fresh(this)
    {
      smallmap, treemap, roots := {}, {}, seq(NTREEBINS, _ => 0);
      trees, rings, held := seq(NTREEBINS, _ => Nil), seq(NSMALLBINS, _ => []), map[];
      var m: Words := map[];
      for i := 0 to NSMALLBINS {
        m := m[SmallBin(i) + FD := SmallBin(i)];
        m := m[SmallBin(i) + BK := SmallBin(i)];
      }
      mem := m;
      new;
      EmptyBins(Get());
    }

    /** Where a chunk of size s goes in bin i. */
    method Descend(i: nat, s: nat, ghost t: Tree, ghost k: set<int>) returns (place: Place)
      requires i < NTREEBINS && |roots| == NTREEBINS && t.Node?
      requires MIN_LARGE_SIZE <= s < SIZE_LIMIT && i == BinOf(s)
      requires IsTree(TreeView(mem, k), roots[i], t, TreeBin(i)) && Shape(t, Low(i), Bits(i)) && Apart(t)
      requires forall a :: In(t, a) ==> a in k
      ensures place == Spot(t, s, Low(i), Bits(i))
    {
      hide TreeView, BinOf, LeftShift, Low, Bits, Pow2, W, Key, Shl, TopBit, NodeOk;
      KeyStart(s);
      BinInterval(s);
      var p, key := roots[i], Shl(s, LeftShift(i));
      ghost var u, q := t, TreeBin(i);
      ghost var lo: nat, b: nat := Low(i), Bits(i);
      BitsBound(i);
      while ChunkSize(W(mem, p + HEAD)) != s
        invariant u.Node? && IsTree(TreeView(mem, k), p, u, q) && Shape(u, lo, b) && Apart(u)
        invariant lo <= s < lo + Pow2(b) && b <= SIZE_BITS && key == Key(s - lo, b)
        invariant forall a :: In(u, a) ==> a in k
        invariant Spot(t, s, Low(i), Bits(i)) == Spot(u, s, lo, b)
        decreases u
      {
        SubKeys(u, k);
        ReadNode(mem, k, p, u, q);
        ShapeBits(u, lo, b, s);
        KeyStep(s - lo, b);
        Pow2Twice(b - 1);
        SpotStep(u, s, lo, b);
        KidsPositive(u);
        var right := TopBit(key);
        var c := W(mem, p + KidAt(right));
        key := Shl(key, 1);
        if c == 0 {
          return Below(p, right);
        }
        p, u, q := c, if right then u.r else u.l, p;
        lo, b := if right then lo + Pow2(b - 1) else lo, b - 1;
      }
      SubKeys(u, k);
      ReadNode(mem, k, p, u, q);
      return Same(p);
    }

    /** insert_large_chunk: adds exactly chunk x, whose head says that its size is s. */
    method InsertLarge(x: int, s: nat)
      requires BinsOk(Get()) && Room(held, x, s) && Large(s) && ChunkSize(W(mem, x + HEAD)) == s
      modifies this
      ensures BinsOk(Get()) && held == old(held)[x := s] && Quiet(old(mem), mem, held)
    {
      hide BinsOk, BinOf, W, Room, Quiet, HeldOk, TreeView, IsTree, Spot, Low, Bits, Insert, ChunkSize, Shape, Apart,
        RootOf;
      var i := BinOf(s);
      ghost var b0 := Get();
      mem := mem[x + INDEX := i];
      mem := mem[x + KID0 := 0];
      mem := mem[x + KID1 := 0];
      ghost var b := Get();
      Prepared(b0, x, s);
      BinTree(b, s);
      if i !in treemap {
        treemap := treemap + {i};
        roots := roots[i := x];
        mem := mem[x + PARENT := TreeBin(i)];
        mem := mem[x + FD := x];
        mem := mem[x + BK := x];
        FinishRoot(b, x, s);
      } else {
        SpotFacts(b, x, s);
        var place := Descend(i, s, trees[i], LargeKeys(held));
        if place.Below? {
          mem := mem[place.at + KidAt(place.right) := x];
          mem := mem[x + PARENT := place.at];
          mem := mem[x + FD := x];
          mem := mem[x + BK := x];
          FinishBelow(b, x, s);
        } else {
          var f := W(mem, place.at + FD);
          mem := mem[place.at + FD := x];
          mem := mem[f + BK := x];
          mem := mem[x + FD := f];
          mem := mem[x + BK := place.at];
          mem := mem[x + PARENT := 0];
          FinishBeside(b, x, s);
        }
        assert treemap == treemap + {i} && roots == roots[i := roots[i]];
      }
      trees := trees[i := Insert(trees[i], x, s, Low(i), Bits(i))];
      held := held[x := s];
      QuietTrans(b0.mem, b.mem, mem, held);
      assert Get() == Inserted(b, mem, x, s);
    }

    /** The leaf below the first chunk of u, and the child pointer that leads to it. */
    method Deepest(x: int, ghost u: Tree, ghost q: int, ghost k: set<int>) returns (r: int, at: int, right: bool)
      requires u.Node? && x == u.a && IsTree(TreeView(mem, k), x, u, q) && Apart(u)
      requires forall a :: In(u, a) ==> a in k
      ensures u.l.Nil? && u.r.Nil? ==> r == 0
      ensures u.l.Node? || u.r.Node? ==> r != 0 && r == Leaf(u).a && Below(at, right) == LeafSpot(u)
    {
      hide TreeView, W, NodeOk;
      SubKeys(u, k);
      ReadNode(mem, k, x, u, q);
      KidsPositive(u);
      at, right, r := x, true, W(mem, x + KID1);
      if r == 0 {
        right, r := false, W(mem, x + KID0);
      }
      if r == 0 {
        return;
      }
      ghost var c := if u.r.Node? then u.r else u.l;
      ghost var top := x;
      while W(mem, r + KID1) != 0 || W(mem, r + KID0) != 0
        invariant c.Node? && IsTree(TreeView(mem, k), r, c, top) && Apart(c) && Leaf(c) == Leaf(u)
        invariant forall a :: In(c, a) ==> a in k
        invariant LeafSpot(u) == if c.l.Nil? && c.r.Nil? then Below(at, right) else LeafSpot(c)
        decreases c
      {
        SubKeys(c, k);
        ReadNode(mem, k, r, c, top);
        KidsPositive(c);
        at, right, top := r, W(mem, r + KID1) != 0, r;
        r := W(mem, r + KidAt(right));
        c := if right then c.r else c.l;
      }
      SubKeys(c, k);
      ReadNode(mem, k, r, c, top);
      KidsPositive(c);
    }

    /** The first half of unlink_large_chunk: x leaves its ring, or a leaf is cut off to
        replace it; r is the chunk that takes the place of x, if any. */
    method Detach(x: int, ghost u: Tree, ghost q: int) returns (r: int)
      requires BinsOk(Get()) && u.Node? && u.Here(x) && IsTree(TreeView(mem, LargeKeys(held)), u.a, u, q) && Apart(u)
      requires forall a :: In(u, a) ==> LargeIn(held, a)
      modifies this`mem
      ensures LargeQuiet(old(mem), mem, held)
      ensures var v := TreeView(old(mem), LargeKeys(held));
              TreeView(mem, LargeKeys(held)) == if x == u.a then Detached(v, u) else RingOut(v, x)
      ensures x == u.a ==> r == RootOf(RemoveRoot(u))
    {
      hide BinsOk, TreeView, W, IsTree, Apart, LargeQuiet, In, Detached, RingOut, RemoveRoot, RootOf, HeldOk;
      ghost var k, m := LargeKeys(held), mem;
      BinsHeld(Get());
      LargeSpaced(held);
      HereIn(u, x);
      if W(mem, x + BK) != x {
        DetachRing(m, held, u, q, x);
        var f := W(mem, x + FD);
        r := W(mem, x + BK);
        mem := mem[f + BK := r];
        mem := mem[r + FD := f];
      } else {
        DetachFirst(m, held, u, q, x);
        var at, right;
        r, at, right := Deepest(x, u, q, k);
        if r != 0 {
          mem := mem[at + KidAt(right) := 0];
          DetachLeaf(m, held, u, at, right);
        } else {
          DetachAlone(m, held, u);
        }
      }
    }

    /** Chunk r takes the place of x below xp, with the children of x. */
    method Replace(x: int, r: int, xp: int)
      modifies this`mem
      ensures mem == TakeOver(old(mem), x, r, xp)
    {
      mem := mem[r + PARENT := xp];
      var c0 := W(mem, x + KID0);
      if c0 != 0 {
        mem := mem[r + KID0 := c0];
        mem := mem[c0 + PARENT := r];
      }
      var c1 := W(mem, x + KID1);
      if c1 != 0 {
        mem := mem[r + KID1 := c1];
        mem := mem[c1 + PARENT := r];
      }
    }

    /** unlink_large_chunk: takes away exactly chunk x. */
    method UnlinkLarge(x: int)
      requires BinsOk(Get()) && LargeIn(held, x)
      modifies this
      ensures BinsOk(Get()) && held == old(held) - {x} && Quiet(old(mem), mem, old(held))
    {
      hide BinsOk, BinOf, W, Quiet, HeldOk, TreeView, IsTree, In, Apart, RootOf, RemoveRoot, LargeQuiet, Unlinked,
        UnlinkedFrom, Detached, RingOut, Remove, LargeKeys, SubAt;
      ghost var b, i := Get(), BinOf(held[x]);
      UnlinkStart(b, x);
      ghost var t := trees[i];
      ghost var u := SubAt(t, x);
      var xp := W(mem, x + PARENT);
      var r := Detach(x, u, At(TreeView(mem, LargeKeys(held)), u.a).parent);
      ghost var m1 := mem;
      DetachedIndex(b, m1, x);
      if xp != 0 {
        DetachedKids(b, m1, x);
        var bin := W(mem, x + INDEX);
        if x == roots[bin] {
          roots := roots[bin := r];
          if r == 0 {
            treemap := treemap - {bin};
          }
        } else if W(mem, xp + KID0) == x {
          mem := mem[xp + KID0 := r];
        } else {
          mem := mem[xp + KID1 := r];
        }
        ghost var m2 := mem;
        HungView(b, m1, m2, x, r);
        if r != 0 {
          Replace(x, r, xp);
        }
        TakenOver(b, m2, mem, x, r);
      } else {
        RingUnlinked(b, mem, x);
      }
      RemovedOk(b, mem, x);
      LargeQuietIsQuiet(b.mem, mem, b.held);
      RemovedPointers(b, x);
      trees := trees[i := Remove(t, x)];
      held := held - {x};
      assert roots == b.roots[i := RootOf(Remove(t, x))];
      assert Get() == Removed(b, mem, i, x);
    }

    /** The chunks of a subtree d at pointer t, held in bin i. */
    ghost predicate Subtree(i: nat, t: int, d: Tree, q: int)
      reads this
    {
      && i < NTREEBINS && |trees| == NTREEBINS && IsTree(TreeView(mem, LargeKeys(held)), t, d, q) && Apart(d)
      && TreeHolds(held, i, trees[i]) && Within(d, trees[i])
    }

    /** Reading the root of a subtree. */
    lemma SubtreeNode(i: nat, t: int, d: Tree, q: int)
      requires Subtree(i, t, d, q)
      ensures t == RootOf(d) && (d.Node? <==> t != 0)
      ensures d.Node? ==>
                && LargeIn(held, t) && held[t] == d.size && ChunkSize(W(mem, t + HEAD)) == d.size
                && Has(trees[i], t, d.size)
                && W(mem, t + KID0) == RootOf(d.l) && W(mem, t + KID1) == RootOf(d.r)
                && Subtree(i, RootOf(d.l), d.l, t) && Subtree(i, RootOf(d.r), d.r, t)
                && (d.r.Node? ==> RootOf(d.r) != 0 && RootOf(d.l) != RootOf(d.r))
    {
      hide TreeView, W, ChunkSize, TreeHolds, IsTree;
      if d.Node? {
        SubtreeHeld(held, i, trees[i], d);
        ReadNode(mem, LargeKeys(held), t, d, q);
        KidsPositive(d);
        WithinKids(d, trees[i]);
        RootsDiffer(d);
      } else {
        KidRoot(TreeView(mem, LargeKeys(held)), t, d, q);
      }
      KidRoot(TreeView(mem, LargeKeys(held)), t, d, q);
    }

    /** The search starts with nothing found and the whole trie of the bin ahead. */
    lemma StartDown(nb: nat)
      requires BinsOk(Get()) && MIN_LARGE_SIZE <= nb < WORD
      ensures var i := BinOf(nb);
              && i < NTREEBINS && |trees| == NTREEBINS && |roots| == NTREEBINS
              && Subtree(i, roots[i], trees[i], TreeBin(i)) && Subtree(i, 0, Nil, 0) && SoFar(held, nb, 0, WORD - nb)
              && (nb < SIZE_LIMIT ==>
                    && Shape(trees[i], Low(i), Bits(i)) && Low(i) <= nb < Low(i) + Pow2(Bits(i)) && Bits(i) <= SIZE_BITS
                    && Shl(nb, LeftShift(i)) == Key(nb - Low(i), Bits(i)))
              && Ahead(trees[i], nb, WORD - nb, trees[i], Nil) && Beyond(Nil, Low(i) + Pow2(Bits(i)))
              && Shape(Nil, 0, 0)
    {
      hide BinsOk, BinOf, HeldOk, Low, Bits, Pow2, LeftShift, Shl, Key, W, TreeView;
      BinTree(Get(), nb);
      var i := BinOf(nb);
      AheadStart(trees[i], nb, WORD - nb);
      if nb < SIZE_LIMIT {
        KeyStart(nb);
        BinInterval(nb);
        BitsBound(i);
      }
    }

    /** First loop of tmalloc_large: down the trie of the bin towards size nb. Returns the best
        chunk on the way and the subtree that can still hold a better one. */
    method Towards(nb: nat) returns (v: int, rest: nat, t: int, ghost d: Tree, ghost q: int, ghost lo: nat,
                                     ghost k: nat)
      requires BinsOk(Get()) && MIN_LARGE_SIZE <= nb < WORD && BinOf(nb) < |trees| && trees[BinOf(nb)].Node?
      ensures SoFar(held, nb, v, rest) && Subtree(BinOf(nb), t, d, q)
      ensures v != 0 ==> Has(trees[BinOf(nb)], v, nb + rest)
      ensures nb < SIZE_LIMIT ==>
                && Shape(d, lo, k) && (rest == 0 || AllFit(d, nb))
                && StillIn(trees[BinOf(nb)], nb, rest, d)
    {
      hide BinsOk, BinOf, W, HeldOk, Has, SoFar, Subtree, Shape, Key, Shl, TopBit, Pow2, Ahead, Beyond, AllFit,
        StillIn, Low, Bits, LeftShift,
        TreeHolds, IsTree, Apart;
      var i := BinOf(nb);
      StartDown(nb);
      BinsHeld(Get());
      v, rest, t := 0, WORD - nb, roots[i];
      var bits, rst := Shl(nb, LeftShift(i)), 0;
      ghost var r, rq := Nil, 0;
      ghost var rlo: nat, rk: nat := 0, 0;
      d, q, lo, k := trees[i], TreeBin(i), Low(i), Bits(i);
      while true
        invariant Subtree(i, t, d, q) && d.Node? && Subtree(i, rst, r, rq) && SoFar(held, nb, v, rest) && rest > 0
        invariant v != 0 ==> Has(trees[i], v, nb + rest)
        invariant nb < SIZE_LIMIT ==>
                    && Shape(d, lo, k) && lo <= nb < lo + Pow2(k) && k <= SIZE_BITS && bits == Key(nb - lo, k)
                    && Shape(r, rlo, rk) && Ahead(trees[i], nb, rest, d, r) && Beyond(r, lo + Pow2(k))
        decreases d
      {
        SubtreeNode(i, t, d, q);
        SoFarStep(held, nb, v, rest, t);
        ghost var rest0 := rest;
        var trem := Sub64(ChunkSize(W(mem, t + HEAD)), nb);
        if trem < rest {
          v, rest := t, trem;
          FoundHas(held, nb, v, rest, d, trees[i]);
          if rest == 0 {
            StillExact(trees[i], nb, d);
            return;
          }
        }
        if nb < SIZE_LIMIT {
          StepDown(trees[i], nb, rest0, rest, d, r, lo, k);
        }
        var rt, right := W(mem, t + KID1), TopBit(bits);
        ghost var c, p := d, t;
        t := W(mem, t + KidAt(right));
        q, d := p, if right then c.r else c.l;
        if rt != 0 && rt != t {
          rst, r, rq := rt, c.r, p;
          if k > 0 {
            rlo, rk := lo + Pow2(k - 1), k - 1;
          }
        }
        if k > 0 {
          lo, k := if right then lo + Pow2(k - 1) else lo, k - 1;
        }
        SubtreeNode(i, t, d, q);
        if t == 0 {
          if nb < SIZE_LIMIT {
            DownEnds(trees[i], nb, rest, r, lo + Pow2(k));
          }
          t, d, q, lo, k := rst, r, rq, rlo, rk;
          return;
        }
        bits := Shl(bits, 1);
      }
    }

    /** Second loop of tmalloc_large: the least chunk of a subtree lies on its leftmost path. */
    method LeastOf(nb: nat, v0: int, rest0: nat, t0: int, ghost i: nat, ghost d0: Tree, ghost q0: int, ghost lo0: nat,
                   ghost k0: nat)
      returns (v: int, rest: nat)
      requires BinsOk(Get()) && SoFar(held, nb, v0, rest0) && Subtree(i, t0, d0, q0)
      requires nb < SIZE_LIMIT ==> Shape(d0, lo0, k0) && Left(held, nb, rest0, d0) && (rest0 == 0 || AllFit(d0, nb))
      ensures SoFar(held, nb, v, rest)
      ensures nb < SIZE_LIMIT ==> Left(held, nb, rest, Nil)
    {
      hide BinsOk, W, HeldOk, Has, SoFar, Subtree, Shape, AllFit, Left, BinOf, TreeHolds, IsTree, Apart;
      BinsHeld(Get());
      v, rest := v0, rest0;
      var t := t0;
      ghost var d, q := d0, q0;
      ghost var lo: nat, k: nat := lo0, k0;
      SubtreeNode(i, t, d, q);
      while t != 0
        invariant Subtree(i, t, d, q) && (d.Node? <==> t != 0) && SoFar(held, nb, v, rest)
        invariant nb < SIZE_LIMIT ==> Shape(d, lo, k) && Left(held, nb, rest, d) && (rest == 0 || AllFit(d, nb))
        decreases d
      {
        SubtreeNode(i, t, d, q);
        SoFarStep(held, nb, v, rest, t);
        ghost var rest1 := rest;
        var trem := Sub64(ChunkSize(W(mem, t + HEAD)), nb);
        if trem < rest {
          rest, v := trem, t;
        }
        if nb < SIZE_LIMIT {
          LeastStep(held, nb, rest1, rest, d, lo, k);
        }
        ghost var c, p := d, t;
        t := if W(mem, t + KID0) != 0 then W(mem, t + KID0) else W(mem, t + KID1);
        SubtreeNode(i, RootOf(c.l), c.l, p);
        SubtreeNode(i, RootOf(c.r), c.r, p);
        lo, k := LeastBounds(c, lo, k);
        d, q := if c.l.Node? then c.l else c.r, p;
      }
    }

    /** lj_ffs on the bins from `from` on; NTREEBINS when there is none. */
    method Lowest(bits: set<nat>, from: nat) returns (j: nat)
      requires from <= NTREEBINS
      ensures from <= j <= NTREEBINS && (j < NTREEBINS ==> j in bits) && forall l :: from <= l < j ==> l !in bits
    {
      j := from;
      while j < NTREEBINS && j !in bits
        invariant from <= j <= NTREEBINS && forall l :: from <= l < j ==> l !in bits
      {
        j := j + 1;
      }
    }

    /** The search of tmalloc_large: best fit over all tree bins. */
    method FindBest(nb: nat) returns (v: int, rest: nat)
      requires BinsOk(Get()) && MIN_LARGE_SIZE <= nb < WORD
      ensures BestFit(held, nb, v, rest) && (v == 0 ==> rest == WORD - nb)
    {
      hide BinsOk, W, HeldOk, Has, Subtree, Shape, AllFit, Left, BinOf, TreeHolds, IsTree, Apart, StillIn, BestFit,
        Low, Bits, Pow2;
      StartDown(nb);
      BinsHeld(Get());
      var i := BinOf(nb);
      v, rest := 0, WORD - nb;
      var t := roots[i];
      ghost var d, q, j := trees[i], TreeBin(i), i;
      ghost var lo: nat, k: nat := Low(i), Bits(i);
      SubtreeNode(i, t, d, q);
      if t != 0 {
        v, rest, t, d, q, lo, k := Towards(nb);
        SubtreeNode(i, t, d, q);
      } else {
        StillNone(trees[i], nb, rest);
      }
      if t == 0 && v == 0 {
        var next := Lowest(treemap, i + 1);
        NextStart(Get(), nb, i, next, rest, d);
        d, q, lo, k := Nil, 0, Low(next), Bits(next);
        if next < NTREEBINS {
          t := roots[next];
          d, q, j := trees[next], TreeBin(next), next;
        }
        SubtreeIntro(j, t, d, q);
      } else if nb < SIZE_LIMIT {
        SubtreeWithin(i, t, d, q);
        SameBin(Get(), nb, i, v, rest, d);
      }
      v, rest := LeastOf(nb, v, rest, t, j, d, q, lo, k);
      if nb < SIZE_LIMIT {
        SearchEnds(held, nb, v, rest);
      } else {
        NothingFits(held, nb, v, rest);
      }
    }

    lemma SubtreeIntro(i: nat, t: int, d: Tree, q: int)
      requires i < NTREEBINS && |trees| == NTREEBINS && IsTree(TreeView(mem, LargeKeys(held)), t, d, q) && Apart(d)
      requires TreeHolds(held, i, trees[i]) && Within(d, trees[i])
      ensures Subtree(i, t, d, q)
    {
    }

    lemma SubtreeWithin(i: nat, t: int, d: Tree, q: int)
      requires Subtree(i, t, d, q)
      ensures Within(d, trees[i])
    {
    }

    /** The search of tmalloc_small: the least chunk in the tree bins, for a small request. */
    method FindLeast(nb: nat) returns (v: int, rest: nat)
      requires BinsOk(Get()) && nb <= MIN_LARGE_SIZE && treemap != {}
      ensures v != 0 && BestFit(held, nb, v, rest)
    {
      hide BinsOk, W, HeldOk, Has, Subtree, Shape, AllFit, Left, BinOf, TreeHolds, IsTree, Apart, BestFit, Low, Bits,
        Pow2;
      BinsHeld(Get());
      MapNonempty(Get());
      var i := Lowest(treemap, 0);
      FirstStart(Get(), nb, i, WORD - nb);
      var t := roots[i];
      ghost var d, q := trees[i], TreeBin(i);
      SubtreeIntro(i, t, d, q);
      SubtreeNode(i, t, d, q);
      SoFarStart(held, nb);
      SoFarStep(held, nb, 0, WORD - nb, t);
      v, rest := t, Sub64(ChunkSize(W(mem, t + HEAD)), nb);
      FitBelowWord(held, nb, t);
      LeastStep(held, nb, WORD - nb, rest, d, Low(i), Bits(i));
      t := if W(mem, t + KID0) != 0 then W(mem, t + KID0) else W(mem, t + KID1);
      SubtreeNode(i, RootOf(d.l), d.l, v);
      SubtreeNode(i, RootOf(d.r), d.r, v);
      ghost var lo, k := LeastBounds(d, Low(i), Bits(i));
      v, rest := LeastOf(nb, v, rest, t, i, if d.l.Node? then d.l else d.r, v, lo, k);
      SearchEnds(held, nb, v, rest);
      SomethingFits(held, nb, v, rest, roots[i]);
    }

    /** insert_small_chunk */
    method InsertSmall(x: int, s: nat)
      requires BinsOk(Get()) && Room(held, x, s) && !Large(s)
      modifies this
      ensures BinsOk(Get()) && held == old(held)[x := s] && Quiet(old(mem), mem, held)
    {
      hide BinsOk, W, Room, Quiet;
      ghost var b := Get();
      SmallFirst(b, s);
      SmallInsertedOk(b, x, s);
      var i := s / 8;
      var bin := SmallBin(i);
      var f := bin;
      if i !in smallmap {
        smallmap := smallmap + {i};
      } else {
        f := W(mem, bin + FD);
      }
      mem := mem[bin + FD := x];
      mem := mem[f + BK := x];
      mem := mem[x + FD := f];
      mem := mem[x + BK := bin];
      rings := rings[i := [x] + rings[i]];
      held := held[x := s];
      assert b.smallmap + {i} == smallmap;
      assert Get() == SmallInserted(b, x, s);
    }

    /** unlink_small_chunk */
    method UnlinkSmall(x: int, s: nat)
      requires BinsOk(Get()) && x in held && held[x] == s && !Large(s)
      modifies this
      ensures BinsOk(Get()) && held == old(held) - {x} && Quiet(old(mem), mem, old(held))
    {
      hide BinsOk, W, Quiet;
      ghost var b := Get();
      SmallLinks(b, x);
      SmallRemovedOk(b, x);
      var f, r, i := W(mem, x + FD), W(mem, x + BK), s / 8;
      if f == r {
        smallmap := smallmap - {i};
      } else {
        mem := mem[f + BK := r];
        mem := mem[r + FD := f];
      }
      rings := rings[i := Without(rings[i], x)];
      held := held - {x};
      assert Get() == SmallRemoved(b, x);
    }

    /** unlink_first_small_chunk */
    method UnlinkFirst(i: nat) returns (p: int)
      requires BinsOk(Get()) && i in smallmap
      modifies this
      ensures p in old(held) && old(held)[p] == 8 * i && !Large(8 * i)
      ensures BinsOk(Get()) && held == old(held) - {p} && Quiet(old(mem), mem, old(held))
    {
      hide BinsOk, W, Quiet;
      ghost var b := Get();
      FirstOf(b, i);
      p := W(mem, SmallBin(i) + FD);
      SmallLinks(b, p);
      SmallRemovedOk(b, p);
      var f := W(mem, p + FD);
      if SmallBin(i) == f {
        smallmap := smallmap - {i};
      } else {
        mem := mem[SmallBin(i) + FD := f];
        mem := mem[f + BK := SmallBin(i)];
        assert mem == RingDrop(b.mem, p);
      }
      rings := rings[i := Without(rings[i], p)];
      held := held - {p};
      assert Get() == SmallRemoved(b, p);
    }

    /** insert_chunk */
    method InsertChunk(x: int, s: nat)
      requires BinsOk(Get()) && Room(held, x, s) && ChunkSize(W(mem, x + HEAD)) == s
      modifies this
      ensures BinsOk(Get()) && held == old(held)[x := s] && Quiet(old(mem), mem, held)
    {
      hide BinsOk, W, Room, Quiet;
      if s / 8 < NSMALLBINS {
        InsertSmall(x, s);
      } else {
        InsertLarge(x, s);
      }
    }

    /** unlink_chunk */
    method UnlinkChunk(x: int, s: nat)
      requires BinsOk(Get()) && x in held && held[x] == s
      modifies this
      ensures BinsOk(Get()) && held == old(held) - {x} && Quiet(old(mem), mem, old(held))
    {
      hide BinsOk, W, Quiet;
      if s / 8 < NSMALLBINS {
        UnlinkSmall(x, s);
      } else {
        UnlinkLarge(x);
      }
    }
  }

  lemma EmptyBins(b: BinState)
    requires b.held == map[] && b.smallmap == {} && b.treemap == {}
    requires b.roots == seq(NTREEBINS, _ => 0) && b.trees == seq(NTREEBINS, _ => Nil)
             && b.rings == seq(NSMALLBINS, _ => [])
    ensures BinsOk(b)
  {
    hide BinOf, Low, Bits;
  }

  lemma SpotStep(u: Tree, s: nat, lo: nat, b: nat)
    requires u.Node? && u.size != s && b > 0
    ensures var right := s - lo >= Pow2(b - 1);
            var w := if right then u.r else u.l;
            && (RootOf(w) == 0 && w.Nil? ==> Spot(u, s, lo, b) == Below(u.a, right))
            && (w.Node? ==> Spot(u, s, lo, b) == Spot(w, s, if right then lo + Pow2(b - 1) else lo, b - 1))
  {
  }

  lemma KidsPositive(u: Tree)
    requires u.Node? && Apart(u)
    ensures u.a > 0 && (u.l.Node? <==> RootOf(u.l) != 0) && (u.r.Node? <==> RootOf(u.r) != 0)
    ensures Apart(u.l) && Apart(u.r)
  {
  }

  lemma BitsBound(i: nat)
    requires i < NTREEBINS
    ensures 1 <= Bits(i) <= SIZE_BITS
  {
  }

  /** The words at the root of a trie. */
  lemma ReadNode(m: Words, k: set<int>, p: int, u: Tree, q: int)
    requires u.Node? && IsTree(TreeView(m, k), p, u, q) && u.a in k
    ensures p == u.a && ChunkSize(W(m, p + HEAD)) == u.size
    ensures W(m, p + KID0) == RootOf(u.l) && W(m, p + KID1) == RootOf(u.r) && W(m, p + PARENT) == q
    ensures IsTree(TreeView(m, k), RootOf(u.l), u.l, p) && IsTree(TreeView(m, k), RootOf(u.r), u.r, p)
  {
    hide Linked;
    NodeParentOf(TreeView(m, k), p, u, q);
    FieldsAt(m, k, p);
  }

  lemma SubKeys(u: Tree, k: set<int>)
    requires u.Node? && forall a :: In(u, a) ==> a in k
    ensures u.a in k && (forall a :: In(u.l, a) ==> a in k) && (forall a :: In(u.r, a) ==> a in k)
  {
  }

  /** A node of another size has bits left. */
  lemma ShapeBits(u: Tree, lo: nat, b: nat, s: nat)
    requires u.Node? && Shape(u, lo, b) && lo <= s < lo + Pow2(b) && u.size != s
    ensures b > 0 && Shape(u.l, lo, b - 1) && Shape(u.r, lo + Pow2(b - 1), b - 1)
  {
  }

  // ---------------------------------------------------------------- inserting

  lemma QuietTrans(m: Words, n: Words, o: Words, h: Held)
    requires Quiet(m, n, h) && Quiet(n, o, h)
    ensures Quiet(m, o, h)
  {
  }

  /** The words of a new chunk, ready to be linked in. */
  predicate Ready(m: Words, x: int, s: nat) {
    && W(m, x + INDEX) == BinOf(s) && W(m, x + KID0) == 0 && W(m, x + KID1) == 0
    && ChunkSize(W(m, x + HEAD)) == s
  }

  lemma Prepared(b: BinState, x: int, s: nat)
    requires BinsOk(b) && Room(b.held, x, s) && Large(s) && ChunkSize(W(b.mem, x + HEAD)) == s
    ensures var n := b.mem[x + INDEX := BinOf(s)][x + KID0 := 0][x + KID1 := 0];
            BinsOk(b.(mem := n)) && Ready(n, x, s) && Quiet(b.mem, n, b.held[x := s])
  {
    hide BinsOk, BinOf, Room, ChunkSize;
    var m1 := b.mem[x + INDEX := BinOf(s)];
    var m2 := m1[x + KID0 := 0];
    NewWord(b, x, s, INDEX, BinOf(s));
    NewWord(b.(mem := m1), x, s, KID0, 0);
    NewWord(b.(mem := m2), x, s, KID1, 0);
    var h := b.held[x := s];
    LinkIntro(h, x, x + INDEX);
    LinkIntro(h, x, x + KID0);
    LinkIntro(h, x, x + KID1);
  }

  /** The trie of the bin of size s. */
  lemma BinTree(b: BinState, s: nat)
    requires BinsOk(b) && MIN_LARGE_SIZE <= s
    ensures var i := BinOf(s);
            && i < NTREEBINS && |b.roots| == NTREEBINS && |b.trees| == NTREEBINS
            && IsTree(TreeView(b.mem, LargeKeys(b.held)), b.roots[i], b.trees[i], TreeBin(i))
            && Shape(b.trees[i], Low(i), Bits(i)) && Apart(b.trees[i])
            && (forall a :: In(b.trees[i], a) ==> a in LargeKeys(b.held))
            && (i in b.treemap <==> b.trees[i].Node?) && b.roots[i] == RootOf(b.trees[i])
            && TreeOk(b.mem, b.held, i, b.roots[i], b.trees[i])
  {
    hide BinOf, HeldOk, RingsOk, IndexOk, TreeView, IsTree, Shape, Apart;
    BinOfTruncated(s);
    var i := BinOf(s);
    RootNode(b.mem, b.held, i, b.roots[i], b.trees[i]);
    forall a | In(b.trees[i], a) ensures a in LargeKeys(b.held) {
      TreeKeys(b.held, i, b.trees[i], a);
    }
  }

  lemma NewKeys(h: Held, x: int, s: nat)
    requires HeldOk(h) && Room(h, x, s) && Large(s)
    ensures Spaced(LargeKeys(h[x := s]), 64) && x in LargeKeys(h[x := s]) && LargeIn(h[x := s], x)
    ensures forall a :: LargeIn(h, a) ==> a != x && LargeIn(h[x := s], a) && a in LargeKeys(h[x := s])
  {
    RoomHeld(h, x, s);
    LargeSpaced(h[x := s]);
  }

  lemma BinsHeld(b: BinState)
    requires BinsOk(b)
    ensures HeldOk(b.held)
  {
  }

  lemma FinishRoot(b: BinState, x: int, s: nat)
    requires BinsOk(b) && Room(b.held, x, s) && Large(s) && Ready(b.mem, x, s)
    requires BinOf(s) < NTREEBINS && |b.trees| == NTREEBINS && b.trees[BinOf(s)].Nil? && |b.roots| == NTREEBINS
    ensures var n := PutRoot(b.mem, x, TreeBin(BinOf(s)));
            BinsOk(Inserted(b, n, x, s)) && Quiet(b.mem, n, b.held[x := s])
  {
    hide BinsOk, BinOf, Room, ChunkSize, HeldOk, LargeQuiet, Quiet, PutRoot, TreeView, LargeKeys;
    var g, n := b.held[x := s], PutRoot(b.mem, x, TreeBin(BinOf(s)));
    BinsHeld(b);
    NewKeys(b.held, x, s);
    PutRootView(b.mem, LargeKeys(g), x, s, TreeBin(BinOf(s)));
    LargeQuietSelf(b.mem, g);
    PutRootQuiet(b.mem, b.mem, g, x, TreeBin(BinOf(s)));
    LargeQuietIsQuiet(b.mem, n, g);
    InsertedRootOk(b, n, x, s);
  }

  /** The spot is a chunk held, and so is its neighbour in the ring. */
  lemma SpotFacts(b: BinState, x: int, s: nat)
    requires BinsOk(b) && Room(b.held, x, s) && Large(s)
    requires BinOf(s) < NTREEBINS && |b.trees| == NTREEBINS && b.trees[BinOf(s)].Node?
    ensures var place := Spot(b.trees[BinOf(s)], s, Low(BinOf(s)), Bits(BinOf(s)));
            && LargeIn(b.held, place.at) && place.at in LargeKeys(b.held)
            && (place.Same? ==> LargeIn(b.held, W(b.mem, place.at + FD)))
    ensures s < SIZE_LIMIT
  {
    hide BinsOk, BinOf, Room, W, TreeView, Spot, Low, Bits, In, IsTree, Shape, Apart;
    BinTree(b, s);
    RoomNew(b.held, x, s);
    var i, k := BinOf(s), LargeKeys(b.held);
    var place := Spot(b.trees[i], s, Low(i), Bits(i));
    SpotIn(TreeView(b.mem, k), b.roots[i], b.trees[i], TreeBin(i), s, Low(i), Bits(i));
    FieldsAt(b.mem, k, place.at);
  }

  lemma FinishBelow(b: BinState, x: int, s: nat)
    requires BinsOk(b) && Room(b.held, x, s) && Large(s) && Ready(b.mem, x, s)
    requires BinOf(s) < NTREEBINS && |b.trees| == NTREEBINS && b.trees[BinOf(s)].Node? && |b.roots| == NTREEBINS
    requires Spot(b.trees[BinOf(s)], s, Low(BinOf(s)), Bits(BinOf(s))).Below?
    ensures var place := Spot(b.trees[BinOf(s)], s, Low(BinOf(s)), Bits(BinOf(s)));
            var n := PutBelow(b.mem, x, place.at, place.right);
            BinsOk(Inserted(b, n, x, s)) && Quiet(b.mem, n, b.held[x := s])
  {
    hide BinsOk, BinOf, Room, ChunkSize, HeldOk, LargeQuiet, Quiet, PutBelow, TreeView, LargeKeys, Spot, Low, Bits;
    var place := Spot(b.trees[BinOf(s)], s, Low(BinOf(s)), Bits(BinOf(s)));
    var g, n := b.held[x := s], PutBelow(b.mem, x, place.at, place.right);
    BinsHeld(b);
    SpotFacts(b, x, s);
    NewKeys(b.held, x, s);
    PutBelowView(b.mem, LargeKeys(g), x, s, place.at, place.right);
    PutBelowQuiet(b.mem, g, x, place.at, place.right);
    LargeQuietIsQuiet(b.mem, n, g);
    InsertedOk(b, n, x, s);
  }

  lemma FinishBeside(b: BinState, x: int, s: nat)
    requires BinsOk(b) && Room(b.held, x, s) && Large(s) && Ready(b.mem, x, s)
    requires BinOf(s) < NTREEBINS && |b.trees| == NTREEBINS && b.trees[BinOf(s)].Node? && |b.roots| == NTREEBINS
    requires Spot(b.trees[BinOf(s)], s, Low(BinOf(s)), Bits(BinOf(s))).Same?
    ensures var place := Spot(b.trees[BinOf(s)], s, Low(BinOf(s)), Bits(BinOf(s)));
            var n := PutBeside(b.mem, x, place.at);
            BinsOk(Inserted(b, n, x, s)) && Quiet(b.mem, n, b.held[x := s])
  {
    hide BinsOk, BinOf, Room, ChunkSize, HeldOk, LargeQuiet, Quiet, PutBeside, TreeView, LargeKeys, Spot, Low, Bits, W;
    var place := Spot(b.trees[BinOf(s)], s, Low(BinOf(s)), Bits(BinOf(s)));
    var g, n := b.held[x := s], PutBeside(b.mem, x, place.at);
    BinsHeld(b);
    SpotFacts(b, x, s);
    NewKeys(b.held, x, s);
    PutBesideView(b.mem, LargeKeys(g), x, s, place.at);
    PutBesideQuiet(b.mem, g, x, place.at);
    LargeQuietIsQuiet(b.mem, n, g);
    InsertedOk(b, n, x, s);
  }

  // ---------------------------------------------------------------- unlinking

  lemma HereIn(u: Tree, x: int)
    requires u.Node? && u.Here(x)
    ensures In(u, x) && In(u, u.a)
  {
  }

  lemma DetachRing(m: Words, h: Held, u: Tree, q: int, x: int)
    requires HeldOk(h) && u.Node? && u.Here(x) && IsTree(TreeView(m, LargeKeys(h)), u.a, u, q) && Apart(u)
    requires (forall a :: In(u, a) ==> LargeIn(h, a)) && W(m, x + BK) != x
    ensures var v := TreeView(m, LargeKeys(h));
            && TreeView(RingDrop(m, x), LargeKeys(h)) == (if x == u.a then Detached(v, u) else RingOut(v, x))
            && LargeQuiet(m, RingDrop(m, x), h)
    ensures x == u.a ==> W(m, x + BK) == RootOf(RemoveRoot(u))
  {
    hide HeldOk, TreeView, W, LargeQuiet, RingOut, RemoveRoot, RootOf, RingDrop;
    var k := LargeKeys(h);
    var v := TreeView(m, k);
    LargeSpaced(h);
    HereIn(u, x);
    FieldsAt(m, k, x);
    NodeParentOf(v, u.a, u, q);
    RingMember(v, u, q, x);
    HereIn(u, W(m, x + FD));
    HereIn(u, W(m, x + BK));
    RingOutView(m, k, x);
    RingDropQuiet(m, h, x);
    if x == u.a {
      FirstWords(v, u, q);
    }
  }

  lemma DetachFirst(m: Words, h: Held, u: Tree, q: int, x: int)
    requires u.Node? && u.Here(x) && IsTree(TreeView(m, LargeKeys(h)), u.a, u, q) && Apart(u)
    requires (forall a :: In(u, a) ==> LargeIn(h, a)) && W(m, x + BK) == x
    ensures x == u.a && u.ring == [] && forall a :: In(u, a) ==> a in LargeKeys(h)
  {
    hide TreeView, W;
    var k := LargeKeys(h);
    var v := TreeView(m, k);
    HereIn(u, x);
    FieldsAt(m, k, x);
    NodeParentOf(v, u.a, u, q);
    if x != u.a {
      MemberWords(v, u, q, x);
    }
    FirstWords(v, u, q);
  }

  lemma DetachLeaf(m: Words, h: Held, u: Tree, at: int, right: bool)
    requires HeldOk(h) && u.Node? && u.ring == [] && (u.l.Node? || u.r.Node?) && Below(at, right) == LeafSpot(u)
    requires forall a :: In(u, a) ==> LargeIn(h, a)
    ensures TreeView(m[at + KidAt(right) := 0], LargeKeys(h)) == Detached(TreeView(m, LargeKeys(h)), u)
    ensures LargeQuiet(m, m[at + KidAt(right) := 0], h)
    ensures RootOf(RemoveRoot(u)) == Leaf(u).a
  {
    hide HeldOk, TreeView, W, LargeQuiet;
    LargeSpaced(h);
    LeafSpotIn(u);
    StoreKid(m, LargeKeys(h), at, right, 0);
    LargeQuietSelf(m, h);
    LargeStore(m, m, h, at, KidAt(right), 0);
  }

  lemma DetachAlone(m: Words, h: Held, u: Tree)
    requires u.Node? && u.ring == []
    ensures LargeQuiet(m, m, h)
    ensures u.l.Nil? && u.r.Nil? ==> RootOf(RemoveRoot(u)) == 0 && forall v: Mem :: Detached(v, u) == v
  {
    LargeQuietSelf(m, h);
  }

  /** Chunk x, its bin and its node. */
  ghost predicate Located(b: BinState, x: int) {
    && LargeIn(b.held, x) && |b.trees| == NTREEBINS && |b.roots| == NTREEBINS && BinOf(b.held[x]) < NTREEBINS
    && In(b.trees[BinOf(b.held[x])], x)
  }

  ghost function NodeTree(b: BinState, x: int): (u: Tree)
    requires Located(b, x)
    ensures u.Node? && u.Here(x)
  {
    SubAt(b.trees[BinOf(b.held[x])], x)
  }

  ghost function ParentOf(b: BinState, x: int): int
    requires Located(b, x)
  {
    At(TreeView(b.mem, LargeKeys(b.held)), NodeTree(b, x).a).parent
  }

  /** What the words of a chunk say about its place in its trie. */
  lemma UnlinkStart(b: BinState, x: int)
    requires BinsOk(b) && LargeIn(b.held, x)
    ensures Located(b, x)
    ensures var i, u, q := BinOf(b.held[x]), NodeTree(b, x), ParentOf(b, x);
            && IsTree(TreeView(b.mem, LargeKeys(b.held)), u.a, u, q) && Apart(u) && q != 0
            && (forall a :: In(u, a) ==> LargeIn(b.held, a) && In(b.trees[i], a))
            && W(b.mem, x + PARENT) == (if x == u.a then q else 0)
            && b.trees[i].Node? && b.roots[i] == b.trees[i].a && (x == b.roots[i] ==> x == u.a)
            && (u.a != b.roots[i] ==> LargeIn(b.held, q) && !In(u, q))
            && W(b.mem, x + INDEX) == i
  {
    hide BinsOk, BinOf, W, TreeView, IsTree, Apart, Low, Bits, Shape;
    var s := b.held[x];
    BinTree(b, s);
    var i, k := BinOf(s), LargeKeys(b.held);
    HeldInTree(b, x);
    var t := b.trees[i];
    var u, v := SubAt(t, x), TreeView(b.mem, k);
    NodeOf(v, b.roots[i], t, TreeBin(i), x);
    forall a | In(u, a) ensures LargeIn(b.held, a) && In(t, a) {
      SubAtIn(t, x, a);
      TreeKeys(b.held, i, t, a);
    }
    if u.a != t.a {
      TreeKeys(b.held, i, t, At(v, u.a).parent);
    }
    FieldsAt(b.mem, k, x);
    if x != u.a {
      UnlinkMemberWords(v, u, At(v, u.a).parent, x);
    }
    RootIs(v, b.roots[i], t, TreeBin(i), x);
  }

  lemma RootIs(m: Mem, p: int, t: Tree, q: int, x: int)
    requires IsTree(m, p, t, q) && In(t, x)
    ensures t.Node? && p == t.a && (x == t.a ==> SubAt(t, x) == t)
  {
  }

  lemma UnlinkMemberWords(m: Mem, u: Tree, q: int, x: int)
    requires u.Node? && IsTree(m, u.a, u, q) && Apart(u) && u.Here(x) && x != u.a
    ensures At(m, x).parent == 0
  {
    MemberWords(m, u, q, x);
  }

  lemma HeldInTree(b: BinState, x: int)
    requires BinsOk(b) && LargeIn(b.held, x) && BinOf(b.held[x]) < NTREEBINS
    ensures In(b.trees[BinOf(b.held[x])], x) && W(b.mem, x + INDEX) == BinOf(b.held[x])
  {
    hide HeldOk, RingsOk, BinOf, W, IsTree, Apart, Low, Bits, Shape, TreeView;
    var i := BinOf(b.held[x]);
    assert TreeOk(b.mem, b.held, i, b.roots[i], b.trees[i]);
    HasIn(b.trees[i], x, b.held[x]);
  }

  lemma DetachedIndex(b: BinState, n: Words, x: int)
    requires BinsOk(b) && LargeIn(b.held, x) && LargeQuiet(b.mem, n, b.held)
    ensures W(n, x + INDEX) == W(b.mem, x + INDEX)
  {
    hide TreesOk, RingsOk, W, HeldOk, LargeLink;
    if LargeLink(b.held, x + INDEX) {
      LargeApart(b.held, x, x + INDEX);
    }
  }

  /** Once x is detached: its replacement and its children are chunks held in bins. */
  lemma DetachedKids(b: BinState, n: Words, x: int)
    requires BinsOk(b) && Located(b, x) && NodeTree(b, x).a == x
    requires TreeView(n, LargeKeys(b.held)) == Detached(TreeView(b.mem, LargeKeys(b.held)), NodeTree(b, x))
    ensures var r := RootOf(RemoveRoot(NodeTree(b, x)));
            r != 0 ==>
              && LargeIn(b.held, r) && r != x
              && (W(n, x + KID0) == 0 || LargeIn(b.held, W(n, x + KID0)))
              && (W(n, x + KID1) == 0 || LargeIn(b.held, W(n, x + KID1)))
  {
    hide BinsOk, BinOf, W, TreeView, Detached, Apart, In, IsTree, RemoveRoot;
    UnlinkStart(b, x);
    var u, k := NodeTree(b, x), LargeKeys(b.held);
    var t := RemoveRoot(u);
    if t.Node? {
      DetachedReady(TreeView(b.mem, k), u, ParentOf(b, x));
      ReplacementIn(u);
      FieldsAt(n, k, x);
      KidRoot(TreeView(n, k), W(n, x + KID0), t.l, x);
      KidRoot(TreeView(n, k), W(n, x + KID1), t.r, x);
      KidReplaced(u);
    }
  }

  lemma KidRoot(m: Mem, p: int, t: Tree, q: int)
    requires IsTree(m, p, t, q)
    ensures p == RootOf(t)
  {
  }

  lemma ReplacementIn(u: Tree)
    requires u.Node? && Apart(u) && RemoveRoot(u).Node?
    ensures In(u, RemoveRoot(u).a) && RemoveRoot(u).a != u.a
  {
    HereIn(RemoveRoot(u), RemoveRoot(u).a);
    RemoveRootHas(u, RemoveRoot(u).a, 0);
  }

  lemma KidReplaced(u: Tree)
    requires u.Node? && Apart(u) && RemoveRoot(u).Node?
    ensures var t := RemoveRoot(u);
            (t.l.Node? ==> In(u, t.l.a)) && (t.r.Node? ==> In(u, t.r.a))
  {
    hide RemoveRoot, Apart;
    var t := RemoveRoot(u);
    if t.l.Node? {
      RemoveRootHas(u, t.l.a, 0);
    }
    if t.r.Node? {
      RemoveRootHas(u, t.r.a, 0);
    }
  }

  /** The trie's memory once the pointer to x leads to r. */
  ghost function Hung(b: BinState, x: int, r: int): Mem
    requires Located(b, x)
  {
    var v := Detached(TreeView(b.mem, LargeKeys(b.held)), NodeTree(b, x));
    if x == b.roots[BinOf(b.held[x])] then v else Hang(v, ParentOf(b, x), x, r)
  }

  lemma HungView(b: BinState, m1: Words, m2: Words, x: int, r: int)
    requires BinsOk(b) && Located(b, x) && NodeTree(b, x).a == x && LargeQuiet(b.mem, m1, b.held)
    requires TreeView(m1, LargeKeys(b.held)) == Detached(TreeView(b.mem, LargeKeys(b.held)), NodeTree(b, x))
    requires var q := ParentOf(b, x);
             m2 == if x == b.roots[BinOf(b.held[x])] then m1 else m1[q + KidAt(W(m1, q + KID0) != x) := r]
    ensures TreeView(m2, LargeKeys(b.held)) == Hung(b, x, r) && LargeQuiet(b.mem, m2, b.held)
    ensures W(m2, x + KID0) == W(m1, x + KID0) && W(m2, x + KID1) == W(m1, x + KID1)
  {
    hide BinsOk, BinOf, W, TreeView, Detached, Apart, In, IsTree, LargeQuiet, HeldOk;
    UnlinkStart(b, x);
    BinsHeld(b);
    LargeSpaced(b.held);
    HereIn(NodeTree(b, x), x);
    var q, k := ParentOf(b, x), LargeKeys(b.held);
    if x != b.roots[BinOf(b.held[x])] {
      var right := W(m1, q + KID0) != x;
      FieldsAt(m1, k, q);
      StoreKid(m1, k, q, right, r);
      LargeStore(b.mem, m1, b.held, q, KidAt(right), r);
      KidStoreKeeps(m1, k, x, q, right, r);
    }
  }

  lemma TakenOver(b: BinState, m2: Words, n: Words, x: int, r: int)
    requires BinsOk(b) && Located(b, x) && NodeTree(b, x).a == x && r == RootOf(RemoveRoot(NodeTree(b, x)))
    requires TreeView(m2, LargeKeys(b.held)) == Hung(b, x, r) && LargeQuiet(b.mem, m2, b.held)
    requires n == if r == 0 then m2 else TakeOver(m2, x, r, ParentOf(b, x))
    requires r != 0 ==>
               && LargeIn(b.held, r) && r != x
               && (W(m2, x + KID0) == 0 || LargeIn(b.held, W(m2, x + KID0)))
               && (W(m2, x + KID1) == 0 || LargeIn(b.held, W(m2, x + KID1)))
    ensures LargeQuiet(b.mem, n, b.held)
    ensures var k := LargeKeys(b.held);
            TreeView(n, k) == UnlinkedFrom(TreeView(b.mem, k), b.trees[BinOf(b.held[x])], x)
  {
    hide BinsOk, BinOf, W, TreeView, Detached, Apart, In, IsTree, LargeQuiet, HeldOk, Hang, Adopt, TakeOver, RemoveRoot;
    UnlinkStart(b, x);
    BinsHeld(b);
    LargeSpaced(b.held);
    if r != 0 {
      TakeOverView(m2, LargeKeys(b.held), x, r, ParentOf(b, x));
      TakeOverQuiet(b.mem, m2, b.held, x, r, ParentOf(b, x));
    }
  }

  lemma RingUnlinked(b: BinState, n: Words, x: int)
    requires BinsOk(b) && Located(b, x) && NodeTree(b, x).a != x
    requires TreeView(n, LargeKeys(b.held)) == RingOut(TreeView(b.mem, LargeKeys(b.held)), x)
    ensures var k := LargeKeys(b.held);
            TreeView(n, k) == UnlinkedFrom(TreeView(b.mem, k), b.trees[BinOf(b.held[x])], x)
  {
    hide BinsOk, BinOf, W, TreeView, Apart, In, IsTree, RingOut;
    UnlinkStart(b, x);
  }

  lemma RemovedPointers(b: BinState, x: int)
    requires BinsOk(b) && Located(b, x)
    ensures var i := BinOf(b.held[x]);
            var t := b.trees[i];
            && (x != b.roots[i] ==> RootOf(Remove(t, x)) == b.roots[i] && Remove(t, x).Node?)
            && (x == b.roots[i] ==> Remove(t, x) == RemoveRoot(t) && NodeTree(b, x) == t)
            && (Remove(t, x).Nil? <==> RootOf(Remove(t, x)) == 0)
  {
    hide BinsOk, BinOf, W, TreeView, IsTree, RemoveRoot, Apart;
    UnlinkStart(b, x);
    var i := BinOf(b.held[x]);
    BinTree(b, b.held[x]);
    RemoveApart(b.trees[i], x);
    if Remove(b.trees[i], x).Node? {
      RootPositive(Remove(b.trees[i], x));
    }
  }

  // ---------------------------------------------------------------- searching

  ghost predicate Within(d: Tree, t: Tree) {
    forall a, u: nat :: Has(d, a, u) ==> Has(t, a, u)
  }

  lemma WithinKids(d: Tree, t: Tree)
    requires d.Node? && Within(d, t)
    ensures Within(d.l, t) && Within(d.r, t)
  {
    forall a, u: nat ensures (Has(d.l, a, u) ==> Has(t, a, u)) && (Has(d.r, a, u) ==> Has(t, a, u)) {
      assert Has(d.l, a, u) || Has(d.r, a, u) ==> Has(d, a, u);
    }
  }

  lemma SubtreeHeld(h: Held, i: nat, t: Tree, d: Tree)
    requires TreeHolds(h, i, t) && Within(d, t) && d.Node?
    ensures LargeIn(h, d.a) && h[d.a] == d.size && d.a in LargeKeys(h) && Has(t, d.a, d.size)
  {
    hide Apart, Shape, BinOf;
    NodeHas(d, d.a, d.size);
  }

  /** Every fitting chunk of the bin fits no better than the best so far, or lies in d, or fits
      no better than all of d. */
  ghost predicate StillIn(t: Tree, nb: nat, rest: nat, d: Tree) {
    forall a, u: nat :: Has(t, a, u) && nb <= u ==> u - nb >= rest || Has(d, a, u) || AllUpTo(d, u)
  }

  lemma RootsDiffer(d: Tree)
    requires d.Node? && Apart(d)
    ensures d.r.Node? ==> RootOf(d.r) != 0 && RootOf(d.l) != RootOf(d.r)
  {
    RootIn(d.l, RootOf(d.l));
    RootIn(d.r, RootOf(d.r));
  }

  lemma FoundHas(h: Held, nb: nat, v: int, rest: nat, d: Tree, t: Tree)
    requires SoFar(h, nb, v, rest) && v != 0 && LargeIn(h, v) && d.Node? && h[v] == d.size && Has(t, v, d.size)
    ensures Has(t, v, nb + rest)
  {
  }

  lemma StillExact(t: Tree, nb: nat, d: Tree)
    ensures StillIn(t, nb, 0, d)
  {
  }

  lemma DownEnds(t: Tree, nb: nat, rest: nat, r: Tree, limit: nat)
    requires Ahead(t, nb, rest, Nil, r) && Beyond(r, limit) && nb < limit
    ensures StillIn(t, nb, rest, r) && AllFit(r, nb)
  {
  }

  /** One step down: the next bit of nb leads to the half of the sizes that contains nb. */
  lemma StepDown(t: Tree, nb: nat, rest: nat, rest': nat, c: Tree, r: Tree, lo: nat, k: nat)
    requires Ahead(t, nb, rest, c, r) && c.Node? && 0 < rest' <= rest && (nb <= c.size ==> rest' <= c.size - nb)
    requires Shape(c, lo, k) && lo <= nb < lo + Pow2(k) && k <= SIZE_BITS && Beyond(r, lo + Pow2(k))
    ensures k > 0
    ensures var right := nb - lo >= Pow2(k - 1);
            var lo' := if right then lo + Pow2(k - 1) else lo;
            var r' := if !right && c.r.Node? then c.r else r;
            && (TopBit(Key(nb - lo, k)) <==> right) && Shl(Key(nb - lo, k), 1) == Key(nb - lo', k - 1)
            && lo' <= nb < lo' + Pow2(k - 1)
            && Ahead(t, nb, rest', if right then c.r else c.l, r') && Beyond(r', lo' + Pow2(k - 1))
            && Shape(if right then c.r else c.l, lo', k - 1)
            && (!right && c.r.Node? ==> Shape(r', lo + Pow2(k - 1), k - 1))
  {
    hide Ahead, Key, Shl, TopBit, Pow2, Beyond, Has;
    StepBits(c, lo, k, nb, rest');
    KeyStep(nb - lo, k);
    Pow2Twice(k - 1);
    if nb - lo >= Pow2(k - 1) {
      AheadRight(t, nb, rest, rest', c, r, lo, k);
    } else if c.r.Node? {
      AheadLeftOf(t, nb, rest, rest', c, r, lo, k);
      ShapeBeyond(c.r, lo + Pow2(k - 1), k - 1);
    } else {
      AheadLeft(t, nb, rest, rest', c, r);
      BeyondLess(r, lo + Pow2(k), lo + Pow2(k - 1));
    }
  }

  lemma StepBits(c: Tree, lo: nat, k: nat, nb: nat, rest: nat)
    requires c.Node? && Shape(c, lo, k) && lo <= nb < lo + Pow2(k) && 0 < rest && (nb <= c.size ==> rest <= c.size - nb)
    ensures k > 0 && Shape(c.l, lo, k - 1) && Shape(c.r, lo + Pow2(k - 1), k - 1)
  {
  }

  lemma BeyondLess(r: Tree, limit: nat, limit': nat)
    requires Beyond(r, limit) && limit' <= limit
    ensures Beyond(r, limit')
  {
  }

  lemma LeastStep(h: Held, nb: nat, rest: nat, rest': nat, d: Tree, lo: nat, k: nat)
    requires Left(h, nb, rest, d) && d.Node? && Shape(d, lo, k) && rest' <= rest && (rest == 0 || AllFit(d, nb))
    requires nb <= d.size ==> rest' <= d.size - nb
    ensures var e := if d.l.Node? then d.l else d.r;
            Left(h, nb, rest', e) && (rest' == 0 || AllFit(e, nb))
  {
    hide Shape, Has, Left, AllFit;
    if rest != 0 {
      FitKids(d, nb);
    }
    LeftStep(h, nb, rest, rest', d, lo, k);
  }

  /** The interval of the leftmost child. */
  ghost method LeastBounds(d: Tree, lo: nat, k: nat) returns (lo': nat, k': nat)
    requires d.Node?
    ensures Shape(d, lo, k) ==> Shape(if d.l.Node? then d.l else d.r, lo', k')
  {
    if d.l.Node? || d.r.Node? {
      lo', k' := if d.l.Node? || k == 0 then lo else lo + Pow2(k - 1), if k > 0 then k - 1 else 0;
    } else {
      lo', k' := lo, k;
    }
  }

  lemma StillNone(t: Tree, nb: nat, rest: nat)
    ensures t.Nil? ==> StillIn(t, nb, rest, t) && AllFit(t, nb)
  {
  }

  /** Going on to the first nonempty bin after i, or to none. */
  lemma NextStart(b: BinState, nb: nat, i: nat, j: nat, rest: nat, d: Tree)
    requires BinsOk(b) && MIN_LARGE_SIZE <= nb && i == BinOf(nb) && i < j <= NTREEBINS
    requires (j < NTREEBINS ==> j in b.treemap) && forall l :: i < l < j ==> l !in b.treemap
    requires |b.trees| == NTREEBINS && rest == WORD - nb && d.Nil?
             && (nb < SIZE_LIMIT ==> StillIn(b.trees[i], nb, rest, d))
    ensures j < NTREEBINS ==>
              && |b.roots| == NTREEBINS && IsTree(TreeView(b.mem, LargeKeys(b.held)), b.roots[j], b.trees[j],
                                                  TreeBin(j))
              && Apart(b.trees[j]) && TreeHolds(b.held, j, b.trees[j]) && Within(b.trees[j], b.trees[j])
              && Shape(b.trees[j], Low(j), Bits(j))
    ensures j == NTREEBINS ==>
              && IsTree(TreeView(b.mem, LargeKeys(b.held)), 0, Nil, 0) && Apart(Nil) && Shape(Nil, Low(j), Bits(j))
              && TreeHolds(b.held, i, b.trees[i]) && Within(Nil, b.trees[i])
    ensures var e := if j < NTREEBINS then b.trees[j] else Nil;
            nb < SIZE_LIMIT ==> Left(b.held, nb, rest, e) && AllFit(e, nb)
  {
    hide RingsOk, HeldOk, BinOf, TreeView, IsTree, Apart, Low, Bits, Has, Left, TreeHolds, AllFit;
    BinsHeld(b);
    NilTree(TreeView(b.mem, LargeKeys(b.held)), b.trees[i]);
    assert TreeOk(b.mem, b.held, i, b.roots[i], b.trees[i]);
    if j < NTREEBINS {
      assert TreeOk(b.mem, b.held, j, b.roots[j], b.trees[j]);
      HoldsShape(b.held, j, b.trees[j]);
      RootNode(b.mem, b.held, j, b.roots[j], b.trees[j]);
    }
    if nb < SIZE_LIMIT {
      NoFit(b.held, nb, i, b.trees[i]);
      forall a | LargeIn(b.held, a) && BinOf(b.held[a]) > i ensures BinOf(b.held[a]) >= j {
        MapMarks(b, a);
      }
      if j < NTREEBINS {
        NextBin(b.held, nb, rest, b.trees[i], j, b.trees[j]);
      } else {
        forall a | LargeIn(b.held, a) ensures BinOf(b.held[a]) <= BinOf(nb) {
          MapMarks(b, a);
        }
        NoNextBin(b.held, nb, rest, b.trees[i]);
        FitNil(nb);
      }
    }
  }

  lemma NilTree(m: Mem, t: Tree)
    ensures IsTree(m, 0, Nil, 0) && Apart(Nil) && Within(Nil, t)
  {
  }

  lemma FitNil(nb: nat)
    ensures AllFit(Nil, nb)
  {
  }

  lemma HoldsShape(h: Held, j: nat, t: Tree)
    requires TreeHolds(h, j, t)
    ensures Apart(t) && Shape(t, Low(j), Bits(j))
  {
  }

  /** Nothing in the bin fits when the search of it found nothing and left nothing. */
  lemma NoFit(h: Held, nb: nat, i: nat, t: Tree)
    requires nb < SIZE_LIMIT && HeldOk(h) && TreeHolds(h, i, t) && StillIn(t, nb, WORD - nb, Nil)
    ensures forall a, u: nat :: Has(t, a, u) ==> u < nb
  {
    hide Apart, Shape, BinOf, Low, Bits;
    forall a, u: nat | Has(t, a, u) ensures u < nb {
      HeldSize(h, a);
    }
  }

  /** The bitmap marks the bin of every chunk held. */
  lemma MapMarks(b: BinState, a: int)
    requires BinsOk(b) && LargeIn(b.held, a)
    ensures BinOf(b.held[a]) in b.treemap && BinOf(b.held[a]) < NTREEBINS
  {
    hide BinsOk, BinOf;
    BinTree(b, b.held[a]);
    HeldInTree(b, a);
    RootNonzero(b.trees[BinOf(b.held[a])], a);
  }

  /** Something fits in the bin, or may: other bins have nothing better. */
  lemma SameBin(b: BinState, nb: nat, i: nat, v: int, rest: nat, d: Tree)
    requires BinsOk(b) && MIN_LARGE_SIZE <= nb < SIZE_LIMIT && i == BinOf(nb) && i < NTREEBINS && |b.trees| == NTREEBINS
    requires StillIn(b.trees[i], nb, rest, d) && Within(d, b.trees[i])
    requires v != 0 || d.Node?
    requires v != 0 ==> Has(b.trees[i], v, nb + rest)
    ensures Left(b.held, nb, rest, d)
  {
    hide RingsOk, HeldOk, BinOf, TreeView, IsTree, Apart, Low, Bits, Left, TreeHolds;
    assert TreeOk(b.mem, b.held, i, b.roots[i], b.trees[i]);
    assert TreeHolds(b.held, i, b.trees[i]);
    if v != 0 {
      var u: nat := nb + rest;
      assert Has(b.trees[i], v, u) && nb <= u && u - nb == rest;
    }
    AfterBin(b.held, nb, rest, b.trees[i], d);
  }

  lemma SmallMapped(b: BinState, a: int)
    requires BinsOk(b) && a in b.held && !Large(b.held[a])
    ensures b.held[a] / 8 in b.smallmap && b.held[a] % 8 == 0
  {
    hide TreesOk, W, Linked, Distinct;
    var i := b.held[a] / 8;
    assert RingOf(b.mem, b.held, i, b.rings[i]);
  }

  lemma LargeMapped(b: BinState, a: int)
    requires BinsOk(b) && a in b.held && Large(b.held[a])
    ensures b.treemap != {}
  {
    hide RingsOk, W, Apart, Shape, TreeView, BinOf;
    var i := BinOf(b.held[a]);
    BinInterval(b.held[a]);
    assert TreeOk(b.mem, b.held, i, b.roots[i], b.trees[i]);
    assert Has(b.trees[i], a, b.held[a]);
    var t := b.trees[i];
    assert Has(t, t.a, t.size);
    assert i in b.treemap;
  }

  lemma MapNonempty(b: BinState)
    requires BinsOk(b) && b.treemap != {}
    ensures exists j :: 0 <= j < NTREEBINS && j in b.treemap
  {
    hide RingsOk, HeldOk, TreeOk, IndexOk;
    var j :| j in b.treemap;
  }

  lemma FirstStart(b: BinState, nb: nat, j: nat, rest: nat)
    requires BinsOk(b) && nb <= MIN_LARGE_SIZE && j < NTREEBINS && j in b.treemap
             && forall l :: 0 <= l < j ==> l !in b.treemap
    ensures |b.trees| == NTREEBINS && |b.roots| == NTREEBINS && b.trees[j].Node?
    ensures IsTree(TreeView(b.mem, LargeKeys(b.held)), b.roots[j], b.trees[j], TreeBin(j))
    ensures Apart(b.trees[j]) && TreeHolds(b.held, j, b.trees[j]) && Within(b.trees[j], b.trees[j])
    ensures Shape(b.trees[j], Low(j), Bits(j)) && Left(b.held, nb, rest, b.trees[j]) && AllFit(b.trees[j], nb)
  {
    hide RingsOk, HeldOk, BinOf, TreeView, IsTree, Apart, Low, Bits, Has, Left, TreeHolds, AllFit;
    BinsHeld(b);
    assert TreeOk(b.mem, b.held, j, b.roots[j], b.trees[j]);
    HoldsShape(b.held, j, b.trees[j]);
    RootNode(b.mem, b.held, j, b.roots[j], b.trees[j]);
    forall a | LargeIn(b.held, a) ensures BinOf(b.held[a]) >= j {
      MapMarks(b, a);
    }
    FirstBin(b.held, nb, rest, j, b.trees[j]);
  }

  lemma SoFarStart(h: Held, nb: nat)
    requires nb < WORD
    ensures SoFar(h, nb, 0, WORD - nb)
  {
  }

  lemma FitBelowWord(h: Held, nb: nat, a: int)
    requires HeldOk(h) && LargeIn(h, a) && nb <= MIN_LARGE_SIZE
    ensures Sub64(h[a], nb) == h[a] - nb < WORD - nb
  {
    HeldSize(h, a);
    Better(h[a], nb, WORD - nb);
  }

  lemma SomethingFits(h: Held, nb: nat, v: int, rest: nat, a: int)
    requires BestFit(h, nb, v, rest) && LargeIn(h, a) && nb <= h[a]
    ensures v != 0
  {
  }

  // ---------------------------------------------------------------- small bins

  lemma SmallFirst(b: BinState, s: nat)
    requires BinsOk(b) && !Large(s)
    ensures |b.rings| == NSMALLBINS && s / 8 < NSMALLBINS
    ensures var i := s / 8;
            && (i in b.smallmap <==> b.rings[i] != [])
            && (i in b.smallmap ==> W(b.mem, SmallBin(i) + FD) == First(i, b.rings[i]))
  {
    hide TreesOk, HeldOk, W;
    var i := s / 8;
    if i in b.smallmap {
      FirstLinked(b.mem, b.held, i, b.rings[i]);
    }
  }

  /** The links of a small chunk meet exactly when it is alone in its bin. */
  lemma SmallLinks(b: BinState, x: int)
    requires BinsOk(b) && x in b.held && !Large(b.held[x])
    ensures |b.rings| == NSMALLBINS && b.held[x] / 8 < NSMALLBINS
    ensures var ring, i := b.rings[b.held[x] / 8], b.held[x] / 8;
            && (W(b.mem, x + FD) == W(b.mem, x + BK) <==> |ring| == 1)
            && W(b.mem, x + FD) + BK != SmallBin(i) + FD
            && (ring != [] && ring[0] == x ==>
                  W(b.mem, x + BK) == SmallBin(i) && (W(b.mem, x + FD) == SmallBin(i) <==> |ring| == 1))
  {
    hide TreesOk, HeldOk, W, Linked;
    var i := b.held[x] / 8;
    var ring := b.rings[i];
    assert RingOf(b.mem, b.held, i, ring) && x in ring;
    var j :| 0 <= j < |ring| && ring[j] == x;
    RingNeighbour(b.mem, b.held, i, ring, j);
    if j + 1 < |ring| {
      HeldHigh(b.held, ring[j + 1]);
    }
    if ring[0] == x {
      RingNeighbour(b.mem, b.held, i, ring, 0);
    }
  }

  lemma HeldHigh(h: Held, a: int)
    requires HeldOk(h) && a in h
    ensures a >= STATE_END
  {
  }

  lemma FirstOf(b: BinState, i: nat)
    requires BinsOk(b) && i in b.smallmap
    ensures i < NSMALLBINS && |b.rings| == NSMALLBINS && b.rings[i] != [] && W(b.mem, SmallBin(i) + FD) == b.rings[i][0]
    ensures b.rings[i][0] in b.held && b.held[b.rings[i][0]] == 8 * i && !Large(8 * i)
  {
    hide TreesOk, W, Linked;
    FirstLinked(b.mem, b.held, i, b.rings[i]);
    assert b.rings[i][0] in b.rings[i];
  }
}

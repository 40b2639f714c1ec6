/** The best-fit search of the tree bins, as an argument about the chunks not yet looked at. */
module TrieSearch {
  import opened Powers
  import opened TreeIndex
  import opened Trie
  import opened TrieMem
  import opened HeapWords
  import opened Bins
  import opened BinStores

  /** 64-bit unsigned subtraction. */
  function Sub64(a: int, b: int): (r: nat)
    ensures r < WORD
  {
    (a - b) % WORD
  }

  /** The remainder after the best chunk so far; WORD - nb when there is none. */
  predicate RestOk(nb: nat, rest: nat) { nb < WORD && rest <= WORD - nb }

  /** The unsigned comparison accepts a chunk exactly when it fits and fits better. */
  lemma Better(size: nat, nb: nat, rest: nat)
    requires RestOk(nb, rest) && size < WORD
    ensures Sub64(size, nb) < rest <==> nb <= size && size - nb < rest
    ensures nb <= size ==> Sub64(size, nb) == size - nb
  {
    if size < nb {
      assert (size - nb) % WORD == size - nb + WORD;
    }
  }

  /** All chunks of a nonempty trie are at most this large. */
  ghost predicate AllUpTo(t: Tree, u: nat) {
    t.Node? && forall y, z: nat :: Has(t, y, z) ==> z <= u
  }

  ghost predicate AllFit(t: Tree, nb: nat) {
    forall y, z: nat :: Has(t, y, z) ==> z >= nb
  }

  /** While descending towards nb: every fitting chunk of the bin fits no better than the best
      so far, or is still ahead, in c or in the deepest right subtree r passed by, or fits no
      better than all of r. */
  ghost predicate Ahead(t: Tree, nb: nat, rest: nat, c: Tree, r: Tree) {
    forall a, u: nat :: Has(t, a, u) && nb <= u ==>
      u - nb >= rest || Has(c, a, u) || Has(r, a, u) || AllUpTo(r, u)
  }

  /** The right subtree passed by holds larger sizes only. */
  ghost predicate Beyond(r: Tree, limit: nat) {
    forall a, u: nat :: Has(r, a, u) ==> u >= limit
  }

  lemma AheadStart(t: Tree, nb: nat, rest: nat)
    ensures Ahead(t, nb, rest, t, Nil) && Beyond(Nil, 0)
  {
  }

  lemma NodeHas(t: Tree, a: int, u: nat)
    ensures t.Node? && Has(t, a, u) ==> u == t.size || Has(t.l, a, u) || Has(t.r, a, u)
    ensures t.Node? ==> Has(t, t.a, t.size)
    ensures Has(t, a, u) ==> t.Node?
  {
  }

  /** A better remainder that accounts for the node's own size. */
  lemma AheadNode(t: Tree, nb: nat, rest: nat, rest': nat, c: Tree, r: Tree)
    requires Ahead(t, nb, rest, c, r) && c.Node? && rest' <= rest && (nb <= c.size ==> rest' <= c.size - nb)
    ensures forall a, u: nat :: Has(t, a, u) && nb <= u ==>
              u - nb >= rest' || Has(c.l, a, u) || Has(c.r, a, u) || Has(r, a, u) || AllUpTo(r, u)
  {
    hide Has, AllUpTo;
    forall a, u: nat | Has(t, a, u) && nb <= u
      ensures u - nb >= rest' || Has(c.l, a, u) || Has(c.r, a, u) || Has(r, a, u) || AllUpTo(r, u)
    {
      NodeHas(c, a, u);
    }
  }

  lemma ShapeBeyond(t: Tree, lo: nat, k: nat)
    requires Shape(t, lo, k)
    ensures Beyond(t, lo)
  {
    forall a, u: nat | Has(t, a, u) ensures u >= lo {
      InInterval(t, lo, k, a, u);
    }
  }

  /** Going right: the left subtree is too small. */
  lemma AheadRight(t: Tree, nb: nat, rest: nat, rest': nat, c: Tree, r: Tree, lo: nat, k: nat)
    requires Ahead(t, nb, rest, c, r) && c.Node? && rest' <= rest && (nb <= c.size ==> rest' <= c.size - nb)
    requires k > 0 && Shape(c.l, lo, k - 1) && nb >= lo + Pow2(k - 1)
    ensures Ahead(t, nb, rest', c.r, r)
  {
    hide Has, AllUpTo, Shape, Pow2;
    AheadNode(t, nb, rest, rest', c, r);
    forall a, u: nat | Has(t, a, u) && nb <= u
      ensures u - nb >= rest' || Has(c.r, a, u) || Has(r, a, u) || AllUpTo(r, u)
    {
      NotInInterval(c.l, lo, k - 1, a, u);
    }
  }

  /** Going left past an empty right subtree. */
  lemma AheadLeft(t: Tree, nb: nat, rest: nat, rest': nat, c: Tree, r: Tree)
    requires Ahead(t, nb, rest, c, r) && c.Node? && rest' <= rest && (nb <= c.size ==> rest' <= c.size - nb)
    requires c.r.Nil?
    ensures Ahead(t, nb, rest', c.l, r)
  {
    hide AllUpTo;
    AheadNode(t, nb, rest, rest', c, r);
  }

  /** Going left past a right subtree, which is now the least one passed by. */
  lemma AheadLeftOf(t: Tree, nb: nat, rest: nat, rest': nat, c: Tree, r: Tree, lo: nat, k: nat)
    requires Ahead(t, nb, rest, c, r) && c.Node? && rest' <= rest && (nb <= c.size ==> rest' <= c.size - nb)
    requires c.r.Node? && k > 0 && Shape(c.r, lo + Pow2(k - 1), k - 1) && Beyond(r, lo + Pow2(k))
    ensures Ahead(t, nb, rest', c.l, c.r)
  {
    hide Has, AllUpTo, Shape, Beyond, Pow2;
    AheadNode(t, nb, rest, rest', c, r);
    Pow2Twice(k - 1);
    forall a, u: nat | Has(t, a, u) && nb <= u
      ensures u - nb >= rest' || Has(c.l, a, u) || Has(c.r, a, u) || AllUpTo(c.r, u)
    {
      if Has(r, a, u) || AllUpTo(r, u) {
        LargerThan(r, a, u, lo + Pow2(k));
        ShapeUpTo(c.r, lo + Pow2(k - 1), k - 1, u);
      }
    }
  }

  lemma LargerThan(r: Tree, a: int, u: nat, limit: nat)
    requires Beyond(r, limit) && (Has(r, a, u) || AllUpTo(r, u))
    ensures u >= limit
  {
    if !Has(r, a, u) {
      NodeHas(r, r.a, r.size);
    }
  }

  lemma ShapeUpTo(t: Tree, lo: nat, k: nat, u: nat)
    requires t.Node? && Shape(t, lo, k) && u >= lo + Pow2(k)
    ensures AllUpTo(t, u)
  {
    hide Shape, Has, Pow2;
    forall y, z: nat | Has(t, y, z) ensures z <= u {
      InInterval(t, lo, k, y, z);
    }
  }

  // ---------------------------------------------------------------- the leftmost path

  /** Every fitting chunk in any tree bin fits no better than the best so far, or lies in d, or
      fits no better than all of d. */
  ghost predicate Left(h: Held, nb: nat, rest: nat, d: Tree) {
    forall a :: LargeIn(h, a) && nb <= h[a] ==>
      h[a] - nb >= rest || Has(d, a, h[a]) || AllUpTo(d, h[a])
  }

  lemma LeftStep(h: Held, nb: nat, rest: nat, rest': nat, d: Tree, lo: nat, k: nat)
    requires Left(h, nb, rest, d) && d.Node? && Shape(d, lo, k) && rest' <= rest
    requires rest' == 0 || (nb <= d.size && rest' <= d.size - nb)
    ensures Left(h, nb, rest', if d.l.Node? then d.l else d.r)
  {
    hide Has, Shape, Left;
    var e := if d.l.Node? then d.l else d.r;
    forall a | LargeIn(h, a) && nb <= h[a]
      ensures h[a] - nb >= rest' || Has(e, a, h[a]) || AllUpTo(e, h[a])
    {
      LeftOne(h, nb, rest, d, a);
      NodeHas(d, a, h[a]);
      NodeHas(d.l, a, h[a]);
      if Has(d.r, a, h[a]) && d.l.Node? {
        RightLarger(d, lo, k, a, h[a]);
      }
    }
    LeftIntro(h, nb, rest', e);
  }

  lemma LeftOne(h: Held, nb: nat, rest: nat, d: Tree, a: int)
    requires Left(h, nb, rest, d) && LargeIn(h, a) && nb <= h[a]
    ensures h[a] - nb >= rest || Has(d, a, h[a]) || (d.Node? && d.size <= h[a])
  {
    NodeHas(d, a, h[a]);
  }

  lemma LeftIntro(h: Held, nb: nat, rest: nat, e: Tree)
    requires forall a :: LargeIn(h, a) && nb <= h[a] ==>
               h[a] - nb >= rest || Has(e, a, h[a]) || AllUpTo(e, h[a])
    ensures Left(h, nb, rest, e)
  {
  }

  lemma RightLarger(d: Tree, lo: nat, k: nat, a: int, u: nat)
    requires d.Node? && Shape(d, lo, k) && d.l.Node? && Has(d.r, a, u)
    ensures AllUpTo(d.l, u)
  {
    InInterval(d.r, lo + Pow2(k - 1), k - 1, a, u);
    ShapeUpTo(d.l, lo, k - 1, u);
  }

  lemma FitKids(d: Tree, nb: nat)
    requires d.Node? && AllFit(d, nb)
    ensures AllFit(d.l, nb) && AllFit(d.r, nb) && d.size >= nb
  {
    NodeHas(d, d.a, d.size);
    forall y, z: nat ensures (Has(d.l, y, z) ==> z >= nb) && (Has(d.r, y, z) ==> z >= nb) {
      assert Has(d.l, y, z) || Has(d.r, y, z) ==> Has(d, y, z);
    }
  }

  // ---------------------------------------------------------------- between bins

  /** After the bin of nb: chunks of other bins are too small, or larger than all of it. */
  lemma AfterBin(h: Held, nb: nat, rest: nat, t: Tree, d: Tree)
    requires HeldOk(h) && MIN_LARGE_SIZE <= nb < SIZE_LIMIT && TreeHolds(h, BinOf(nb), t)
    requires forall a, u: nat :: Has(t, a, u) && nb <= u ==> u - nb >= rest || Has(d, a, u) || AllUpTo(d, u)
    requires (exists a, u: nat :: Has(t, a, u) && nb <= u && u - nb == rest)
             || (d.Node? && forall a, u: nat :: Has(d, a, u) ==> Has(t, a, u))
    ensures Left(h, nb, rest, d)
  {
    hide HeldOk, Has, BinOf, Apart, Shape, Low, Bits, AllUpTo;
    forall a | LargeIn(h, a) && nb <= h[a]
      ensures h[a] - nb >= rest || Has(d, a, h[a]) || AllUpTo(d, h[a])
    {
      HeldSize(h, a);
      BinMonotone(nb, h[a]);
      if BinOf(nb) != BinOf(h[a]) {
        if b, u: nat :| Has(t, b, u) && nb <= u && u - nb == rest {
          LaterBin(h, nb, b, u, h[a]);
        } else {
          forall b, u: nat | Has(d, b, u) ensures u <= h[a] {
            assert Has(t, b, u);
            LaterBin(h, nb, b, u, h[a]);
          }
          UpToIntro(d, h[a]);
        }
      }
    }
  }

  lemma UpToIntro(d: Tree, u: nat)
    requires d.Node? && forall y, z: nat :: Has(d, y, z) ==> z <= u
    ensures AllUpTo(d, u)
  {
  }

  lemma HeldSize(h: Held, a: int)
    requires HeldOk(h) && LargeIn(h, a)
    ensures MIN_LARGE_SIZE <= h[a] < SIZE_LIMIT
  {
  }

  lemma LaterBin(h: Held, nb: nat, b: int, u: nat, z: nat)
    requires LargeIn(h, b) && h[b] == u && BinOf(u) == BinOf(nb) && HeldOk(h)
    requires MIN_LARGE_SIZE <= z < SIZE_LIMIT && BinOf(z) > BinOf(nb)
    ensures u <= z
  {
    hide BinOf;
    HeldSize(h, b);
    if u > z {
      BinMonotone(z, u);
    }
  }

  // ---------------------------------------------------------------- the outcome

  /** v is a chunk of least size among the fitting chunks in the tree bins, and leaves `rest`
      over; no chunk fits when v is null. */
  ghost predicate BestFit(h: Held, nb: nat, v: int, rest: nat) {
    && (v == 0 ==> forall a :: LargeIn(h, a) ==> h[a] < nb)
    && (v != 0 ==> LargeIn(h, v) && h[v] == nb + rest && forall a :: LargeIn(h, a) && h[a] >= nb ==> h[a] >= nb + rest)
  }

  /** Chunk p has the least size of all tree chunks that can hold nb bytes. */
  ghost predicate Best(h: Held, nb: nat, p: int) {
    LargeIn(h, p) && h[p] >= nb && forall a :: LargeIn(h, a) && h[a] >= nb ==> h[a] >= h[p]
  }

  lemma BestOf(h: Held, nb: nat, v: int, rest: nat)
    requires BestFit(h, nb, v, rest) && v != 0
    ensures Best(h, nb, v) && h[v] == nb + rest
  {
  }

  /** The best chunk so far. */
  ghost predicate SoFar(h: Held, nb: nat, v: int, rest: nat) {
    && RestOk(nb, rest)
    && (v == 0 ==> rest == WORD - nb)
    && (v != 0 ==> LargeIn(h, v) && h[v] == nb + rest)
  }

  lemma SearchEnds(h: Held, nb: nat, v: int, rest: nat)
    requires HeldOk(h) && SoFar(h, nb, v, rest) && Left(h, nb, rest, Nil)
    ensures BestFit(h, nb, v, rest)
  {
  }

  /** Nothing fits a request beyond the largest chunk. */
  lemma NothingFits(h: Held, nb: nat, v: int, rest: nat)
    requires HeldOk(h) && SoFar(h, nb, v, rest) && nb >= SIZE_LIMIT
    ensures v == 0 && BestFit(h, nb, 0, rest)
  {
    if v != 0 {
      HeldSize(h, v);
    }
  }

  /** Looking at one chunk. */
  lemma SoFarStep(h: Held, nb: nat, v: int, rest: nat, a: int)
    requires HeldOk(h) && SoFar(h, nb, v, rest) && LargeIn(h, a) && a != 0
    ensures var t := Sub64(h[a], nb);
            var rest' := if t < rest then t else rest;
            && SoFar(h, nb, if t < rest then a else v, rest') && rest' <= rest
            && (nb <= h[a] ==> rest' <= h[a] - nb)
  {
    HeldSize(h, a);
    Better(h[a], nb, rest);
  }

  /** The first nonempty bin after that of nb, when the bin of nb has nothing that fits. */
  lemma NextBin(h: Held, nb: nat, rest: nat, t: Tree, j: nat, d: Tree)
    requires HeldOk(h) && MIN_LARGE_SIZE <= nb < SIZE_LIMIT && TreeHolds(h, BinOf(nb), t)
    requires forall a, u: nat :: Has(t, a, u) ==> u < nb
    requires forall a :: LargeIn(h, a) && BinOf(h[a]) > BinOf(nb) ==> BinOf(h[a]) >= j
    requires j > BinOf(nb) && TreeHolds(h, j, d) && d.Node?
    ensures Left(h, nb, rest, d) && AllFit(d, nb)
  {
    hide HeldOk, Has, BinOf, Apart, Shape, Low, Bits, AllUpTo, AllFit, Left;
    forall a | LargeIn(h, a) && nb <= h[a] ensures Has(d, a, h[a]) || AllUpTo(d, h[a]) {
      HeldSize(h, a);
      BinMonotone(nb, h[a]);
      if BinOf(h[a]) != j {
        forall b, u: nat | Has(d, b, u) ensures u <= h[a] {
          HeldSize(h, b);
          if u > h[a] {
            BinMonotone(h[a], u);
          }
        }
        UpToIntro(d, h[a]);
      }
    }
    LeftIntro(h, nb, rest, d);
    forall b, u: nat | Has(d, b, u) ensures u >= nb {
      HeldSize(h, b);
      if u < nb {
        BinMonotone(u, nb);
      }
    }
    FitIntro(d, nb);
  }

  lemma FitIntro(d: Tree, nb: nat)
    requires forall b, u: nat :: Has(d, b, u) ==> u >= nb
    ensures AllFit(d, nb)
  {
  }

  lemma NoNextBin(h: Held, nb: nat, rest: nat, t: Tree)
    requires HeldOk(h) && MIN_LARGE_SIZE <= nb < SIZE_LIMIT && TreeHolds(h, BinOf(nb), t)
    requires forall a, u: nat :: Has(t, a, u) ==> u < nb
    requires forall a :: LargeIn(h, a) ==> BinOf(h[a]) <= BinOf(nb)
    ensures Left(h, nb, rest, Nil)
  {
    hide HeldOk, Has, BinOf, Apart, Shape, Low, Bits;
    forall a | LargeIn(h, a) && nb <= h[a] ensures false {
      HeldSize(h, a);
      BinMonotone(nb, h[a]);
    }
  }

  /** The first nonempty bin holds the least sizes. */
  lemma FirstBin(h: Held, nb: nat, rest: nat, j: nat, d: Tree)
    requires HeldOk(h) && nb <= MIN_LARGE_SIZE && TreeHolds(h, j, d) && d.Node?
    requires forall a :: LargeIn(h, a) ==> BinOf(h[a]) >= j
    ensures Left(h, nb, rest, d) && AllFit(d, nb)
  {
    hide HeldOk, Has, BinOf, Apart, Shape, Low, Bits, AllUpTo, AllFit, Left;
    forall a | LargeIn(h, a) && nb <= h[a] ensures Has(d, a, h[a]) || AllUpTo(d, h[a]) {
      HeldSize(h, a);
      if BinOf(h[a]) != j {
        forall b, u: nat | Has(d, b, u) ensures u <= h[a] {
          HeldSize(h, b);
          if u > h[a] {
            BinMonotone(h[a], u);
          }
        }
        UpToIntro(d, h[a]);
      }
    }
    LeftIntro(h, nb, rest, d);
    FitIntro(d, nb);
  }
}

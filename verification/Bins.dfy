/** The bins of the allocator: rings of small chunks and tries of large chunks, laid over the
    memory words of the free chunks they hold. */
module Bins {
  import opened TreeIndex
  import opened Trie
  import opened TrieMem
  import opened HeapWords

  const NSMALLBINS: nat := 32

  /** Address and size of every chunk in a bin. */
  type Held = map<int, nat>

  // The words of the allocator state lie below the heap.
  const STATE_END: int := 4096
  function SmallBin(i: nat): int { 64 + 16 * i }
  function TreeBin(i: nat): int { 1024 + 8 * i }

  predicate Large(s: nat) { s >= MIN_LARGE_SIZE }

  predicate SizeOk(s: nat) { 32 <= s < SIZE_LIMIT && s % 8 == 0 }

  /** The chunks of a layout do not overlap. */
  ghost predicate HeldOk(h: Held) {
    && (forall a :: a in h ==> a >= STATE_END && a % 8 == 0 && SizeOk(h[a]))
    && (forall a, b :: a in h && b in h && a < b ==> a + h[a] <= b)
  }

  /** Room for a chunk among the ones held. */
  ghost predicate Room(h: Held, x: int, s: nat) {
    && x >= STATE_END && x % 8 == 0 && SizeOk(s) && x !in h
    && forall a :: a in h ==> a + h[a] <= x || x + s <= a
  }

  function LargeKeys(h: Held): set<int> { set a | a in h && Large(h[a]) }

  function RingKeys(i: nat, ring: seq<int>): set<int> { (set a | a in ring) + {SmallBin(i)} }

  /** Words that hold links: of bin headers and of the chunks in bins. */
  ghost predicate Link(h: Held, w: int) {
    w < STATE_END || exists a :: a in h && a + FD <= w < a + LinkEnd(h[a])
  }

  function LinkEnd(s: nat): int { if Large(s) then 64 else 32 }

  /** Only link words change. */
  ghost predicate Quiet(m: Words, n: Words, h: Held) {
    forall w :: !Link(h, w) ==> W(n, w) == W(m, w)
  }

  /** The fields of the allocator state that concern the bins, and what they stand for. */
  datatype BinState = BinState(
    mem: Words, smallmap: set<nat>, treemap: set<nat>, roots: seq<int>,
    trees: seq<Tree>, rings: seq<seq<int>>, held: Held)

  /** Trie t, led to by the root pointer, holds exactly the chunks of bin i. */
  ghost predicate TreeOk(m: Words, h: Held, i: nat, root: int, t: Tree) {
    && IsTree(TreeView(m, LargeKeys(h)), root, t, TreeBin(i))
    && TreeHolds(h, i, t)
  }

  ghost predicate TreeHolds(h: Held, i: nat, t: Tree) {
    && Apart(t) && Shape(t, Low(i), Bits(i))
    && (forall a, s :: Has(t, a, s) <==> a in h && h[a] == s && Large(s) && BinOf(s) == i)
  }

  /** Small bin i is a ring of exactly the chunks of size 8 * i. */
  ghost predicate RingOf(m: Words, h: Held, i: nat, ring: seq<int>) {
    && RingHolds(h, i, ring)
    && (ring != [] ==> Linked(RingView(m, RingKeys(i, ring)), [SmallBin(i)] + ring))
  }

  ghost predicate RingHolds(h: Held, i: nat, ring: seq<int>) {
    && Distinct(ring)
    && (forall a :: a in ring <==> a in h && !Large(h[a]) && h[a] / 8 == i)
  }

  ghost predicate IndexOk(m: Words, h: Held) {
    forall a :: a in h && Large(h[a]) ==> W(m, a + INDEX) == BinOf(h[a])
  }

  ghost predicate TreesOk(b: BinState) {
    && |b.roots| == NTREEBINS && |b.trees| == NTREEBINS && IndexOk(b.mem, b.held)
    && (forall i :: 0 <= i < NTREEBINS ==> TreeOk(b.mem, b.held, i, b.roots[i], b.trees[i]))
    && (forall i :: i in b.treemap <==> 0 <= i < NTREEBINS && b.roots[i] != 0)
  }

  ghost predicate RingsOk(b: BinState) {
    && |b.rings| == NSMALLBINS
    && (forall i :: 0 <= i < NSMALLBINS ==> RingOf(b.mem, b.held, i, b.rings[i]))
    && (forall i :: i in b.smallmap <==> 0 <= i < NSMALLBINS && b.rings[i] != [])
  }

  /** Each chunk held is in exactly one bin, and both bitmaps are exact. */
  ghost predicate BinsOk(b: BinState) {
    HeldOk(b.held) && TreesOk(b) && RingsOk(b)
  }

  // ---------------------------------------------------------------- framing

  lemma LargeSpaced(h: Held)
    requires HeldOk(h)
    ensures Spaced(LargeKeys(h), 64)
  {
  }

  lemma RingSpaced(h: Held, i: nat, ring: seq<int>)
    requires i < NSMALLBINS && HeldOk(h) && RingHolds(h, i, ring)
    ensures Spaced(RingKeys(i, ring), 16)
  {
  }

  /** A trie depends on the words of its chunks only. */
  lemma TreeSame(m: Words, h: Held, n: Words, g: Held, i: nat, root: int, t: Tree)
    requires TreeOk(m, h, i, root, t) && TreeHolds(g, i, t)
    requires forall a :: In(t, a) ==> RecordAt(m, a) == RecordAt(n, a)
    ensures TreeOk(n, g, i, root, t)
  {
    hide IsTree, Apart, Shape, RecordAt, Has, In, BinOf;
    var v, u := TreeView(m, LargeKeys(h)), TreeView(n, LargeKeys(g));
    forall a | In(t, a) ensures SameAt(v, u, a) {
      var s := InHas(t, a);
    }
    TreeFrame(v, u, root, t, TreeBin(i));
  }

  /** A ring depends on the ring words of its chunks and its header only. */
  lemma RingSame(m: Words, h: Held, n: Words, g: Held, i: nat, ring: seq<int>)
    requires RingOf(m, h, i, ring) && RingHolds(g, i, ring)
    requires forall a :: a in RingKeys(i, ring) ==> W(m, a + FD) == W(n, a + FD) && W(m, a + BK) == W(n, a + BK)
    ensures RingOf(n, g, i, ring)
  {
    hide Linked;
    assert RingView(m, RingKeys(i, ring)) == RingView(n, RingKeys(i, ring));
  }

  lemma TreeInHeld(h: Held, i: nat, t: Tree, a: int)
    requires TreeHolds(h, i, t) && In(t, a)
    ensures a in h && Large(h[a]) && BinOf(h[a]) == i && Has(t, a, h[a])
  {
    hide Apart, Shape, Has, In, BinOf;
    var s := InHas(t, a);
  }

  lemma RecordSame(m: Words, n: Words, a: int)
    requires forall w :: a + HEAD <= w < a + 64 ==> W(m, w) == W(n, w)
    ensures RecordAt(m, a) == RecordAt(n, a) && W(m, a + INDEX) == W(n, a + INDEX)
  {
  }

  /** Words that the bins depend on: links, and heads of the chunks held. */
  ghost predicate BinWord(h: Held, w: int) {
    Link(h, w) || w - HEAD in h
  }

  /** The bins do not depend on any other word. */
  lemma BinsFrame(b: BinState, n: Words)
    requires BinsOk(b) && forall w :: BinWord(b.held, w) ==> W(n, w) == W(b.mem, w)
    ensures BinsOk(b.(mem := n))
  {
    hide TreeOk, RingOf, TreeHolds, RingHolds, BinOf, HeldOk;
    FrameIndex(b.mem, n, b.held);
    forall i | 0 <= i < NTREEBINS ensures TreeOk(n, b.held, i, b.roots[i], b.trees[i]) {
      FrameTree(b.mem, n, b.held, i, b.roots[i], b.trees[i]);
    }
    forall i | 0 <= i < NSMALLBINS ensures RingOf(n, b.held, i, b.rings[i]) {
      FrameRing(b.mem, n, b.held, i, b.rings[i]);
    }
  }

  lemma LinkIntro(h: Held, a: int, w: int)
    requires a in h && a + FD <= w < a + LinkEnd(h[a])
    ensures Link(h, w) && BinWord(h, w)
  {
  }

  lemma FrameIndex(m: Words, n: Words, h: Held)
    requires IndexOk(m, h) && forall w :: BinWord(h, w) ==> W(n, w) == W(m, w)
    ensures IndexOk(n, h)
  {
    hide BinOf, W;
    forall a | a in h && Large(h[a]) ensures W(n, a + INDEX) == BinOf(h[a]) {
      LinkIntro(h, a, a + INDEX);
    }
  }

  lemma FrameRecord(m: Words, n: Words, h: Held, a: int)
    requires a in h && Large(h[a]) && forall w :: BinWord(h, w) ==> W(n, w) == W(m, w)
    ensures RecordAt(m, a) == RecordAt(n, a)
  {
    LinkIntro(h, a, a + FD);
    LinkIntro(h, a, a + BK);
    LinkIntro(h, a, a + KID0);
    LinkIntro(h, a, a + KID1);
    LinkIntro(h, a, a + PARENT);
    assert BinWord(h, a + HEAD);
  }

  lemma FrameTree(m: Words, n: Words, h: Held, i: nat, root: int, t: Tree)
    requires TreeOk(m, h, i, root, t) && forall w :: BinWord(h, w) ==> W(n, w) == W(m, w)
    ensures TreeOk(n, h, i, root, t)
  {
    hide TreeHolds, IsTree, BinOf, RecordAt, BinWord, W;
    forall a | In(t, a) ensures RecordAt(m, a) == RecordAt(n, a) {
      TreeInHeld(h, i, t, a);
      FrameRecord(m, n, h, a);
    }
    TreeSame(m, h, n, h, i, root, t);
  }

  lemma FrameRing(m: Words, n: Words, h: Held, i: nat, ring: seq<int>)
    requires i < NSMALLBINS && RingOf(m, h, i, ring) && forall w :: BinWord(h, w) ==> W(n, w) == W(m, w)
    ensures RingOf(n, h, i, ring)
  {
    hide Linked, W;
    forall a | a in RingKeys(i, ring) ensures W(m, a + FD) == W(n, a + FD) && W(m, a + BK) == W(n, a + BK) {
      if a in ring {
        LinkIntro(h, a, a + FD);
        LinkIntro(h, a, a + BK);
      } else {
        assert BinWord(h, a + FD) && BinWord(h, a + BK);
      }
    }
    RingSame(m, h, n, h, i, ring);
  }

  // ---------------------------------------------------------------- stores

  /** Links of large chunks, other than their bin index. */
  ghost predicate LargeLink(h: Held, w: int) {
    exists a :: a in h && Large(h[a]) && a + FD <= w < a + INDEX
  }

  ghost predicate LargeQuiet(m: Words, n: Words, h: Held) {
    forall w :: !LargeLink(h, w) ==> W(n, w) == W(m, w)
  }

  lemma LargeStore(m: Words, n: Words, h: Held, a: int, off: int, v: int)
    requires LargeQuiet(m, n, h) && a in h && Large(h[a]) && FD <= off < INDEX
    ensures LargeQuiet(m, n[a + off := v], h)
  {
  }

  /** Link words of different chunks, or at different offsets, are different words. */
  lemma LargeApart(h: Held, a: int, w: int)
    requires HeldOk(h) && LargeLink(h, w) && a in h
    ensures w != a + HEAD && (w == a + INDEX ==> !Large(h[a]))
    ensures !Large(h[a]) ==> w != a + FD && w != a + BK
    ensures w >= STATE_END && Link(h, w)
  {
    var c :| c in h && Large(h[c]) && c + FD <= w < c + INDEX;
  }

  lemma LargeQuietRings(m: Words, n: Words, h: Held, i: nat, ring: seq<int>)
    requires i < NSMALLBINS && HeldOk(h) && LargeQuiet(m, n, h) && RingOf(m, h, i, ring)
    ensures RingOf(n, h, i, ring)
  {
    hide Linked, W, HeldOk, LargeLink;
    forall a | a in RingKeys(i, ring) ensures W(m, a + FD) == W(n, a + FD) && W(m, a + BK) == W(n, a + BK) {
      if a in ring {
        RingWordQuiet(h, a);
      } else {
        HeaderQuiet(h, i);
      }
    }
    RingSame(m, h, n, h, i, ring);
  }

  lemma RingWordQuiet(h: Held, a: int)
    requires HeldOk(h) && a in h && !Large(h[a])
    ensures !LargeLink(h, a + FD) && !LargeLink(h, a + BK)
  {
    if LargeLink(h, a + FD) {
      LargeApart(h, a, a + FD);
    }
    if LargeLink(h, a + BK) {
      LargeApart(h, a, a + BK);
    }
  }

  lemma HeaderQuiet(h: Held, i: nat)
    requires HeldOk(h) && i < NSMALLBINS
    ensures !LargeLink(h, SmallBin(i) + FD) && !LargeLink(h, SmallBin(i) + BK)
  {
  }

  lemma LargeQuietIndex(m: Words, n: Words, h: Held)
    requires HeldOk(h) && LargeQuiet(m, n, h) && IndexOk(m, h)
    ensures IndexOk(n, h)
  {
    hide W, HeldOk, LargeLink, BinOf;
    forall a | a in h && Large(h[a]) ensures W(n, a + INDEX) == BinOf(h[a]) {
      if LargeLink(h, a + INDEX) {
        LargeApart(h, a, a + INDEX);
      }
    }
  }

  lemma LargeLinkIsLink(h: Held, w: int)
    ensures LargeLink(h, w) ==> Link(h, w)
  {
    if c :| c in h && Large(h[c]) && c + FD <= w < c + INDEX {
      LinkIntro(h, c, w);
    }
  }

  lemma LargeQuietIsQuiet(m: Words, n: Words, h: Held)
    requires LargeQuiet(m, n, h)
    ensures Quiet(m, n, h)
  {
    hide LargeLink, Link;
    forall w | !Link(h, w) ensures W(n, w) == W(m, w) {
      LargeLinkIsLink(h, w);
    }
  }

  // ---------------------------------------------------------------- inserting a large chunk

  lemma RoomHeld(h: Held, x: int, s: nat)
    requires HeldOk(h) && Room(h, x, s)
    ensures HeldOk(h[x := s])
  {
  }

  lemma OtherTreeHolds(h: Held, x: int, s: nat, j: nat, t: Tree)
    requires TreeHolds(h, j, t) && x !in h && (Large(s) ==> BinOf(s) != j)
    ensures TreeHolds(h[x := s], j, t)
  {
    hide Apart, Shape, Has, BinOf;
  }

  lemma OtherRingHolds(h: Held, x: int, s: nat, j: nat, ring: seq<int>)
    requires RingHolds(h, j, ring) && x !in h && (Large(s) || s / 8 != j)
    ensures RingHolds(h[x := s], j, ring)
  {
  }

  lemma InsertHolds(h: Held, x: int, s: nat, i: nat, t: Tree)
    requires TreeHolds(h, i, t) && x !in h && x > 0 && Large(s) && s < SIZE_LIMIT && i == BinOf(s)
    ensures TreeHolds(h[x := s], i, Insert(t, x, s, Low(i), Bits(i))) && !In(t, x)
  {
    hide Apart, Shape, Has, In, BinOf, Low, Bits, Insert;
    BinInterval(s);
    if In(t, x) {
      TreeInHeld(h, i, t, x);
    }
    InsertApart(t, x, s, Low(i), Bits(i));
    InsertShape(t, x, s, Low(i), Bits(i));
    var g, t' := h[x := s], Insert(t, x, s, Low(i), Bits(i));
    forall a, u: nat ensures Has(t', a, u) <==> a in g && g[a] == u && Large(u) && BinOf(u) == i {
      InsertHas(t, x, s, Low(i), Bits(i), a, u);
    }
  }

  /** Two tries of different bins share no chunk. */
  lemma TreesDisjoint(h: Held, i: nat, t: Tree, j: nat, u: Tree)
    requires TreeHolds(h, i, t) && TreeHolds(h, j, u) && i != j
    ensures Disjoint(t, u)
  {
    hide TreeHolds, In, BinOf;
    forall a ensures !(In(t, a) && In(u, a)) {
      if In(t, a) && In(u, a) {
        TreeInHeld(h, i, t, a);
        TreeInHeld(h, j, u, a);
      }
    }
  }

  lemma ViewAt(m: Words, k: set<int>, a: int)
    requires a in k
    ensures At(TreeView(m, k), a) == RecordAt(m, a)
  {
  }

  /** Tries whose chunks keep their records, when a chunk is added to the ones held. */
  lemma OtherTreeOk(m: Words, n: Words, h: Held, x: int, s: nat, j: nat, root: int, t: Tree)
    requires TreeOk(m, h, j, root, t) && x !in h && (Large(s) ==> BinOf(s) != j)
    requires forall a :: In(t, a) ==> RecordAt(m, a) == RecordAt(n, a)
    ensures TreeOk(n, h[x := s], j, root, t)
  {
    hide IsTree, TreeHolds, RecordAt;
    OtherTreeHolds(h, x, s, j, t);
    TreeSame(m, h, n, h[x := s], j, root, t);
  }

  lemma WiderView(m: Words, h: Held, g: Held, i: nat, root: int, t: Tree)
    requires TreeOk(m, h, i, root, t) && forall a :: a in LargeKeys(h) ==> a in LargeKeys(g)
    ensures IsTree(TreeView(m, LargeKeys(g)), root, t, TreeBin(i))
  {
    hide IsTree, Apart, Shape, RecordAt, Has, In, BinOf;
    var v, u := TreeView(m, LargeKeys(h)), TreeView(m, LargeKeys(g));
    forall a | In(t, a) ensures SameAt(v, u, a) {
      TreeInHeld(h, i, t, a);
    }
    TreeFrame(v, u, root, t, TreeBin(i));
  }

  /** The trie of the new chunk's bin, once the chunk is linked in at its spot. */
  lemma InsertedTree(m: Words, n: Words, h: Held, x: int, s: nat, i: nat, root: int, t: Tree)
    requires TreeOk(m, h, i, root, t) && t.Node? && Room(h, x, s) && Large(s) && i == BinOf(s)
    requires var k := LargeKeys(h[x := s]);
             TreeView(n, k) == LinkIn(TreeView(m, k), Spot(t, s, Low(i), Bits(i)), x, s)
    ensures TreeOk(n, h[x := s], i, root, Insert(t, x, s, Low(i), Bits(i)))
  {
    hide IsTree, Apart, Shape, RecordAt, Has, In, BinOf, TreeView, Spot, LinkIn, Low, Bits, Insert;
    BinInterval(s);
    InsertHolds(h, x, s, i, t);
    WiderView(m, h, h[x := s], i, root, t);
    InsertRep(TreeView(m, LargeKeys(h[x := s])), root, t, TreeBin(i), x, s, Low(i), Bits(i));
  }

  /** Every other trie. */
  lemma UntouchedTree(m: Words, n: Words, h: Held, x: int, s: nat, i: nat, root: int, t: Tree, j: nat, root': int,
                      u: Tree)
    requires TreeOk(m, h, i, root, t) && t.Node? && Room(h, x, s) && Large(s) && i == BinOf(s)
    requires TreeOk(m, h, j, root', u) && i != j
    requires var k := LargeKeys(h[x := s]);
             TreeView(n, k) == LinkIn(TreeView(m, k), Spot(t, s, Low(i), Bits(i)), x, s)
    ensures TreeOk(n, h[x := s], j, root', u)
  {
    hide IsTree, TreeHolds, RecordAt, Has, In, BinOf, TreeView, Spot, LinkIn, Low, Bits;
    var k := LargeKeys(h[x := s]);
    TreesDisjoint(h, i, t, j, u);
    WiderView(m, h, h[x := s], i, root, t);
    forall a | In(u, a) ensures RecordAt(m, a) == RecordAt(n, a) {
      TreeInHeld(h, j, u, a);
      LinkTouches(TreeView(m, k), root, t, TreeBin(i), x, s, Low(i), Bits(i), a);
      ViewAt(m, k, a);
      ViewAt(n, k, a);
    }
    OtherTreeOk(m, n, h, x, s, j, root', u);
  }

  /** The state once a large chunk has been linked in. */
  function Inserted(b: BinState, n: Words, x: int, s: nat): BinState
    requires |b.trees| == NTREEBINS && |b.roots| == NTREEBINS && BinOf(s) < NTREEBINS
  {
    var i := BinOf(s);
    var root := if b.trees[i].Nil? then x else b.roots[i];
    BinState(n, b.smallmap, b.treemap + {i}, b.roots[i := root],
             b.trees[i := Insert(b.trees[i], x, s, Low(i), Bits(i))], b.rings, b.held[x := s])
  }

  lemma GrownRings(b: BinState, n: Words, x: int, s: nat)
    requires BinsOk(b) && Room(b.held, x, s) && Large(s) && LargeQuiet(b.mem, n, b.held[x := s])
    ensures RingsOk(b.(mem := n, held := b.held[x := s]))
  {
    hide TreesOk, RingHolds, RingOf, LargeQuiet, HeldOk, Room;
    RoomHeld(b.held, x, s);
    assert x !in b.held by {
      RoomNew(b.held, x, s);
    }
    forall i | 0 <= i < NSMALLBINS ensures RingOf(n, b.held[x := s], i, b.rings[i]) {
      GrownRing(b.mem, b.held, x, s, i, b.rings[i]);
      LargeQuietRings(b.mem, n, b.held[x := s], i, b.rings[i]);
    }
  }

  lemma RoomNew(h: Held, x: int, s: nat)
    requires Room(h, x, s)
    ensures x !in h && x >= STATE_END && s < SIZE_LIMIT
  {
  }

  lemma GrownRing(m: Words, h: Held, x: int, s: nat, i: nat, ring: seq<int>)
    requires RingOf(m, h, i, ring) && x !in h && (Large(s) || s / 8 != i)
    ensures RingOf(m, h[x := s], i, ring)
  {
    hide Linked;
    OtherRingHolds(h, x, s, i, ring);
    RingSame(m, h, m, h[x := s], i, ring);
  }

  lemma GrownIndex(b: BinState, n: Words, x: int, s: nat)
    requires BinsOk(b) && Room(b.held, x, s) && Large(s) && LargeQuiet(b.mem, n, b.held[x := s])
    requires W(b.mem, x + INDEX) == BinOf(s)
    ensures IndexOk(n, b.held[x := s])
  {
    hide RingsOk, TreeOk, BinOf, LargeQuiet, HeldOk, W;
    RoomHeld(b.held, x, s);
    LargeQuietIndex(b.mem, n, b.held[x := s]);
  }

  lemma RootNode(m: Words, h: Held, i: nat, root: int, t: Tree)
    requires TreeOk(m, h, i, root, t)
    ensures root == RootOf(t) && (t.Node? ==> root > 0)
  {
    hide Has, Shape, BinOf;
  }

  /** Linking a large chunk in below or beside another keeps the bins. */
  lemma InsertedOk(b: BinState, n: Words, x: int, s: nat)
    requires BinsOk(b) && Room(b.held, x, s) && Large(s)
    requires BinOf(s) < NTREEBINS && b.trees[BinOf(s)].Node?
    requires W(b.mem, x + INDEX) == BinOf(s) && LargeQuiet(b.mem, n, b.held[x := s])
    requires var k, i := LargeKeys(b.held[x := s]), BinOf(s);
             TreeView(n, k) == LinkIn(TreeView(b.mem, k), Spot(b.trees[i], s, Low(i), Bits(i)), x, s)
    ensures BinsOk(Inserted(b, n, x, s))
  {
    hide RingsOk, TreeOk, BinOf, LargeQuiet, HeldOk, W, Room, IndexOk, TreeView, LinkIn, Spot, Low, Bits, Insert;
    var i := BinOf(s);
    RoomHeld(b.held, x, s);
    GrownRings(b, n, x, s);
    GrownIndex(b, n, x, s);
    InsertedTree(b.mem, n, b.held, x, s, i, b.roots[i], b.trees[i]);
    RootNode(b.mem, b.held, i, b.roots[i], b.trees[i]);
    forall j | 0 <= j < NTREEBINS && j != i ensures TreeOk(n, b.held[x := s], j, b.roots[j], b.trees[j]) {
      UntouchedTree(b.mem, n, b.held, x, s, i, b.roots[i], b.trees[i], j, b.roots[j], b.trees[j]);
    }
    InsertedRings(b, n, x, s);
  }

  lemma InsertedRings(b: BinState, n: Words, x: int, s: nat)
    requires |b.trees| == NTREEBINS && |b.roots| == NTREEBINS && BinOf(s) < NTREEBINS
    requires RingsOk(b.(mem := n, held := b.held[x := s]))
    ensures RingsOk(Inserted(b, n, x, s))
  {
  }

  /** A large chunk that becomes the root of an empty bin. */
  lemma InsertedRootOk(b: BinState, n: Words, x: int, s: nat)
    requires BinsOk(b) && Room(b.held, x, s) && Large(s)
    requires BinOf(s) < NTREEBINS && b.trees[BinOf(s)].Nil?
    requires W(b.mem, x + INDEX) == BinOf(s) && LargeQuiet(b.mem, n, b.held[x := s])
    requires var k := LargeKeys(b.held[x := s]);
             TreeView(n, k) == TreeView(b.mem, k)[x := Alone(x, s, TreeBin(BinOf(s)))]
    ensures BinsOk(Inserted(b, n, x, s))
  {
    hide RingsOk, TreeOk, BinOf, LargeQuiet, HeldOk, W, Room, IndexOk, TreeView, Low, Bits, Insert;
    var i := BinOf(s);
    RoomHeld(b.held, x, s);
    RoomNew(b.held, x, s);
    GrownRings(b, n, x, s);
    GrownIndex(b, n, x, s);
    InsertedRoot(b.mem, n, b.held, x, s, b.roots[i], b.trees[i]);
    forall j | 0 <= j < NTREEBINS && j != i ensures TreeOk(n, b.held[x := s], j, b.roots[j], b.trees[j]) {
      BesideRoot(b.mem, n, b.held, x, s, j, b.roots[j], b.trees[j]);
    }
    InsertedRings(b, n, x, s);
  }

  lemma InsertedRoot(m: Words, n: Words, h: Held, x: int, s: nat, root: int, t: Tree)
    requires TreeOk(m, h, BinOf(s), root, t) && t.Nil? && x > 0 && Large(s) && x !in h && s < SIZE_LIMIT
    requires TreeView(n, LargeKeys(h[x := s])) == TreeView(m, LargeKeys(h[x := s]))[x := Alone(x, s, TreeBin(BinOf(s)))]
    ensures var i := BinOf(s); TreeOk(n, h[x := s], i, x, Insert(t, x, s, Low(i), Bits(i)))
  {
    hide BinOf, Low, Bits, TreeView, TreeHolds, IsTree, Alone;
    var i := BinOf(s);
    assert TreeHolds(h, i, t);
    InsertHolds(h, x, s, i, t);
    AloneTree(TreeView(m, LargeKeys(h[x := s])), x, s, TreeBin(i));
  }

  lemma BesideRoot(m: Words, n: Words, h: Held, x: int, s: nat, j: nat, root: int, t: Tree)
    requires TreeOk(m, h, j, root, t) && x !in h && Large(s) && BinOf(s) != j
    requires TreeView(n, LargeKeys(h[x := s])) == TreeView(m, LargeKeys(h[x := s]))[x := Alone(x, s, TreeBin(BinOf(s)))]
    ensures TreeOk(n, h[x := s], j, root, t)
  {
    hide BinOf, TreeView, TreeHolds, IsTree, Alone, RecordAt;
    var k := LargeKeys(h[x := s]);
    forall a | In(t, a) ensures RecordAt(m, a) == RecordAt(n, a) {
      TreeInHeld(h, j, t, a);
      ViewAt(m, k, a);
      ViewAt(n, k, a);
    }
    OtherTreeOk(m, n, h, x, s, j, root, t);
  }

  // ---------------------------------------------------------------- unlinking a large chunk

  /** The state once large chunk x of bin i has been unlinked. */
  function Removed(b: BinState, n: Words, i: nat, x: int): BinState
    requires |b.trees| == NTREEBINS && |b.roots| == NTREEBINS && i < NTREEBINS
  {
    var t := Remove(b.trees[i], x);
    BinState(n, b.smallmap, if t.Nil? then b.treemap - {i} else b.treemap, b.roots[i := RootOf(t)],
             b.trees[i := t], b.rings, b.held - {x})
  }

  lemma RemoveHolds(h: Held, i: nat, t: Tree, x: int)
    requires TreeHolds(h, i, t) && x in h
    ensures TreeHolds(h - {x}, i, Remove(t, x))
  {
    hide Apart, Shape, Has, In, BinOf, Low, Bits, Remove;
    RemoveApart(t, x);
    RemoveShape(t, x, Low(i), Bits(i));
    var g, t' := h - {x}, Remove(t, x);
    forall a, u: nat ensures Has(t', a, u) <==> a in g && g[a] == u && Large(u) && BinOf(u) == i {
      RemoveHas(t, x, a, u);
    }
  }

  lemma ShrunkTreeHolds(h: Held, x: int, j: nat, t: Tree)
    requires TreeHolds(h, j, t) && x in h && (Large(h[x]) ==> BinOf(h[x]) != j)
    ensures TreeHolds(h - {x}, j, t)
  {
    hide Apart, Shape, Has, BinOf;
  }

  lemma ShrunkRingHolds(h: Held, x: int, j: nat, ring: seq<int>)
    requires RingHolds(h, j, ring) && x in h && (Large(h[x]) || h[x] / 8 != j)
    ensures RingHolds(h - {x}, j, ring)
  {
  }

  lemma ShrunkHeld(h: Held, x: int)
    requires HeldOk(h)
    ensures HeldOk(h - {x})
  {
  }

  lemma ShrunkRings(b: BinState, n: Words, x: int)
    requires BinsOk(b) && x in b.held && Large(b.held[x]) && LargeQuiet(b.mem, n, b.held)
    ensures RingsOk(b.(mem := n, held := b.held - {x}))
  {
    hide TreesOk, RingHolds, RingOf, LargeQuiet, HeldOk;
    forall i | 0 <= i < NSMALLBINS ensures RingOf(n, b.held - {x}, i, b.rings[i]) {
      LargeQuietRings(b.mem, n, b.held, i, b.rings[i]);
      ShrunkRing(n, b.held, x, i, b.rings[i]);
    }
  }

  lemma ShrunkRing(m: Words, h: Held, x: int, i: nat, ring: seq<int>)
    requires RingOf(m, h, i, ring) && x in h && (Large(h[x]) || h[x] / 8 != i)
    ensures RingOf(m, h - {x}, i, ring)
  {
    hide Linked;
    ShrunkRingHolds(h, x, i, ring);
    RingSame(m, h, m, h - {x}, i, ring);
  }

  lemma ShrunkIndex(b: BinState, n: Words, x: int)
    requires BinsOk(b) && LargeQuiet(b.mem, n, b.held)
    ensures IndexOk(n, b.held - {x})
  {
    hide RingsOk, TreeOk, BinOf, LargeQuiet, HeldOk, W;
    LargeQuietIndex(b.mem, n, b.held);
  }

  lemma NarrowerView(m: Words, h: Held, x: int, i: nat, root: int, t: Tree)
    requires IsTree(TreeView(m, LargeKeys(h)), root, t, TreeBin(i)) && TreeHolds(h - {x}, i, t)
    ensures TreeOk(m, h - {x}, i, root, t)
  {
    hide IsTree, Apart, Shape, RecordAt, Has, In, BinOf;
    var v, u := TreeView(m, LargeKeys(h)), TreeView(m, LargeKeys(h - {x}));
    forall a | In(t, a) ensures SameAt(v, u, a) {
      TreeInHeld(h - {x}, i, t, a);
    }
    TreeFrame(v, u, root, t, TreeBin(i));
  }

  /** Unlinking x from its trie, in memory. */
  function UnlinkedFrom(m: Mem, t: Tree, x: int): Mem
    requires In(t, x)
  {
    Unlinked(m, SubAt(t, x), x, x == t.a)
  }

  lemma UnlinkRep(m: Mem, p: int, t: Tree, q: int, x: int)
    requires IsTree(m, p, t, q) && Apart(t) && In(t, x)
    ensures IsTree(UnlinkedFrom(m, t, x), RootOf(Remove(t, x)), Remove(t, x), q)
    ensures forall y :: !In(t, y) ==> SameAt(m, UnlinkedFrom(m, t, x), y)
  {
    hide IsTree, Apart, Unlinked, Remove;
    if x == t.a {
      UnlinkTop(m, p, t, q);
    } else {
      UnlinkBelow(m, p, t, q, x);
      RemoveKeepsRoot(m, p, t, q, x);
    }
  }

  lemma RemoveKeepsRoot(m: Mem, p: int, t: Tree, q: int, x: int)
    requires IsTree(m, p, t, q) && In(t, x) && x != t.a
    ensures p == RootOf(Remove(t, x))
  {
  }

  lemma RemovedTree(m: Words, n: Words, h: Held, x: int, i: nat, root: int, t: Tree)
    requires TreeOk(m, h, i, root, t) && x in h && In(t, x)
    requires TreeView(n, LargeKeys(h)) == UnlinkedFrom(TreeView(m, LargeKeys(h)), t, x)
    ensures TreeOk(n, h - {x}, i, RootOf(Remove(t, x)), Remove(t, x))
  {
    hide IsTree, Shape, Apart, Has, BinOf, TreeView, UnlinkedFrom, Remove, LargeKeys, RootOf;
    RemoveHolds(h, i, t, x);
    UnlinkRep(TreeView(m, LargeKeys(h)), root, t, TreeBin(i), x);
    NarrowerView(n, h, x, i, RootOf(Remove(t, x)), Remove(t, x));
  }

  lemma TreeApart(h: Held, i: nat, t: Tree)
    requires TreeHolds(h, i, t)
    ensures Apart(t)
  {
  }

  lemma BesideRemoved(m: Words, n: Words, h: Held, x: int, i: nat, root: int, t: Tree, j: nat, root': int, u: Tree)
    requires TreeOk(m, h, i, root, t) && x in h && In(t, x) && BinOf(h[x]) == i
    requires TreeOk(m, h, j, root', u) && i != j
    requires TreeView(n, LargeKeys(h)) == UnlinkedFrom(TreeView(m, LargeKeys(h)), t, x)
    ensures TreeOk(n, h - {x}, j, root', u)
  {
    hide IsTree, TreeHolds, RecordAt, BinOf, TreeView, UnlinkedFrom, Remove;
    var k := LargeKeys(h);
    TreesDisjoint(h, i, t, j, u);
    TreeApart(h, i, t);
    UnlinkRep(TreeView(m, k), root, t, TreeBin(i), x);
    forall a | In(u, a) ensures RecordAt(m, a) == RecordAt(n, a) {
      TreeInHeld(h, j, u, a);
      assert !In(t, a) && SameAt(TreeView(m, k), TreeView(n, k), a);
      ViewAt(m, k, a);
      ViewAt(n, k, a);
    }
    ShrunkTreeHolds(h, x, j, u);
    TreeSame(m, h, n, h - {x}, j, root', u);
  }

  /** Unlinking a large chunk keeps the bins and takes away exactly that chunk. */
  lemma RemovedOk(b: BinState, n: Words, x: int)
    requires BinsOk(b) && x in b.held && Large(b.held[x]) && LargeQuiet(b.mem, n, b.held)
    requires BinOf(b.held[x]) < NTREEBINS && In(b.trees[BinOf(b.held[x])], x)
    requires var k := LargeKeys(b.held);
             TreeView(n, k) == UnlinkedFrom(TreeView(b.mem, k), b.trees[BinOf(b.held[x])], x)
    ensures BinsOk(Removed(b, n, BinOf(b.held[x]), x))
  {
    hide RingsOk, TreeOk, BinOf, LargeQuiet, HeldOk, W, IndexOk, TreeView, UnlinkedFrom, Remove;
    var i := BinOf(b.held[x]);
    ShrunkHeld(b.held, x);
    ShrunkRings(b, n, x);
    ShrunkIndex(b, n, x);
    RemovedTree(b.mem, n, b.held, x, i, b.roots[i], b.trees[i]);
    RootNode(n, b.held - {x}, i, RootOf(Remove(b.trees[i], x)), Remove(b.trees[i], x));
    RootNode(b.mem, b.held, i, b.roots[i], b.trees[i]);
    RootNonzero(b.trees[i], x);
    forall j | 0 <= j < NTREEBINS && j != i ensures TreeOk(n, b.held - {x}, j, b.roots[j], b.trees[j]) {
      BesideRemoved(b.mem, n, b.held, x, i, b.roots[i], b.trees[i], j, b.roots[j], b.trees[j]);
    }
    RemovedRings(b, n, i, x);
  }

  lemma RootNonzero(t: Tree, x: int)
    requires In(t, x)
    ensures t.Node?
  {
  }

  lemma RemovedRings(b: BinState, n: Words, i: nat, x: int)
    requires |b.trees| == NTREEBINS && |b.roots| == NTREEBINS && i < NTREEBINS
    requires RingsOk(b.(mem := n, held := b.held - {x}))
    ensures RingsOk(Removed(b, n, i, x))
  {
  }

  // ---------------------------------------------------------------- small bins

  /** Links of small chunks and of bin headers. */
  ghost predicate SmallLink(h: Held, w: int) {
    w < STATE_END || exists a :: a in h && !Large(h[a]) && a + FD <= w < a + 32
  }

  ghost predicate SmallQuiet(m: Words, n: Words, h: Held) {
    forall w :: !SmallLink(h, w) ==> W(n, w) == W(m, w)
  }

  lemma SmallLinkIsLink(h: Held, w: int)
    ensures SmallLink(h, w) ==> Link(h, w)
  {
    if c :| c in h && !Large(h[c]) && c + FD <= w < c + 32 {
      LinkIntro(h, c, w);
    }
  }

  lemma SmallQuietIsQuiet(m: Words, n: Words, h: Held)
    requires SmallQuiet(m, n, h)
    ensures Quiet(m, n, h)
  {
    hide SmallLink, Link;
    forall w | !Link(h, w) ensures W(n, w) == W(m, w) {
      SmallLinkIsLink(h, w);
    }
  }

  lemma LargeWordQuiet(h: Held, a: int, w: int)
    requires HeldOk(h) && a in h && Large(h[a]) && a + HEAD <= w < a + 64
    ensures !SmallLink(h, w)
  {
  }

  lemma SmallQuietTree(m: Words, n: Words, h: Held, g: Held, i: nat, root: int, t: Tree)
    requires HeldOk(h) && SmallQuiet(m, n, h) && TreeOk(m, h, i, root, t) && TreeHolds(g, i, t)
    ensures TreeOk(n, g, i, root, t)
  {
    hide TreeHolds, IsTree, BinOf, W, SmallLink, HeldOk, RecordAt;
    forall a | In(t, a) ensures RecordAt(m, a) == RecordAt(n, a) {
      TreeInHeld(h, i, t, a);
      forall w | a + HEAD <= w < a + 64 ensures W(m, w) == W(n, w) {
        LargeWordQuiet(h, a, w);
      }
      RecordSame(m, n, a);
    }
    TreeSame(m, h, n, g, i, root, t);
  }

  lemma SmallQuietIndex(m: Words, n: Words, h: Held)
    requires HeldOk(h) && SmallQuiet(m, n, h) && IndexOk(m, h)
    ensures IndexOk(n, h)
  {
    hide W, BinOf, SmallLink, HeldOk;
    forall a | a in h && Large(h[a]) ensures W(n, a + INDEX) == BinOf(h[a]) {
      LargeWordQuiet(h, a, a + INDEX);
    }
  }

  lemma LinkedFrame(v: Mem, u: Mem, c: seq<int>)
    requires Linked(v, c) && forall a :: a in c ==> SameAt(v, u, a)
    ensures Linked(u, c)
  {
    assert c[0] in c && c[|c| - 1] in c;
    forall j | 0 <= j < |c| - 1 ensures At(u, c[j]).fd == c[j + 1] && At(u, c[j + 1]).bk == c[j] {
      assert c[j] in c && c[j + 1] in c;
    }
  }

  /** A small bin as a node of its own: the header and its ring. */
  function RingTree(i: nat, ring: seq<int>): (t: Tree)
    ensures t.Node?
  {
    Node(SmallBin(i), ring, 0, Nil, Nil)
  }

  lemma RingNode(m: Words, h: Held, i: nat, ring: seq<int>)
    requires HeldOk(h) && i < NSMALLBINS && RingOf(m, h, i, ring) && ring != []
    ensures TrieMem.NodeOk(RingView(m, RingKeys(i, ring)), RingTree(i, ring), 0)
    ensures Trie.RingOk(RingTree(i, ring))
  {
    hide Linked;
  }

  /** The four stores of insert_small_chunk; f is the first chunk, or the header itself. */
  function RingPut(m: Words, i: nat, f: int, x: int): Words {
    m[SmallBin(i) + FD := x][f + BK := x][x + FD := f][x + BK := SmallBin(i)]
  }

  lemma RingPutView(m: Words, i: nat, ring: seq<int>, f: int, x: int)
    requires Spaced(RingKeys(i, ring), 16) && x in ring && f in RingKeys(i, ring) && f != x && x != SmallBin(i)
    ensures var v, n := RingView(m, RingKeys(i, ring)), RingView(RingPut(m, i, f, x), RingKeys(i, ring));
            var v1 := v[SmallBin(i) := At(v, SmallBin(i)).(fd := x)];
            n == v1[f := At(v1, f).(bk := x)][x := Chunk(0, f, SmallBin(i), 0, 0, 0)]
  {
    hide RingKeys, RingView, Spaced, SmallBin, W;
    var k := RingKeys(i, ring);
    RingKeysHas(i, ring, x);
    RingKeysHas(i, ring, SmallBin(i));
    var m1 := m[SmallBin(i) + FD := x];
    var m2 := m1[f + BK := x];
    var m3 := m2[x + FD := f];
    StoreRingFd(m, k, SmallBin(i), x);
    StoreRingBk(m1, k, f, x);
    StoreRingFd(m2, k, x, f);
    StoreRingBk(m3, k, x, SmallBin(i));
    RingViewAt(m2, k, x);
    var v2, r := RingView(m2, k), Chunk(0, f, SmallBin(i), 0, 0, 0);
    var v3 := v2[x := At(v2, x).(fd := f)];
    assert v3[x := At(v3, x).(bk := SmallBin(i))] == v2[x := r];
  }

  lemma RingViewAt(m: Words, k: set<int>, a: int)
    requires a in k
    ensures At(RingView(m, k), a) == Chunk(0, W(m, a + FD), W(m, a + BK), 0, 0, 0)
  {
  }

  lemma RingKeysHas(i: nat, ring: seq<int>, x: int)
    ensures x in RingKeys(i, ring) <==> x in ring || x == SmallBin(i)
  {
  }

  lemma PutHolds(h: Held, x: int, s: nat, i: nat, ring: seq<int>)
    requires RingHolds(h, i, ring) && x !in h && !Large(s) && i == s / 8
    ensures RingHolds(h[x := s], i, [x] + ring) && x !in ring
  {
    DistinctCons(x, ring);
    assert forall a :: a in [x] + ring <==> a == x || a in ring;
  }

  /** The chunk after the header. */
  function First(i: nat, ring: seq<int>): int { if ring == [] then SmallBin(i) else ring[0] }

  lemma RingPutOk(m: Words, h: Held, i: nat, ring: seq<int>, x: int, s: nat)
    requires HeldOk(h) && Room(h, x, s) && !Large(s) && i == s / 8 && i < NSMALLBINS && RingOf(m, h, i, ring)
    ensures RingOf(RingPut(m, i, First(i, ring), x), h[x := s], i, [x] + ring)
  {
    hide Linked, RingView, RingKeys, RingPut, HeldOk, Room, RingHolds;
    RoomNew(h, x, s);
    RoomHeld(h, x, s);
    PutHolds(h, x, s, i, ring);
    RingSpaced(h[x := s], i, [x] + ring);
    FirstKey(i, ring, x);
    RingPutView(m, i, [x] + ring, First(i, ring), x);
    if ring == [] {
      PutAlone(m, i, x);
    } else {
      PutBefore(m, h, i, ring, x);
    }
  }

  lemma FirstKey(i: nat, ring: seq<int>, x: int)
    requires x !in ring && x >= STATE_END && i < NSMALLBINS
    ensures First(i, ring) in RingKeys(i, [x] + ring) && First(i, ring) != x && x in [x] + ring && x != SmallBin(i)
  {
    if ring != [] {
      assert ring[0] in ring && ring[0] in [x] + ring;
    }
  }

  lemma PutAlone(m: Words, i: nat, x: int)
    requires x != SmallBin(i)
    requires var v, n := RingView(m, RingKeys(i, [x] + [])),
             RingView(RingPut(m, i, SmallBin(i), x), RingKeys(i, [x] + []));
             var v1 := v[SmallBin(i) := At(v, SmallBin(i)).(fd := x)];
             n == v1[SmallBin(i) := At(v1, SmallBin(i)).(bk := x)][x := Chunk(0, SmallBin(i), SmallBin(i), 0, 0, 0)]
    ensures Linked(RingView(RingPut(m, i, SmallBin(i), x), RingKeys(i, [x] + [])), [SmallBin(i)] + ([x] + []))
  {
    hide RingView, RingKeys, RingPut;
    assert [SmallBin(i)] + ([x] + []) == [SmallBin(i), x];
  }

  lemma PutBefore(m: Words, h: Held, i: nat, ring: seq<int>, x: int)
    requires HeldOk(h) && RingOf(m, h, i, ring) && ring != [] && i < NSMALLBINS && x >= STATE_END && x !in ring
    requires var v, n := RingView(m, RingKeys(i, [x] + ring)),
             RingView(RingPut(m, i, ring[0], x), RingKeys(i, [x] + ring));
             var v1 := v[SmallBin(i) := At(v, SmallBin(i)).(fd := x)];
             n == v1[ring[0] := At(v1, ring[0]).(bk := x)][x := Chunk(0, ring[0], SmallBin(i), 0, 0, 0)]
    ensures Linked(RingView(RingPut(m, i, ring[0], x), RingKeys(i, [x] + ring)), [SmallBin(i)] + ([x] + ring))
  {
    hide RingPut, HeldOk, RingHolds, Linked, NodeOk, RingOk, RingView, RingKeys;
    var t := RingTree(i, ring);
    var v := RingView(m, RingKeys(i, [x] + ring));
    RingNode(m, h, i, ring);
    forall a | t.Here(a) ensures SameAt(RingView(m, RingKeys(i, ring)), v, a) {
      WiderRing(m, i, ring, x, a);
    }
    NodeFrame(RingView(m, RingKeys(i, ring)), v, t, 0);
    RingHead(v, t, 0);
    RingInsert(v, t, 0, x);
    NodeLinked(RingView(RingPut(m, i, ring[0], x), RingKeys(i, [x] + ring)), t.(ring := [x] + ring), 0);
  }

  lemma WiderRing(m: Words, i: nat, ring: seq<int>, x: int, a: int)
    requires a == SmallBin(i) || a in ring
    ensures SameAt(RingView(m, RingKeys(i, ring)), RingView(m, RingKeys(i, [x] + ring)), a)
  {
    assert a in ring ==> a in [x] + ring;
  }

  lemma NodeLinked(m: Mem, t: Tree, q: int)
    requires t.Node? && NodeOk(m, t, q)
    ensures Linked(m, [t.a] + t.ring)
  {
  }

  /** The two stores that take x out of its ring. */
  function RingDrop(m: Words, x: int): Words {
    var f, r := W(m, x + FD), W(m, x + BK);
    m[f + BK := r][r + FD := f]
  }

  lemma RingDropView(m: Words, k: set<int>, x: int)
    requires Spaced(k, 16) && x in k && W(m, x + FD) in k && W(m, x + BK) in k
    ensures RingView(RingDrop(m, x), k) == RingOut(RingView(m, k), x)
  {
    hide Spaced, RingView, W;
    RingViewAt(m, k, x);
    var f, r := W(m, x + FD), W(m, x + BK);
    StoreRingBk(m, k, f, r);
    StoreRingFd(m[f + BK := r], k, r, f);
  }

  /** Neighbours of chunk j in the ring of bin i. */
  lemma RingNeighbour(m: Words, h: Held, i: nat, ring: seq<int>, j: nat)
    requires HeldOk(h) && i < NSMALLBINS && RingOf(m, h, i, ring) && j < |ring|
    ensures var f, r := W(m, ring[j] + FD), W(m, ring[j] + BK);
            && f == (if j + 1 < |ring| then ring[j + 1] else SmallBin(i))
            && r == (if j > 0 then ring[j - 1] else SmallBin(i))
            && f in RingKeys(i, ring) && r in RingKeys(i, ring) && (f == r <==> |ring| == 1)
  {
    hide Linked, HeldOk;
    var c, v := [SmallBin(i)] + ring, RingView(m, RingKeys(i, ring));
    RingNeighbours(v, c, j + 1);
    assert c[j + 1] == ring[j] && ring[j] in ring;
    assert j > 0 ==> ring[j - 1] in ring && c[j] == ring[j - 1];
    assert j + 1 < |ring| ==> ring[j + 1] in ring && c[j + 2] == ring[j + 1];
    HeldAbove(h, i, ring);
  }

  lemma HeldAbove(h: Held, i: nat, ring: seq<int>)
    requires HeldOk(h) && RingHolds(h, i, ring) && i < NSMALLBINS
    ensures SmallBin(i) !in ring
  {
  }

  lemma FirstLinked(m: Words, h: Held, i: nat, ring: seq<int>)
    requires RingOf(m, h, i, ring) && ring != []
    ensures W(m, SmallBin(i) + FD) == ring[0]
  {
    var c, v := [SmallBin(i)] + ring, RingView(m, RingKeys(i, ring));
    assert At(v, c[0]).fd == c[1];
  }

  lemma DropHolds(h: Held, x: int, i: nat, ring: seq<int>)
    requires RingHolds(h, i, ring) && x in ring
    ensures RingHolds(h - {x}, i, Without(ring, x))
  {
    WithoutFacts(ring, x);
  }

  /** Taking chunk j out of the ring of bin i. */
  lemma RingDropOk(m: Words, h: Held, i: nat, ring: seq<int>, j: nat)
    requires HeldOk(h) && i < NSMALLBINS && RingOf(m, h, i, ring) && j < |ring| && |ring| > 1
    ensures RingOf(RingDrop(m, ring[j]), h - {ring[j]}, i, Without(ring, ring[j]))
  {
    hide Linked, RingView, HeldOk, RingHolds, NodeOk, RingOk, RingOut, RingDrop, RingKeys;
    var x, k, t := ring[j], RingKeys(i, ring), RingTree(i, ring);
    var n, ring' := RingDrop(m, x), Without(ring, x);
    RingNeighbour(m, h, i, ring, j);
    RingSpaced(h, i, ring);
    RingKeysHas(i, ring, x);
    DropHolds(h, x, i, ring);
    RingDropView(m, k, x);
    RingNode(m, h, i, ring);
    RingOutMember(RingView(m, k), t, 0, j);
    RingDistinct(h, i, ring);
    WithoutSplit(ring, j);
    NodeLinked(RingView(n, k), t.(ring := ring'), 0);
    forall a | a in [SmallBin(i)] + ring' ensures SameAt(RingView(n, k), RingView(n, RingKeys(i, ring')), a) {
      NarrowerRing(n, i, ring, x, a);
    }
    LinkedFrame(RingView(n, k), RingView(n, RingKeys(i, ring')), [SmallBin(i)] + ring');
  }

  lemma RingDistinct(h: Held, i: nat, ring: seq<int>)
    requires RingHolds(h, i, ring)
    ensures Distinct(ring)
  {
  }

  lemma NarrowerRing(m: Words, i: nat, ring: seq<int>, x: int, a: int)
    requires Distinct(ring) && a in [SmallBin(i)] + Without(ring, x)
    ensures SameAt(RingView(m, RingKeys(i, ring)), RingView(m, RingKeys(i, Without(ring, x))), a)
  {
    WithoutFacts(ring, x);
  }

  // ---------------------------------------------------------------- small chunks, whole state

  lemma PutQuiet(m: Words, h: Held, i: nat, f: int, x: int)
    requires i < NSMALLBINS && x in h && !Large(h[x])
    requires f == SmallBin(i) || (f in h && !Large(h[f]))
    ensures SmallQuiet(m, RingPut(m, i, f, x), h)
  {
  }

  lemma DropQuiet(m: Words, h: Held, i: nat, x: int)
    requires i < NSMALLBINS
    requires var f := W(m, x + FD); f == SmallBin(i) || (f in h && !Large(h[f]))
    requires var r := W(m, x + BK); r == SmallBin(i) || (r in h && !Large(h[r]))
    ensures SmallQuiet(m, RingDrop(m, x), h)
  {
  }

  /** The words of one small bin are none of another. */
  lemma OtherRing(m: Words, h: Held, i: nat, ring: seq<int>, w: int, j: nat, ring': seq<int>, v: int)
    requires HeldOk(h) && i < NSMALLBINS && j < NSMALLBINS && i != j
    requires RingOf(m, h, j, ring') && RingHolds(h, i, ring) && w in RingKeys(i, ring)
    ensures RingOf(m[w + FD := v], h, j, ring') && RingOf(m[w + BK := v], h, j, ring')
  {
    hide Linked, RingKeys, HeldOk, RingHolds;
    forall a | a in RingKeys(j, ring') ensures a + 16 <= w || w + 16 <= a {
      assert RingHolds(h, j, ring');
      KeysApart(h, i, ring, w, j, ring', a);
    }
    RingSame(m, h, m[w + FD := v], h, j, ring');
    RingSame(m, h, m[w + BK := v], h, j, ring');
  }

  lemma KeysApart(h: Held, i: nat, ring: seq<int>, w: int, j: nat, ring': seq<int>, a: int)
    requires HeldOk(h) && i < NSMALLBINS && j < NSMALLBINS && i != j
    requires RingHolds(h, j, ring') && RingHolds(h, i, ring) && w in RingKeys(i, ring) && a in RingKeys(j, ring')
    ensures a + 16 <= w || w + 16 <= a
  {
  }

  lemma OtherPut(m: Words, h: Held, i: nat, ring: seq<int>, f: int, x: int, j: nat, ring': seq<int>)
    requires HeldOk(h) && i < NSMALLBINS && j < NSMALLBINS && i != j
    requires RingOf(m, h, j, ring') && RingHolds(h, i, ring) && x in ring && f in RingKeys(i, ring)
    ensures RingOf(RingPut(m, i, f, x), h, j, ring')
  {
    hide RingOf, HeldOk, RingHolds, RingKeys;
    RingKeysHas(i, ring, SmallBin(i));
    RingKeysHas(i, ring, x);
    var m1 := m[SmallBin(i) + FD := x];
    var m2 := m1[f + BK := x];
    var m3 := m2[x + FD := f];
    OtherRing(m, h, i, ring, SmallBin(i), j, ring', x);
    OtherRing(m1, h, i, ring, f, j, ring', x);
    OtherRing(m2, h, i, ring, x, j, ring', f);
    OtherRing(m3, h, i, ring, x, j, ring', SmallBin(i));
  }

  lemma OtherDrop(m: Words, h: Held, i: nat, ring: seq<int>, x: int, j: nat, ring': seq<int>)
    requires HeldOk(h) && i < NSMALLBINS && j < NSMALLBINS && i != j
    requires RingOf(m, h, j, ring') && RingHolds(h, i, ring)
    requires W(m, x + FD) in RingKeys(i, ring) && W(m, x + BK) in RingKeys(i, ring)
    ensures RingOf(RingDrop(m, x), h, j, ring')
  {
    hide RingOf, HeldOk, RingHolds, RingKeys, W;
    var f, r := W(m, x + FD), W(m, x + BK);
    OtherRing(m, h, i, ring, f, j, ring', r);
    OtherRing(m[f + BK := r], h, i, ring, r, j, ring', f);
  }

  function SmallInserted(b: BinState, x: int, s: nat): BinState
    requires |b.rings| == NSMALLBINS && !Large(s)
  {
    var i := s / 8;
    b.(mem := RingPut(b.mem, i, First(i, b.rings[i]), x), smallmap := b.smallmap + {i},
       rings := b.rings[i := [x] + b.rings[i]], held := b.held[x := s])
  }

  /** Linking a small chunk in keeps the bins. */
  lemma SmallInsertedOk(b: BinState, x: int, s: nat)
    requires BinsOk(b) && Room(b.held, x, s) && !Large(s)
    ensures BinsOk(SmallInserted(b, x, s)) && Quiet(b.mem, SmallInserted(b, x, s).mem, b.held[x := s])
  {
    hide RingOf, HeldOk, Room, TreeOk, IndexOk, RingPut, W, First, SmallQuiet, Quiet;
    var i := s / 8;
    var n, g := RingPut(b.mem, i, First(i, b.rings[i]), x), b.held[x := s];
    RoomNew(b.held, x, s);
    RoomHeld(b.held, x, s);
    RingPutOk(b.mem, b.held, i, b.rings[i], x, s);
    SmallPutQuiet(b.mem, b.held, i, b.rings[i], x, s);
    SmallQuietIsQuiet(b.mem, n, g);
    forall j | 0 <= j < NSMALLBINS && j != i ensures RingOf(n, g, j, b.rings[j]) {
      SmallPutOther(b.mem, b.held, i, b.rings[i], x, s, j, b.rings[j]);
    }
    SmallGrownTrees(b, n, x, s);
  }

  lemma SmallPutQuiet(m: Words, h: Held, i: nat, ring: seq<int>, x: int, s: nat)
    requires i < NSMALLBINS && !Large(s) && RingOf(m, h, i, ring)
    ensures SmallQuiet(m, RingPut(m, i, First(i, ring), x), h[x := s])
  {
    hide Linked, SmallQuiet, RingPut;
    PutQuiet(m, h[x := s], i, First(i, ring), x);
  }

  lemma SmallPutOther(m: Words, h: Held, i: nat, ring: seq<int>, x: int, s: nat, j: nat, ring': seq<int>)
    requires HeldOk(h[x := s]) && i < NSMALLBINS && j < NSMALLBINS && i != j && x !in h && !Large(s) && i == s / 8
    requires RingOf(m, h, i, ring) && RingOf(m, h, j, ring')
    ensures RingOf(RingPut(m, i, First(i, ring), x), h[x := s], j, ring')
  {
    hide HeldOk, RingHolds, RingPut;
    PutHolds(h, x, s, i, ring);
    GrownRing(m, h, x, s, j, ring');
    if ring != [] {
      assert ring[0] in [x] + ring;
    }
    assert x in [x] + ring;
    OtherPut(m, h[x := s], i, [x] + ring, First(i, ring), x, j, ring');
  }

  lemma SmallGrownTrees(b: BinState, n: Words, x: int, s: nat)
    requires TreesOk(b) && HeldOk(b.held[x := s]) && x !in b.held && !Large(s) && SmallQuiet(b.mem, n, b.held[x := s])
    ensures TreesOk(b.(mem := n, held := b.held[x := s]))
  {
    hide HeldOk, TreeOk, SmallQuiet, W, BinOf;
    var g := b.held[x := s];
    assert IndexOk(b.mem, g);
    SmallQuietIndex(b.mem, n, g);
    forall i | 0 <= i < NTREEBINS ensures TreeOk(n, g, i, b.roots[i], b.trees[i]) {
      SmallGrownTree(b.mem, n, b.held, x, s, i, b.roots[i], b.trees[i]);
    }
  }

  lemma SmallGrownTree(m: Words, n: Words, h: Held, x: int, s: nat, i: nat, root: int, t: Tree)
    requires TreeOk(m, h, i, root, t) && HeldOk(h[x := s]) && x !in h && !Large(s) && SmallQuiet(m, n, h[x := s])
    ensures TreeOk(n, h[x := s], i, root, t)
  {
    hide HeldOk, IsTree, TreeHolds, SmallQuiet, RecordAt;
    OtherTreeOk(m, m, h, x, s, i, root, t);
    SmallQuietTree(m, n, h[x := s], h[x := s], i, root, t);
  }

  /** The state once small chunk x has been unlinked. */
  function SmallRemoved(b: BinState, x: int): BinState
    requires |b.rings| == NSMALLBINS && x in b.held && !Large(b.held[x])
  {
    var i := b.held[x] / 8;
    var last := |b.rings[i]| == 1;
    b.(mem := if last then b.mem else RingDrop(b.mem, x), smallmap := if last then b.smallmap - {i} else b.smallmap,
       rings := b.rings[i := Without(b.rings[i], x)], held := b.held - {x})
  }

  lemma SmallRemovedOk(b: BinState, x: int)
    requires BinsOk(b) && x in b.held && !Large(b.held[x])
    ensures BinsOk(SmallRemoved(b, x)) && Quiet(b.mem, SmallRemoved(b, x).mem, b.held)
  {
    hide RingOf, HeldOk, TreeOk, IndexOk, RingDrop, W, SmallQuiet, Quiet;
    var i := b.held[x] / 8;
    var n := SmallRemoved(b, x).mem;
    ShrunkHeld(b.held, x);
    SmallDropped(b.mem, b.held, i, b.rings[i], x);
    SmallQuietIsQuiet(b.mem, n, b.held);
    forall j | 0 <= j < NSMALLBINS && j != i ensures RingOf(n, b.held - {x}, j, b.rings[j]) {
      SmallDropOther(b.mem, b.held, i, b.rings[i], x, j, b.rings[j]);
    }
    SmallShrunkTrees(b, n, x);
  }

  lemma SmallDropped(m: Words, h: Held, i: nat, ring: seq<int>, x: int)
    requires HeldOk(h) && i < NSMALLBINS && RingOf(m, h, i, ring) && x in h && !Large(h[x]) && i == h[x] / 8
    ensures var n := if |ring| == 1 then m else RingDrop(m, x);
            SmallQuiet(m, n, h) && RingOf(n, h - {x}, i, Without(ring, x))
    ensures Without(ring, x) == [] <==> |ring| == 1
  {
    hide HeldOk, RingDrop, Linked, SmallQuiet, Without;
    assert x in ring;
    var j :| 0 <= j < |ring| && ring[j] == x;
    DropHolds(h, x, i, ring);
    WithoutLength(ring, x);
    if |ring| > 1 {
      DropIsQuiet(m, h, i, ring, j);
      RingDropOk(m, h, i, ring, j);
    } else {
      SmallQuietSelf(m, h);
    }
  }

  lemma DropIsQuiet(m: Words, h: Held, i: nat, ring: seq<int>, j: nat)
    requires HeldOk(h) && i < NSMALLBINS && RingOf(m, h, i, ring) && j < |ring|
    ensures SmallQuiet(m, RingDrop(m, ring[j]), h)
  {
    hide HeldOk, RingDrop, Linked, SmallQuiet;
    RingNeighbour(m, h, i, ring, j);
    DropQuiet(m, h, i, ring[j]);
  }

  lemma SmallQuietSelf(m: Words, h: Held)
    ensures SmallQuiet(m, m, h)
  {
  }

  lemma {:induction false} WithoutLength(s: seq<int>, x: int)
    requires x in s
    ensures |Without(s, x)| == |s| - 1
  {
    if s[0] != x {
      WithoutLength(s[1..], x);
    }
  }

  lemma SmallDropOther(m: Words, h: Held, i: nat, ring: seq<int>, x: int, j: nat, ring': seq<int>)
    requires HeldOk(h) && i < NSMALLBINS && j < NSMALLBINS && i != j && x in h && !Large(h[x]) && i == h[x] / 8
    requires RingOf(m, h, i, ring) && RingOf(m, h, j, ring')
    ensures RingOf(if |ring| == 1 then m else RingDrop(m, x), h - {x}, j, ring')
  {
    hide HeldOk, RingDrop, Linked;
    assert x in ring;
    var c :| 0 <= c < |ring| && ring[c] == x;
    RingNeighbour(m, h, i, ring, c);
    OtherDrop(m, h, i, ring, x, j, ring');
    ShrunkRing(if |ring| == 1 then m else RingDrop(m, x), h, x, j, ring');
  }

  lemma SmallShrunkTrees(b: BinState, n: Words, x: int)
    requires TreesOk(b) && HeldOk(b.held) && x in b.held && !Large(b.held[x]) && SmallQuiet(b.mem, n, b.held)
    ensures TreesOk(b.(mem := n, held := b.held - {x}))
  {
    hide HeldOk, TreeOk, SmallQuiet, W, BinOf;
    SmallQuietIndex(b.mem, n, b.held);
    forall i | 0 <= i < NTREEBINS ensures TreeOk(n, b.held - {x}, i, b.roots[i], b.trees[i]) {
      SmallShrunkTree(b.mem, n, b.held, x, i, b.roots[i], b.trees[i]);
    }
  }

  lemma SmallShrunkTree(m: Words, n: Words, h: Held, x: int, i: nat, root: int, t: Tree)
    requires TreeOk(m, h, i, root, t) && HeldOk(h) && x in h && !Large(h[x]) && SmallQuiet(m, n, h)
    ensures TreeOk(n, h - {x}, i, root, t)
  {
    hide HeldOk, IsTree, TreeHolds, SmallQuiet;
    ShrunkTreeHolds(h, x, i, t);
    SmallQuietTree(m, n, h, h - {x}, i, root, t);
  }
}

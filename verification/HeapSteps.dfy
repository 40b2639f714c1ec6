/** The boundary-tag rewritings of malloc, free and realloc, each keeping the heap invariant. */
module HeapSteps {
  import opened TreeIndex
  import opened HeapWords
  import opened Bins
  import opened HeapLayout
  import opened HeapTags
  import opened HeapState

  function SetP(w: int): int { w - w % 2 + 1 }
  function ClearP(w: int): int { w - w % 2 }

  // ---------------------------------------------------------------- the chunk after

  /** The chunk after one that becomes used. */
  lemma SetAfter(m: Words, l: Layout, n: Words, k: Layout, e: int)
    requires Is(l, e, Used) && TagOk(m, l, e) && InRange(l) && e in k && k[e] == l[e] && Next(l, e) in k
    requires Head(n, e) == SetP(Head(m, e)) && Head(n, Next(l, e)) == Head(m, Next(l, e))
    ensures TagOk(n, k, e) && Pinuse(n, e)
  {
    hide W;
    assert ChunkOk(e, l[e].size);
  }

  /** The chunk after one that becomes free. */
  lemma ClearAfter(m: Words, l: Layout, n: Words, k: Layout, a: int, e: int)
    requires Is(l, e, Used) && TagOk(m, l, e) && InRange(l) && e in k && k[e] == l[e] && Next(l, e) in k
    requires Head(n, e) == ClearP(Head(m, e)) && Head(n, Next(l, e)) == Head(m, Next(l, e))
    requires Is(k, a, Free) && Next(k, a) == e && W(n, e) == e - a
    ensures TagOk(n, k, e) && !Pinuse(n, e)
  {
    hide W;
    assert ChunkOk(e, l[e].size);
  }

  /** A chunk whose words and surroundings stay. */
  lemma SameTag(m: Words, l: Layout, n: Words, k: Layout, e: int)
    requires InRange(l) && e in l && TagOk(m, l, e) && e in k && k[e] == l[e] && Head(n, e) == Head(m, e)
    requires l[e].kind == Used ==> Pinuse(m, e)
    requires l[e].kind != Tail ==>
               var y := Next(l, e);
               y in l && y in k && k[y] == l[y] && Head(n, y) == Head(m, y) && W(n, y) == W(m, y)
    ensures TagOk(n, k, e)
  {
    hide W;
    assert ChunkOk(e, l[e].size);
  }

  ghost predicate Tiled(l: Layout) { Chunks(l) && Chained(l) }

  /** Free chunk a and the chunk in use after it. */
  lemma FreeFacts(h: Heap, limbo: set<int>, a: int)
    requires HeapOk(h, limbo) && Is(h.lay, a, Free)
    ensures var s, e := SizeAt(h.lay, a), Next(h.lay, a);
            && s >= MIN_CHUNK_SIZE && Head(h.Mem(), a) == s + PINUSE && Is(h.lay, e, Used) && Aligned(s)
            && a >= STATE_END
            && Pinuse(h.Mem(), a) && !Pinuse(h.Mem(), e) && TagOk(h.Mem(), h.lay, e) && Tiled(h.lay)
            && Next(h.lay, e) in h.lay && Next(h.lay, e) >= e + MIN_CHUNK_SIZE
            && a + s < ADDRESS_END
  {
    hide BinsOk, Segments, W, NoOverlap, Places, TagOk, Aligned;
    var e := Next(h.lay, a);
    assert TagOk(h.Mem(), h.lay, a);
    FreeWords(h.Mem(), h.lay, a);
    assert TagOk(h.Mem(), h.lay, e);
    assert ChunkOk(a, h.lay[a].size) && ChunkOk(e, h.lay[e].size);
    UsedSize(h.Mem(), h.lay, e);
    AlignedOdd(h.lay[a].size);
  }

  lemma FreeWords(m: Words, l: Layout, a: int)
    requires Is(l, a, Free) && TagOk(m, l, a)
    ensures l[a].size >= MIN_CHUNK_SIZE && Head(m, a) == l[a].size + PINUSE && Is(l, Next(l, a), Used)
            && !Pinuse(m, Next(l, a))
    ensures W(m, Next(l, a)) == l[a].size
  {
    hide W;
  }

  lemma UsedSize(m: Words, l: Layout, a: int)
    requires Is(l, a, Used) && TagOk(m, l, a)
    ensures l[a].size >= MIN_CHUNK_SIZE
  {
  }

  /** No chunk held in a bin lies in a rewritten region. */
  lemma HeldClear(h: Heap, limbo: set<int>, a: int, e: int)
    requires HeapOk(h, limbo) && a in h.lay && e in h.lay && a < e && e !in h.bins.held
    requires forall x :: x in h.lay && a <= x < e ==> x !in h.bins.held
    ensures forall c :: c in h.bins.held ==> c + h.bins.held[c] <= a || e + HEAD < c + HEAD
  {
    hide BinsOk, Segments, TagsOk, Chained, InRange, DvPlace, FreePlaces, TopPlace, LimboPlaces;
    forall c | c in h.bins.held ensures c + h.bins.held[c] <= a || e + HEAD < c + HEAD {
      assert c in h.lay;
    }
  }

  lemma NotHeld(h: Heap, limbo: set<int>, x: int)
    requires HeapOk(h, limbo) && (x in limbo || !Is(h.lay, x, Free))
    ensures x !in h.bins.held
  {
    hide BinsOk, Tiling, TagsOk;
  }

  // ---------------------------------------------------------------- using a free chunk

  /** set_inuse_and_pinuse on a free chunk. */
  function WholeMem(m: Words, a: int, s: nat): Words {
    var m1 := m[a + HEAD := s + CINUSE + PINUSE];
    m1[a + s + HEAD := SetP(W(m1, a + s + HEAD))]
  }

  function UsedWhole(h: Heap, a: int): Heap {
    h.(bins := h.bins.(mem := WholeMem(h.Mem(), a, SizeAt(h.lay, a))), lay := h.lay[a := Tag(SizeAt(h.lay, a), Used)])
  }

  lemma WholeWords(m: Words, a: int, s: nat)
    requires s > 0
    ensures var n := WholeMem(m, a, s);
            && Head(n, a) == s + CINUSE + PINUSE && Head(n, a + s) == SetP(Head(m, a + s))
            && SameOutside(m, n, a + HEAD, a + s + HEAD)
  {
  }

  lemma WholeTags(h: Heap, limbo: set<int>, a: int)
    requires HeapOk(h, limbo) && Is(h.lay, a, Free)
    ensures TagsOk(UsedWhole(h, a).Mem(), UsedWhole(h, a).lay)
  {
    hide BinsOk, Segments, W, Places, TagOk, WholeMem, NoOverlap, Aligned;
    FreeFacts(h, limbo, a);
    var m, l, n, k := h.Mem(), h.lay, UsedWhole(h, a).Mem(), UsedWhole(h, a).lay;
    var s, e := l[a].size, Next(l, a);
    WholeWords(m, a, s);
    SetAfter(m, l, n, k, e);
    UsedTag(n, k, a);
    forall x | x in k && a <= x <= e ensures TagOk(n, k, x) {
      Between(l, a, x);
    }
    AlignedOdd(s);
    PatchTags(m, l, n, k, a, e, e + HEAD);
  }

  /** Only its own start lies inside a chunk. */
  lemma Between(l: Layout, a: int, x: int)
    requires NoOverlap(l) && a in l && x in l && a <= x <= Next(l, a)
    ensures x == a || x == Next(l, a)
  {
  }

  lemma AlignedOdd(s: int)
    requires Aligned(s)
    ensures (s + CINUSE + PINUSE) % 2 == 1 && (s + PINUSE) % 2 == 1 && (s + CINUSE) % 2 == 0
  {
    var k := s / 8;
    assert s == 8 * k;
    assert s + PINUSE == 2 * (4 * k) + 1 && s + CINUSE == 2 * (4 * k + 1);
  }

  lemma UsedTag(n: Words, k: Layout, a: int)
    requires Is(k, a, Used) && k[a].size >= MIN_CHUNK_SIZE && Head(n, a) == k[a].size + CINUSE + PINUSE
             && Pinuse(n, Next(k, a))
    ensures TagOk(n, k, a)
  {
    hide W;
  }

  lemma WholePlaces(h: Heap, limbo: set<int>, a: int)
    requires Places(h, limbo) && a in limbo && a in h.lay
    ensures Places(UsedWhole(h, a), limbo - {a})
  {
    hide WholeMem;
    assert Is(h.lay, a, Free);
    var g, rest := UsedWhole(h, a), limbo - {a};
    forall x | Is(g.lay, x, Top) ensures x == h.top {
      assert Is(h.lay, x, Top);
    }
    forall x | Is(g.lay, x, Free) ensures x in h.bins.held || x == h.dv || x in rest {
      assert Is(h.lay, x, Free);
    }
  }

  /** A free chunk is handed out whole. */
  lemma UsedWholeOk(h: Heap, limbo: set<int>, a: int, live: set<int>)
    requires HeapOk(h, limbo) && a in limbo && Is(h.lay, a, Free)
    requires forall p :: p in live ==> Is(h.lay, p, Used)
    ensures HeapOk(UsedWhole(h, a), limbo - {a})
    ensures Keeps(h.Mem(), h.lay, UsedWhole(h, a).Mem(), UsedWhole(h, a).lay, live)
  {
    hide BinsOk, Tiling, W, Places, TagsOk, WholeMem, Keeps, SameOutside, Tiled, TagOk, Chunks, Chained, NoOverlap,
      InRange;
    var s, e, n := SizeAt(h.lay, a), Next(h.lay, a), UsedWhole(h, a).Mem();
    FreeFacts(h, limbo, a);
    WholeTags(h, limbo, a);
    WholePlaces(h, limbo, a);
    RetagTiling(h.lay, h.segs, a, Used);
    WholeWords(h.Mem(), a, s);
    RegionOne(h, limbo, a);
    BinsPatch(h.bins, n, a, e + HEAD);
    TilingParts(h.lay, h.segs);
    RegionKeeps(h, n, UsedWhole(h, a).lay, a, e, live);
  }

  lemma TilingParts(l: Layout, segs: seq<Segment>)
    requires Tiling(l, segs)
    ensures Chunks(l) && Chained(l) && NoOverlap(l) && InRange(l)
  {
  }

  /** Region of a single chunk that is in no bin. */
  lemma RegionOne(h: Heap, limbo: set<int>, a: int)
    requires HeapOk(h, limbo) && a in limbo && Is(h.lay, a, Free)
    ensures var e := Next(h.lay, a);
            forall c :: c in h.bins.held ==> c + h.bins.held[c] <= a || e + HEAD < c + HEAD
  {
    hide BinsOk, W, Places, TagsOk, Segments, Chained, InRange;
    var e := Next(h.lay, a);
    FreeFacts(h, limbo, a);
    NotHeld(h, limbo, a);
    NotHeld(h, limbo, e);
    HeldClear(h, limbo, a, e);
  }

  lemma RegionKeeps(h: Heap, n: Words, k: Layout, a: int, e: int, live: set<int>)
    requires NoOverlap(h.lay) && a in h.lay && h.lay[a].kind != Used && e == Next(h.lay, a) && e in h.lay && a < e
    requires SameOutside(h.Mem(), n, a + HEAD, e + HEAD) && SameBeyond(h.lay, k, a, e) && !Is(k, a, Tail)
    requires forall p :: p in live ==> Is(h.lay, p, Used)
    ensures Keeps(h.Mem(), h.lay, n, k, live)
  {
    hide W, SameOutside, SameBeyond, Keeps;
    forall p | p in live ensures !(a <= p < e) {
      Between2(h.lay, a, p);
    }
    PatchKeeps(h.Mem(), h.lay, n, k, a, e, live);
  }

  lemma Between2(l: Layout, a: int, p: int)
    requires NoOverlap(l) && a in l && p in l && p != a
    ensures !(a <= p < Next(l, a))
  {
  }

  // ---------------------------------------------------------------- using part of a free chunk

  /** The stores that split free chunk a of size s after nb bytes. */
  function SplitMem(m: Words, a: int, s: nat, nb: nat): Words {
    m[a + HEAD := nb + CINUSE + PINUSE][a + nb + HEAD := s - nb + PINUSE][a + s := s - nb]
  }

  function UsedPart(h: Heap, a: int, nb: nat): Heap {
    h.(bins := h.bins.(mem := SplitMem(h.Mem(), a, SizeAt(h.lay, a), nb)), lay := Cut(h.lay, a, nb, Used, Free))
  }

  /** A request that leaves a chunk of its own. */
  predicate Splits(s: nat, nb: nat) {
    MIN_CHUNK_SIZE <= nb && nb + MIN_CHUNK_SIZE <= s && Aligned(nb)
  }

  lemma SplitWords(m: Words, a: int, s: nat, nb: nat)
    requires Splits(s, nb)
    ensures var n := SplitMem(m, a, s, nb);
            && Head(n, a) == nb + CINUSE + PINUSE && Head(n, a + nb) == s - nb + PINUSE && W(n, a + s) == s - nb
            && Head(n, a + s) == Head(m, a + s) && SameOutside(m, n, a + HEAD, a + s)
  {
  }

  lemma CutKeys(l: Layout, a: int, n: nat, j: Kind, k: Kind, x: int)
    requires NoOverlap(l) && a in l && 0 < n < l[a].size
    ensures var f := Cut(l, a, n, j, k);
            && a in f && f[a] == Tag(n, j) && a + n in f && f[a + n] == Tag(l[a].size - n, k)
            && (x in f <==> x in l || x == a + n) && (x in l && x != a && x != a + n ==> f[x] == l[x])
            && (x in f && a <= x <= Next(l, a) ==> x == a || x == a + n || x == Next(l, a))
            && SameBeyond(l, f, a, Next(l, a)) && a + n !in l
  {
  }

  lemma SplitTags(h: Heap, limbo: set<int>, a: int, nb: nat)
    requires HeapOk(h, limbo) && Is(h.lay, a, Free) && Splits(SizeAt(h.lay, a), nb)
    ensures TagsOk(UsedPart(h, a, nb).Mem(), UsedPart(h, a, nb).lay)
  {
    hide BinsOk, Segments, W, Places, TagOk, SplitMem, NoOverlap, Aligned, Cut;
    FreeFacts(h, limbo, a);
    var m, l, n, k := h.Mem(), h.lay, UsedPart(h, a, nb).Mem(), UsedPart(h, a, nb).lay;
    var s, e, r := l[a].size, Next(l, a), a + nb;
    SplitWords(m, a, s, nb);
    CutKeys(l, a, nb, Used, Free, e);
    CutKeys(l, a, nb, Used, Free, Next(l, e));
    AlignedDiff(nb, s);
    AlignedOdd(s - nb);
    UsedTag(n, k, a);
    FreeTag(n, k, r);
    ShiftAfter(m, l, n, k, r, e);
    AlignedOdd(nb);
    AlignedOdd(s);
    forall x | x in k && a <= x <= e ensures TagOk(n, k, x) {
      CutKeys(l, a, nb, Used, Free, x);
    }
    PatchTags(m, l, n, k, a, e, e);
  }

  lemma FreeTag(n: Words, k: Layout, a: int)
    requires Is(k, a, Free) && k[a].size >= MIN_CHUNK_SIZE && Head(n, a) == k[a].size + PINUSE
             && W(n, a + k[a].size) == k[a].size
    requires Is(k, Next(k, a), Used) && !Pinuse(n, Next(k, a))
    ensures TagOk(n, k, a)
  {
    hide W;
  }

  /** The chunk after a free one, when the free chunk before it is now another. */
  lemma ShiftAfter(m: Words, l: Layout, n: Words, k: Layout, a: int, e: int)
    requires Is(l, e, Used) && TagOk(m, l, e) && InRange(l) && e in k && k[e] == l[e] && Next(l, e) in k
             && !Pinuse(m, e)
    requires Head(n, e) == Head(m, e) && Head(n, Next(l, e)) == Head(m, Next(l, e))
    requires Is(k, a, Free) && Next(k, a) == e && W(n, e) == e - a
    ensures TagOk(n, k, e) && !Pinuse(n, e)
  {
    hide W;
    assert ChunkOk(e, l[e].size);
  }

  lemma SplitPlaces(h: Heap, limbo: set<int>, a: int, nb: nat)
    requires Places(h, limbo) && a in limbo && NoOverlap(h.lay) && a in h.lay && 0 < nb < SizeAt(h.lay, a)
    ensures Places(UsedPart(h, a, nb), limbo - {a} + {a + nb})
  {
    hide SplitMem, Cut;
    assert Is(h.lay, a, Free);
    var g, rest := UsedPart(h, a, nb), limbo - {a} + {a + nb};
    forall x ensures (Is(g.lay, x, Top) <==> Is(h.lay, x, Top))
      && (x in h.lay && x != a ==> x in g.lay && g.lay[x] == h.lay[x])
      && (Is(g.lay, x, Free) <==> (Is(h.lay, x, Free) && x != a) || x == a + nb) && a + nb !in h.lay
    {
      CutKeys(h.lay, a, nb, Used, Free, x);
    }
  }

  /** Part of a free chunk is handed out; the rest stays free. */
  lemma UsedPartOk(h: Heap, limbo: set<int>, a: int, nb: nat, live: set<int>)
    requires HeapOk(h, limbo) && a in limbo && Is(h.lay, a, Free) && Splits(SizeAt(h.lay, a), nb)
    requires forall p :: p in live ==> Is(h.lay, p, Used)
    ensures HeapOk(UsedPart(h, a, nb), limbo - {a} + {a + nb})
    ensures Keeps(h.Mem(), h.lay, UsedPart(h, a, nb).Mem(), UsedPart(h, a, nb).lay, live)
  {
    hide BinsOk, Tiling, W, Places, TagsOk, SplitMem, Keeps, Aligned, Cut, SameBeyond, Tiled, TagOk, SameOutside,
      Chunks, Chained, NoOverlap, InRange;
    var s, e, n := SizeAt(h.lay, a), Next(h.lay, a), UsedPart(h, a, nb).Mem();
    FreeFacts(h, limbo, a);
    TilingParts(h.lay, h.segs);
    SplitTags(h, limbo, a, nb);
    SplitPlaces(h, limbo, a, nb);
    CutTiling(h.lay, h.segs, a, nb, Used, Free);
    SplitWords(h.Mem(), a, s, nb);
    RegionOne(h, limbo, a);
    SameWider(h.Mem(), n, a + HEAD, e, e + HEAD);
    BinsPatch(h.bins, n, a, e + HEAD);
    CutKeys(h.lay, a, nb, Used, Free, e);
    RegionKeeps(h, n, UsedPart(h, a, nb).lay, a, e, live);
  }

  // ---------------------------------------------------------------- using part of the top

  function TopSplitMem(m: Words, a: int, s: nat, nb: nat): Words {
    m[a + nb + HEAD := s - nb + PINUSE][a + HEAD := nb + CINUSE + PINUSE]
  }

  function UsedTop(h: Heap, nb: nat): Heap {
    h.(bins := h.bins.(mem := TopSplitMem(h.Mem(), h.top, h.topsize, nb)), lay := Cut(h.lay, h.top, nb, Used, Top),
       top := h.top + nb, topsize := Minus(h.topsize, nb))
  }

  lemma TopFacts(h: Heap, limbo: set<int>)
    requires HeapOk(h, limbo)
    ensures var a, s, e := h.top, h.topsize, h.top + h.topsize;
            && Is(h.lay, a, Top) && Next(h.lay, a) == e && Is(h.lay, e, Tail) && Next(h.lay, e) == e + TOP_FOOT_SIZE
            && Head(h.Mem(), a) == s + PINUSE
            && Aligned(s) && a >= STATE_END && s >= 8 && Pinuse(h.Mem(), a) && !Pinuse(h.Mem(), e)
            && TagOk(h.Mem(), h.lay, e)
            && Tiled(h.lay) && Next(h.lay, e) > e && Head(h.Mem(), e) == TOP_FOOT_SIZE
  {
    hide BinsOk, Segments, W, NoOverlap, HeldPlaces, FreePlaces, LimboPlaces, DvPlace, Aligned, TagOk;
    var a, e := h.top, h.top + h.topsize;
    assert TagOk(h.Mem(), h.lay, a) && TagOk(h.Mem(), h.lay, e);
    TopWords(h.Mem(), h.lay, a);
    assert ChunkOk(a, SizeAt(h.lay, a)) && ChunkOk(e, SizeAt(h.lay, e));
    SizeAtLeast(h.lay, a);
    AlignedOdd(h.topsize);
  }

  lemma TopWords(m: Words, l: Layout, a: int)
    requires Is(l, a, Top) && TagOk(m, l, a)
    ensures Head(m, a) == l[a].size + PINUSE && Is(l, Next(l, a), Tail) && l[Next(l, a)].size == TOP_FOOT_SIZE
    ensures Head(m, Next(l, a)) == TOP_FOOT_SIZE && !Pinuse(m, Next(l, a))
  {
    hide W;
  }

  lemma TopSplitWords(m: Words, a: int, s: nat, nb: nat)
    requires MIN_CHUNK_SIZE <= nb && nb + 8 <= s
    ensures var n := TopSplitMem(m, a, s, nb);
            && Head(n, a) == nb + CINUSE + PINUSE && Head(n, a + nb) == s - nb + PINUSE
            && Head(n, a + s) == Head(m, a + s) && SameOutside(m, n, a + HEAD, a + s)
  {
  }

  lemma TopTag(n: Words, k: Layout, a: int)
    requires Is(k, a, Top) && Head(n, a) == k[a].size + PINUSE
    requires Next(k, a) in k && k[Next(k, a)] == Tag(TOP_FOOT_SIZE, Tail) && Head(n, Next(k, a)) == TOP_FOOT_SIZE
    ensures TagOk(n, k, a)
  {
    hide W;
  }

  /** An aligned request below the size of the top leaves at least one word there. */
  lemma AlignedBelow(nb: nat, s: nat)
    requires Aligned(nb) && Aligned(s) && nb < s
    ensures nb + 8 <= s
  {
  }

  lemma TopSplitTags(h: Heap, limbo: set<int>, nb: nat)
    requires HeapOk(h, limbo) && MIN_CHUNK_SIZE <= nb < h.topsize && Aligned(nb) && Is(h.lay, h.top, Top)
             && SizeAt(h.lay, h.top) == h.topsize
    ensures TagsOk(UsedTop(h, nb).Mem(), UsedTop(h, nb).lay)
  {
    hide BinsOk, Segments, W, Places, TagOk, TopSplitMem, NoOverlap, Aligned, Cut;
    TopFacts(h, limbo);
    var m, l, n, k := h.Mem(), h.lay, UsedTop(h, nb).Mem(), UsedTop(h, nb).lay;
    var a, s, e, r := h.top, h.topsize, Next(l, h.top), h.top + nb;
    AlignedBelow(nb, s);
    TopSplitWords(m, a, s, nb);
    CutKeys(l, a, nb, Used, Top, e);
    AlignedDiff(nb, s);
    AlignedOdd(s - nb);
    AlignedOdd(nb);
    AlignedOdd(s);
    UsedTag(n, k, a);
    TopTag(n, k, r);
    SameTag(m, l, n, k, e);
    forall x | x in k && a <= x <= e ensures TagOk(n, k, x) {
      CutKeys(l, a, nb, Used, Top, x);
    }
    PatchTags(m, l, n, k, a, e, e);
  }

  lemma TopSplitPlaces(h: Heap, limbo: set<int>, nb: nat)
    requires Places(h, limbo) && NoOverlap(h.lay) && h.top in h.lay && 0 < nb < h.topsize
             && SizeAt(h.lay, h.top) == h.topsize
    ensures Places(UsedTop(h, nb), limbo)
  {
    hide TopSplitMem, Cut;
    var g := UsedTop(h, nb);
    forall x ensures (Is(g.lay, x, Free) <==> Is(h.lay, x, Free))
      && (x in h.lay && x != h.top ==> x in g.lay && g.lay[x] == h.lay[x])
      && (Is(g.lay, x, Top) <==> x == h.top + nb)
    {
      CutKeys(h.lay, h.top, nb, Used, Top, x);
      assert Is(h.lay, x, Top) ==> x == h.top;
    }
    CutKeys(h.lay, h.top, nb, Used, Top, h.top);
  }

  lemma TopRegion(h: Heap, limbo: set<int>)
    requires HeapOk(h, limbo)
    ensures var a, e := h.top, h.top + h.topsize;
            forall c :: c in h.bins.held ==> c + h.bins.held[c] <= a || e + HEAD < c + HEAD
  {
    hide BinsOk, W, Places, TagsOk, Segments, Chained, InRange;
    var a, e := h.top, h.top + h.topsize;
    TopFacts(h, limbo);
    NotHeld(h, limbo, a);
    NotHeld(h, limbo, e);
    HeldClear(h, limbo, a, e);
  }

  /** Part of the top chunk is handed out. */
  lemma UsedTopOk(h: Heap, limbo: set<int>, nb: nat, live: set<int>)
    requires HeapOk(h, limbo) && MIN_CHUNK_SIZE <= nb < h.topsize && Aligned(nb)
    requires forall p :: p in live ==> Is(h.lay, p, Used)
    ensures Is(h.lay, h.top, Top) && SizeAt(h.lay, h.top) == h.topsize && HeapOk(UsedTop(h, nb), limbo)
    ensures Keeps(h.Mem(), h.lay, UsedTop(h, nb).Mem(), UsedTop(h, nb).lay, live)
  {
    hide BinsOk, Tiling, W, Places, TagsOk, TopSplitMem, Keeps, Aligned, Cut, SameBeyond, Tiled, TagOk, SameOutside,
      Chunks, Chained, NoOverlap, InRange;
    TopFacts(h, limbo);
    var a, s, e, n := h.top, h.topsize, Next(h.lay, h.top), UsedTop(h, nb).Mem();
    TilingParts(h.lay, h.segs);
    TopSplitTags(h, limbo, nb);
    TopSplitPlaces(h, limbo, nb);
    CutTiling(h.lay, h.segs, a, nb, Used, Top);
    AlignedBelow(nb, s);
    TopSplitWords(h.Mem(), a, s, nb);
    TopRegion(h, limbo);
    SameWider(h.Mem(), n, a + HEAD, e, e + HEAD);
    BinsPatch(h.bins, n, a, e + HEAD);
    CutKeys(h.lay, a, nb, Used, Top, e);
    RegionKeeps(h, n, UsedTop(h, nb).lay, a, e, live);
  }

  // ---------------------------------------------------------------- freeing

  /** The chunks from a up to e are in nobody's hands but the operation's: free chunks in limbo
      and the chunk p being freed; the chunk before a is in use. */
  ghost predicate Region(h: Heap, limbo: set<int>, a: int, e: int, p: int) {
    && a in h.lay && e in h.lay && a <= p < e && Is(h.lay, p, Used) && Pinuse(h.Mem(), a) && a >= STATE_END
    && (forall x :: x in h.lay && a <= x < e ==> x == p || x in limbo)
    && (exists i :: 0 <= i < |h.segs| && h.segs[i].Holds(a) && e < h.segs[i].End())
  }

  /** A region becomes one free chunk. */
  function Freed(h: Heap, n: Words, a: int, e: int): Heap {
    h.(bins := h.bins.(mem := n), lay := Fuse(h.lay, a, e, Free))
  }

  /** The words of a freed region: head, foot, and the PINUSE bit after it. */
  ghost predicate FreedWords(m: Words, n: Words, a: int, e: int) {
    && Head(n, a) == e - a + PINUSE && W(n, e) == e - a && Head(n, e) == ClearP(Head(m, e))
    && SameOutside(m, n, a + HEAD, e + HEAD)
  }

  lemma FuseBeyond(l: Layout, a: int, e: int, k: Kind)
    requires a < e
    ensures SameBeyond(l, Fuse(l, a, e, k), a, e) && a in Fuse(l, a, e, k) && Fuse(l, a, e, k)[a] == Tag(e - a, k)
    ensures forall x :: x in Fuse(l, a, e, k) && a <= x < e ==> x == a
    ensures e in l ==> e in Fuse(l, a, e, k) && Fuse(l, a, e, k)[e] == l[e]
  {
    FuseKeys(l, a, e, k);
  }

  lemma UsedFacts(h: Heap, limbo: set<int>, e: int)
    requires HeapOk(h, limbo) && Is(h.lay, e, Used)
    ensures TagOk(h.Mem(), h.lay, e) && Tiled(h.lay) && Next(h.lay, e) in h.lay && Next(h.lay, e) >= e + MIN_CHUNK_SIZE
    ensures Aligned(e) && Aligned(SizeAt(h.lay, e)) && e >= STATE_END && SizeAt(h.lay, e) >= MIN_CHUNK_SIZE
  {
    hide BinsOk, Segments, W, NoOverlap, Places;
    assert TagOk(h.Mem(), h.lay, e);
    assert ChunkOk(e, SizeAt(h.lay, e));
  }

  lemma RegionSize(h: Heap, limbo: set<int>, a: int, e: int, p: int)
    requires HeapOk(h, limbo) && Region(h, limbo, a, e, p)
    ensures e - a >= MIN_CHUNK_SIZE && Aligned(e - a) && h.lay[a].kind != Tail && Aligned(a)
  {
    hide BinsOk, Segments, W, Places, TagOk, Pinuse;
    assert ChunkOk(a, SizeAt(h.lay, a)) && ChunkOk(e, SizeAt(h.lay, e));
    AlignedDiff(a, e);
    UsedFacts(h, limbo, p);
    RegionStart(h, limbo, a, p);
  }

  lemma RegionStart(h: Heap, limbo: set<int>, a: int, p: int)
    requires HeapOk(h, limbo) && a in h.lay && (a == p || a in limbo) && Is(h.lay, p, Used)
    ensures h.lay[a].kind != Tail
  {
    hide BinsOk, Tiling, TagsOk;
  }

  lemma FreedTags(h: Heap, limbo: set<int>, n: Words, a: int, e: int, p: int)
    requires HeapOk(h, limbo) && Region(h, limbo, a, e, p) && Is(h.lay, e, Used) && FreedWords(h.Mem(), n, a, e)
    ensures TagsOk(n, Fuse(h.lay, a, e, Free))
  {
    hide BinsOk, Segments, W, Places, TagOk, NoOverlap, Aligned, Fuse;
    var m, l, k := h.Mem(), h.lay, Fuse(h.lay, a, e, Free);
    RegionSize(h, limbo, a, e, p);
    UsedFacts(h, limbo, e);
    FuseBeyond(l, a, e, Free);
    ClearAfter(m, l, n, k, a, e);
    FreeTag(n, k, a);
    AlignedOdd(e - a);
    PatchTags(m, l, n, k, a, e, e + HEAD);
  }

  lemma FreedPlaces(h: Heap, limbo: set<int>, n: Words, a: int, e: int, p: int)
    requires Places(h, limbo) && Region(h, limbo, a, e, p)
    ensures Places(Freed(h, n, a, e), (set x | x in limbo && !(a <= x < e)) + {a})
  {
    hide Fuse;
    FuseKeys(h.lay, a, e, Free);
    var g, rest := Freed(h, n, a, e), (set x | x in limbo && !(a <= x < e)) + {a};
    forall x | Is(g.lay, x, Top) ensures x == h.top {
      assert Is(h.lay, x, Top);
    }
    forall x | Is(g.lay, x, Free) ensures x in h.bins.held || x == h.dv || x in rest {
      assert x != a ==> Is(h.lay, x, Free);
    }
    assert !(a <= h.top < e);
    assert h.dvsize != 0 ==> !(a <= h.dv < e);
  }

  lemma RegionHeld(h: Heap, limbo: set<int>, a: int, e: int, p: int)
    requires HeapOk(h, limbo) && Region(h, limbo, a, e, p) && !Is(h.lay, e, Free)
    ensures forall c :: c in h.bins.held ==> c + h.bins.held[c] <= a || e + HEAD < c + HEAD
  {
    hide BinsOk, W, Places, TagsOk, Segments, Chained, InRange, Pinuse;
    forall x | x in h.lay && a <= x < e ensures x !in h.bins.held {
      NotHeld(h, limbo, x);
    }
    NotHeld(h, limbo, e);
    HeldClear(h, limbo, a, e);
  }

  /** The rest of a region is in limbo no more; its blocks were p at most. */
  lemma FreedOk(h: Heap, limbo: set<int>, n: Words, a: int, e: int, p: int, live: set<int>)
    requires HeapOk(h, limbo) && Region(h, limbo, a, e, p) && Is(h.lay, e, Used) && FreedWords(h.Mem(), n, a, e)
    requires forall q :: q in live ==> Is(h.lay, q, Used) && q != p
    ensures HeapOk(Freed(h, n, a, e), (set x | x in limbo && !(a <= x < e)) + {a})
    ensures Keeps(h.Mem(), h.lay, n, Fuse(h.lay, a, e, Free), live)
  {
    hide BinsOk, Tiling, W, Places, TagsOk, Keeps, Aligned, Fuse, SameBeyond, Pinuse, TagOk, SameOutside, Chunks,
      Chained, NoOverlap, InRange,
      Region;
    var k := Fuse(h.lay, a, e, Free);
    TilingParts(h.lay, h.segs);
    FreedTags(h, limbo, n, a, e, p);
    FreedPlaces(h, limbo, n, a, e, p);
    var i := RegionParts(h, limbo, a, e, p);
    FuseTiling(h.lay, h.segs, a, e, Free, i);
    RegionHeld(h, limbo, a, e, p);
    BinsPatch(h.bins, n, a, e + HEAD);
    FuseBeyond(h.lay, a, e, Free);
    forall q | q in live ensures Is(h.lay, q, Used) && !(a <= q < e) {
      RegionUsed(h, limbo, a, e, p, q);
    }
    PatchKeeps(h.Mem(), h.lay, n, k, a, e, live);
  }

  lemma RegionParts(h: Heap, limbo: set<int>, a: int, e: int, p: int) returns (i: nat)
    requires Region(h, limbo, a, e, p)
    ensures a in h.lay && e in h.lay && a < e && a >= STATE_END
    ensures i < |h.segs| && h.segs[i].Holds(a) && e < h.segs[i].End()
  {
    i :| 0 <= i < |h.segs| && h.segs[i].Holds(a) && e < h.segs[i].End();
  }

  lemma RegionUsed(h: Heap, limbo: set<int>, a: int, e: int, p: int, q: int)
    requires HeapOk(h, limbo) && Region(h, limbo, a, e, p) && Is(h.lay, q, Used) && q != p
    ensures !(a <= q < e)
  {
    hide HeapOk;
    LimboUnused(h, limbo, q);
  }

  lemma LimboUnused(h: Heap, limbo: set<int>, q: int)
    requires HeapOk(h, limbo) && Is(h.lay, q, Used)
    ensures q !in limbo
  {
    hide BinsOk, Tiling, TagsOk;
  }

  // ---------------------------------------------------------------- freeing into the top

  /** A region that ends with the top chunk. */
  ghost predicate TopRegionOf(h: Heap, limbo: set<int>, a: int, p: int) {
    var e := h.top + h.topsize;
    && a in h.lay && e in h.lay && a <= p < h.top && Is(h.lay, p, Used) && Pinuse(h.Mem(), a) && a >= STATE_END
    && (forall x :: x in h.lay && a <= x < e ==> x == p || x in limbo || x == h.top)
    && (exists i :: 0 <= i < |h.segs| && h.segs[i].Holds(a) && e < h.segs[i].End())
  }

  function FreedTop(h: Heap, n: Words, a: int): Heap {
    var e := h.top + h.topsize;
    h.(bins := h.bins.(mem := n), lay := Fuse(h.lay, a, e, Top), top := a, topsize := if e > a then e - a else 0)
  }

  /** Only the head of the new top chunk is written. */
  ghost predicate FreedTopWords(m: Words, n: Words, a: int, size: int) {
    Head(n, a) == size + PINUSE && SameOutside(m, n, a + HEAD, a + HEAD)
  }

  lemma FreedTopTags(h: Heap, limbo: set<int>, n: Words, a: int, p: int)
    requires HeapOk(h, limbo) && TopRegionOf(h, limbo, a, p) && FreedTopWords(h.Mem(), n, a, h.top + h.topsize - a)
    ensures TagsOk(n, Fuse(h.lay, a, h.top + h.topsize, Top))
  {
    hide BinsOk, Segments, Places, TagOk, NoOverlap, Aligned, Fuse, W;
    var m, l, e := h.Mem(), h.lay, h.top + h.topsize;
    var k := Fuse(l, a, e, Top);
    TopFacts(h, limbo);
    UsedFacts(h, limbo, p);
    assert ChunkOk(a, l[a].size) && ChunkOk(e, l[e].size);
    AlignedDiff(a, e);
    AlignedOdd(e - a);
    FuseBeyond(l, a, e, Top);
    TopTag(n, k, a);
    SameTag(m, l, n, k, e);
    TopRegionStart(h, limbo, a, p);
    PatchTags(m, l, n, k, a, e, e);
  }

  lemma TopRegionStart(h: Heap, limbo: set<int>, a: int, p: int)
    requires HeapOk(h, limbo) && a in h.lay && (a == p || a in limbo || a == h.top) && Is(h.lay, p, Used)
    ensures h.lay[a].kind != Tail
  {
    hide BinsOk, Tiling, TagsOk;
  }

  lemma FreedTopPlaces(h: Heap, limbo: set<int>, n: Words, a: int, p: int)
    requires Places(h, limbo) && TopRegionOf(h, limbo, a, p) && h.topsize > 0
    ensures Places(FreedTop(h, n, a), set x | x in limbo && !(a <= x < h.top + h.topsize))
  {
    hide Fuse;
    var e := h.top + h.topsize;
    FuseKeys(h.lay, a, e, Top);
    var g, rest := FreedTop(h, n, a), set x | x in limbo && !(a <= x < e);
    forall x | Is(g.lay, x, Top) ensures x == a {
      assert x != a ==> Is(h.lay, x, Top);
    }
    forall x | Is(g.lay, x, Free) ensures x in h.bins.held || x == h.dv || x in rest {
      assert Is(h.lay, x, Free);
    }
    assert h.dvsize != 0 ==> !(a <= h.dv < e);
  }

  lemma FreedTopOk(h: Heap, limbo: set<int>, n: Words, a: int, p: int, live: set<int>)
    requires HeapOk(h, limbo) && TopRegionOf(h, limbo, a, p) && FreedTopWords(h.Mem(), n, a, h.top + h.topsize - a)
    requires forall q :: q in live ==> Is(h.lay, q, Used) && q != p
    ensures HeapOk(FreedTop(h, n, a), set x | x in limbo && !(a <= x < h.top + h.topsize))
    ensures Keeps(h.Mem(), h.lay, n, FreedTop(h, n, a).lay, live)
  {
    hide BinsOk, Tiling, Places, TagsOk, Keeps, Aligned, Fuse, SameBeyond, Pinuse, Tiled, TagOk, SameOutside, Chunks,
      Chained, NoOverlap, InRange;
    var e := h.top + h.topsize;
    var k := Fuse(h.lay, a, e, Top);
    TilingParts(h.lay, h.segs);
    TopFacts(h, limbo);
    FreedTopTags(h, limbo, n, a, p);
    FreedTopPlaces(h, limbo, n, a, p);
    var i :| 0 <= i < |h.segs| && h.segs[i].Holds(a) && e < h.segs[i].End();
    FuseTiling(h.lay, h.segs, a, e, Top, i);
    TopRegionHeld(h, limbo, a, p);
    SameWider(h.Mem(), n, a + HEAD, a + HEAD, e + HEAD);
    BinsPatch(h.bins, n, a, e + HEAD);
    FuseBeyond(h.lay, a, e, Top);
    forall q | q in live ensures Is(h.lay, q, Used) && !(a <= q < e) {
      LimboUnused(h, limbo, q);
    }
    PatchKeeps(h.Mem(), h.lay, n, k, a, e, live);
  }

  lemma TopRegionHeld(h: Heap, limbo: set<int>, a: int, p: int)
    requires HeapOk(h, limbo) && TopRegionOf(h, limbo, a, p)
    ensures var e := h.top + h.topsize; forall c :: c in h.bins.held ==> c + h.bins.held[c] <= a || e + HEAD < c + HEAD
  {
    hide BinsOk, W, Places, TagsOk, Segments, Chained, InRange, Pinuse;
    var e := h.top + h.topsize;
    TopFacts(h, limbo);
    forall x | x in h.lay && a <= x < e ensures x !in h.bins.held {
      NotHeld(h, limbo, x);
    }
    NotHeld(h, limbo, e);
    HeldClear(h, limbo, a, e);
  }

  // ---------------------------------------------------------------- resizing in place

  /** set_inuse on a chunk: its own PINUSE bit stays, the next one's is set. */
  function InuseMem(m: Words, a: int, s: nat): Words {
    var m1 := m[a + HEAD := W(m, a + HEAD) % 2 + s + CINUSE];
    m1[a + s + HEAD := SetP(W(m1, a + s + HEAD))]
  }

  /** A chunk in use is cut in two chunks in use. */
  function Shrunk(h: Heap, a: int, nb: nat): Heap {
    var s := SizeAt(h.lay, a);
    h.(bins := h.bins.(mem := InuseMem(InuseMem(h.Mem(), a, nb), a + nb, Minus(s, nb))),
       lay := Cut(h.lay, a, nb, Used, Used))
  }

  lemma ShrinkWords(m: Words, a: int, s: nat, nb: nat)
    requires Splits(s, nb) && W(m, a + s + HEAD) % 2 == 1
    ensures var n := InuseMem(InuseMem(m, a, nb), a + nb, s - nb);
            && Head(n, a) == Head(m, a) % 2 + nb + CINUSE && Head(n, a + nb) == s - nb + CINUSE + PINUSE
            && Head(n, a + s) == Head(m, a + s) && SameOutside(m, n, a + HEAD, a + s)
  {
  }

  /** A chunk in use with a new size: the same chunk lies before it. */
  lemma ResizedTag(m: Words, l: Layout, n: Words, k: Layout, a: int)
    requires Is(l, a, Used) && InRange(l) && TagOk(m, l, a) && Is(k, a, Used) && k[a].size >= MIN_CHUNK_SIZE
             && Aligned(k[a].size)
    requires Head(n, a) == Head(m, a) % 2 + k[a].size + CINUSE && W(n, a) == W(m, a) && Pinuse(n, Next(k, a))
    requires forall b :: b in l && b < a ==> b in k && k[b] == l[b]
    ensures TagOk(n, k, a) && (Pinuse(n, a) <==> Pinuse(m, a))
  {
    hide W;
    var s := l[a].size;
    assert ChunkOk(a, s);
    AlignedOdd(s);
    AlignedOdd(k[a].size);
    if Head(m, a) == s + CINUSE {
      var b := a - W(m, a);
      assert Is(l, b, Free) && Next(l, b) == a && ChunkOk(b, l[b].size);
    }
  }

  lemma ShrinkTags(h: Heap, limbo: set<int>, a: int, nb: nat)
    requires HeapOk(h, limbo) && Is(h.lay, a, Used) && Splits(SizeAt(h.lay, a), nb)
    ensures TagsOk(Shrunk(h, a, nb).Mem(), Shrunk(h, a, nb).lay)
  {
    hide HeapOk, TagOk, Shrunk, W, InRange, NoOverlap, Pinuse, SameBeyond, SameOutside;
    var m, l, n, k, e := h.Mem(), h.lay, Shrunk(h, a, nb).Mem(), Shrunk(h, a, nb).lay, Next(h.lay, a);
    UsedFacts(h, limbo, a);
    ShrinkNear(h, limbo, a, nb);
    ShrinkKeys(h, a, nb, a);
    forall x | x in k && a <= x <= e ensures TagOk(n, k, x) {
      ShrinkKeys(h, a, nb, x);
    }
    SizeAtLeast(l, e);
    HeapTagsOk(h, limbo);
    PatchTags(m, l, n, k, a, e, e);
  }

  lemma HeapTagsOk(h: Heap, limbo: set<int>)
    requires HeapOk(h, limbo)
    ensures TagsOk(h.Mem(), h.lay)
  {
    hide BinsOk, Tiling, TagsOk, Places;
  }

  lemma ShrinkKeys(h: Heap, a: int, nb: nat, x: int)
    requires Is(h.lay, a, Used) && NoOverlap(h.lay) && Splits(SizeAt(h.lay, a), nb)
    ensures var k, e := Shrunk(h, a, nb).lay, Next(h.lay, a);
            && Is(k, a, Used) && k[a].size == nb && Is(k, a + nb, Used) && k[a + nb].size == SizeAt(h.lay, a) - nb
            && (x in k && a <= x <= e ==> x == a || x == a + nb || x == e) && SameBeyond(h.lay, k, a, e)
  {
    hide InuseMem, Cut, NoOverlap, SameBeyond;
    CutKeys(h.lay, a, nb, Used, Used, x);
  }

  /** The two parts and the chunk behind them. */
  lemma ShrinkNear(h: Heap, limbo: set<int>, a: int, nb: nat)
    requires HeapOk(h, limbo) && Is(h.lay, a, Used) && Splits(SizeAt(h.lay, a), nb)
    ensures var n, k, e := Shrunk(h, a, nb).Mem(), Shrunk(h, a, nb).lay, Next(h.lay, a);
            && TagOk(n, k, a) && TagOk(n, k, a + nb) && TagOk(n, k, e) && (Pinuse(n, a) <==> Pinuse(h.Mem(), a))
            && SameOutside(h.Mem(), n, a + HEAD, e)
  {
    hide BinsOk, Segments, W, Places, TagOk, InuseMem, NoOverlap, Aligned, Cut, SameBeyond, SameOutside;
    UsedFacts(h, limbo, a);
    var m, l, n, k := h.Mem(), h.lay, Shrunk(h, a, nb).Mem(), Shrunk(h, a, nb).lay;
    var s, e, r := l[a].size, Next(l, a), a + nb;
    UsedBefore(m, l, a);
    ShrinkWords(m, a, s, nb);
    CutKeys(l, a, nb, Used, Used, e);
    AlignedDiff(nb, s);
    AlignedOdd(s - nb);
    ResizedTag(m, l, n, k, a);
    UsedTag(n, k, r);
    ShrinkAfter(h, limbo, n, k, a, e);
  }

  lemma UsedBefore(m: Words, l: Layout, a: int)
    requires Is(l, a, Used) && TagOk(m, l, a)
    ensures Pinuse(m, Next(l, a)) && W(m, Next(l, a) + HEAD) % 2 == 1
  {
  }

  lemma ShrinkAfter(h: Heap, limbo: set<int>, n: Words, k: Layout, a: int, e: int)
    requires HeapOk(h, limbo) && a in h.lay && a < e && e in h.lay && Pinuse(h.Mem(), e) && SameBeyond(h.lay, k, a, e)
    requires SameOutside(h.Mem(), n, a + HEAD, e) && Head(n, e) == Head(h.Mem(), e)
    ensures TagOk(n, k, e)
  {
    hide BinsOk, Segments, W, Places, TagOk, NoOverlap, Aligned;
    assert TagOk(h.Mem(), h.lay, e);
    SizeAtLeast(h.lay, e);
    SameTag(h.Mem(), h.lay, n, k, e);
  }

  lemma ShrinkPlaces(h: Heap, limbo: set<int>, a: int, nb: nat)
    requires Places(h, limbo) && Is(h.lay, a, Used) && NoOverlap(h.lay) && 0 < nb < SizeAt(h.lay, a)
    ensures Places(Shrunk(h, a, nb), limbo)
  {
    hide InuseMem, Cut;
    var g := Shrunk(h, a, nb);
    forall x ensures (Is(g.lay, x, Free) <==> Is(h.lay, x, Free)) && (Is(g.lay, x, Top) <==> Is(h.lay, x, Top))
      && (x in h.lay && x != a ==> x in g.lay && g.lay[x] == h.lay[x])
    {
      CutKeys(h.lay, a, nb, Used, Used, x);
    }
  }

  /** Cutting a block keeps the others, and the part of its own contents that stays. */
  lemma ShrunkOk(h: Heap, limbo: set<int>, a: int, nb: nat, live: set<int>)
    requires HeapOk(h, limbo) && Is(h.lay, a, Used) && Splits(SizeAt(h.lay, a), nb)
    requires forall p :: p in live ==> Is(h.lay, p, Used) && p != a
    ensures HeapOk(Shrunk(h, a, nb), limbo)
    ensures Keeps(h.Mem(), h.lay, Shrunk(h, a, nb).Mem(), Shrunk(h, a, nb).lay, live)
    ensures forall w :: a + FD <= w <= a + nb ==> W(Shrunk(h, a, nb).Mem(), w) == W(h.Mem(), w)
  {
    hide BinsOk, Tiling, W, Places, TagsOk, InuseMem, Keeps, Aligned, Cut, SameBeyond, Tiled, TagOk, SameOutside,
      Chunks, Chained, NoOverlap, InRange;
    UsedFacts(h, limbo, a);
    var s, e, n := SizeAt(h.lay, a), Next(h.lay, a), Shrunk(h, a, nb).Mem();
    TilingParts(h.lay, h.segs);
    UsedBefore(h.Mem(), h.lay, a);
    ShrinkTags(h, limbo, a, nb);
    ShrinkPlaces(h, limbo, a, nb);
    CutTiling(h.lay, h.segs, a, nb, Used, Used);
    ShrinkWords(h.Mem(), a, s, nb);
    ShrinkInside(h.Mem(), a, s, nb);
    ShrinkHeld(h, limbo, a);
    BinsPatch(h.bins, n, a, e);
    CutKeys(h.lay, a, nb, Used, Used, e);
    forall p | p in live ensures !(a <= p < e) {
      Between2(h.lay, a, p);
    }
    SameWider(h.Mem(), n, a + HEAD, e, e + HEAD);
    PatchKeeps(h.Mem(), h.lay, n, Shrunk(h, a, nb).lay, a, e, live);
  }

  lemma ShrinkInside(m: Words, a: int, s: nat, nb: nat)
    requires Splits(s, nb)
    ensures var n := InuseMem(InuseMem(m, a, nb), a + nb, s - nb);
            forall w :: a + FD <= w <= a + nb ==> W(n, w) == W(m, w)
  {
  }

  lemma ShrinkHeld(h: Heap, limbo: set<int>, a: int)
    requires HeapOk(h, limbo) && Is(h.lay, a, Used)
    ensures var e := Next(h.lay, a); forall c :: c in h.bins.held ==> c + h.bins.held[c] <= a || e < c + HEAD
  {
    hide BinsOk, W, TagsOk, Segments, Chained, InRange, DvPlace, FreePlaces, TopPlace, LimboPlaces;
    forall c | c in h.bins.held ensures c + h.bins.held[c] <= a || Next(h.lay, a) < c + HEAD {
      Beside(h.lay, a, c);
    }
  }

  // ---------------------------------------------------------------- growing into the top

  /** The chunk before the top grows into it: set_inuse, then a new top. */
  function GrowMem(m: Words, a: int, nb: nat, rest: nat): Words {
    InuseMem(m, a, nb)[a + nb + HEAD := rest + PINUSE]
  }

  function GrownLay(l: Layout, a: int, e: int, nb: nat): Layout {
    Cut(Fuse(l, a, e, Used), a, nb, Used, Top)
  }

  function Grown(h: Heap, a: int, nb: nat): Heap {
    var e := h.top + h.topsize;
    var rest := if e >= a + nb then e - a - nb else 0;
    h.(bins := h.bins.(mem := GrowMem(h.Mem(), a, nb, rest)), lay := GrownLay(h.lay, a, e, nb), top := a + nb,
       topsize := rest)
  }

  lemma GrowWords(m: Words, a: int, nb: nat, rest: nat)
    requires nb >= MIN_CHUNK_SIZE && rest >= 8
    ensures var n := GrowMem(m, a, nb, rest);
            && Head(n, a) == Head(m, a) % 2 + nb + CINUSE && Head(n, a + nb) == rest + PINUSE
            && SameOutside(m, n, a + HEAD, a + nb + HEAD)
            && (forall w :: a + FD <= w <= a + nb ==> W(n, w) == W(m, w))
  {
  }

  /** Everything up to the end of the top, cut again after nb bytes. */
  lemma GrownKeys(l: Layout, a: int, e: int, nb: nat, x: int)
    requires NoOverlap(l) && a in l && e in l && 0 < nb && a + nb < e
    ensures var f := GrownLay(l, a, e, nb);
            && a in f && f[a] == Tag(nb, Used) && a + nb in f && f[a + nb] == Tag(e - a - nb, Top) && e in f
            && f[e] == l[e]
            && SameBeyond(l, f, a, e) && (x in f && a <= x <= e ==> x == a || x == a + nb || x == e)
            && (x < a || x >= e ==> (x in f <==> x in l))
  {
    FuseKeys(l, a, e, Used);
  }

  /** Chunk a in use, just before the top. */
  ghost predicate BeforeTop(h: Heap, a: int, nb: nat) {
    Is(h.lay, a, Used) && Next(h.lay, a) == h.top && SizeAt(h.lay, a) < nb && Aligned(nb) && a + nb < h.top + h.topsize
  }

  lemma GrownTags(h: Heap, limbo: set<int>, a: int, nb: nat)
    requires HeapOk(h, limbo) && BeforeTop(h, a, nb)
    ensures TagsOk(Grown(h, a, nb).Mem(), Grown(h, a, nb).lay)
  {
    hide BinsOk, Segments, W, Places, TagOk, GrowMem, NoOverlap, Aligned, GrownLay;
    UsedFacts(h, limbo, a);
    TopFacts(h, limbo);
    var m, l, n, k, e := h.Mem(), h.lay, Grown(h, a, nb).Mem(), Grown(h, a, nb).lay, h.top + h.topsize;
    GrowRest(h, a, nb);
    GrowWords(m, a, nb, e - a - nb);
    GrownKeys(l, a, e, nb, e);
    AlignedOdd(e - a - nb);
    GrownTag(m, l, n, k, a, e);
    TopTag(n, k, a + nb);
    SameTag(m, l, n, k, e);
    forall x | x in k && a <= x <= e ensures TagOk(n, k, x) {
      GrownKeys(l, a, e, nb, x);
    }
    PatchTags(m, l, n, k, a, e, e);
  }

  lemma GrownTag(m: Words, l: Layout, n: Words, k: Layout, a: int, e: int)
    requires Is(l, a, Used) && InRange(l) && TagOk(m, l, a) && Is(k, a, Used) && k[a].size >= MIN_CHUNK_SIZE
             && Aligned(k[a].size)
    requires Head(n, a) == Head(m, a) % 2 + k[a].size + CINUSE && SameOutside(m, n, a + HEAD, e)
             && Pinuse(n, Next(k, a))
    requires SameBeyond(l, k, a, e)
    ensures TagOk(n, k, a) && (Pinuse(n, a) <==> Pinuse(m, a))
  {
    hide W, TagOk, Pinuse, Aligned;
    ResizedTag(m, l, n, k, a);
  }

  lemma GrowRest(h: Heap, a: int, nb: nat)
    requires BeforeTop(h, a, nb) && InRange(h.lay) && Is(h.lay, h.top, Top) && Aligned(h.topsize)
    ensures var e := h.top + h.topsize; Aligned(e - a - nb) && e - a - nb >= 8 && Aligned(nb)
  {
    assert ChunkOk(a, SizeAt(h.lay, a));
  }

  lemma GrownPlaces(h: Heap, limbo: set<int>, a: int, nb: nat)
    requires Places(h, limbo) && BeforeTop(h, a, nb) && NoOverlap(h.lay) && Is(h.lay, h.top + h.topsize, Tail)
    ensures Places(Grown(h, a, nb), limbo)
  {
    hide GrowMem, GrownLay;
    var g, e := Grown(h, a, nb), h.top + h.topsize;
    forall x ensures (Is(g.lay, x, Free) <==> Is(h.lay, x, Free)) && (Is(g.lay, x, Top) <==> x == a + nb)
      && (Is(h.lay, x, Free) ==> x in g.lay && g.lay[x] == h.lay[x])
    {
      GrownKeys(h.lay, a, e, nb, x);
      GrownFree(h.lay, a, h.top, x);
      assert Is(h.lay, x, Top) ==> x == h.top;
    }
    GrownKeys(h.lay, a, e, nb, a);
  }

  lemma GrownFree(l: Layout, a: int, top: int, x: int)
    requires NoOverlap(l) && Is(l, a, Used) && Is(l, top, Top) && Next(l, a) == top
    ensures x in l && a <= x < Next(l, top) ==> x == a || x == top
  {
  }

  lemma GrownTiling(h: Heap, limbo: set<int>, a: int, nb: nat)
    requires HeapOk(h, limbo) && BeforeTop(h, a, nb)
    ensures Tiling(Grown(h, a, nb).lay, h.segs)
  {
    hide BinsOk, W, Places, TagsOk, Chunks, Chained, SegmentOk, Fuse, Aligned;
    TopFacts(h, limbo);
    UsedFacts(h, limbo, a);
    var e, f := h.top + h.topsize, Fuse(h.lay, a, h.top + h.topsize, Used);
    var i :| 0 <= i < |h.segs| && h.segs[i].Holds(a);
    NextHeld(h.lay, h.segs, a, i);
    NextHeld(h.lay, h.segs, h.top, i);
    FuseTiling(h.lay, h.segs, a, e, Used, i);
    FuseKeys(h.lay, a, e, Used);
    CutTiling(f, h.segs, a, nb, Used, Top);
  }

  /** A block grows into the top: all other blocks stay, and so do its own contents. */
  lemma GrownOk(h: Heap, limbo: set<int>, a: int, nb: nat, live: set<int>)
    requires HeapOk(h, limbo) && BeforeTop(h, a, nb)
    requires forall p :: p in live ==> Is(h.lay, p, Used) && p != a
    ensures HeapOk(Grown(h, a, nb), limbo)
    ensures Keeps(h.Mem(), h.lay, Grown(h, a, nb).Mem(), Grown(h, a, nb).lay, live)
    ensures forall w :: a + FD <= w <= a + nb ==> W(Grown(h, a, nb).Mem(), w) == W(h.Mem(), w)
  {
    hide BinsOk, Tiling, W, Places, TagsOk, GrowMem, Keeps, Aligned, GrownLay, SameBeyond, Tiled, TagOk, SameOutside,
      Chunks, Chained, NoOverlap, InRange;
    UsedFacts(h, limbo, a);
    TopFacts(h, limbo);
    TilingParts(h.lay, h.segs);
    var e, n, k := h.top + h.topsize, Grown(h, a, nb).Mem(), Grown(h, a, nb).lay;
    GrowRest(h, a, nb);
    GrowWords(h.Mem(), a, nb, e - a - nb);
    GrownTags(h, limbo, a, nb);
    GrownPlaces(h, limbo, a, nb);
    GrownTiling(h, limbo, a, nb);
    GrownHeld(h, limbo, a);
    SameWider(h.Mem(), n, a + HEAD, a + nb + HEAD, e);
    SameWider(h.Mem(), n, a + HEAD, e, e + HEAD);
    BinsPatch(h.bins, n, a, e);
    GrownKeys(h.lay, a, e, nb, e);
    forall p | p in live ensures !(a <= p < e) {
      GrownFree(h.lay, a, h.top, p);
    }
    PatchKeeps(h.Mem(), h.lay, n, k, a, e, live);
  }

  lemma GrownHeld(h: Heap, limbo: set<int>, a: int)
    requires HeapOk(h, limbo) && Is(h.lay, a, Used) && Next(h.lay, a) == h.top
    ensures var e := h.top + h.topsize; forall c :: c in h.bins.held ==> c + h.bins.held[c] <= a || e < c + HEAD
  {
    hide BinsOk, W, TagsOk, Segments, Chained, InRange, DvPlace, FreePlaces, LimboPlaces;
    forall c | c in h.bins.held ensures c + h.bins.held[c] <= a || h.top + h.topsize < c + HEAD {
      GrownFree(h.lay, a, h.top, c);
      Beside(h.lay, a, c);
      Beside(h.lay, h.top, c);
    }
  }
}

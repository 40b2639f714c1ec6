/** Serving a request from new memory. */
module HeapGrow {
  import opened TreeIndex
  import opened HeapWords
  import opened Bins
  import opened HeapLayout
  import opened HeapTags
  import opened HeapState
  import opened HeapSteps
  import opened HeapSystem
  import opened HeapServe

  lemma ServeAfter(h: Heap, h1: Heap, g: Heap, limbo: set<int>, live: set<int>, p: int, nb: nat)
    requires Keeps(h.Mem(), h.lay, h1.Mem(), h1.lay, live) && Serving(h1, g, limbo, live, p, nb)
    ensures Serving(h, g, limbo, live, p, nb)
  {
    hide HeapOk, Keeps;
    KeepsTrans(h.Mem(), h.lay, h1.Mem(), h1.lay, g.Mem(), g.lay, live);
  }

  // ---------------------------------------------------------------- memory before a segment

  /** New memory before a segment, cut into the block to hand out and the rest, in use. */
  function Opened(h: Heap, i: nat, base: int, size: nat, nb: nat): Heap {
    Shrunk(Prepended(h, i, base, size), base, nb)
  }

  function OpenedLay(l: Layout, base: int, size: nat, nb: nat): Layout {
    Cut(l[base := Tag(size, Used)], base, nb, Used, Used)
  }

  lemma OpenedOk(h: Heap, limbo: set<int>, i: nat, base: int, size: nat, nb: nat, live: set<int>)
    requires HeapOk(h, limbo) && Fresh(h.segs, base, size) && i < |h.segs| && SegAt(h.segs, i).base == base + size
    requires Splits(size, nb) && LiveOk(h.lay, live)
    ensures HeapOk(Opened(h, i, base, size, nb), limbo) && base !in h.lay && base !in live
    ensures Keeps(h.Mem(), h.lay, Opened(h, i, base, size, nb).Mem(), Opened(h, i, base, size, nb).lay, live)
    ensures Opened(h, i, base, size, nb).lay == OpenedLay(h.lay, base, size, nb)
  {
    hide HeapOk, Keeps, Fresh, Aligned, InuseMem, Cut;
    PrependedOk(h, limbo, i, base, size, live);
    var h1 := Prepended(h, i, base, size);
    KeptLive(h.Mem(), h.lay, h1.Mem(), h1.lay, live);
    ShrunkOk(h1, limbo, base, nb, live);
    KeepsTrans(h.Mem(), h.lay, h1.Mem(), h1.lay, Shrunk(h1, base, nb).Mem(), Shrunk(h1, base, nb).lay, live);
  }

  /** Compared with a memory where only the head of the new block is written. */
  lemma OpenedWords(h: Heap, limbo: set<int>, i: nat, base: int, size: nat, nb: nat, w: int)
    requires HeapOk(h, limbo) && Fresh(h.segs, base, size) && i < |h.segs| && SegAt(h.segs, i).base == base + size
    requires Splits(size, nb) && Head(h.Mem(), base) == nb + CINUSE + PINUSE && w != base + nb + HEAD
    ensures W(Opened(h, i, base, size, nb).Mem(), w) == W(h.Mem(), w)
  {
    hide HeapOk, Aligned, InuseMem;
    BaseOdd(h, limbo, i);
    OpenedStores(h.Mem(), base, size, nb, w);
  }

  lemma BaseOdd(h: Heap, limbo: set<int>, i: nat)
    requires HeapOk(h, limbo) && i < |h.segs|
    ensures Pinuse(h.Mem(), SegAt(h.segs, i).base) && SegAt(h.segs, i).base in h.lay
            && !Is(h.lay, SegAt(h.segs, i).base, Tail)
  {
    hide BinsOk, Chunks, Chained, TagsOk, Places, SegmentOk;
    BasePinuse(h.Mem(), h.lay, h.segs, i);
    SegmentBase(h.lay, h.segs[i]);
  }

  lemma OpenedStores(m: Words, base: int, size: nat, nb: nat, w: int)
    requires Splits(size, nb) && W(m, base + HEAD) == nb + CINUSE + PINUSE && W(m, base + size + HEAD) % 2 == 1
             && w != base + nb + HEAD
    requires Aligned(size)
    ensures W(InuseMem(InuseMem(m[base + HEAD := size + CINUSE + PINUSE], base, nb), base + nb, Minus(size, nb)),
              w) == W(m, w)
  {
    var m1 := m[base + HEAD := size + CINUSE + PINUSE];
    AlignedOdd(size);
    assert W(m1, base + HEAD) % 2 == 1;
    var m2 := InuseMem(m1, base, nb);
    assert W(m2, base + HEAD) == nb + CINUSE + PINUSE;
  }

  /** The rest of the new memory joins what follows it. */
  function Joined(h: Heap, i: nat, base: int, size: nat, nb: nat, n: Words, e: int): Heap {
    Freed(Opened(h, i, base, size, nb), n, base + nb, e)
  }

  /** Where the free chunk made of the rest ends: at the first chunk if that is in use, else after it. */
  ghost predicate JoinEnd(h: Heap, limbo: set<int>, first: int, e: int) {
    && Is(h.lay, e, Used)
    && (e == first ==> limbo == {})
    && (e != first ==> Is(h.lay, first, Free) && limbo == {first} && e == Next(h.lay, first))
  }

  lemma OpenedAt(l: Layout, base: int, size: nat, nb: nat, x: int)
    requires 0 < nb < size && base !in l && base + nb !in l
    ensures var k := OpenedLay(l, base, size, nb);
            && Is(k, base, Used) && SizeAt(k, base) == nb && Is(k, base + nb, Used) && SizeAt(k, base + nb) == size - nb
            && (x in k <==> x in l || x == base || x == base + nb) && (x in l ==> k[x] == l[x])
  {
  }

  lemma OpenedNew(h: Heap, limbo: set<int>, base: int, size: nat, nb: nat)
    requires HeapOk(h, limbo) && Fresh(h.segs, base, size) && 0 < nb < size
    ensures base !in h.lay && base + nb !in h.lay
  {
    hide HeapOk, Fresh, Tiling, TagsOk;
    HeapTiling(h, limbo);
    FreshKey(h.lay, h.segs, base, size, base);
    FreshKey(h.lay, h.segs, base, size, base + nb);
  }

  lemma JoinRegion(h: Heap, limbo: set<int>, i: nat, base: int, size: nat, nb: nat, e: int)
    requires HeapOk(h, limbo) && Fresh(h.segs, base, size) && i < |h.segs| && SegAt(h.segs, i).base == base + size
             && Splits(size, nb)
    requires JoinEnd(h, limbo, base + size, e)
    requires HeapOk(Opened(h, i, base, size, nb), limbo)
             && Opened(h, i, base, size, nb).lay == OpenedLay(h.lay, base, size, nb)
    ensures Region(Opened(h, i, base, size, nb), limbo, base + nb, e, base + nb)
            && Is(Opened(h, i, base, size, nb).lay, e, Used)
  {
    hide HeapOk, Fresh, Aligned, Opened, OpenedLay, TagOk, Tiling, TagsOk, Tiled;
    var g, q := Opened(h, i, base, size, nb), base + nb;
    OpenedNew(h, limbo, base, size, nb);
    OpenedAt(h.lay, base, size, nb, q);
    OpenedAt(h.lay, base, size, nb, e);
    OpenedAt(h.lay, base, size, nb, base + size);
    BaseOdd(h, limbo, i);
    UsedFacts(g, limbo, q);
    UsedFacts(g, limbo, base);
    UsedBefore(g.Mem(), g.lay, base);
    HeapTiling(g, limbo);
    assert Next(g.lay, q) == base + size;
    if e != base + size {
      assert Next(g.lay, base + size) == e;
    }
    forall x | x in g.lay && q <= x < e ensures x == q || x in limbo {
      HeapStep(g, limbo, q, x);
      if e != base + size {
        HeapStep(g, limbo, base + size, x);
      }
    }
    JoinSegment(g, limbo, q, e);
  }

  lemma HeapStep(g: Heap, limbo: set<int>, a: int, x: int)
    requires HeapOk(g, limbo) && a in g.lay && x in g.lay
    ensures a <= x < Next(g.lay, a) ==> x == a
  {
    hide BinsOk, Chained, Segments, TagsOk, Places;
    if x != a {
      Beside(g.lay, a, x);
    }
  }

  lemma JoinSegment(g: Heap, limbo: set<int>, q: int, e: int)
    requires HeapOk(g, limbo) && q in g.lay && g.lay[q].kind != Tail
    requires e == Next(g.lay, q) || (Next(g.lay, q) in g.lay && g.lay[Next(g.lay, q)].kind != Tail
                                     && e == Next(g.lay, Next(g.lay, q)))
    ensures exists j :: 0 <= j < |g.segs| && g.segs[j].Holds(q) && e < g.segs[j].End()
  {
    hide BinsOk, Chunks, Chained, TagsOk, Places, SegmentOk;
    var j := Home(g.lay, g.segs, q);
    NextHeld(g.lay, g.segs, q, j);
    if e != Next(g.lay, q) {
      NextHeld(g.lay, g.segs, Next(g.lay, q), j);
    }
    assert g.segs[j].Holds(e);
  }

  /** The words written when the rest of the new memory joins the chunk after it. */
  ghost predicate JoinWords(m: Words, n: Words, q: int, e: int) {
    && Head(n, q) == e - q + PINUSE && W(n, e) == e - q && Head(n, e) == ClearP(Head(m, e))
    && SameOutside(m, n, q + HEAD, e + HEAD)
  }

  lemma JoinFreed(h: Heap, limbo: set<int>, i: nat, base: int, size: nat, nb: nat, n: Words, e: int)
    requires HeapOk(h, limbo) && Fresh(h.segs, base, size) && i < |h.segs| && SegAt(h.segs, i).base == base + size
    requires Splits(size, nb) && Head(h.Mem(), base) == nb + CINUSE + PINUSE && JoinWords(h.Mem(), n, base + nb, e)
             && e > base + nb
    ensures FreedWords(Opened(h, i, base, size, nb).Mem(), n, base + nb, e)
  {
    hide HeapOk, Fresh, Aligned, Opened, W;
    var g, q := Opened(h, i, base, size, nb), base + nb;
    OpenedWords(h, limbo, i, base, size, nb, e + HEAD);
    forall w | w < q + HEAD || w > e + HEAD ensures W(n, w) == W(g.Mem(), w) {
      OpenedWords(h, limbo, i, base, size, nb, w);
    }
  }

  /** New memory before a segment serves the request, and the rest is one free chunk. */
  lemma JoinedServes(h: Heap, limbo: set<int>, i: nat, base: int, size: nat, nb: nat, n: Words, e: int, live: set<int>)
    requires HeapOk(h, limbo) && Fresh(h.segs, base, size) && i < |h.segs| && SegAt(h.segs, i).base == base + size
    requires Splits(size, nb) && Head(h.Mem(), base) == nb + CINUSE + PINUSE && JoinWords(h.Mem(), n, base + nb, e)
    requires LiveOk(h.lay, live) && JoinEnd(h, limbo, base + size, e) && e > base + nb
    ensures Serving(h, Joined(h, i, base, size, nb, n, e), {base + nb}, live, base, nb)
    ensures SizeAt(Joined(h, i, base, size, nb, n, e).lay, base + nb) == e - base - nb
  {
    hide HeapOk, Fresh, Aligned, Opened, W, OpenedLay, Keeps, SameOutside, Region, Fuse, JoinWords, FreedWords;
    var g, q := Opened(h, i, base, size, nb), base + nb;
    OpenedOk(h, limbo, i, base, size, nb, live);
    JoinRegion(h, limbo, i, base, size, nb, e);
    JoinFreed(h, limbo, i, base, size, nb, n, e);
    OpenedNew(h, limbo, base, size, nb);
    KeptLive(h.Mem(), h.lay, g.Mem(), g.lay, live);
    NotLive(h, base, nb, live);
    FreedOk(g, limbo, n, q, e, q, live);
    KeepsTrans(h.Mem(), h.lay, g.Mem(), g.lay, n, Fuse(g.lay, q, e, Free), live);
    JoinLimbo(h, limbo, base + size, e, q);
    JoinLay(h.lay, base, size, nb, e);
  }

  lemma NotLive(h: Heap, base: int, nb: nat, live: set<int>)
    requires LiveOk(h.lay, live) && base !in h.lay && base + nb !in h.lay
    ensures base !in live && base + nb !in live
  {
  }

  lemma JoinLimbo(h: Heap, limbo: set<int>, first: int, e: int, q: int)
    requires JoinEnd(h, limbo, first, e) && q <= first && (e != first ==> first < e)
    ensures (set x | x in limbo && !(q <= x < e)) + {q} == {q}
  {
  }

  lemma JoinLay(l: Layout, base: int, size: nat, nb: nat, e: int)
    requires 0 < nb < size && base !in l && base + nb !in l && base + nb < e
    ensures var k := Fuse(OpenedLay(l, base, size, nb), base + nb, e, Free);
            && Is(k, base, Used) && SizeAt(k, base) == nb && Next(k, base) == base + nb
            && Is(k, base + nb, Free) && SizeAt(k, base + nb) == e - base - nb
  {
    hide Fuse, OpenedLay;
    OpenedAt(l, base, size, nb, base);
    FuseKeys(OpenedLay(l, base, size, nb), base + nb, e, Free);
  }

  // ---------------------------------------------------------------- memory before the top chunk

  function JoinedTop(h: Heap, i: nat, base: int, size: nat, nb: nat, n: Words): Heap {
    FreedTop(Opened(h, i, base, size, nb), n, base + nb)
  }

  lemma OpenedFields(h: Heap, i: nat, base: int, size: nat, nb: nat)
    ensures var g := Opened(h, i, base, size, nb);
            && g.top == h.top && g.topsize == h.topsize && g.dv == h.dv && g.dvsize == h.dvsize
            && g.segs == WithSeg(h.segs, i, Segment(base, SegAt(h.segs, i).size + size))
            && g.bins == h.bins.(mem := g.Mem())
  {
    hide InuseMem, Cut;
  }

  lemma JoinTopRegion(h: Heap, i: nat, base: int, size: nat, nb: nat)
    requires HeapOk(h, {}) && Fresh(h.segs, base, size) && i < |h.segs| && SegAt(h.segs, i).base == base + size
             && Splits(size, nb)
    requires h.top == base + size
    requires HeapOk(Opened(h, i, base, size, nb), {})
             && Opened(h, i, base, size, nb).lay == OpenedLay(h.lay, base, size, nb)
    ensures TopRegionOf(Opened(h, i, base, size, nb), {}, base + nb, base + nb)
  {
    hide HeapOk, Fresh, Aligned, Opened, OpenedLay, TagOk, Tiling, TagsOk, Tiled;
    var g, q, e := Opened(h, i, base, size, nb), base + nb, h.top + h.topsize;
    OpenedNew(h, {}, base, size, nb);
    OpenedAt(h.lay, base, size, nb, q);
    OpenedAt(h.lay, base, size, nb, h.top);
    OpenedFields(h, i, base, size, nb);
    TopFacts(g, {});
    UsedFacts(g, {}, q);
    UsedFacts(g, {}, base);
    UsedBefore(g.Mem(), g.lay, base);
    HeapTiling(g, {});
    assert Next(g.lay, q) == h.top;
    forall x | x in g.lay && q <= x < e ensures x == q || x == h.top {
      HeapStep(g, {}, q, x);
      HeapStep(g, {}, h.top, x);
    }
    JoinSegment(g, {}, q, e);
  }

  /** The same when the segment starts with the top chunk; the rest joins it. */
  lemma JoinedTopServes(h: Heap, i: nat, base: int, size: nat, nb: nat, n: Words, live: set<int>)
    requires HeapOk(h, {}) && Fresh(h.segs, base, size) && i < |h.segs| && SegAt(h.segs, i).base == base + size
    requires Splits(size, nb) && LiveOk(h.lay, live) && h.top == base + size
    requires Head(h.Mem(), base) == nb + CINUSE + PINUSE
             && FreedTopWords(h.Mem(), n, base + nb, h.top + h.topsize - base - nb)
    ensures Serving(h, JoinedTop(h, i, base, size, nb, n), {}, live, base, nb)
  {
    hide HeapOk, Fresh, Aligned, Opened, W, OpenedLay, Keeps, TopRegionOf, Fuse, FreedTopWords, Tiled, TagOk;
    var g, q := Opened(h, i, base, size, nb), base + nb;
    OpenedOk(h, {}, i, base, size, nb, live);
    OpenedFields(h, i, base, size, nb);
    JoinTopRegion(h, i, base, size, nb);
    OpenedNew(h, {}, base, size, nb);
    KeptLive(h.Mem(), h.lay, g.Mem(), g.lay, live);
    NotLive(h, base, nb, live);
    JoinTopWords(h, i, base, size, nb, n);
    FreedTopOk(g, {}, n, q, q, live);
    NoLimbo(q, g.top + g.topsize);
    KeepsTrans(h.Mem(), h.lay, g.Mem(), g.lay, n, FreedTop(g, n, q).lay, live);
    TopFacts(h, {});
    JoinTopLay(h.lay, base, size, nb, h.top + h.topsize);
  }

  lemma JoinTopWords(h: Heap, i: nat, base: int, size: nat, nb: nat, n: Words)
    requires HeapOk(h, {}) && Fresh(h.segs, base, size) && i < |h.segs| && SegAt(h.segs, i).base == base + size
             && Splits(size, nb)
    requires Head(h.Mem(), base) == nb + CINUSE + PINUSE
             && FreedTopWords(h.Mem(), n, base + nb, h.top + h.topsize - base - nb)
    ensures FreedTopWords(Opened(h, i, base, size, nb).Mem(), n, base + nb, h.top + h.topsize - base - nb)
  {
    hide HeapOk, Fresh, Aligned, Opened, W;
    var g, q := Opened(h, i, base, size, nb), base + nb;
    forall w | w < q + HEAD || w > q + HEAD ensures W(n, w) == W(g.Mem(), w) {
      OpenedWords(h, {}, i, base, size, nb, w);
    }
  }

  lemma NoLimbo(q: int, e: int)
    ensures var limbo: set<int> := {}; (set x | x in limbo && !(q <= x < e)) == {}
  {
  }

  lemma JoinTopLay(l: Layout, base: int, size: nat, nb: nat, e: int)
    requires 0 < nb < size && base !in l && base + nb !in l && base + nb < e
    ensures var k := Fuse(OpenedLay(l, base, size, nb), base + nb, e, Top);
            && Is(k, base, Used) && SizeAt(k, base) == nb && Next(k, base) == base + nb && Is(k, base + nb, Top)
  {
    hide Fuse, OpenedLay;
    OpenedAt(l, base, size, nb, base);
    FuseKeys(OpenedLay(l, base, size, nb), base + nb, e, Top);
  }

  // ---------------------------------------------------------------- the resulting states

  lemma JoinedTopIs(h: Heap, i: nat, base: int, size: nat, nb: nat, n: Words)
    requires base + nb < h.top + h.topsize
    ensures JoinedTop(h, i, base, size, nb, n)
         == h.(bins := h.bins.(mem := n),
               lay := Fuse(OpenedLay(h.lay, base, size, nb), base + nb, h.top + h.topsize, Top),
               segs := WithSeg(h.segs, i, Segment(base, SegAt(h.segs, i).size + size)),
               top := base + nb, topsize := h.top + h.topsize - base - nb)
  {
    hide InuseMem, Cut, Fuse;
  }

  lemma JoinedIs(h: Heap, i: nat, base: int, size: nat, nb: nat, n: Words, e: int)
    ensures Joined(h, i, base, size, nb, n, e)
         == h.(bins := h.bins.(mem := n), lay := Fuse(OpenedLay(h.lay, base, size, nb), base + nb, e, Free),
               segs := WithSeg(h.segs, i, Segment(base, SegAt(h.segs, i).size + size)))
  {
    hide InuseMem, Cut, Fuse;
  }

  /** The head of the new block is written first, in memory that belongs to no segment yet. */
  lemma BlockHead(h: Heap, base: int, size: nat, nb: nat, live: set<int>)
    requires HeapOk(h, {}) && LiveOk(h.lay, live) && Fresh(h.segs, base, size)
    ensures var h0 := h.(bins := h.bins.(mem := h.Mem()[base + HEAD := nb + PINUSE + CINUSE]));
            && HeapOk(h0, {}) && Keeps(h.Mem(), h.lay, h0.Mem(), h0.lay, live)
            && Head(h0.Mem(), base) == nb + CINUSE + PINUSE
  {
    hide HeapOk, Keeps, LiveOk;
    var n := h.Mem()[base + HEAD := nb + PINUSE + CINUSE];
    FreshOutside(h.segs, base, size, base + HEAD);
    assert SameHeap(h.Mem(), n, h.segs);
    LiveAreUsed(h.lay, live);
    OutsideOk(h, {}, n, live);
  }

  lemma LiveAreUsed(l: Layout, live: set<int>)
    requires LiveOk(l, live)
    ensures forall p :: p in live ==> Is(l, p, Used)
  {
  }

  lemma JoinStores(m: Words, n: Words, q: int, e: int)
    requires q + FD <= e && n == m[q + HEAD := e - q + PINUSE][e := e - q] && !Pinuse(m, e)
    ensures JoinWords(m, n, q, e)
  {
  }

  lemma JoinClear(m: Words, n: Words, q: int, e: int)
    requires q + FD <= e && n == m[e + HEAD := ClearP(W(m, e + HEAD))][q + HEAD := e - q + PINUSE][e := e - q]
    ensures JoinWords(m, n, q, e)
  {
  }

  lemma TopHead(m: Words, q: int, size: int)
    ensures FreedTopWords(m, m[q + HEAD := size + PINUSE], q, size)
  {
  }

  /** The victim as the first chunk of a segment. */
  lemma VictimFirst(h: Heap, i: nat)
    requires HeapOk(h, {}) && i < |h.segs| && SegAt(h.segs, i).base == h.dv
    ensures HeapOk(h.(dv := 0, dvsize := 0), {h.dv}) && h.dvsize >= MIN_CHUNK_SIZE && !Pinuse(h.Mem(), h.dv + h.dvsize)
    ensures JoinEnd(h.(dv := 0, dvsize := 0), {h.dv}, h.dv, h.dv + h.dvsize)
  {
    hide HeapOk, TagOk, Tiled, W;
    VictimFacts(h, {});
    BaseOdd(h, {}, i);
    HeldNonzero(h, {});
    DvOut(h, {});
    assert {} + {h.dv} == {h.dv};
    FreeFacts(h, {}, h.dv);
  }

  /** A first chunk that is neither the top chunk nor the victim: its CINUSE bit tells whether
      it is in use, and if not it is in a bin. */
  lemma FirstKinds(h: Heap, i: nat)
    requires HeapOk(h, {}) && i < |h.segs| && SegAt(h.segs, i).base != h.top && SegAt(h.segs, i).base != h.dv
    ensures var x := SegAt(h.segs, i).base;
            && x in h.lay && (Cinuse(h.Mem(), x) <==> Is(h.lay, x, Used))
            && (!Cinuse(h.Mem(), x) ==>
                  Is(h.lay, x, Free) && x in h.bins.held && h.bins.held[x] == SizeAt(h.lay, x)
                  && ChunkSize(W(h.Mem(), x + HEAD)) == SizeAt(h.lay, x))
  {
    hide HeapOk, TagOk, Tiled, W, ChunkSize, Tiling, TagsOk;
    var x := SegAt(h.segs, i).base;
    BaseOdd(h, {}, i);
    HeapTiling(h, {});
    KindBit(h, {}, x);
    if !Is(h.lay, x, Used) {
      TopOnly(h, {}, x);
      FreeHeld(h, {}, x);
    }
  }

  /** CINUSE marks the chunks in use. */
  lemma KindBit(h: Heap, limbo: set<int>, x: int)
    requires HeapOk(h, limbo) && x in h.lay && !Is(h.lay, x, Tail)
    ensures Cinuse(h.Mem(), x) <==> Is(h.lay, x, Used)
    ensures ChunkSize(W(h.Mem(), x + HEAD)) == SizeAt(h.lay, x)
  {
    hide BinsOk, NoOverlap, Chained, Segments, Places, W;
    assert ChunkOk(x, h.lay[x].size) && TagOk(h.Mem(), h.lay, x);
    CinuseBit(h.lay[x].size);
    AlignedHead(h.lay[x].size);
  }

  lemma CinuseBit(s: int)
    requires Aligned(s)
    ensures (s + PINUSE) / 2 % 2 == 0 && (s + CINUSE) / 2 % 2 == 1 && (s + CINUSE + PINUSE) / 2 % 2 == 1
  {
    var t := s / 8;
    Halved(t);
    Parity(2 * t);
  }

  lemma Halved(t: int)
    ensures (8 * t + 1) / 2 == 4 * t && (8 * t + 2) / 2 == 4 * t + 1 && (8 * t + 3) / 2 == 4 * t + 1
  {
  }

  lemma Parity(t: int)
    ensures (2 * t) % 2 == 0 && (2 * t + 1) % 2 == 1
  {
  }

  lemma FreeHeld(h: Heap, limbo: set<int>, x: int)
    requires HeapOk(h, limbo) && Is(h.lay, x, Free) && x != h.dv && x !in limbo
    ensures x in h.bins.held && h.bins.held[x] == SizeAt(h.lay, x)
  {
    hide BinsOk, Tiling, TagsOk;
  }

  /** The first chunk has left its bin. */
  lemma FirstOut(h: Heap, h0: Heap, b: BinState, x: int, live: set<int>)
    requires HeapOk(h0, {}) && Keeps(h.Mem(), h.lay, h0.Mem(), h0.lay, live) && LiveOk(h.lay, live)
    requires x in h0.bins.held && BinsOk(b) && b.held == h0.bins.held - {x} && Quiet(h0.Mem(), b.mem, h0.bins.held)
    ensures var h1 := h0.(bins := b);
            && HeapOk(h1, {x}) && Keeps(h.Mem(), h.lay, h1.Mem(), h1.lay, live) && LiveOk(h1.lay, live)
            && JoinEnd(h1, {x}, x, x + SizeAt(h1.lay, x)) && SizeAt(h1.lay, x) >= MIN_CHUNK_SIZE
  {
    hide HeapOk, BinsOk, Quiet, Keeps, LiveOk, Tiled, TagOk, W;
    KeptLive(h.Mem(), h.lay, h0.Mem(), h0.lay, live);
    LiveAreUsed(h0.lay, live);
    Unbinned(h0, {}, b, x, live);
    assert {} + {x} == {x};
    KeepsTrans(h.Mem(), h.lay, h0.Mem(), h0.lay, b.mem, h0.lay, live);
    FreeFacts(h0.(bins := b), {x}, x);
  }

  /** The block's head lies outside all link words. */
  lemma BlockStays(h: Heap, b: BinState, base: int, size: nat)
    requires HeapOk(h, {}) && Fresh(h.segs, base, size) && Quiet(h.Mem(), b.mem, h.bins.held)
    ensures Head(b.mem, base) == Head(h.Mem(), base)
  {
    hide HeapOk, W, Link;
    FreshOutside(h.segs, base, size, base + HEAD);
    if Link(h.bins.held, base + HEAD) {
      BlockNoLink(h, base + HEAD);
    }
  }

  lemma BlockNoLink(h: Heap, w: int)
    requires HeapOk(h, {}) && Link(h.bins.held, w) && w >= STATE_END
    ensures InSegment(h.segs, w)
  {
    hide HeapOk, W, Link, InSegment;
    BinWordIn(h, {}, w);
  }
}

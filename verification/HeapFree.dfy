/** Freeing a block: coalescing with the chunks before and after it. */
module HeapFree {
  import opened TreeIndex
  import opened HeapWords
  import opened Bins
  import opened HeapLayout
  import opened HeapTags
  import opened HeapState
  import opened HeapSteps
  import opened HeapSystem
  import opened HeapServe
  import opened HeapGrow

  /** Chunk p is being freed; the free chunk before it, if any, starts at a and is in limbo. */
  ghost predicate Back(g: Heap, limbo: set<int>, a: int, p: int) {
    && Is(g.lay, p, Used) && Pinuse(g.Mem(), a)
    && (if a == p then limbo == {} else limbo == {a} && Is(g.lay, a, Free) && Next(g.lay, a) == p)
  }

  /** The chunks to merge end at e: after p, or after the free chunk behind it, in limbo too. */
  ghost predicate Span(g: Heap, limbo: set<int>, a: int, p: int, e: int) {
    var y := Next(g.lay, p);
    && Is(g.lay, p, Used) && Pinuse(g.Mem(), a)
    && (a != p ==> Is(g.lay, a, Free) && Next(g.lay, a) == p)
    && (e != y ==> Is(g.lay, y, Free) && e == Next(g.lay, y))
    && limbo == (if a == p then {} else {a}) + (if e == y then {} else {y})
  }

  /** The blocks that stay, while p is being freed. */
  ghost predicate Others(h: Heap, g: Heap, live: set<int>, p: int) {
    Keeps(h.Mem(), h.lay, g.Mem(), g.lay, live) && LiveOk(h.lay, live) && p !in live
  }

  lemma OthersUsed(h: Heap, g: Heap, live: set<int>, p: int)
    requires Others(h, g, live, p)
    ensures LiveOk(g.lay, live) && forall q :: q in live ==> Is(g.lay, q, Used) && q != p
  {
    hide Keeps;
    KeptLive(h.Mem(), h.lay, g.Mem(), g.lay, live);
  }

  lemma OthersNext(h: Heap, g: Heap, g': Heap, live: set<int>, p: int)
    requires Others(h, g, live, p) && Keeps(g.Mem(), g.lay, g'.Mem(), g'.lay, live)
    ensures Others(h, g', live, p)
  {
    hide Keeps;
    KeepsTrans(h.Mem(), h.lay, g.Mem(), g.lay, g'.Mem(), g'.lay, live);
  }

  // ---------------------------------------------------------------- looking back

  /** The PINUSE bit tells whether the chunk before is free; if so its foot leads to it. */
  lemma BackFree(h: Heap, p: int)
    requires HeapOk(h, {}) && Is(h.lay, p, Used) && !Pinuse(h.Mem(), p)
    ensures var a := p - W(h.Mem(), p);
            && Is(h.lay, a, Free) && Next(h.lay, a) == p && SizeAt(h.lay, a) == W(h.Mem(), p) && Pinuse(h.Mem(), a)
            && a != p
            && (a != h.dv ==> a in h.bins.held && h.bins.held[a] == W(h.Mem(), p))
  {
    hide HeapOk, W, TagOk, Tiled, Tiling, TagsOk;
    UsedFacts(h, {}, p);
    PinuseOrFree(h.Mem(), h.lay, p);
    FreeFacts(h, {}, p - W(h.Mem(), p));
    if p - W(h.Mem(), p) != h.dv {
      FreeHeld(h, {}, p - W(h.Mem(), p));
    }
  }

  lemma BackBinned(h: Heap, b: BinState, a: int, p: int, live: set<int>)
    requires HeapOk(h, {}) && Is(h.lay, p, Used) && Is(h.lay, a, Free) && Next(h.lay, a) == p && a != p
             && LiveOk(h.lay, live) && p !in live
    requires a in h.bins.held && BinsOk(b) && b.held == h.bins.held - {a} && Quiet(h.Mem(), b.mem, h.bins.held)
    ensures var g := h.(bins := b); HeapOk(g, {a}) && Back(g, {a}, a, p) && Others(h, g, live, p)
  {
    hide HeapOk, BinsOk, Quiet, Keeps, LiveOk, TagOk, Tiled;
    LiveAreUsed(h.lay, live);
    Unbinned(h, {}, b, a, live);
    assert {} + {a} == {a};
    FreeFacts(h.(bins := b), {a}, a);
  }

  lemma BackVictim(h: Heap, p: int, live: set<int>)
    requires HeapOk(h, {}) && Is(h.lay, p, Used) && Is(h.lay, h.dv, Free) && Next(h.lay, h.dv) == p && h.dv != p
             && LiveOk(h.lay, live) && p !in live
    ensures var g := h.(dv := 0, dvsize := 0);
            HeapOk(g, {h.dv}) && Back(g, {h.dv}, h.dv, p) && Others(h, g, live, p) && h.dvsize != 0
  {
    hide HeapOk, TagOk, Tiled, LiveOk;
    VictimFacts(h, {});
    HeldNonzero(h, {});
    DvOut(h, {});
    assert {} + {h.dv} == {h.dv};
    FreeFacts(h, {}, h.dv);
    SelfKeeps(h.Mem(), h.lay, live);
  }

  lemma SelfKeeps(m: Words, l: Layout, live: set<int>)
    requires LiveOk(l, live)
    ensures Keeps(m, l, m, l, live)
  {
  }

  // ---------------------------------------------------------------- the merged chunk

  lemma SpanRegion(g: Heap, limbo: set<int>, a: int, p: int, e: int)
    requires HeapOk(g, limbo) && Span(g, limbo, a, p, e)
    ensures e in g.lay && Region(g, limbo, a, e, p)
  {
    hide HeapOk, TagOk, Tiled, Tiling, TagsOk, W;
    var y := Next(g.lay, p);
    UsedFacts(g, limbo, p);
    SpanStart(g, limbo, a, p);
    if e != y {
      FreeFacts(g, limbo, y);
    }
    forall x | x in g.lay && a <= x < e ensures x == p || x in limbo {
      HeapStep(g, limbo, a, x);
      HeapStep(g, limbo, p, x);
      if e != y {
        HeapStep(g, limbo, y, x);
      }
    }
    SpanSegment(g, limbo, a, p, e);
  }

  lemma SpanStart(g: Heap, limbo: set<int>, a: int, p: int)
    requires HeapOk(g, limbo) && Is(g.lay, p, Used) && (a != p ==> Is(g.lay, a, Free) && Next(g.lay, a) == p)
    ensures a in g.lay && a <= p && a >= STATE_END && !Is(g.lay, a, Tail)
  {
    hide HeapOk, TagOk, Tiled, W;
    UsedFacts(g, limbo, p);
    if a != p {
      FreeFacts(g, limbo, a);
    }
  }

  lemma SpanSegment(g: Heap, limbo: set<int>, a: int, p: int, e: int)
    requires HeapOk(g, limbo) && Span(g, limbo, a, p, e)
    ensures exists i :: 0 <= i < |g.segs| && g.segs[i].Holds(a) && e < g.segs[i].End()
  {
    hide BinsOk, Chunks, Chained, TagsOk, Places, SegmentOk, Pinuse;
    SpanStart(g, limbo, a, p);
    var i := Home(g.lay, g.segs, a);
    if a != p {
      NextHeld(g.lay, g.segs, a, i);
    }
    NextHeld(g.lay, g.segs, p, i);
    if e != Next(g.lay, p) {
      NextHeld(g.lay, g.segs, Next(g.lay, p), i);
    }
    assert g.segs[i].Holds(e);
  }

  lemma SpanLimbo(g: Heap, limbo: set<int>, a: int, p: int, e: int)
    requires Span(g, limbo, a, p, e) && a <= p && a < e && (e != Next(g.lay, p) ==> p < Next(g.lay, p) < e)
    ensures (set x | x in limbo && !(a <= x < e)) + {a} == {a}
  {
  }

  /** All of them become one free chunk. */
  lemma Coalesced(h: Heap, g: Heap, limbo: set<int>, n: Words, a: int, p: int, e: int, live: set<int>)
    requires HeapOk(g, limbo) && Span(g, limbo, a, p, e) && Is(g.lay, e, Used) && FreedWords(g.Mem(), n, a, e)
             && Others(h, g, live, p)
    ensures HeapOk(Freed(g, n, a, e), {a}) && Others(h, Freed(g, n, a, e), live, p)
    ensures a in Freed(g, n, a, e).lay && SizeAt(Freed(g, n, a, e).lay, a) == e - a && a < e
  {
    hide HeapOk, TagOk, Tiled, W, Region, Fuse, FreedWords, Keeps, Others, Span, Pinuse;
    SpanRegion(g, limbo, a, p, e);
    OthersUsed(h, g, live, p);
    FreedOk(g, limbo, n, a, e, p, live);
    SpanParts(g, limbo, a, p, e);
    SpanLimbo(g, limbo, a, p, e);
    FuseKeys(g.lay, a, e, Free);
    OthersNext(h, g, Freed(g, n, a, e), live, p);
  }

  lemma SpanParts(g: Heap, limbo: set<int>, a: int, p: int, e: int)
    requires HeapOk(g, limbo) && Span(g, limbo, a, p, e)
    ensures a <= p && a < e && (e != Next(g.lay, p) ==> p < Next(g.lay, p) < e)
  {
    hide HeapOk, TagOk, Tiled, W, Pinuse;
    SpanStart(g, limbo, a, p);
    UsedFacts(g, limbo, p);
    if e != Next(g.lay, p) {
      FreeFacts(g, limbo, Next(g.lay, p));
    }
  }

  /** All of them, with the top chunk behind, become the top chunk. */
  lemma CoalescedTop(h: Heap, g: Heap, limbo: set<int>, n: Words, a: int, p: int, live: set<int>)
    requires HeapOk(g, limbo) && Back(g, limbo, a, p) && Next(g.lay, p) == g.top && Others(h, g, live, p)
    requires FreedTopWords(g.Mem(), n, a, g.top + g.topsize - a)
    ensures HeapOk(FreedTop(g, n, a), {}) && Others(h, FreedTop(g, n, a), live, p)
  {
    hide HeapOk, TagOk, Tiled, W, Fuse, FreedTopWords, Keeps, Others, Pinuse, TopRegionOf;
    BackTopRegion(g, limbo, a, p);
    OthersUsed(h, g, live, p);
    FreedTopOk(g, limbo, n, a, p, live);
    SpanStart(g, limbo, a, p);
    UsedFacts(g, limbo, p);
    TopFacts(g, limbo);
    TopLimbo(limbo, a, g.top + g.topsize);
    OthersNext(h, g, FreedTop(g, n, a), live, p);
  }

  lemma TopLimbo(limbo: set<int>, a: int, e: int)
    requires a < e && (limbo == {} || limbo == {a})
    ensures (set x | x in limbo && !(a <= x < e)) == {}
  {
  }

  lemma BackTopRegion(g: Heap, limbo: set<int>, a: int, p: int)
    requires HeapOk(g, limbo) && Back(g, limbo, a, p) && Next(g.lay, p) == g.top
    ensures TopRegionOf(g, limbo, a, p)
  {
    hide HeapOk, TagOk, Tiled, Tiling, TagsOk, W, Pinuse;
    UsedFacts(g, limbo, p);
    SpanStart(g, limbo, a, p);
    TopFacts(g, limbo);
    var e := g.top + g.topsize;
    forall x | x in g.lay && a <= x < e ensures x == p || x in limbo || x == g.top {
      HeapStep(g, limbo, a, x);
      HeapStep(g, limbo, p, x);
      HeapStep(g, limbo, g.top, x);
    }
    BackTopSegment(g, limbo, a, p);
  }

  lemma BackTopSegment(g: Heap, limbo: set<int>, a: int, p: int)
    requires HeapOk(g, limbo) && Back(g, limbo, a, p) && Next(g.lay, p) == g.top
    ensures exists i :: 0 <= i < |g.segs| && g.segs[i].Holds(a) && g.top + g.topsize < g.segs[i].End()
  {
    hide BinsOk, Chunks, Chained, TagsOk, Places, SegmentOk, Pinuse, Tiled, TagOk, W;
    SpanStart(g, limbo, a, p);
    TopFacts(g, limbo);
    var i := Home(g.lay, g.segs, a);
    if a != p {
      NextHeld(g.lay, g.segs, a, i);
    }
    NextHeld(g.lay, g.segs, p, i);
    NextHeld(g.lay, g.segs, g.top, i);
    assert g.segs[i].Holds(g.top + g.topsize);
  }

  // ---------------------------------------------------------------- looking forward

  /** The chunk after a block: its CINUSE bit, and where it is if it is free. */
  lemma Forward(g: Heap, limbo: set<int>, a: int, p: int)
    requires HeapOk(g, limbo) && Back(g, limbo, a, p) && !Is(g.lay, Next(g.lay, p), Tail)
    ensures var y := Next(g.lay, p);
            && y in g.lay && (Cinuse(g.Mem(), y) <==> Is(g.lay, y, Used)) && (y == g.top <==> Is(g.lay, y, Top))
            && ChunkSize(W(g.Mem(), y + HEAD)) == SizeAt(g.lay, y) && Pinuse(g.Mem(), y) && y > p
            && (Is(g.lay, y, Free) && y != g.dv ==> y in g.bins.held && g.bins.held[y] == SizeAt(g.lay, y))
            && y !in limbo && y != 0
  {
    hide HeapOk, TagOk, Tiled, W, Tiling, TagsOk, ChunkSize, Pinuse;
    var y := Next(g.lay, p);
    UsedFacts(g, limbo, p);
    UsedBefore(g.Mem(), g.lay, p);
    KindBit(g, limbo, y);
    TopOnly(g, limbo, y);
    TopFacts(g, limbo);
    HeldNonzero(g, limbo);
    SpanStart(g, limbo, a, p);
    if Is(g.lay, y, Free) && y != g.dv {
      FreeHeld(g, limbo, y);
    }
  }

  lemma SpanUsed(g: Heap, limbo: set<int>, a: int, p: int)
    requires Back(g, limbo, a, p)
    ensures Span(g, limbo, a, p, Next(g.lay, p))
  {
  }

  lemma SpanFree(g: Heap, g': Heap, limbo: set<int>, a: int, p: int)
    requires Back(g, limbo, a, p) && Is(g.lay, Next(g.lay, p), Free) && g'.lay == g.lay && Pinuse(g'.Mem(), a)
             && SizeAt(g.lay, Next(g.lay, p)) > 0
    ensures Span(g', limbo + {Next(g.lay, p)}, a, p, Next(g.lay, Next(g.lay, p)))
  {
  }

  /** The chunk behind has left its bin. */
  lemma FrontBinned(h: Heap, g: Heap, limbo: set<int>, b: BinState, a: int, p: int, live: set<int>)
    requires HeapOk(g, limbo) && Back(g, limbo, a, p) && Others(h, g, live, p) && Is(g.lay, Next(g.lay, p), Free)
    requires var y := Next(g.lay, p);
             y in g.bins.held && BinsOk(b) && b.held == g.bins.held - {y} && Quiet(g.Mem(), b.mem, g.bins.held)
    ensures var y, g' := Next(g.lay, p), g.(bins := b);
            && HeapOk(g', limbo + {y}) && Span(g', limbo + {y}, a, p, Next(g.lay, y)) && Others(h, g', live, p)
            && Is(g'.lay, Next(g.lay, y), Used) && !Pinuse(g'.Mem(), Next(g.lay, y)) && SizeAt(g.lay, y) > 0
  {
    hide HeapOk, BinsOk, Quiet, Keeps, TagOk, Tiled, W, Others, Pinuse;
    var y, g' := Next(g.lay, p), g.(bins := b);
    OthersUsed(h, g, live, p);
    Unbinned(g, limbo, b, y, live);
    OthersNext(h, g, g', live, p);
    FreeFacts(g', limbo + {y}, y);
    if a == p {
      BackAlone(g, limbo, p);
    }
    BackPinuse(g', limbo + {y}, a, p);
    SpanFree(g, g', limbo, a, p);
  }

  /** The chunk before p still has the PINUSE bit it had. */
  lemma BackPinuse(g: Heap, limbo: set<int>, a: int, p: int)
    requires HeapOk(g, limbo) && Is(g.lay, p, Used) && (a != p ==> Is(g.lay, a, Free))
             && (a == p ==> NoFreeBefore(g, p))
    ensures Pinuse(g.Mem(), a)
  {
    hide HeapOk, TagOk, Tiled, W, Tiling, TagsOk;
    if a != p {
      FreeFacts(g, limbo, a);
    } else {
      UsedFacts(g, limbo, p);
      PinuseOrFree(g.Mem(), g.lay, p);
    }
  }

  ghost predicate NoFreeBefore(g: Heap, p: int) {
    forall b :: Is(g.lay, b, Free) ==> Next(g.lay, b) != p
  }

  lemma BackAlone(g: Heap, limbo: set<int>, p: int)
    requires HeapOk(g, limbo) && Is(g.lay, p, Used) && Pinuse(g.Mem(), p)
    ensures NoFreeBefore(g, p)
  {
    hide HeapOk, TagOk, Tiled, W;
    forall b | Is(g.lay, b, Free) ensures Next(g.lay, b) != p {
      FreeFacts(g, limbo, b);
    }
  }

  /** The chunk behind is the designated victim. */
  lemma FrontVictim(h: Heap, g: Heap, limbo: set<int>, a: int, p: int, live: set<int>)
    requires HeapOk(g, limbo) && Back(g, limbo, a, p) && Others(h, g, live, p) && Next(g.lay, p) == g.dv
    ensures var y, g' := Next(g.lay, p), g.(dv := 0, dvsize := 0);
            && HeapOk(g', limbo + {y}) && Span(g', limbo + {y}, a, p, Next(g.lay, y)) && Others(h, g', live, p)
            && Is(g'.lay, Next(g.lay, y), Used) && !Pinuse(g'.Mem(), Next(g.lay, y)) && SizeAt(g.lay, y) == g.dvsize > 0
            && Next(g.lay, y) == y + g.dvsize
  {
    hide HeapOk, Keeps, TagOk, Tiled, W, Pinuse, LiveOk;
    UsedFacts(g, limbo, p);
    VictimFacts(g, limbo);
    DvOut(g, limbo);
    FreeFacts(g, limbo, g.dv);
    SpanFree(g, g.(dv := 0, dvsize := 0), limbo, a, p);
  }

  // ---------------------------------------------------------------- the stores

  /** set_free_with_pinuse */
  lemma FreedClear(m: Words, n: Words, a: int, e: int)
    requires a + FD <= e && n == m[e + HEAD := ClearP(W(m, e + HEAD))][a + HEAD := e - a + PINUSE][e := e - a]
    ensures FreedWords(m, n, a, e)
  {
  }

  /** set_size_and_pinuse_of_free_chunk; the PINUSE bit after it is already clear. */
  lemma FreedStores(m: Words, n: Words, a: int, e: int)
    requires a + FD <= e && n == m[a + HEAD := e - a + PINUSE][e := e - a] && !Pinuse(m, e)
    ensures FreedWords(m, n, a, e)
  {
  }

  /** The merged chunk is in a bin again. */
  lemma FreeBinned(h: Heap, g: Heap, b: BinState, a: int, p: int, live: set<int>)
    requires HeapOk(g, {a}) && Others(h, g, live, p) && a in g.lay
    requires BinsOk(b) && b.held == g.bins.held[a := SizeAt(g.lay, a)] && Quiet(g.Mem(), b.mem, b.held)
    ensures HeapOk(g.(bins := b), {}) && Others(h, g.(bins := b), live, p)
  {
    hide HeapOk, BinsOk, Quiet, Keeps, Others;
    OthersUsed(h, g, live, p);
    Binned(g, {a}, b, a, live);
    assert {a} - {a} == {};
    OthersNext(h, g, g.(bins := b), live, p);
  }

  /** The merged chunk is the designated victim. */
  lemma FreeVictim(h: Heap, g: Heap, a: int, p: int, live: set<int>)
    requires HeapOk(g, {a}) && Others(h, g, live, p) && g.dvsize == 0
    ensures HeapOk(g.(dv := a, dvsize := SizeAt(g.lay, a)), {})
            && Others(h, g.(dv := a, dvsize := SizeAt(g.lay, a)), live, p)
  {
    hide HeapOk;
    DvIn(g, {a}, a);
    assert {a} - {a} == {};
  }

  lemma FreeRoom(g: Heap, a: int)
    requires HeapOk(g, {a})
    ensures BinsOk(g.bins) && a in g.lay && Room(g.bins.held, a, SizeAt(g.lay, a))
            && ChunkSize(W(g.Mem(), a + HEAD)) == SizeAt(g.lay, a)
  {
    hide HeapOk, W, Room, ChunkSize;
    RoomFor(g, {a}, a);
    HeapBins(g, {a});
  }

  // ---------------------------------------------------------------- writing to a block

  lemma BlockTags(m: Words, l: Layout, n: Words, q: int)
    requires Chunks(l) && Chained(l) && TagsOk(m, l) && Is(l, q, Used) && SameOutside(m, n, q + FD, Next(l, q))
    ensures TagsOk(n, l)
  {
    hide W, TagOk, Aligned;
    forall x | x in l ensures TagOk(n, l, x) {
      BlockTag(m, l, n, q, x);
    }
  }

  lemma BlockTag(m: Words, l: Layout, n: Words, q: int, x: int)
    requires Chunks(l) && Chained(l) && TagOk(m, l, x) && TagOk(m, l, q) && x in l && Is(l, q, Used)
    requires SameOutside(m, n, q + FD, Next(l, q))
    ensures TagOk(n, l, x)
  {
    hide W, Aligned;
    var y := Next(l, x);
    BlockHeads(m, l, n, q, x);
    if l[x].kind != Tail {
      BlockHeads(m, l, n, q, y);
    }
    SizeAligned(l, x);
    AlignedOdd(l[x].size);
    SizeAtLeast(l, q);
    if x != Next(l, q) {
      BlockFoot(l, q, x);
    }
    if y != Next(l, q) && y in l {
      BlockFoot(l, q, y);
    }
    OneBefore(l, q, x);
  }

  lemma OneBefore(l: Layout, q: int, x: int)
    requires NoOverlap(l) && InRange(l) && q in l && x in l
    ensures Next(l, x) == Next(l, q) ==> x == q
  {
    SizeAtLeast(l, x);
    SizeAtLeast(l, q);
    if x != q {
      Beside(l, x, q);
    }
  }

  lemma BlockFoot(l: Layout, q: int, x: int)
    requires NoOverlap(l) && q in l && x in l && x != Next(l, q)
    ensures x < q + FD || x > Next(l, q)
  {
    if x != q {
      Beside(l, x, q);
    }
  }

  lemma BlockHeads(m: Words, l: Layout, n: Words, q: int, x: int)
    requires Chunks(l) && q in l && x in l && SameOutside(m, n, q + FD, Next(l, q))
    ensures Head(n, x) == Head(m, x)
  {
    hide W, Aligned;
    SizeAtLeast(l, x);
    if x != q {
      Beside(l, x, q);
    }
  }

  /** Writing to the words of a block in use keeps the heap and all other blocks. */
  lemma BlockWritten(h: Heap, n: Words, q: int, live: set<int>)
    requires HeapOk(h, {}) && Is(h.lay, q, Used) && SameOutside(h.Mem(), n, q + FD, Next(h.lay, q))
    requires LiveOk(h.lay, live) && q !in live
    ensures HeapOk(h.(bins := h.bins.(mem := n)), {}) && Keeps(h.Mem(), h.lay, n, h.lay, live)
  {
    hide BinsOk, Segments, TagsOk, Places, W, Aligned, InRange, NoOverlap, Chained;
    BlockTags(h.Mem(), h.lay, n, q);
    BlockBins(h, n, q);
    PlacesMem(h, n);
    forall p | p in live ensures KeepsOne(h.Mem(), h.lay, n, h.lay, p) {
      assert Is(h.lay, p, Used) && p != q;
      Beside(h.lay, p, q);
    }
  }

  lemma PlacesMem(h: Heap, n: Words)
    requires Places(h, {})
    ensures Places(h.(bins := h.bins.(mem := n)), {})
  {
  }

  lemma BlockBins(h: Heap, n: Words, q: int)
    requires HeapOk(h, {}) && Is(h.lay, q, Used) && SameOutside(h.Mem(), n, q + FD, Next(h.lay, q))
    ensures BinsOk(h.bins.(mem := n))
  {
    hide BinsOk, Segments, TagsOk, W, Aligned, InRange, NoOverlap, Chained, FreePlaces, DvPlace, TopPlace, LimboPlaces;
    UsedHigh(h, q);
    forall c | c in h.bins.held ensures c + h.bins.held[c] <= q + HEAD || Next(h.lay, q) < c + HEAD {
      assert Is(h.lay, c, Free);
      Beside(h.lay, c, q);
    }
    BinsPatch(h.bins, n, q + HEAD, Next(h.lay, q));
  }

  lemma UsedHigh(h: Heap, q: int)
    requires HeapOk(h, {}) && q in h.lay
    ensures q >= STATE_END
  {
    hide BinsOk, Segments, TagsOk, Places, NoOverlap, Chained;
    assert ChunkOk(q, h.lay[q].size);
  }
}

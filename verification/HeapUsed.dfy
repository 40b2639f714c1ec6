/** Which chunks are in use: the blocks of the program, and the chunks of the allocator itself. */
module HeapUsed {
  import opened TreeIndex
  import opened HeapWords
  import opened Bins
  import opened HeapLayout
  import opened HeapTags
  import opened HeapState
  import opened HeapSteps
  import opened HeapSystem
  import opened HeapServe
  import opened HeapGrow
  import opened HeapFree

  ghost function UsedChunks(l: Layout): set<int> {
    set a | a in l && Is(l, a, Used)
  }

  /** The chunks in use are the blocks and the system chunks, and no chunk is both: nothing
      leaks. */
  ghost predicate Accounted(l: Layout, blocks: set<int>, system: set<int>) {
    UsedChunks(l) == blocks + system && blocks !! system
  }

  /** The bytes from a up to e are free again: they lie in one free chunk or the top chunk. */
  ghost predicate Reclaimed(l: Layout, a: int, e: int) {
    exists c :: (Is(l, c, Free) || Is(l, c, Top)) && c <= a && e <= Next(l, c)
  }

  lemma AccountedNew(l: Layout, k: Layout, blocks: set<int>, system: set<int>, p: int)
    requires Accounted(l, blocks, system) && !Is(l, p, Used) && UsedChunks(k) == UsedChunks(l) + {p}
    ensures Accounted(k, blocks + {p}, system) && Accounted(k, blocks, system + {p})
  {
    assert p !in UsedChunks(l);
  }

  lemma AccountedGone(l: Layout, k: Layout, blocks: set<int>, system: set<int>, p: int)
    requires Accounted(l, blocks + {p}, system) && p !in blocks && UsedChunks(k) == UsedChunks(l) - {p}
    ensures Accounted(k, blocks, system)
  {
  }

  lemma AccountedSame(l: Layout, k: Layout, blocks: set<int>, system: set<int>)
    requires Accounted(l, blocks, system) && UsedChunks(k) == UsedChunks(l)
    ensures Accounted(k, blocks, system)
  {
  }

  // ---------------------------------------------------------------- serving a request

  lemma WholeAccounted(l: Layout, blocks: set<int>, system: set<int>, p: int, s: nat)
    requires Accounted(l, blocks, system) && Is(l, p, Free)
    ensures Accounted(l[p := Tag(s, Used)], blocks + {p}, system)
  {
    AccountedNew(l, l[p := Tag(s, Used)], blocks, system, p);
  }

  lemma NothingInside(h: Heap, limbo: set<int>, p: int, n: int)
    requires HeapOk(h, limbo) && p in h.lay && 0 < n < SizeAt(h.lay, p)
    ensures p + n !in h.lay
  {
    hide BinsOk, InRange, Chained, Segments, TagsOk, Places;
  }

  lemma CutAccounted(h: Heap, limbo: set<int>, blocks: set<int>, system: set<int>, p: int, n: nat, k: Kind)
    requires HeapOk(h, limbo) && Accounted(h.lay, blocks, system)
    requires p in h.lay && h.lay[p].kind != Used && k != Used && 0 < n < SizeAt(h.lay, p)
    ensures Accounted(Cut(h.lay, p, n, Used, k), blocks + {p}, system)
  {
    hide HeapOk;
    NothingInside(h, limbo, p, n);
    AccountedNew(h.lay, Cut(h.lay, p, n, Used, k), blocks, system, p);
  }

  /** A block in use is cut in two. */
  lemma ShrunkAccounted(h: Heap, blocks: set<int>, system: set<int>, p: int, n: nat)
    requires HeapOk(h, {}) && Accounted(h.lay, blocks, system) && Is(h.lay, p, Used) && 0 < n < SizeAt(h.lay, p)
    ensures Accounted(Cut(h.lay, p, n, Used, Used), blocks + {p + n}, system)
  {
    hide HeapOk;
    NothingInside(h, {}, p, n);
    AccountedNew(h.lay, Cut(h.lay, p, n, Used, Used), blocks, system, p + n);
  }

  lemma GrownAccounted(h: Heap, blocks: set<int>, system: set<int>, p: int, nb: nat)
    requires HeapOk(h, {}) && Accounted(h.lay, blocks, system) && BeforeTop(h, p, nb)
    ensures Accounted(GrownLay(h.lay, p, h.top + h.topsize, nb), blocks, system)
  {
    hide HeapOk, Aligned, GrownLay, Tiled, TagOk, Tiling, TagsOk;
    TopFacts(h, {});
    HeapTiling(h, {});
    TilingParts(h.lay, h.segs);
    UsedFacts(h, {}, p);
    var e := h.top + h.topsize;
    var k := GrownLay(h.lay, p, e, nb);
    forall x ensures Is(k, x, Used) <==> Is(h.lay, x, Used) {
      GrownKeys(h.lay, p, e, nb, x);
      if x in h.lay && p <= x < e {
        HeapStep(h, {}, p, x);
        HeapStep(h, {}, h.top, x);
      }
    }
    AccountedSame(h.lay, k, blocks, system);
  }

  // ---------------------------------------------------------------- merging

  lemma FusedUsed(l: Layout, a: int, e: int, k: Kind, p: int)
    requires a <= p < e && k != Used && forall x :: Is(l, x, Used) && a <= x < e ==> x == p
    ensures UsedChunks(Fuse(l, a, e, k)) == UsedChunks(l) - {p}
  {
    hide Fuse;
    FuseKeys(l, a, e, k);
  }

  lemma FusedReclaimed(l: Layout, a: int, e: int, k: Kind, p: int)
    requires a <= p < e && Next(l, p) <= e && (k == Free || k == Top)
    ensures Reclaimed(Fuse(l, a, e, k), p, Next(l, p))
  {
    hide Fuse;
    FuseKeys(l, a, e, k);
    assert Is(Fuse(l, a, e, k), a, k);
  }

  lemma RegionUsed(g: Heap, limbo: set<int>, a: int, e: int, p: int)
    requires HeapOk(g, limbo) && Region(g, limbo, a, e, p)
    ensures UsedChunks(Fuse(g.lay, a, e, Free)) == UsedChunks(g.lay) - {p}
  {
    hide BinsOk, Tiling, TagsOk, HeldPlaces, FreePlaces, DvPlace, TopPlace, Pinuse;
    FusedUsed(g.lay, a, e, Free, p);
  }

  lemma TopRegionUsed(g: Heap, limbo: set<int>, a: int, p: int)
    requires HeapOk(g, limbo) && TopRegionOf(g, limbo, a, p) && g.topsize > 0
    ensures UsedChunks(Fuse(g.lay, a, g.top + g.topsize, Top)) == UsedChunks(g.lay) - {p}
  {
    hide BinsOk, Tiling, TagsOk, HeldPlaces, FreePlaces, DvPlace, Pinuse;
    FusedUsed(g.lay, a, g.top + g.topsize, Top, p);
  }

  /** The chunks merged around p become one free chunk. */
  lemma SpanAccounted(g: Heap, limbo: set<int>, a: int, p: int, e: int, blocks: set<int>, system: set<int>)
    requires HeapOk(g, limbo) && Span(g, limbo, a, p, e) && Accounted(g.lay, blocks + {p}, system) && p !in blocks
    ensures Accounted(Fuse(g.lay, a, e, Free), blocks, system) && Reclaimed(Fuse(g.lay, a, e, Free), p, Next(g.lay, p))
  {
    hide HeapOk, Region, Fuse, Span, Accounted, Reclaimed, TagOk, Tiled, UsedChunks;
    SpanRegion(g, limbo, a, p, e);
    RegionUsed(g, limbo, a, e, p);
    AccountedGone(g.lay, Fuse(g.lay, a, e, Free), blocks, system, p);
    SpanParts(g, limbo, a, p, e);
    SpanEnd(g, limbo, a, p, e);
    FusedReclaimed(g.lay, a, e, Free, p);
  }

  lemma SpanEnd(g: Heap, limbo: set<int>, a: int, p: int, e: int)
    requires HeapOk(g, limbo) && Span(g, limbo, a, p, e)
    ensures p < Next(g.lay, p) <= e
  {
    hide HeapOk, TagOk, Tiled, W, Pinuse;
    UsedFacts(g, limbo, p);
    if e != Next(g.lay, p) {
      FreeFacts(g, limbo, Next(g.lay, p));
    }
  }

  /** The same with the top chunk behind. */
  lemma TopAccounted(g: Heap, limbo: set<int>, a: int, p: int, blocks: set<int>, system: set<int>)
    requires HeapOk(g, limbo) && Back(g, limbo, a, p) && Next(g.lay, p) == g.top
    requires Accounted(g.lay, blocks + {p}, system) && p !in blocks
    ensures var k := Fuse(g.lay, a, g.top + g.topsize, Top);
            Accounted(k, blocks, system) && Reclaimed(k, p, Next(g.lay, p))
  {
    hide HeapOk, TopRegionOf, Fuse, Accounted, Reclaimed, TagOk, Tiled, UsedChunks, W, Pinuse;
    BackTopRegion(g, limbo, a, p);
    TopFacts(g, limbo);
    TopRegionUsed(g, limbo, a, p);
    AccountedGone(g.lay, Fuse(g.lay, a, g.top + g.topsize, Top), blocks, system, p);
    SpanStart(g, limbo, a, p);
    UsedFacts(g, limbo, p);
    FusedReclaimed(g.lay, a, g.top + g.topsize, Top, p);
  }

  // ---------------------------------------------------------------- memory from the system

  lemma OpenedUsed(l: Layout, base: int, size: nat, nb: nat)
    requires 0 < nb < size && base !in l && base + nb !in l
    ensures UsedChunks(OpenedLay(l, base, size, nb)) == UsedChunks(l) + {base} + {base + nb}
  {
    hide OpenedLay;
    var k := OpenedLay(l, base, size, nb);
    forall x ensures x in UsedChunks(k) <==> x in UsedChunks(l) + {base} + {base + nb} {
      OpenedAt(l, base, size, nb, x);
    }
  }

  lemma OpenedAccounted(h: Heap, limbo: set<int>, base: int, size: nat, nb: nat, blocks: set<int>, system: set<int>,
                        k: Layout)
    requires HeapOk(h, limbo) && Fresh(h.segs, base, size) && 0 < nb < size && Accounted(h.lay, blocks, system)
    requires UsedChunks(k) == UsedChunks(OpenedLay(h.lay, base, size, nb)) - {base + nb}
    ensures Accounted(k, blocks + {base}, system)
  {
    hide HeapOk, Fresh, OpenedLay, Accounted;
    OpenedNew(h, limbo, base, size, nb);
    OpenedUsed(h.lay, base, size, nb);
    AccountedNew(h.lay, k, blocks, system, base);
  }

  /** New memory before a segment: the block is new, the rest joins a free chunk. */
  lemma JoinedAccounted(h: Heap, limbo: set<int>, i: nat, base: int, size: nat, nb: nat, e: int,
                        live: set<int>, blocks: set<int>, system: set<int>)
    requires HeapOk(h, limbo) && Fresh(h.segs, base, size) && i < |h.segs| && SegAt(h.segs, i).base == base + size
    requires Splits(size, nb) && JoinEnd(h, limbo, base + size, e) && LiveOk(h.lay, live)
    requires Accounted(h.lay, blocks, system)
    ensures Accounted(Fuse(OpenedLay(h.lay, base, size, nb), base + nb, e, Free), blocks + {base}, system)
  {
    hide HeapOk, Fresh, Aligned, Opened, OpenedLay, Region, Fuse, JoinEnd, Accounted, Keeps, UsedChunks;
    var g := Opened(h, i, base, size, nb);
    OpenedOk(h, limbo, i, base, size, nb, live);
    JoinRegion(h, limbo, i, base, size, nb, e);
    RegionUsed(g, limbo, base + nb, e, base + nb);
    OpenedAccounted(h, limbo, base, size, nb, blocks, system, Fuse(g.lay, base + nb, e, Free));
  }

  lemma JoinedTopAccounted(h: Heap, i: nat, base: int, size: nat, nb: nat, live: set<int>, blocks: set<int>,
                           system: set<int>)
    requires HeapOk(h, {}) && Fresh(h.segs, base, size) && i < |h.segs| && SegAt(h.segs, i).base == base + size
    requires Splits(size, nb) && h.top == base + size && LiveOk(h.lay, live) && Accounted(h.lay, blocks, system)
    ensures Accounted(Fuse(OpenedLay(h.lay, base, size, nb), base + nb, h.top + h.topsize, Top), blocks + {base},
                      system)
  {
    hide HeapOk, Fresh, Aligned, Opened, OpenedLay, TopRegionOf, Fuse, Accounted, Keeps, UsedChunks, TagOk, Tiled;
    var g := Opened(h, i, base, size, nb);
    OpenedOk(h, {}, i, base, size, nb, live);
    OpenedFields(h, i, base, size, nb);
    JoinTopRegion(h, i, base, size, nb);
    TopFacts(h, {});
    TopRegionUsed(g, {}, base + nb, base + nb);
    OpenedAccounted(h, {}, base, size, nb, blocks, system, Fuse(g.lay, base + nb, h.top + h.topsize, Top));
  }

  lemma AppendedAccounted(h: Heap, size: nat, blocks: set<int>, system: set<int>)
    requires HeapOk(h, {}) && size > 0 && Accounted(h.lay, blocks, system)
    requires h.top + h.topsize + size !in h.lay
    ensures Accounted(AppendLay(h.lay, h.top, h.top + h.topsize, size), blocks, system)
  {
    hide HeapOk, AppendLay, Tiled, TagOk;
    TopFacts(h, {});
    var e := h.top + h.topsize;
    var k := AppendLay(h.lay, h.top, e, size);
    forall x ensures Is(k, x, Used) <==> Is(h.lay, x, Used) {
      AppendKeys(h.lay, h.top, e, size, x);
    }
    AccountedSame(h.lay, k, blocks, system);
  }

  lemma AppendEnd(h: Heap, i: nat, size: nat)
    requires HeapOk(h, {}) && Appendable(h, i, size)
    ensures h.top + h.topsize + size !in h.lay && size > 0
  {
    hide HeapOk, Tiled, TagOk;
    TopFacts(h, {});
    if h.top + h.topsize + size in h.lay {
      AppendApart(h, {}, i, size, h.top + h.topsize + size);
      AppendSize(h, {}, h.top + h.topsize + size);
    }
  }

  /** The segment record is the one new chunk in use. */
  lemma AddedAccounted(h: Heap, base: int, size: nat, blocks: set<int>, system: set<int>, r: int)
    requires HeapOk(h, {}) && Fresh(h.segs, base, size) && Accounted(h.lay, blocks, system)
    requires r == if h.topsize >= MIN_CHUNK_SIZE then h.top + h.topsize else h.top
    ensures Accounted(Retired(Widened(h.lay, base, size), h.top, h.topsize), blocks, system + {r})
  {
    hide HeapOk, Fresh, Widened, Retired, Accounted;
    TopFacts(h, {});
    var k := Retired(Widened(h.lay, base, size), h.top, h.topsize);
    forall x ensures Is(k, x, Used) <==> Is(h.lay, x, Used) || x == r {
      AddedUsed(h, base, size, r, x);
    }
    AccountedNew(h.lay, k, blocks, system, r);
  }

  lemma AddedUsed(h: Heap, base: int, size: nat, r: int, x: int)
    requires HeapOk(h, {}) && Fresh(h.segs, base, size)
    requires r == if h.topsize >= MIN_CHUNK_SIZE then h.top + h.topsize else h.top
    ensures Is(Retired(Widened(h.lay, base, size), h.top, h.topsize), x, Used) <==> Is(h.lay, x, Used) || x == r
  {
    hide HeapOk, Fresh, Widened, Retired, OldTop, Tiling, TagsOk, Tiled, TagOk, NoOverlap, InRange, Chained;
    TopFacts(h, {});
    HeapTiling(h, {});
    AddedOldTop(h, {}, base, size);
    AddedTiling(h, {}, base, size);
    var l := Widened(h.lay, base, size);
    TilingParts(l, [Segment(base, size)] + h.segs);
    RetiredKeys(l, h.top, h.topsize, x);
    WidenedKeys(h.lay, h.segs, base, size, x);
    WidenedKeys(h.lay, h.segs, base, size, h.top);
    OldTopKinds(l, h.top, h.topsize);
  }

  lemma RecordNew(h: Heap, blocks: set<int>, system: set<int>, r: int)
    requires HeapOk(h, {}) && Accounted(h.lay, blocks, system)
    requires r == h.top || r == h.top + h.topsize
    ensures r !in system && |system + {r}| == |system| + 1
  {
    hide HeapOk, Tiled, TagOk;
    TopFacts(h, {});
    assert r !in UsedChunks(h.lay);
  }

  lemma OldTopKinds(l: Layout, a: int, s: nat)
    requires OldTop(l, a, s)
    ensures Is(l, a, Top) && Is(l, a + s, Tail)
  {
  }
}

/** What it takes to serve a request: from a bin, the designated victim or the top chunk. */
module HeapServe {
  import opened TreeIndex
  import opened HeapWords
  import opened Bins
  import opened HeapLayout
  import opened HeapTags
  import opened HeapState
  import opened HeapSteps

  const MAX_REQUEST: nat := WORD - 128
  const MIN_REQUEST: nat := 23
  const MAX_SMALL_REQUEST: nat := 240
  const MAX_SIZE_T: nat := WORD - 1
  const GRANULARITY: nat := 0x2_0000

  /** pad_request: room for the head, rounded up to a multiple of 8. */
  function PadRequest(n: nat): nat { (n + 15) / 8 * 8 }

  /** The chunk size for a request; the largest word when it is too big. */
  function ChunkFor(n: nat): nat {
    if n >= MAX_REQUEST then MAX_SIZE_T
    else if n < MIN_REQUEST then MIN_CHUNK_SIZE
    else PadRequest(n)
  }

  lemma ChunkForFits(n: nat)
    requires n < MAX_REQUEST
    ensures var nb := ChunkFor(n);
            Aligned(nb) && nb >= MIN_CHUNK_SIZE && n + 8 <= nb < WORD && (nb < n + 16 || nb == MIN_CHUNK_SIZE)
              && (n <= MAX_SMALL_REQUEST <==> nb < MIN_LARGE_SIZE)
  {
  }

  /** A chunk for a block of n bytes: room for the block and the head, and no more to spare than
      alignment and a part too small for a chunk. */
  predicate Snug(size: nat, n: nat) {
    && ChunkFor(n) <= size < ChunkFor(n) + MIN_CHUNK_SIZE
    && n + 8 <= size && (size < n + 16 + MIN_CHUNK_SIZE || size < 2 * MIN_CHUNK_SIZE)
  }

  lemma SnugRoom(size: nat, n: nat)
    requires Snug(size, n)
    ensures ChunkFor(n) <= size
  {
  }

  lemma SnugFits(size: nat, n: nat)
    requires n < MAX_REQUEST && ChunkFor(n) <= size < ChunkFor(n) + MIN_CHUNK_SIZE
    ensures Snug(size, n)
  {
  }

  /** The amount of memory asked of the system for a chunk of nb bytes, in 64-bit words. */
  function SysSize(nb: nat): nat {
    var req := (nb + TOP_FOOT_SIZE + 1) % WORD;
    (req + GRANULARITY - 1) % WORD / GRANULARITY * GRANULARITY
  }

  /** The check against wrap-around is enough: it fails exactly when the sums do not fit in a word,
      and otherwise the least multiple of the granularity with room for the chunk, the foot of the
      segment and one byte is asked for. */
  lemma SysSizeFits(nb: nat)
    requires nb < WORD
    ensures SysSize(nb) > nb <==> nb + TOP_FOOT_SIZE + GRANULARITY < WORD
    ensures SysSize(nb) > nb ==>
              && nb + TOP_FOOT_SIZE + 1 <= SysSize(nb) < nb + TOP_FOOT_SIZE + 1 + GRANULARITY
              && SysSize(nb) % GRANULARITY == 0 && Aligned(SysSize(nb))
  {
    hide Aligned;
    var req := (nb + TOP_FOOT_SIZE + 1) % WORD;
    var up := (req + GRANULARITY - 1) % WORD;
    Wraps(nb + TOP_FOOT_SIZE + 1);
    Wraps(req + GRANULARITY - 1);
    RoundedDown(up);
  }

  lemma RoundedDown(x: nat)
    ensures x - GRANULARITY < x / GRANULARITY * GRANULARITY <= x && Aligned(x / GRANULARITY * GRANULARITY)
    ensures x / GRANULARITY * GRANULARITY % GRANULARITY == 0
  {
  }

  lemma Wraps(x: nat)
    requires x < 2 * WORD
    ensures x % WORD == if x < WORD then x else x - WORD
  {
  }

  /** Blocks in the hands of the program: in use, and not at the end of a segment. */
  ghost predicate LiveOk(l: Layout, live: set<int>) {
    forall p :: p in live ==> Is(l, p, Used) && !Is(l, Next(l, p), Tail)
  }

  /** A new block at p of nb bytes, or a few more that would make no chunk; every block there
      was stays as it is. */
  ghost predicate Serving(h: Heap, g: Heap, limbo: set<int>, live: set<int>, p: int, nb: nat) {
    && HeapOk(g, limbo) && Keeps(h.Mem(), h.lay, g.Mem(), g.lay, live)
    && Is(g.lay, p, Used) && p !in live && nb <= SizeAt(g.lay, p) < nb + MIN_CHUNK_SIZE
    && !Is(g.lay, Next(g.lay, p), Tail)
  }

  lemma KeptLive(m: Words, l: Layout, n: Words, k: Layout, live: set<int>)
    requires Keeps(m, l, n, k, live) && LiveOk(l, live)
    ensures LiveOk(k, live)
  {
    hide W;
    forall p | p in live ensures Is(k, p, Used) && !Is(k, Next(k, p), Tail) {
      assert KeepsOne(m, l, n, k, p);
    }
  }

  // ---------------------------------------------------------------- from a bin

  lemma WholeFromBin(h: Heap, b: BinState, x: int, nb: nat, live: set<int>)
    requires HeapOk(h, {}) && LiveOk(h.lay, live) && x in h.bins.held
    requires nb <= h.bins.held[x] < nb + MIN_CHUNK_SIZE
    requires BinsOk(b) && b.held == h.bins.held - {x} && Quiet(h.Mem(), b.mem, h.bins.held)
    ensures Is(h.lay, x, Free) && SizeAt(h.lay, x) == h.bins.held[x]
    ensures Serving(h, UsedWhole(h.(bins := b), x), {}, live, x, nb)
  {
    hide HeapOk, BinsOk, Quiet, Keeps, UsedWhole;
    Unbinned(h, {}, b, x, live);
    var h1 := h.(bins := b);
    assert {} + {x} == {x} && {x} - {x} == {};
    FreeFacts(h1, {x}, x);
    UsedWholeOk(h1, {x}, x, live);
    KeepsTrans(h.Mem(), h.lay, h1.Mem(), h1.lay, UsedWhole(h1, x).Mem(), UsedWhole(h1, x).lay, live);
    WholeLay(h1, x);
  }

  lemma WholeLay(h: Heap, x: int)
    requires Is(h.lay, x, Free) && Is(h.lay, Next(h.lay, x), Used)
    ensures var g := UsedWhole(h, x);
            Is(g.lay, x, Used) && SizeAt(g.lay, x) == SizeAt(h.lay, x) && Is(g.lay, Next(g.lay, x), Used)
  {
    hide WholeMem;
  }

  lemma PartLay(h: Heap, x: int, nb: nat)
    requires Is(h.lay, x, Free) && 0 < nb < SizeAt(h.lay, x)
    ensures var g := UsedPart(h, x, nb);
            && Is(g.lay, x, Used) && SizeAt(g.lay, x) == nb && Is(g.lay, x + nb, Free) && Next(g.lay, x) == x + nb
            && SizeAt(g.lay, x + nb) == SizeAt(h.lay, x) - nb
  {
    hide SplitMem;
  }

  lemma PartFromBin(h: Heap, b: BinState, x: int, nb: nat, live: set<int>)
    requires HeapOk(h, {}) && LiveOk(h.lay, live) && x in h.bins.held && Splits(h.bins.held[x], nb)
    requires BinsOk(b) && b.held == h.bins.held - {x} && Quiet(h.Mem(), b.mem, h.bins.held)
    ensures Is(h.lay, x, Free) && SizeAt(h.lay, x) == h.bins.held[x]
    ensures Serving(h, UsedPart(h.(bins := b), x, nb), {x + nb}, live, x, nb)
    ensures SizeAt(UsedPart(h.(bins := b), x, nb).lay, x + nb) == h.bins.held[x] - nb
  {
    hide HeapOk, BinsOk, Quiet, Keeps, UsedPart, Aligned;
    Unbinned(h, {}, b, x, live);
    var h1 := h.(bins := b);
    assert {} + {x} == {x} && {x} - {x} + {x + nb} == {x + nb};
    UsedPartOk(h1, {x}, x, nb, live);
    KeepsTrans(h.Mem(), h.lay, h1.Mem(), h1.lay, UsedPart(h1, x, nb).Mem(), UsedPart(h1, x, nb).lay, live);
    PartLay(h1, x, nb);
  }

  /** The chunk in limbo goes to a bin. */
  lemma RestBinned(h: Heap, g: Heap, rest: set<int>, live: set<int>, p: int, nb: nat, r: int, b: BinState)
    requires Serving(h, g, rest + {r}, live, p, nb) && r !in rest && LiveOk(h.lay, live)
    requires BinsOk(b) && r in g.lay && b.held == g.bins.held[r := SizeAt(g.lay, r)] && Quiet(g.Mem(), b.mem, b.held)
    ensures Serving(h, g.(bins := b), rest, live, p, nb)
  {
    hide HeapOk, BinsOk, Quiet, Keeps;
    KeptLive(h.Mem(), h.lay, g.Mem(), g.lay, live);
    Binned(g, rest + {r}, b, r, live);
    assert rest + {r} - {r} == rest;
    KeepsTrans(h.Mem(), h.lay, g.Mem(), g.lay, b.mem, g.lay, live);
  }

  lemma RestRoom(h: Heap, g: Heap, limbo: set<int>, live: set<int>, p: int, nb: nat, r: int)
    requires Serving(h, g, limbo, live, p, nb) && r in limbo
    ensures BinsOk(g.bins) && r in g.lay && Room(g.bins.held, r, SizeAt(g.lay, r))
            && ChunkSize(W(g.Mem(), r + HEAD)) == SizeAt(g.lay, r)
  {
    hide HeapOk, Keeps, W, Room, ChunkSize;
    RoomFor(g, limbo, r);
    HeapBins(g, limbo);
  }

  lemma HeapBins(g: Heap, limbo: set<int>)
    requires HeapOk(g, limbo)
    ensures BinsOk(g.bins)
  {
    hide BinsOk, Tiling, TagsOk, Places;
  }

  /** The old designated victim is given up. */
  lemma VictimOut(h: Heap, g: Heap, limbo: set<int>, live: set<int>, p: int, nb: nat)
    requires Serving(h, g, limbo, live, p, nb) && g.dvsize != 0
    ensures Serving(h, g.(dv := 0, dvsize := 0), limbo + {g.dv}, live, p, nb) && g.dv !in limbo && g.dv in g.lay
            && SizeAt(g.lay, g.dv) == g.dvsize
  {
    hide HeapOk, Keeps;
    DvOut(g, limbo);
    VictimFacts(g, limbo);
  }

  lemma VictimFacts(g: Heap, limbo: set<int>)
    requires HeapOk(g, limbo)
    ensures g.dvsize != 0 ==>
              Is(g.lay, g.dv, Free) && SizeAt(g.lay, g.dv) == g.dvsize && g.dv !in limbo && g.dv !in g.bins.held
    ensures g.dvsize == 0 ==> g.dv == 0
  {
    hide BinsOk, Tiling, TagsOk;
  }

  /** The chunk in limbo becomes the designated victim. */
  lemma VictimIn(h: Heap, g: Heap, live: set<int>, p: int, nb: nat, r: int)
    requires Serving(h, g, {r}, live, p, nb) && g.dvsize == 0
    ensures Serving(h, g.(dv := r, dvsize := SizeAt(g.lay, r)), {}, live, p, nb)
  {
    hide HeapOk, Keeps;
    DvIn(g, {r}, r);
    assert {r} - {r} == {};
  }

  // ---------------------------------------------------------------- from the victim or the top

  lemma PartOfVictim(h: Heap, nb: nat, live: set<int>)
    requires HeapOk(h, {}) && LiveOk(h.lay, live) && Splits(h.dvsize, nb)
    ensures var g := UsedPart(h.(dv := 0, dvsize := 0), h.dv, nb);
            && Serving(h, g.(dv := h.dv + nb, dvsize := h.dvsize - nb), {}, live, h.dv, nb)
            && SizeAt(h.lay, h.dv) == h.dvsize
  {
    hide HeapOk, Keeps, UsedPart, Aligned;
    VictimFacts(h, {});
    DvOut(h, {});
    var h1, x := h.(dv := 0, dvsize := 0), h.dv;
    assert {} + {x} == {x} && {x} - {x} + {x + nb} == {x + nb} && {x + nb} - {x + nb} == {};
    UsedPartOk(h1, {x}, x, nb, live);
    PartLay(h1, x, nb);
    PartFields(h1, x, nb);
    DvIn(UsedPart(h1, x, nb), {x + nb}, x + nb);
  }

  lemma PartFields(h: Heap, x: int, nb: nat)
    ensures var g := UsedPart(h, x, nb);
            g.dvsize == h.dvsize && g.dv == h.dv && g.top == h.top && g.topsize == h.topsize && g.segs == h.segs
  {
  }

  lemma WholeVictim(h: Heap, nb: nat, live: set<int>)
    requires HeapOk(h, {}) && LiveOk(h.lay, live) && 0 < nb <= h.dvsize < nb + MIN_CHUNK_SIZE
    ensures Serving(h, UsedWhole(h.(dv := 0, dvsize := 0), h.dv), {}, live, h.dv, nb)
            && SizeAt(h.lay, h.dv) == h.dvsize
  {
    hide HeapOk, Keeps, UsedWhole;
    VictimFacts(h, {});
    DvOut(h, {});
    var h1, x := h.(dv := 0, dvsize := 0), h.dv;
    assert {} + {x} == {x} && {x} - {x} == {};
    UsedWholeOk(h1, {x}, x, live);
    FreeFacts(h1, {x}, x);
    WholeLay(h1, x);
  }

  lemma PartOfTop(h: Heap, nb: nat, live: set<int>)
    requires HeapOk(h, {}) && LiveOk(h.lay, live) && MIN_CHUNK_SIZE <= nb < h.topsize && Aligned(nb)
    ensures Serving(h, UsedTop(h, nb), {}, live, h.top, nb)
  {
    hide HeapOk, Keeps, UsedTop, Aligned, LiveOk, Tiled, TagOk, Pinuse, W;
    TopFacts(h, {});
    TopUnused(h, live);
    UsedTopOk(h, {}, nb, live);
    TopLay(h, nb);
  }

  lemma TopUnused(h: Heap, live: set<int>)
    requires LiveOk(h.lay, live) && Is(h.lay, h.top, Top)
    ensures h.top !in live && forall p :: p in live ==> Is(h.lay, p, Used)
  {
  }

  lemma TopLay(h: Heap, nb: nat)
    requires Is(h.lay, h.top, Top) && 0 < nb < h.topsize
    ensures var g := UsedTop(h, nb);
            Is(g.lay, h.top, Used) && SizeAt(g.lay, h.top) == nb && Is(g.lay, h.top + nb, Top)
              && Next(g.lay, h.top) == h.top + nb
  {
    hide TopSplitMem;
  }
}

/** The heap invariant, and what each rewriting of boundary tags does to it. */
module HeapState {
  import opened TreeIndex
  import opened HeapWords
  import opened Bins
  import opened HeapLayout
  import opened HeapTags

  datatype Heap = Heap(bins: BinState, lay: Layout, segs: seq<Segment>, dv: int, dvsize: nat, top: int, topsize: nat)
  {
    function Mem(): Words { bins.mem }
  }

  /** Every free chunk is in a bin, or is the designated victim, or is in the hands of the
      operation under way (limbo); the top chunk is unique. */
  ghost predicate HeldPlaces(h: Heap, limbo: set<int>) {
    forall a :: a in h.bins.held ==>
      Is(h.lay, a, Free) && h.lay[a].size == h.bins.held[a] && a != h.dv && a !in limbo
  }

  ghost predicate FreePlaces(h: Heap, limbo: set<int>) {
    forall a :: Is(h.lay, a, Free) ==> a in h.bins.held || a == h.dv || a in limbo
  }

  ghost predicate DvPlace(h: Heap, limbo: set<int>) {
    if h.dvsize == 0 then h.dv == 0 else Is(h.lay, h.dv, Free) && h.lay[h.dv].size == h.dvsize && h.dv !in limbo
  }

  ghost predicate TopPlace(h: Heap) {
    && Is(h.lay, h.top, Top) && h.lay[h.top].size == h.topsize
    && forall a :: Is(h.lay, a, Top) ==> a == h.top
  }

  ghost predicate LimboPlaces(h: Heap, limbo: set<int>) {
    forall a :: a in limbo ==> Is(h.lay, a, Free)
  }

  ghost predicate Places(h: Heap, limbo: set<int>) {
    && HeldPlaces(h, limbo) && FreePlaces(h, limbo) && DvPlace(h, limbo) && TopPlace(h) && LimboPlaces(h, limbo)
  }

  ghost predicate HeapOk(h: Heap, limbo: set<int>) {
    && BinsOk(h.bins) && Tiling(h.lay, h.segs) && TagsOk(h.Mem(), h.lay) && Places(h, limbo)
  }

  // ---------------------------------------------------------------- bins and tags do not meet

  /** Rewriting words from a's head up to hi leaves the bins alone, if no chunk held is there. */
  lemma BinsPatch(b: BinState, n: Words, a: int, hi: int)
    requires BinsOk(b) && a >= STATE_END && SameOutside(b.mem, n, a + HEAD, hi)
    requires forall c :: c in b.held ==> c + b.held[c] <= a || hi < c + HEAD
    ensures BinsOk(b.(mem := n))
  {
    hide BinsOk, SameOutside, W;
    forall w | BinWord(b.held, w) ensures W(n, w) == W(b.mem, w) {
      BinsPatchWord(b, n, a, hi, w);
    }
    BinsFrame(b, n);
  }

  lemma BinsPatchWord(b: BinState, n: Words, a: int, hi: int, w: int)
    requires BinsOk(b) && a >= STATE_END && SameOutside(b.mem, n, a + HEAD, hi) && BinWord(b.held, w)
    requires forall c :: c in b.held ==> c + b.held[c] <= a || hi < c + HEAD
    ensures W(n, w) == W(b.mem, w)
  {
    hide TreesOk, RingsOk, W;
    if w - HEAD in b.held {
      assert SizeOk(b.held[w - HEAD]);
    } else if w >= STATE_END {
      var c :| c in b.held && c + FD <= w < c + LinkEnd(b.held[c]);
      assert SizeOk(b.held[c]) && c + LinkEnd(b.held[c]) <= c + b.held[c];
    }
  }

  /** Link words are no head, foot or block word of any other chunk. */
  lemma QuietWord(h: Held, l: Layout, c: int, x: int, w: int)
    requires HeldOk(h) && NoOverlap(l) && InRange(l) && c in h && c in l && l[c].size == h[c] && x in l
    requires w == x + HEAD || w == x || (x != c && x + FD <= w <= x + l[x].size)
    ensures !(c + FD <= w < c + LinkEnd(h[c]))
  {
    assert SizeOk(h[c]);
    assert x < c ==> x + l[x].size <= c;
    assert c < x ==> c + l[c].size <= x;
  }

  /** The bins only touch the inside of the chunks they hold. */
  ghost predicate HeldFree(g: Held, l: Layout) {
    forall a :: a in g ==> Is(l, a, Free) && l[a].size == g[a]
  }

  lemma NoLink(g: Held, l: Layout, x: int, w: int)
    requires HeldOk(g) && HeldFree(g, l) && NoOverlap(l) && InRange(l) && x in l
    requires w == x + HEAD || w == x || (l[x].kind == Used && x + FD <= w <= x + l[x].size)
    ensures !Link(g, w)
  {
    if Link(g, w) {
      assert x >= STATE_END by {
        assert ChunkOk(x, l[x].size);
      }
      var c :| c in g && c + FD <= w < c + LinkEnd(g[c]);
      QuietWord(g, l, c, x, w);
    }
  }

  lemma QuietTags(m: Words, n: Words, g: Held, l: Layout)
    requires Quiet(m, n, g) && HeldOk(g) && HeldFree(g, l) && Chunks(l) && Chained(l) && TagsOk(m, l)
    ensures TagsOk(n, l)
  {
    hide W, HeldOk, HeldFree, NoOverlap, InRange, Link;
    forall x | x in l ensures TagOk(n, l, x) {
      assert TagOk(m, l, x);
      NoLink(g, l, x, x + HEAD);
      NoLink(g, l, x, x);
      if l[x].kind != Tail {
        NoLink(g, l, Next(l, x), Next(l, x) + HEAD);
        NoLink(g, l, Next(l, x), Next(l, x));
      }
    }
  }

  lemma QuietKeeps(m: Words, n: Words, g: Held, l: Layout, live: set<int>)
    requires Quiet(m, n, g) && HeldOk(g) && HeldFree(g, l) && Chunks(l)
    requires forall p :: p in live ==> Is(l, p, Used)
    ensures Keeps(m, l, n, l, live)
  {
    hide W, HeldOk, HeldFree, NoOverlap, InRange, Link;
    forall p | p in live ensures KeepsOne(m, l, n, l, p) {
      assert Is(l, p, Used);
      forall w | InBlock(l, p, w) ensures W(n, w) == W(m, w) {
        NoLink(g, l, p, w);
      }
    }
  }

  // ---------------------------------------------------------------- into and out of the bins

  lemma OkParts(h: Heap, limbo: set<int>)
    requires HeapOk(h, limbo)
    ensures HeldOk(h.bins.held) && HeldFree(h.bins.held, h.lay) && Chunks(h.lay) && Chained(h.lay)
            && TagsOk(h.Mem(), h.lay)
  {
    hide TreesOk, RingsOk, TagsOk, Chunks, Chained, Segments;
  }

  /** A chunk has left its bin. */
  lemma Unbinned(h: Heap, limbo: set<int>, b: BinState, x: int, live: set<int>)
    requires HeapOk(h, limbo) && x in h.bins.held && BinsOk(b) && b.held == h.bins.held - {x}
             && Quiet(h.Mem(), b.mem, h.bins.held)
    requires forall p :: p in live ==> Is(h.lay, p, Used)
    ensures HeapOk(h.(bins := b), limbo + {x}) && x !in limbo && Is(h.lay, x, Free) && h.lay[x].size == h.bins.held[x]
            && x != h.dv
    ensures Keeps(h.Mem(), h.lay, b.mem, h.lay, live)
  {
    hide BinsOk, Tiling, TagsOk, Quiet, Chunks, Chained, HeldOk, HeldFree, Keeps;
    OkParts(h, limbo);
    QuietTags(h.Mem(), b.mem, h.bins.held, h.lay);
    QuietKeeps(h.Mem(), b.mem, h.bins.held, h.lay, live);
  }

  /** A free chunk in limbo can be put in a bin. */
  lemma RoomFor(h: Heap, limbo: set<int>, x: int)
    requires HeapOk(h, limbo) && x in limbo
    ensures x in h.lay && Room(h.bins.held, x, h.lay[x].size) && ChunkSize(W(h.Mem(), x + HEAD)) == h.lay[x].size
  {
    hide BinsOk, Segments, Chained, W, InRange, NoOverlap, ChunkSize;
    RoomTag(h.Mem(), h.lay, x);
    forall a | a in h.bins.held ensures a + h.bins.held[a] <= x || x + h.lay[x].size <= a {
      Beside(h.lay, a, x);
    }
  }

  lemma RoomTag(m: Words, l: Layout, x: int)
    requires InRange(l) && TagsOk(m, l) && Is(l, x, Free)
    ensures x >= STATE_END && x % 8 == 0 && SizeOk(l[x].size) && ChunkSize(W(m, x + HEAD)) == l[x].size
  {
    hide W;
    assert ChunkOk(x, l[x].size) && TagOk(m, l, x);
    AlignedHead(l[x].size);
  }

  lemma AlignedHead(s: int)
    requires Aligned(s)
    ensures ChunkSize(s + PINUSE) == s && ChunkSize(s + CINUSE) == s && ChunkSize(s + CINUSE + PINUSE) == s
            && s % 8 == 0
  {
  }

  lemma Beside(l: Layout, a: int, x: int)
    requires NoOverlap(l) && a in l && x in l && a != x
    ensures a + l[a].size <= x || x + l[x].size <= a
  {
  }

  /** A chunk has been put in a bin. */
  lemma Binned(h: Heap, limbo: set<int>, b: BinState, x: int, live: set<int>)
    requires HeapOk(h, limbo) && x in limbo && BinsOk(b) && b.held == h.bins.held[x := h.lay[x].size]
    requires Quiet(h.Mem(), b.mem, b.held) && forall p :: p in live ==> Is(h.lay, p, Used)
    ensures HeapOk(h.(bins := b), limbo - {x})
    ensures Keeps(h.Mem(), h.lay, b.mem, h.lay, live)
  {
    hide BinsOk, Tiling, TagsOk, Quiet, Chunks, Chained, HeldOk, Keeps;
    OkParts(h, limbo);
    HeldNonzero(h, limbo);
    BinnedParts(h, limbo, b, x);
    QuietTags(h.Mem(), b.mem, b.held, h.lay);
    QuietKeeps(h.Mem(), b.mem, b.held, h.lay, live);
  }

  lemma BinnedParts(h: Heap, limbo: set<int>, b: BinState, x: int)
    requires Places(h, limbo) && x in limbo && BinsOk(b) && b.held == h.bins.held[x := h.lay[x].size]
    ensures HeldOk(b.held) && HeldFree(b.held, h.lay)
  {
    hide TreesOk, RingsOk, HeldOk;
  }

  /** The designated victim is given up, to be used or binned. */
  lemma DvOut(h: Heap, limbo: set<int>)
    requires HeapOk(h, limbo) && h.dvsize != 0
    ensures HeapOk(h.(dv := 0, dvsize := 0), limbo + {h.dv})
  {
    hide BinsOk, Tiling, TagsOk;
    assert Is(h.lay, h.dv, Free);
    HeldNonzero(h, limbo);
  }

  lemma HeldNonzero(h: Heap, limbo: set<int>)
    requires HeapOk(h, limbo)
    ensures 0 !in h.lay && 0 !in h.bins.held
  {
    hide BinsOk, Segments, Chained, TagsOk, NoOverlap;
    assert 0 in h.lay ==> ChunkOk(0, h.lay[0].size);
  }

  /** A free chunk becomes the designated victim. */
  lemma DvIn(h: Heap, limbo: set<int>, x: int)
    requires HeapOk(h, limbo) && x in limbo && h.dvsize == 0
    ensures x in h.lay && h.lay[x].size > 0 && HeapOk(h.(dv := x, dvsize := h.lay[x].size), limbo - {x})
  {
    hide BinsOk, TagsOk, Segments, Chained, NoOverlap;
    assert Is(h.lay, x, Free);
    assert ChunkOk(x, h.lay[x].size);
    HeldNonzero(h, limbo);
  }
}

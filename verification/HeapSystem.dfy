/** Memory from the system: extending a segment at either end, and adding a new one. */
module HeapSystem {
  import opened TreeIndex
  import opened HeapWords
  import opened Bins
  import opened HeapLayout
  import opened HeapTags
  import opened HeapState
  import opened HeapSteps

  function SegAt(segs: seq<Segment>, i: nat): Segment { if i < |segs| then segs[i] else Segment(0, 0) }

  function WithSeg(segs: seq<Segment>, i: nat, s: Segment): seq<Segment> { if i < |segs| then segs[i := s] else segs }

  /** What the system promises about a mapping: aligned, in range, apart from all segments. */
  ghost predicate Fresh(segs: seq<Segment>, base: int, size: nat) {
    && Aligned(base) && Aligned(size) && base >= STATE_END && base + size <= ADDRESS_END && size >= 2 * TOP_FOOT_SIZE
    && forall i :: 0 <= i < |segs| ==> segs[i].End() <= base || base + size <= segs[i].base
  }

  /** The words of the state and of the segments stay. */
  ghost predicate SameHeap(m: Words, n: Words, segs: seq<Segment>) {
    forall w :: w < STATE_END || InSegment(segs, w) ==> W(n, w) == W(m, w)
  }

  lemma Home(l: Layout, segs: seq<Segment>, x: int) returns (i: nat)
    requires Segments(l, segs) && x in l
    ensures i < |segs| && segs[i].Holds(x) && SegmentOk(l, segs[i])
  {
    hide SegmentOk;
    assert InSegment(segs, x);
    i :| 0 <= i < |segs| && segs[i].Holds(x);
  }

  lemma EndsIn(l: Layout, s: Segment, x: int)
    requires SegmentOk(l, s) && x in l && s.Holds(x)
    ensures if l[x].kind == Tail then Next(l, x) == s.End() else Next(l, x) < s.End()
  {
  }

  lemma WordIn(m: Words, l: Layout, segs: seq<Segment>, x: int, w: int)
    requires Tiling(l, segs) && TagsOk(m, l) && x in l
    requires w == x || w == x + HEAD || x <= w < Next(l, x) || (w == Next(l, x) && l[x].kind != Tail)
    ensures InSegment(segs, w)
  {
    hide NoOverlap, W, SegmentOk, Aligned, Chained;
    var i := Home(l, segs, x);
    EndsIn(l, segs[i], x);
    SizeAtLeast(l, x);
    TailSize(m, l, x);
    assert segs[i].Holds(w);
  }

  lemma TailSize(m: Words, l: Layout, x: int)
    requires TagsOk(m, l) && x in l
    ensures l[x].kind == Tail ==> l[x].size >= MIN_CHUNK_SIZE
  {
    hide W;
    assert TagOk(m, l, x);
  }

  lemma OutsideTags(m: Words, n: Words, l: Layout, segs: seq<Segment>)
    requires Tiling(l, segs) && TagsOk(m, l) && SameHeap(m, n, segs)
    ensures TagsOk(n, l)
  {
    hide W, Chunks, Segments, InSegment, TagOk;
    forall x | x in l ensures TagOk(n, l, x) {
      WordIn(m, l, segs, x, x);
      WordIn(m, l, segs, x, x + HEAD);
      if l[x].kind != Tail {
        WordIn(m, l, segs, Next(l, x), Next(l, x));
        WordIn(m, l, segs, Next(l, x), Next(l, x) + HEAD);
      }
      SameTagWords(m, n, l, x);
    }
  }

  lemma SameTagWords(m: Words, n: Words, l: Layout, x: int)
    requires x in l && TagOk(m, l, x) && W(n, x) == W(m, x) && Head(n, x) == Head(m, x)
    requires l[x].kind != Tail ==> W(n, Next(l, x)) == W(m, Next(l, x)) && Head(n, Next(l, x)) == Head(m, Next(l, x))
    ensures TagOk(n, l, x)
  {
    hide W;
  }

  lemma OutsideBins(h: Heap, limbo: set<int>, n: Words)
    requires HeapOk(h, limbo) && SameHeap(h.Mem(), n, h.segs)
    ensures BinsOk(h.bins.(mem := n))
  {
    hide BinsOk, Tiling, TagsOk, W, InSegment, Places;
    forall w | BinWord(h.bins.held, w) ensures W(n, w) == W(h.Mem(), w) {
      if w >= STATE_END {
        BinWordIn(h, limbo, w);
      }
    }
    BinsFrame(h.bins, n);
  }

  lemma BinWordIn(h: Heap, limbo: set<int>, w: int)
    requires HeapOk(h, limbo) && BinWord(h.bins.held, w) && w >= STATE_END
    ensures InSegment(h.segs, w)
  {
    hide TreesOk, RingsOk, Tiling, TagsOk, W, InSegment, FreePlaces, DvPlace, TopPlace, LimboPlaces;
    var g := h.bins.held;
    if w - HEAD in g {
      WordIn(h.Mem(), h.lay, h.segs, w - HEAD, w);
    } else {
      var c :| c in g && c + FD <= w < c + LinkEnd(g[c]);
      assert SizeOk(g[c]);
      WordIn(h.Mem(), h.lay, h.segs, c, w);
    }
  }

  /** Writing outside the segments changes nothing. */
  lemma OutsideOk(h: Heap, limbo: set<int>, n: Words, live: set<int>)
    requires HeapOk(h, limbo) && SameHeap(h.Mem(), n, h.segs)
    requires forall p :: p in live ==> Is(h.lay, p, Used)
    ensures HeapOk(h.(bins := h.bins.(mem := n)), limbo)
    ensures Keeps(h.Mem(), h.lay, n, h.lay, live)
  {
    hide BinsOk, Tiling, TagsOk, W, InSegment;
    OutsideBins(h, limbo, n);
    OutsideTags(h.Mem(), n, h.lay, h.segs);
    forall p | p in live ensures KeepsOne(h.Mem(), h.lay, n, h.lay, p) {
      assert Is(h.lay, p, Used);
      forall w | InBlock(h.lay, p, w) ensures W(n, w) == W(h.Mem(), w) {
        WordIn(h.Mem(), h.lay, h.segs, p, w);
      }
    }
  }

  lemma FreshOutside(segs: seq<Segment>, base: int, size: nat, w: int)
    requires Fresh(segs, base, size) && base <= w < base + size
    ensures !InSegment(segs, w) && w >= STATE_END
  {
  }

  /** Chunks lie outside a fresh range. */
  lemma FreshApart(l: Layout, segs: seq<Segment>, base: int, size: nat, x: int)
    requires Tiling(l, segs) && Fresh(segs, base, size) && x in l
    ensures Next(l, x) <= base || base + size <= x
    ensures l[x].kind != Tail ==> Next(l, x) < base || base + size <= x
  {
    hide NoOverlap, InRange, Chained;
    var i :| 0 <= i < |segs| && segs[i].Holds(x);
    assert SegmentOk(l, segs[i]);
  }

  // ---------------------------------------------------------------- before a segment

  /** The segment grows downwards by a chunk in use that fills the new memory. */
  function Prepended(h: Heap, i: nat, base: int, size: nat): Heap {
    h.(bins := h.bins.(mem := h.Mem()[base + HEAD := size + CINUSE + PINUSE]), lay := h.lay[base := Tag(size, Used)],
       segs := WithSeg(h.segs, i, Segment(base, SegAt(h.segs, i).size + size)))
  }

  /** The first chunk of a segment has its PINUSE bit set. */
  lemma BasePinuse(m: Words, l: Layout, segs: seq<Segment>, i: nat)
    requires Tiling(l, segs) && TagsOk(m, l) && i < |segs|
    ensures segs[i].base in l && Pinuse(m, segs[i].base)
  {
    hide W, InRange, NoOverlap, Chained, Aligned, TagOk, SegmentOk;
    var a := segs[i].base;
    SegmentBase(l, segs[i]);
    SizeAligned(l, a);
    PinuseOrFree(m, l, a);
    if !Pinuse(m, a) {
      BaseFirst(l, segs, i, a - W(m, a));
    }
  }

  lemma PinuseOrFree(m: Words, l: Layout, a: int)
    requires TagOk(m, l, a) && a in l && l[a].kind != Tail && Aligned(l[a].size)
    ensures Pinuse(m, a) || (Is(l, a - W(m, a), Free) && Next(l, a - W(m, a)) == a)
  {
    hide W;
    AlignedOdd(l[a].size);
  }

  lemma SizeAligned(l: Layout, a: int)
    requires Chunks(l) && a in l
    ensures Aligned(l[a].size) && Aligned(a) && l[a].size > 0
  {
    assert ChunkOk(a, l[a].size);
  }

  lemma BaseFirst(l: Layout, segs: seq<Segment>, i: nat, b: int)
    requires Tiling(l, segs) && i < |segs| && Is(l, b, Free)
    ensures Next(l, b) != segs[i].base
  {
    hide NoOverlap, SegmentOk, Aligned, InRange, Chained;
    var j := Home(l, segs, b);
    SizeAligned(l, b);
    EndsIn(l, segs[j], b);
    SegmentSize(l, segs[i]);
  }

  lemma SegmentSize(l: Layout, s: Segment)
    requires SegmentOk(l, s)
    ensures s.End() > s.base && s.size > 0
  {
  }

  lemma PrependChunks(l: Layout, segs: seq<Segment>, base: int, size: nat)
    requires Tiling(l, segs) && Fresh(segs, base, size) && base + size in l
    ensures Chunks(l[base := Tag(size, Used)]) && Chained(l[base := Tag(size, Used)])
  {
    hide Segments, Aligned;
    var k := l[base := Tag(size, Used)];
    assert InRange(k);
    forall x, y | x in k && y in k && x < y ensures x + k[x].size <= y {
      if x == base {
        FreshApart(l, segs, base, size, y);
      } else if y == base {
        FreshApart(l, segs, base, size, x);
      }
    }
    forall x | x in k && k[x].kind != Tail ensures Next(k, x) in k {
      if x != base {
        assert Next(l, x) in l;
      }
    }
  }

  lemma PrependSegments(l: Layout, segs: seq<Segment>, i: nat, base: int, size: nat)
    requires Tiling(l, segs) && Fresh(segs, base, size) && i < |segs| && segs[i].base == base + size
    ensures Segments(l[base := Tag(size, Used)], segs[i := Segment(base, segs[i].size + size)])
  {
    hide NoOverlap, Chained, SegmentOk, Aligned, InRange;
    var k, t := l[base := Tag(size, Used)], segs[i := Segment(base, segs[i].size + size)];
    SegmentSizes(l, segs);
    PrependApart(segs, i, base, size);
    forall j | 0 <= j < |t| ensures SegmentOk(k, t[j]) {
      PrependSegment(l, segs, i, base, size, j);
    }
    forall x | x in k ensures InSegment(t, x) {
      if x == base {
        assert t[i].Holds(x);
      } else {
        var j :| 0 <= j < |segs| && segs[j].Holds(x);
        assert t[j].Holds(x);
      }
    }
  }

  lemma SegmentSizes(l: Layout, segs: seq<Segment>)
    requires Segments(l, segs)
    ensures forall j :: 0 <= j < |segs| ==> segs[j].size > 0
  {
    hide SegmentOk;
    forall j | 0 <= j < |segs| ensures segs[j].size > 0 {
      SegmentSize(l, segs[j]);
    }
  }

  lemma PrependApart(segs: seq<Segment>, i: nat, base: int, size: nat)
    requires SegmentsApart(segs) && Fresh(segs, base, size) && i < |segs| && segs[i].base == base + size
    requires forall j :: 0 <= j < |segs| ==> segs[j].size > 0
    ensures SegmentsApart(segs[i := Segment(base, segs[i].size + size)])
  {
  }

  lemma PrependSegment(l: Layout, segs: seq<Segment>, i: nat, base: int, size: nat, j: nat)
    requires Tiling(l, segs) && Fresh(segs, base, size) && i < |segs| && segs[i].base == base + size && j < |segs|
    ensures SegmentOk(l[base := Tag(size, Used)], segs[i := Segment(base, segs[i].size + size)][j])
  {
    hide Chunks, Chained, Aligned, SegmentOk;
    var k, s := l[base := Tag(size, Used)], segs[i := Segment(base, segs[i].size + size)][j];
    SegmentFacts(l, segs[j]);
    SegmentFacts(l, segs[i]);
    AlignedSum(segs[i].size, size);
    forall x | x in k && s.Holds(x)
      ensures if k[x].kind == Tail then Next(k, x) == s.End() else Next(k, x) < s.End()
    {
      if x != base {
        FreshApart(l, segs, base, size, x);
        SizeAligned(l, x);
        EndsIn(l, segs[j], x);
      }
    }
    SegmentIntro(k, s);
  }

  lemma SegmentFacts(l: Layout, s: Segment)
    requires SegmentOk(l, s) && Chunks(l)
    ensures s.base in l && l[s.base].kind != Tail && s.End() <= ADDRESS_END && Aligned(s.base) && Aligned(s.size)
            && s.size > 0
  {
    hide Chunks;
    SegmentSize(l, s);
  }

  lemma SegmentIntro(l: Layout, s: Segment)
    requires s.base in l && l[s.base].kind != Tail && s.End() <= ADDRESS_END && Aligned(s.base) && Aligned(s.size)
             && s.size > 0
    requires forall a :: a in l && s.Holds(a) ==> if l[a].kind == Tail then Next(l, a) == s.End()
             else Next(l, a) < s.End()
    ensures SegmentOk(l, s)
  {
  }

  lemma AlignedSum(a: int, b: int)
    requires Aligned(a) && Aligned(b)
    ensures Aligned(a + b)
  {
  }

  lemma PrependTags(h: Heap, limbo: set<int>, i: nat, base: int, size: nat)
    requires HeapOk(h, limbo) && Fresh(h.segs, base, size) && i < |h.segs| && SegAt(h.segs, i).base == base + size
    ensures TagsOk(Prepended(h, i, base, size).Mem(), Prepended(h, i, base, size).lay)
  {
    hide BinsOk, Tiling, W, Places, Aligned;
    var m, l := h.Mem(), h.lay;
    var n, k := m[base + HEAD := size + CINUSE + PINUSE], l[base := Tag(size, Used)];
    PrependWord(h, base, size);
    OutsideTags(m, n, l, h.segs);
    BasePinuse(n, l, h.segs, i);
    forall x | x in k ensures TagOk(n, k, x) {
      if x == base {
        FirstTag(n, k, base, size);
      } else {
        assert TagOk(n, l, x);
        WiderTag(n, l, h.segs, base, size, x);
      }
    }
  }

  lemma FirstTag(n: Words, k: Layout, base: int, size: nat)
    requires base in k && k[base] == Tag(size, Used) && size >= MIN_CHUNK_SIZE
             && Head(n, base) == size + CINUSE + PINUSE
    requires Pinuse(n, base + size)
    ensures TagOk(n, k, base)
  {
    hide W;
  }

  lemma PrependWord(h: Heap, base: int, size: nat)
    requires Fresh(h.segs, base, size)
    ensures var n := h.Mem()[base + HEAD := size + CINUSE + PINUSE];
            SameHeap(h.Mem(), n, h.segs) && Head(n, base) == size + CINUSE + PINUSE
  {
    FreshOutside(h.segs, base, size, base + HEAD);
  }

  /** One more chunk in fresh memory. */
  lemma WiderTag(n: Words, l: Layout, segs: seq<Segment>, base: int, size: nat, x: int)
    requires Tiling(l, segs) && Fresh(segs, base, size) && x in l && x != base && TagOk(n, l, x)
    ensures TagOk(n, l[base := Tag(size, Used)], x)
  {
    hide W, Segments, InRange, NoOverlap, Aligned;
    if base in l {
      FreshApart(l, segs, base, size, base);
      SizeAligned(l, base);
    }
    assert base !in l;
    if l[x].kind != Tail {
      assert Next(l, x) in l;
    }
  }

  lemma PrependPlaces(h: Heap, limbo: set<int>, i: nat, base: int, size: nat)
    requires Places(h, limbo) && i < |h.segs| && base !in h.lay
    ensures Places(Prepended(h, i, base, size), limbo)
  {
    var g := Prepended(h, i, base, size);
    forall x ensures (Is(g.lay, x, Free) <==> Is(h.lay, x, Free)) && (Is(g.lay, x, Top) <==> Is(h.lay, x, Top)) {
    }
  }

  lemma FreshKey(l: Layout, segs: seq<Segment>, base: int, size: nat, x: int)
    requires Tiling(l, segs) && Fresh(segs, base, size) && base <= x < base + size
    ensures x !in l
  {
    hide Chained, Segments, NoOverlap;
    if x in l {
      FreshApart(l, segs, base, size, x);
      SizeAligned(l, x);
    }
  }

  lemma PrependedOk(h: Heap, limbo: set<int>, i: nat, base: int, size: nat, live: set<int>)
    requires HeapOk(h, limbo) && Fresh(h.segs, base, size) && i < |h.segs| && SegAt(h.segs, i).base == base + size
    requires forall p :: p in live ==> Is(h.lay, p, Used)
    ensures HeapOk(Prepended(h, i, base, size), limbo) && base !in h.lay
    ensures Keeps(h.Mem(), h.lay, Prepended(h, i, base, size).Mem(), Prepended(h, i, base, size).lay, live)
  {
    hide BinsOk, Chunks, Chained, Segments, TagsOk, Places, W, Keeps, SameHeap;
    var n := h.Mem()[base + HEAD := size + CINUSE + PINUSE];
    PrependWord(h, base, size);
    OutsideOk(h, limbo, n, live);
    FreshKey(h.lay, h.segs, base, size, base);
    BasePinuse(h.Mem(), h.lay, h.segs, i);
    PrependTags(h, limbo, i, base, size);
    PrependPlaces(h, limbo, i, base, size);
    PrependChunks(h.lay, h.segs, base, size);
    PrependSegments(h.lay, h.segs, i, base, size);
    PrependKeeps(h.Mem(), h.lay, n, base, size, live);
  }

  lemma PrependKeeps(m: Words, l: Layout, n: Words, base: int, size: nat, live: set<int>)
    requires Keeps(m, l, n, l, live) && base !in l
    ensures Keeps(m, l, n, l[base := Tag(size, Used)], live)
  {
    hide W;
    forall p | p in live ensures KeepsOne(m, l, n, l[base := Tag(size, Used)], p) {
      assert KeepsOne(m, l, n, l, p);
    }
  }

  // ---------------------------------------------------------------- rewriting the end of a segment

  /** Rewriting the chunks from a to the end of the memory they lie in keeps the other tags. */
  lemma PatchEnd(m: Words, l: Layout, n: Words, k: Layout, a: int, end: int)
    requires NoOverlap(l) && InRange(l) && TagsOk(m, l) && a in l && a in k && a < end
    requires SameOutside(m, n, a + HEAD, end - 8) && SameBeyond(l, k, a, end)
    requires l[a].kind != Tail && (Pinuse(n, a) <==> Pinuse(m, a)) && (k[a].kind == Used || Pinuse(m, a))
    requires forall x :: x in l && a <= x < end ==> l[x].kind != Free
    requires forall x :: x in k && a <= x < end ==> TagOk(n, k, x)
    ensures TagsOk(n, k)
  {
    hide TagOk, W, NoOverlap, InRange, SameOutside, Pinuse;
    forall x | x in k ensures TagOk(n, k, x) {
      if x < a {
        PatchBefore(m, l, n, k, a, end, end - 8, x);
      } else if x >= end {
        PatchBeyond(m, l, n, k, a, end, x);
      }
    }
  }

  lemma PatchBeyond(m: Words, l: Layout, n: Words, k: Layout, a: int, end: int, x: int)
    requires NoOverlap(l) && TagOk(m, l, x) && x in l && x >= end && a in l && a < end
    requires SameOutside(m, n, a + HEAD, end - 8) && SameBeyond(l, k, a, end)
    requires forall y :: y in l && a <= y < end ==> l[y].kind != Free
    ensures TagOk(n, k, x)
  {
    hide W;
    var y := Next(l, x);
    assert Head(n, x) == Head(m, x) && W(n, x) == W(m, x) && W(n, y) == W(m, y) && Head(n, y) == Head(m, y);
    assert k[x] == l[x];
    if l[x].kind == Used && Head(m, x) == l[x].size + CINUSE {
      var b := x - W(m, x);
      assert b >= end;
    }
  }

  /** Tag of a chunk when a larger map of chunks leaves its surroundings alone. */
  lemma TailTag(n: Words, k: Layout, a: int)
    requires Is(k, a, Tail) && k[a].size >= MIN_CHUNK_SIZE
             && (Head(n, a) == TOP_FOOT_SIZE || Head(n, a) == FENCEPOST_HEAD)
    ensures TagOk(n, k, a)
  {
    hide W;
  }

  /** The end of the segment that holds the top chunk. */
  lemma TopSegment(h: Heap, limbo: set<int>, i: nat)
    requires HeapOk(h, limbo) && i < |h.segs| && SegAt(h.segs, i).Holds(h.top)
    ensures var e := h.top + h.topsize;
            h.segs[i].Holds(e) && e + TOP_FOOT_SIZE == h.segs[i].End()
  {
    hide BinsOk, Places, TagsOk, W, SegmentOk, Chunks, Chained, Tiled, TagOk;
    TopFacts(h, limbo);
    NextHeld(h.lay, h.segs, h.top, i);
    EndsIn(h.lay, h.segs[i], h.top + h.topsize);
  }

  /** Chunks from the top chunk to the end of its segment. */
  lemma TopLast(h: Heap, limbo: set<int>, x: int)
    requires HeapOk(h, limbo)
    ensures var e := h.top + h.topsize; x in h.lay && h.top <= x < e + TOP_FOOT_SIZE ==> x == h.top || x == e
  {
    hide BinsOk, Places, TagsOk, W, Segments, Chained, InRange;
    TopFacts(h, limbo);
  }

  // ---------------------------------------------------------------- after the top

  function AppendLay(l: Layout, top: int, e: int, size: nat): Layout {
    (l - {e})[top := Tag(if top <= e then e + size - top else 0, Top)][e + size := Tag(TOP_FOOT_SIZE, Tail)]
  }

  function Appended(h: Heap, i: nat, size: nat): Heap {
    var e := h.top + h.topsize;
    h.(bins := h.bins.(mem := h.Mem()[h.top + HEAD := h.topsize + size + PINUSE][e + size + HEAD := TOP_FOOT_SIZE]),
       lay := AppendLay(h.lay, h.top, e, size),
         segs := WithSeg(h.segs, i, Segment(SegAt(h.segs, i).base, SegAt(h.segs, i).size + size)),
       topsize := h.topsize + size)
  }

  ghost predicate Appendable(h: Heap, i: nat, size: nat) {
    i < |h.segs| && h.segs[i].Holds(h.top) && Fresh(h.segs, h.segs[i].End(), size)
  }

  lemma AppendKeys(l: Layout, top: int, e: int, size: nat, x: int)
    requires top < e && size > 0 && top in l
    ensures var k := AppendLay(l, top, e, size);
            && top in k && k[top] == Tag(e + size - top, Top) && e + size in k
            && k[e + size] == Tag(TOP_FOOT_SIZE, Tail) && e !in k
            && (x in k <==> (x in l && x != e) || x == e + size)
            && (x in l && x != top && x != e && x != e + size ==> k[x] == l[x])
  {
  }

  /** All other chunks lie before the top chunk or beyond the new memory. */
  lemma AppendApart(h: Heap, limbo: set<int>, i: nat, size: nat, x: int)
    requires HeapOk(h, limbo) && Appendable(h, i, size) && x in h.lay
    ensures var e := h.top + h.topsize;
            x == h.top || x == e || Next(h.lay, x) <= h.top || x >= e + size + TOP_FOOT_SIZE
  {
    hide BinsOk, Places, TagsOk, W, Segments, Chained, InRange, Tiled, TagOk;
    TopFacts(h, limbo);
    TopSegment(h, limbo, i);
    TopLast(h, limbo, x);
    FreshApart(h.lay, h.segs, h.segs[i].End(), size, x);
    SizeAtLeast(h.lay, x);
  }

  lemma AppendChunks(h: Heap, limbo: set<int>, i: nat, size: nat)
    requires HeapOk(h, limbo) && Appendable(h, i, size)
    ensures Chunks(Appended(h, i, size).lay) && Chained(Appended(h, i, size).lay)
  {
    hide BinsOk, Places, TagsOk, W, AppendLay, ChunkOk, Segments, NoOverlap;
    TopFacts(h, limbo);
    var l, k, e := h.lay, Appended(h, i, size).lay, h.top + h.topsize;
    AppendInRange(h, limbo, i, size);
    forall x | x in k ensures ChunkOk(x, k[x].size) {
      AppendKeys(l, h.top, e, size, x);
      if x in l {
        AppendApart(h, limbo, i, size, x);
      }
    }
    AppendOverlap(h, limbo, i, size);
    forall x | x in k && k[x].kind != Tail ensures Next(k, x) in k {
      AppendNext(h, limbo, i, size, x);
    }
  }

  lemma AppendNext(h: Heap, limbo: set<int>, i: nat, size: nat, x: int)
    requires HeapOk(h, limbo) && Appendable(h, i, size)
    requires var k := Appended(h, i, size).lay; x in k && k[x].kind != Tail
    ensures var k := Appended(h, i, size).lay; Next(k, x) in k
  {
    hide BinsOk, Places, TagsOk, W, AppendLay, Aligned, Segments, NoOverlap, InRange;
    TopFacts(h, limbo);
    var l, e := h.lay, h.top + h.topsize;
    AppendKeys(l, h.top, e, size, x);
    if x != h.top {
      AppendApart(h, limbo, i, size, x);
      AppendKeys(l, h.top, e, size, Next(l, x));
      SizeAligned(l, x);
    }
  }

  lemma AppendInRange(h: Heap, limbo: set<int>, i: nat, size: nat)
    requires HeapOk(h, limbo) && Appendable(h, i, size)
    ensures var e := h.top + h.topsize; ChunkOk(h.top, h.topsize + size) && ChunkOk(e + size, TOP_FOOT_SIZE)
  {
    hide BinsOk, Places, TagsOk, W, Segments, NoOverlap, Chained;
    TopFacts(h, limbo);
    TopSegment(h, limbo, i);
    assert ChunkOk(h.top, SizeAt(h.lay, h.top));
  }

  lemma AppendOverlap(h: Heap, limbo: set<int>, i: nat, size: nat)
    requires HeapOk(h, limbo) && Appendable(h, i, size)
    ensures NoOverlap(Appended(h, i, size).lay)
  {
    hide BinsOk, Places, TagsOk, W, AppendLay, Aligned, Segments, Chained;
    TopFacts(h, limbo);
    var l, k, e := h.lay, Appended(h, i, size).lay, h.top + h.topsize;
    forall x, y | x in k && y in k && x < y ensures x + k[x].size <= y {
      AppendKeys(l, h.top, e, size, x);
      AppendKeys(l, h.top, e, size, y);
      if x in l {
        AppendApart(h, limbo, i, size, x);
        SizeAtLeast(l, x);
      }
      if y in l {
        AppendApart(h, limbo, i, size, y);
        SizeAtLeast(l, y);
      }
    }
  }

  lemma AppendSegments(h: Heap, limbo: set<int>, i: nat, size: nat)
    requires HeapOk(h, limbo) && Appendable(h, i, size)
    ensures Segments(Appended(h, i, size).lay, Appended(h, i, size).segs)
  {
    hide BinsOk, Places, TagsOk, W, AppendLay, Aligned, SegmentOk, Chunks, Chained;
    TopFacts(h, limbo);
    TopSegment(h, limbo, i);
    var g, e := Appended(h, i, size), h.top + h.topsize;
    SegmentSizes(h.lay, h.segs);
    AppendSegmentsApart(h.segs, i, size);
    forall j | 0 <= j < |g.segs| ensures SegmentOk(g.lay, g.segs[j]) {
      AppendSegment(h, limbo, i, size, j);
    }
    forall x | x in g.lay ensures InSegment(g.segs, x) {
      AppendKeys(h.lay, h.top, e, size, x);
      if x == e + size {
        assert g.segs[i].Holds(x);
      } else {
        var j := Home(h.lay, h.segs, x);
        assert g.segs[j].Holds(x);
      }
    }
  }

  lemma AppendSegmentsApart(segs: seq<Segment>, i: nat, size: nat)
    requires SegmentsApart(segs) && i < |segs| && Fresh(segs, segs[i].End(), size)
    requires forall j :: 0 <= j < |segs| ==> segs[j].size > 0
    ensures SegmentsApart(segs[i := Segment(segs[i].base, segs[i].size + size)])
  {
  }

  lemma AppendSegment(h: Heap, limbo: set<int>, i: nat, size: nat, j: nat)
    requires HeapOk(h, limbo) && Appendable(h, i, size) && j < |h.segs|
    ensures SegmentOk(Appended(h, i, size).lay, SegAt(Appended(h, i, size).segs, j))
  {
    hide BinsOk, Places, TagsOk, W, AppendLay, Aligned, SegmentOk, Chunks, Chained;
    TopFacts(h, limbo);
    TopSegment(h, limbo, i);
    var g, e := Appended(h, i, size), h.top + h.topsize;
    var s := g.segs[j];
    SegmentFacts(h.lay, h.segs[j]);
    SegmentFacts(h.lay, h.segs[i]);
    AlignedSum(h.segs[i].size, size);
    AppendKeys(h.lay, h.top, e, size, h.segs[j].base);
    AppendBase(h, limbo, i, size, j);
    forall x | x in g.lay && s.Holds(x)
      ensures if g.lay[x].kind == Tail then Next(g.lay, x) == s.End() else Next(g.lay, x) < s.End()
    {
      AppendKeys(h.lay, h.top, e, size, x);
      if x in h.lay {
        AppendApart(h, limbo, i, size, x);
        FreshApart(h.lay, h.segs, h.segs[i].End(), size, x);
        SizeAligned(h.lay, x);
      }
      AppendHeld(h, limbo, i, size, j, x);
    }
    SegmentIntro(g.lay, s);
  }

  /** The base of a segment is neither the old end of the top nor the new one. */
  lemma AppendBase(h: Heap, limbo: set<int>, i: nat, size: nat, j: nat)
    requires HeapOk(h, limbo) && Appendable(h, i, size) && j < |h.segs|
    ensures var b := SegAt(h.segs, j).base;
            b in h.lay && b != h.top + h.topsize && (b != h.top ==> b != h.top + h.topsize + size)
  {
    hide BinsOk, Places, TagsOk, W, SegmentOk, Chunks, Chained, Aligned, Tiled, TagOk;
    TopFacts(h, limbo);
    TopSegment(h, limbo, i);
    SegmentFacts(h.lay, h.segs[j]);
    AppendApart(h, limbo, i, size, h.segs[j].base);
    SizeAligned(h.lay, h.segs[j].base);
  }

  lemma AppendHeld(h: Heap, limbo: set<int>, i: nat, size: nat, j: nat, x: int)
    requires HeapOk(h, limbo) && Appendable(h, i, size) && j < |h.segs|
    requires x in Appended(h, i, size).lay && SegAt(Appended(h, i, size).segs, j).Holds(x)
    ensures EndsAt(Appended(h, i, size).lay, SegAt(Appended(h, i, size).segs, j), x)
  {
    hide HeapOk, AppendLay, Aligned, Tiled, TagOk;
    TopFacts(h, limbo);
    TopSegment(h, limbo, i);
    var e := h.top + h.topsize;
    AppendKeys(h.lay, h.top, e, size, x);
    if x == e + size {
      AppendHome(h, limbo, i, size, j, x);
    } else if x == h.top {
      HeapHome(h, limbo, i, j, x);
    } else {
      AppendHeldOther(h, limbo, i, size, j, x);
    }
  }

  ghost predicate EndsAt(l: Layout, s: Segment, x: int) {
    if Is(l, x, Tail) then Next(l, x) == s.End() else Next(l, x) < s.End()
  }

  lemma AppendHome(h: Heap, limbo: set<int>, i: nat, size: nat, j: nat, x: int)
    requires HeapOk(h, limbo) && Appendable(h, i, size) && j < |h.segs| && SegAt(Appended(h, i, size).segs, j).Holds(x)
    requires SegAt(Appended(h, i, size).segs, i).Holds(x)
    ensures i == j
  {
    hide BinsOk, Places, TagsOk, Chunks, Chained, SegmentOk, AppendLay;
    SegmentSizes(h.lay, h.segs);
    AppendSegmentsApart(h.segs, i, size);
    OneHome(Appended(h, i, size).segs, i, j, x);
  }

  lemma HeapHome(h: Heap, limbo: set<int>, i: nat, j: nat, x: int)
    requires HeapOk(h, limbo) && i < |h.segs| && j < |h.segs| && SegAt(h.segs, i).Holds(x)
    requires i == j || SegAt(h.segs, j).Holds(x)
    ensures i == j
  {
    hide BinsOk, Places, TagsOk, Chunks, Chained, SegmentOk;
    OneHome(h.segs, i, j, x);
  }

  lemma AppendHeldOther(h: Heap, limbo: set<int>, i: nat, size: nat, j: nat, x: int)
    requires HeapOk(h, limbo) && Appendable(h, i, size) && j < |h.segs|
    requires x in h.lay && x != h.top && x != h.top + h.topsize && SegAt(Appended(h, i, size).segs, j).Holds(x)
    ensures EndsAt(h.lay, SegAt(h.segs, j), x) && (i == j ==> h.lay[x].kind != Tail)
  {
    hide BinsOk, Places, TagsOk, Chained, SegmentOk, AppendLay, Aligned, NoOverlap, Tiled, TagOk;
    FreshApart(h.lay, h.segs, h.segs[i].End(), size, x);
    SizeAligned(h.lay, x);
    EndsIn(h.lay, h.segs[j], x);
    if h.lay[x].kind == Tail {
      AppendTail(h, limbo, i, j, x);
    }
  }

  lemma OneHome(segs: seq<Segment>, i: nat, j: nat, x: int)
    requires SegmentsApart(segs) && i < |segs| && j < |segs| && segs[i].Holds(x) && segs[j].Holds(x)
    ensures i == j
  {
  }

  /** The end of the top chunk's segment is its only tail. */
  lemma AppendTail(h: Heap, limbo: set<int>, i: nat, j: nat, x: int)
    requires HeapOk(h, limbo) && i < |h.segs| && j < |h.segs| && SegAt(h.segs, i).Holds(h.top) && x in h.lay
             && SegAt(h.segs, j).Holds(x)
    requires x != h.top + h.topsize && Is(h.lay, x, Tail)
    ensures i != j
  {
    hide BinsOk, Places, TagsOk, W, SegmentOk, InRange, Chained;
    TopFacts(h, limbo);
    TopSegment(h, limbo, i);
    EndsIn(h.lay, h.segs[j], x);
    Beside(h.lay, x, h.top + h.topsize);
  }

  lemma AppendWords(h: Heap, i: nat, size: nat)
    requires i < |h.segs| && h.topsize > 0 && size > 0
    ensures var n, e := Appended(h, i, size).Mem(), h.top + h.topsize;
            && Head(n, h.top) == h.topsize + size + PINUSE && Head(n, e + size) == TOP_FOOT_SIZE
            && SameOutside(h.Mem(), n, h.top + HEAD, e + size + HEAD)
  {
    hide AppendLay;
  }

  lemma AppendBeyond(h: Heap, limbo: set<int>, i: nat, size: nat)
    requires HeapOk(h, limbo) && Appendable(h, i, size)
    ensures SameBeyond(h.lay, Appended(h, i, size).lay, h.top, h.top + h.topsize + size + TOP_FOOT_SIZE)
    ensures forall x :: x in h.lay && h.top <= x < h.top + h.topsize + size + TOP_FOOT_SIZE ==> h.lay[x].kind != Free
  {
    hide HeapOk, AppendLay, Aligned, Tiled, TagOk;
    TopFacts(h, limbo);
    var e := h.top + h.topsize;
    forall x ensures x in h.lay && h.top <= x < e + size + TOP_FOOT_SIZE ==> x == h.top || x == e {
      if x in h.lay {
        AppendApart(h, limbo, i, size, x);
        AppendSize(h, limbo, x);
      }
    }
    forall x ensures x < h.top || x >= e + size + TOP_FOOT_SIZE ==>
      (x in h.lay <==> x in Appended(h, i, size).lay) && (x in h.lay ==> Appended(h, i, size).lay[x] == h.lay[x])
    {
      AppendKeys(h.lay, h.top, e, size, x);
    }
  }

  lemma AppendSize(h: Heap, limbo: set<int>, x: int)
    requires HeapOk(h, limbo) && x in h.lay
    ensures Next(h.lay, x) > x
  {
    hide BinsOk, Places, TagsOk, Chained, Segments, NoOverlap;
    SizeAtLeast(h.lay, x);
  }

  lemma AppendTags(h: Heap, limbo: set<int>, i: nat, size: nat)
    requires HeapOk(h, limbo) && Appendable(h, i, size)
    ensures TagsOk(Appended(h, i, size).Mem(), Appended(h, i, size).lay)
  {
    hide BinsOk, Places, W, AppendLay, Aligned, TagOk, Segments, Chained;
    TopFacts(h, limbo);
    var m, l, n, k, e := h.Mem(), h.lay, Appended(h, i, size).Mem(), Appended(h, i, size).lay, h.top + h.topsize;
    AppendWords(h, i, size);
    AppendBeyond(h, limbo, i, size);
    AlignedSum(h.topsize, size);
    AlignedOdd(h.topsize + size);
    AppendKeys(l, h.top, e, size, h.top);
    TopTag(n, k, h.top);
    TailTag(n, k, e + size);
    forall x | x in k && h.top <= x < e + size + TOP_FOOT_SIZE ensures TagOk(n, k, x) {
      AppendKeys(l, h.top, e, size, x);
      if x in l {
        AppendApart(h, limbo, i, size, x);
        AppendSize(h, limbo, x);
      }
    }
    PatchEnd(m, l, n, k, h.top, e + size + TOP_FOOT_SIZE);
  }

  lemma AppendPlaces(h: Heap, limbo: set<int>, i: nat, size: nat)
    requires HeapOk(h, limbo) && Appendable(h, i, size)
    ensures Places(Appended(h, i, size), limbo)
  {
    hide BinsOk, Tiling, TagsOk, AppendLay, W, Aligned, Tiled, TagOk;
    TopFacts(h, limbo);
    var g, e := Appended(h, i, size), h.top + h.topsize;
    forall x ensures (Is(g.lay, x, Free) <==> Is(h.lay, x, Free)) && (Is(g.lay, x, Top) <==> Is(h.lay, x, Top))
      && (Is(h.lay, x, Free) ==> x in g.lay && g.lay[x] == h.lay[x])
    {
      AppendKeys(h.lay, h.top, e, size, x);
      if x in h.lay {
        AppendApart(h, limbo, i, size, x);
        AppendSize(h, limbo, x);
      }
    }
    AppendKeys(h.lay, h.top, e, size, h.top);
  }

  /** The top chunk's segment grows upwards. */
  lemma AppendedOk(h: Heap, limbo: set<int>, i: nat, size: nat, live: set<int>)
    requires HeapOk(h, limbo) && Appendable(h, i, size)
    requires forall p :: p in live ==> Is(h.lay, p, Used)
    ensures HeapOk(Appended(h, i, size), limbo)
    ensures Keeps(h.Mem(), h.lay, Appended(h, i, size).Mem(), Appended(h, i, size).lay, live)
  {
    hide BinsOk, Chunks, Chained, Segments, TagsOk, Places, W, Keeps, SameOutside, SameBeyond, AppendLay, Aligned,
      Tiled, TagOk;
    TopFacts(h, limbo);
    var n, e := Appended(h, i, size).Mem(), h.top + h.topsize;
    AppendWords(h, i, size);
    AppendTags(h, limbo, i, size);
    AppendPlaces(h, limbo, i, size);
    AppendChunks(h, limbo, i, size);
    AppendSegments(h, limbo, i, size);
    AppendHeldClear(h, limbo, i, size);
    BinsPatch(h.bins, n, h.top, e + size + HEAD);
    AppendKeeps(h, limbo, i, size, live);
  }

  lemma AppendHeldClear(h: Heap, limbo: set<int>, i: nat, size: nat)
    requires HeapOk(h, limbo) && Appendable(h, i, size)
    ensures forall c :: c in h.bins.held ==> c + h.bins.held[c] <= h.top || h.top + h.topsize + size + HEAD < c + HEAD
  {
    hide BinsOk, Tiling, TagsOk, W, Aligned, FreePlaces, LimboPlaces, DvPlace, Tiled, TagOk;
    TopFacts(h, limbo);
    forall c | c in h.bins.held ensures c + h.bins.held[c] <= h.top || h.top + h.topsize + size + HEAD < c + HEAD {
      AppendApart(h, limbo, i, size, c);
    }
  }

  lemma AppendKeeps(h: Heap, limbo: set<int>, i: nat, size: nat, live: set<int>)
    requires HeapOk(h, limbo) && Appendable(h, i, size)
    requires forall p :: p in live ==> Is(h.lay, p, Used)
    ensures Keeps(h.Mem(), h.lay, Appended(h, i, size).Mem(), Appended(h, i, size).lay, live)
  {
    hide HeapOk, AppendLay, W, Aligned, Tiled, TagOk;
    TopFacts(h, limbo);
    var m, l, n, k, e := h.Mem(), h.lay, Appended(h, i, size).Mem(), Appended(h, i, size).lay, h.top + h.topsize;
    AppendWords(h, i, size);
    forall p | p in live ensures KeepsOne(m, l, n, k, p) {
      assert Is(l, p, Used);
      AppendApart(h, limbo, i, size, p);
      AppendSize(h, limbo, p);
      AppendKeys(l, h.top, e, size, p);
      AppendKeys(l, h.top, e, size, Next(l, p));
    }
  }

  // ---------------------------------------------------------------- a new segment

  /** A new segment that holds one top chunk and the space after it. */
  function Widened(l: Layout, base: int, size: nat): Layout {
    l[base := Tag(LessFoot(size), Top)][base + size - TOP_FOOT_SIZE := Tag(TOP_FOOT_SIZE, Tail)]
  }

  /** What the space at the end leaves of a segment. */
  function LessFoot(size: nat): nat { if size >= TOP_FOOT_SIZE then size - TOP_FOOT_SIZE else 0 }

  predicate WidenedAt(l: Layout, base: int, size: nat, x: int) {
    var k, t := Widened(l, base, size), base + size - TOP_FOOT_SIZE;
    && base !in l && t !in l && (x in k <==> x in l || x == base || x == t)
    && base in k && k[base] == Tag(LessFoot(size), Top) && t in k && k[t] == Tag(TOP_FOOT_SIZE, Tail) && base < t
    && (x in l ==> k[x] == l[x])
  }

  lemma WidenedKeys(l: Layout, segs: seq<Segment>, base: int, size: nat, x: int)
    requires Tiling(l, segs) && Fresh(segs, base, size)
    ensures WidenedAt(l, base, size, x)
  {
    hide Tiling, Aligned;
    FreshKey(l, segs, base, size, base);
    FreshKey(l, segs, base, size, base + size - TOP_FOOT_SIZE);
  }

  lemma WidenedChunks(l: Layout, segs: seq<Segment>, base: int, size: nat)
    requires Tiling(l, segs) && Fresh(segs, base, size)
    ensures Chunks(Widened(l, base, size)) && Chained(Widened(l, base, size))
  {
    hide Segments, Widened, ChunkOk;
    var k := Widened(l, base, size);
    forall x | x in k ensures ChunkOk(x, k[x].size) {
      WidenedKeys(l, segs, base, size, x);
      NewRange(segs, base, size);
    }
    forall x, y | x in k && y in k && x < y ensures x + k[x].size <= y {
      WidenedKeys(l, segs, base, size, x);
      WidenedKeys(l, segs, base, size, y);
      if x in l {
        FreshApart(l, segs, base, size, x);
      }
      if y in l {
        FreshApart(l, segs, base, size, y);
        AppendPositive(l, y);
      }
    }
    forall x | x in k && k[x].kind != Tail ensures Next(k, x) in k {
      WidenedKeys(l, segs, base, size, x);
      WidenedKeys(l, segs, base, size, Next(k, x));
    }
  }

  lemma AppendPositive(l: Layout, y: int)
    requires InRange(l) && y in l
    ensures Next(l, y) > y
  {
    SizeAtLeast(l, y);
  }

  lemma NewRange(segs: seq<Segment>, base: int, size: nat)
    requires Fresh(segs, base, size)
    ensures ChunkOk(base, size - TOP_FOOT_SIZE) && ChunkOk(base + size - TOP_FOOT_SIZE, TOP_FOOT_SIZE)
  {
  }

  lemma WidenedSegments(l: Layout, segs: seq<Segment>, base: int, size: nat)
    requires Tiling(l, segs) && Fresh(segs, base, size)
    ensures Segments(Widened(l, base, size), [Segment(base, size)] + segs)
  {
    hide Chunks, Chained, Widened, Aligned, SegmentOk;
    var k, t, s := Widened(l, base, size), [Segment(base, size)] + segs, Segment(base, size);
    assert SegmentsApart(t);
    forall j | 0 <= j < |t| ensures SegmentOk(k, t[j]) {
      if j == 0 {
        WidenedNew(l, segs, base, size);
      } else {
        assert t[j] == segs[j - 1];
        WidenedOld(l, segs, base, size, j - 1);
      }
    }
    forall x | x in k ensures InSegment(t, x) {
      WidenedKeys(l, segs, base, size, x);
      if x in l {
        var j := Home(l, segs, x);
        assert t[j + 1].Holds(x);
      } else {
        assert t[0].Holds(x);
      }
    }
  }

  lemma WidenedNew(l: Layout, segs: seq<Segment>, base: int, size: nat)
    requires Tiling(l, segs) && Fresh(segs, base, size)
    ensures SegmentOk(Widened(l, base, size), Segment(base, size))
  {
    hide Segments, Chained, NoOverlap, Widened, Aligned;
    var k, s := Widened(l, base, size), Segment(base, size);
    WidenedKeys(l, segs, base, size, base);
    forall x | x in k && s.Holds(x) ensures EndsAt(k, s, x) {
      WidenedKeys(l, segs, base, size, x);
      if x in l {
        FreshApart(l, segs, base, size, x);
        AppendPositive(l, x);
      }
    }
    SegmentIntro(k, s);
  }

  lemma WidenedOld(l: Layout, segs: seq<Segment>, base: int, size: nat, j: nat)
    requires Tiling(l, segs) && Fresh(segs, base, size) && j < |segs|
    ensures SegmentOk(Widened(l, base, size), segs[j])
  {
    hide Chunks, Chained, Widened, Aligned, SegmentOk;
    var k := Widened(l, base, size);
    SegmentFacts(l, segs[j]);
    WidenedKeys(l, segs, base, size, segs[j].base);
    forall x | x in k && segs[j].Holds(x) ensures EndsAt(k, segs[j], x) {
      WidenedKeys(l, segs, base, size, x);
      if x in l {
        EndsIn(l, segs[j], x);
      }
    }
    SegmentIntro(k, segs[j]);
  }

  lemma WidenedTags(m: Words, l: Layout, segs: seq<Segment>, base: int, size: nat)
    requires Tiling(l, segs) && Fresh(segs, base, size) && TagsOk(m, l)
    requires Head(m, base) == size - TOP_FOOT_SIZE + PINUSE && Head(m, base + size - TOP_FOOT_SIZE) == TOP_FOOT_SIZE
    ensures TagsOk(m, Widened(l, base, size))
  {
    hide Tiling, Widened, Aligned, TagOk, W;
    var k := Widened(l, base, size);
    WidenedKeys(l, segs, base, size, base);
    forall x | x in k ensures TagOk(m, k, x) {
      WidenedKeys(l, segs, base, size, x);
      if x in l {
        WidenedTag(m, l, segs, base, size, x);
      } else if x == base {
        TopTag(m, k, base);
      } else {
        TailTag(m, k, x);
      }
    }
  }

  lemma WidenedTag(m: Words, l: Layout, segs: seq<Segment>, base: int, size: nat, x: int)
    requires Tiling(l, segs) && Fresh(segs, base, size) && x in l && TagOk(m, l, x)
    ensures TagOk(m, Widened(l, base, size), x)
  {
    hide Chunks, Segments, Widened, Aligned, W;
    WidenedKeys(l, segs, base, size, x);
    WidenedKeys(l, segs, base, size, x - W(m, x));
    if l[x].kind != Tail {
      WidenedKeys(l, segs, base, size, Next(l, x));
    }
  }

  // ---------------------------------------------------------------- retiring the old top

  lemma CutTail(l: Layout, segs: seq<Segment>, a: int, n: nat)
    requires Tiling(l, segs) && Is(l, a, Tail) && 0 < n < l[a].size && Aligned(n)
    ensures Tiling(Cut(l, a, n, Used, Tail), segs)
  {
    hide SegmentOk, NoOverlap;
    var f := Cut(l, a, n, Used, Tail);
    CutTailChunks(l, a, n);
    var i := Home(l, segs, a);
    forall c | 0 <= c < |segs| ensures SegmentOk(f, segs[c]) {
      CutTailSegment(l, segs, a, n, c, i);
    }
    EndsIn(l, segs[i], a);
    forall x | x in f ensures InSegment(segs, x) {
      if x == a + n {
        assert segs[i].Holds(x);
      } else {
        assert x in l;
      }
    }
  }

  lemma CutTailChunks(l: Layout, a: int, n: nat)
    requires Chunks(l) && Chained(l) && Is(l, a, Tail) && 0 < n < l[a].size && Aligned(n)
    ensures Chunks(Cut(l, a, n, Used, Tail)) && Chained(Cut(l, a, n, Used, Tail))
  {
    hide NoOverlap, Aligned;
    var f := Cut(l, a, n, Used, Tail);
    assert ChunkOk(a, l[a].size);
    AlignedDiff(n, l[a].size);
    AlignedDiff(a, n);
    CutOverlap(l, a, n, Used, Tail);
    forall x | x in f && f[x].kind != Tail ensures Next(f, x) in f {
      if x != a {
        assert Next(l, x) in l;
      }
    }
  }

  lemma CutTailSegment(l: Layout, segs: seq<Segment>, a: int, n: nat, c: nat, i: nat)
    requires Tiling(l, segs) && Is(l, a, Tail) && 0 < n < l[a].size && Aligned(n)
    requires i < |segs| && c < |segs| && segs[i].Holds(a)
    ensures SegmentOk(Cut(l, a, n, Used, Tail), segs[c])
  {
    hide SegmentOk, Chunks, Chained, Aligned;
    var f, s := Cut(l, a, n, Used, Tail), segs[c];
    SegmentFacts(l, s);
    EndsIn(l, segs[i], a);
    CutNew(l, a, n);
    forall x | x in f && s.Holds(x) ensures EndsAt(f, s, x) {
      if x == a || x == a + n {
        OneHome(segs, i, c, x);
      } else {
        EndsIn(l, s, x);
      }
    }
    SegmentIntro(f, s);
  }

  lemma CutNew(l: Layout, a: int, n: nat)
    requires Chunks(l) && a in l && 0 < n < l[a].size
    ensures a + n !in l
  {
    hide InRange;
  }

  /** The old top chunk becomes free, or is too small and goes with the segment record. */
  function Retired(l: Layout, a: int, s: nat): Layout {
    if a + s !in l || l[a + s].size != TOP_FOOT_SIZE then l
    else if s >= MIN_CHUNK_SIZE then Cut(l, a + s, MIN_CHUNK_SIZE, Used, Tail)[a := Tag(s, Free)]
    else Fuse(Cut(l, a + s, MIN_CHUNK_SIZE - s, Used, Tail), a, a + MIN_CHUNK_SIZE, Used)
  }

  /** An old top chunk and the space after it. */
  ghost predicate OldTop(l: Layout, a: int, s: nat) {
    Is(l, a, Top) && l[a].size == s && a + s in l && l[a + s] == Tag(TOP_FOOT_SIZE, Tail) && s > 0 && Aligned(s)
  }

  lemma RetiredKeys(l: Layout, a: int, s: nat, x: int)
    requires OldTop(l, a, s) && NoOverlap(l)
    ensures var k := Retired(l, a, s);
            var r := if s >= MIN_CHUNK_SIZE then a + s else a;
            && a in k && r in k && k[r] == Tag(MIN_CHUNK_SIZE, Used) && (s >= MIN_CHUNK_SIZE ==> k[a] == Tag(s, Free))
            && Is(k, r + MIN_CHUNK_SIZE, Tail)
            && k[r + MIN_CHUNK_SIZE].size == a + s + TOP_FOOT_SIZE - r - MIN_CHUNK_SIZE
            && (x in k && a <= x < a + s + TOP_FOOT_SIZE ==> x == a || x == r || x == r + MIN_CHUNK_SIZE)
            && (x < a || x >= a + s + TOP_FOOT_SIZE ==> (x in k <==> x in l) && (x in l ==> k[x] == l[x]))
            && (x in l && a <= x < a + s + TOP_FOOT_SIZE ==> x == a || x == a + s)
  {
    hide Aligned;
    var c := if s >= MIN_CHUNK_SIZE then MIN_CHUNK_SIZE else MIN_CHUNK_SIZE - s;
    var f := Cut(l, a + s, c, Used, Tail);
    assert x in l && a < x ==> a + s <= x;
    assert x in l && a + s < x ==> a + s + TOP_FOOT_SIZE <= x;
    if s < MIN_CHUNK_SIZE {
      FuseKeys(f, a, a + MIN_CHUNK_SIZE, Used);
    }
  }

  lemma RetiredTiling(l: Layout, segs: seq<Segment>, a: int, s: nat)
    requires Tiling(l, segs) && OldTop(l, a, s)
    ensures Tiling(Retired(l, a, s), segs)
  {
    hide Chunks, Chained, Segments, Fuse;
    var e := a + s;
    if s >= MIN_CHUNK_SIZE {
      CutTail(l, segs, e, MIN_CHUNK_SIZE);
      RetagTiling(Cut(l, e, MIN_CHUNK_SIZE, Used, Tail), segs, a, Free);
    } else {
      var c := MIN_CHUNK_SIZE - s;
      var f := Cut(l, e, c, Used, Tail);
      AlignedDiff(s, MIN_CHUNK_SIZE);
      CutTail(l, segs, e, c);
      var i := Home(f, segs, a);
      NextHeld(f, segs, a, i);
      NextHeld(f, segs, e, i);
      FuseTiling(f, segs, a, a + MIN_CHUNK_SIZE, Used, i);
    }
  }

  /** The words written when a top chunk is retired. */
  ghost predicate RetiredWords(m: Words, n: Words, a: int, s: nat) {
    var r := if s >= MIN_CHUNK_SIZE then a + s else a;
    && SameOutside(m, n, a + HEAD, a + s + TOP_FOOT_SIZE - 8) && Head(n, r + MIN_CHUNK_SIZE) == FENCEPOST_HEAD
    && (if s >= MIN_CHUNK_SIZE then Head(n, a) == s + PINUSE && W(n, r) == s && Head(n, r) == MIN_CHUNK_SIZE + CINUSE
        else Head(n, r) == MIN_CHUNK_SIZE + CINUSE + PINUSE)
  }

  lemma RetiredTags(m: Words, l: Layout, n: Words, a: int, s: nat)
    requires Chunks(l) && TagsOk(m, l) && OldTop(l, a, s) && RetiredWords(m, n, a, s) && Pinuse(m, a)
    ensures TagsOk(n, Retired(l, a, s))
  {
    hide W, TagOk, Retired, Chunks;
    var k, end := Retired(l, a, s), a + s + TOP_FOOT_SIZE;
    AlignedOdd(s);
    assert NoOverlap(l) && InRange(l) by {
      ChunksParts(l);
    }
    forall x ensures (x in k && a <= x < end ==> TagOk(n, k, x)) && (x in l && a <= x < end ==> l[x].kind != Free) {
      RetiredKeys(l, a, s, x);
      RetiredTag(n, k, a, s);
    }
    forall x ensures x < a || x >= end ==> (x in k <==> x in l) && (x in l ==> k[x] == l[x]) {
      RetiredKeys(l, a, s, x);
    }
    RetiredKeys(l, a, s, a);
    PatchEnd(m, l, n, k, a, end);
  }

  lemma ChunksParts(l: Layout)
    requires Chunks(l)
    ensures NoOverlap(l) && InRange(l)
  {
  }

  lemma RetiredTag(n: Words, k: Layout, a: int, s: nat)
    requires var r := if s >= MIN_CHUNK_SIZE then a + s else a;
             && a in k && r in k && k[r] == Tag(MIN_CHUNK_SIZE, Used) && (s >= MIN_CHUNK_SIZE ==> k[a] == Tag(s, Free))
             && Is(k, r + MIN_CHUNK_SIZE, Tail) && k[r + MIN_CHUNK_SIZE].size >= MIN_CHUNK_SIZE
             && Head(n, r + MIN_CHUNK_SIZE) == FENCEPOST_HEAD
             && (if s >= MIN_CHUNK_SIZE then Head(n, a) == s + PINUSE && W(n, r) == s
                 && Head(n, r) == MIN_CHUNK_SIZE + CINUSE
                 else Head(n, r) == MIN_CHUNK_SIZE + CINUSE + PINUSE)
    ensures var r := if s >= MIN_CHUNK_SIZE then a + s else a;
            TagOk(n, k, a) && TagOk(n, k, r) && TagOk(n, k, r + MIN_CHUNK_SIZE)
  {
    hide W;
  }

  /** The heap with a new segment and its top chunk, and the old top chunk retired. */
  function Added(h: Heap, base: int, size: nat, n: Words): Heap {
    h.(bins := h.bins.(mem := n), lay := Retired(Widened(h.lay, base, size), h.top, h.topsize),
       segs := [Segment(base, size)] + h.segs, top := base, topsize := LessFoot(size))
  }

  /** What is left of the old top chunk goes to a bin. */
  function Leftover(h: Heap): set<int> { if h.topsize >= MIN_CHUNK_SIZE then {h.top} else {} }

  /** The words of a new segment. */
  ghost predicate NewWords(m: Words, n: Words, segs: seq<Segment>, base: int, size: nat) {
    && SameHeap(m, n, segs)
    && Head(n, base) == size - TOP_FOOT_SIZE + PINUSE && Head(n, base + size - TOP_FOOT_SIZE) == TOP_FOOT_SIZE
  }

  lemma AddedOldTop(h: Heap, limbo: set<int>, base: int, size: nat)
    requires HeapOk(h, limbo) && Fresh(h.segs, base, size)
    ensures OldTop(Widened(h.lay, base, size), h.top, h.topsize)
  {
    hide HeapOk, Tiling, TagsOk, Tiled, TagOk, Fresh, Widened, Aligned;
    TopFacts(h, limbo);
    HeapTiling(h, limbo);
    WidenedKeys(h.lay, h.segs, base, size, h.top);
    WidenedKeys(h.lay, h.segs, base, size, h.top + h.topsize);
  }

  lemma HeapTiling(h: Heap, limbo: set<int>)
    requires HeapOk(h, limbo)
    ensures Tiling(h.lay, h.segs) && TagsOk(h.Mem(), h.lay)
  {
    hide BinsOk, Tiling, TagsOk, Places;
  }

  lemma AddedTiling(h: Heap, limbo: set<int>, base: int, size: nat)
    requires HeapOk(h, limbo) && Fresh(h.segs, base, size)
    ensures OldTop(Widened(h.lay, base, size), h.top, h.topsize)
    ensures Tiling(Widened(h.lay, base, size), [Segment(base, size)] + h.segs)
    ensures Tiling(Retired(Widened(h.lay, base, size), h.top, h.topsize), [Segment(base, size)] + h.segs)
  {
    hide HeapOk, Widened, Aligned, Chunks, Chained, Segments, OldTop, Retired;
    AddedOldTop(h, limbo, base, size);
    HeapTiling(h, limbo);
    WidenedChunks(h.lay, h.segs, base, size);
    WidenedSegments(h.lay, h.segs, base, size);
    RetiredTiling(Widened(h.lay, base, size), [Segment(base, size)] + h.segs, h.top, h.topsize);
  }

  lemma AddedTags(h: Heap, limbo: set<int>, base: int, size: nat, m1: Words, n: Words)
    requires HeapOk(h, limbo) && Fresh(h.segs, base, size) && NewWords(h.Mem(), m1, h.segs, base, size)
    requires RetiredWords(m1, n, h.top, h.topsize)
    ensures OldTop(Widened(h.lay, base, size), h.top, h.topsize)
    ensures TagsOk(n, Retired(Widened(h.lay, base, size), h.top, h.topsize))
  {
    hide HeapOk, Widened, Aligned, Chained, Segments, OldTop, Retired, SameHeap, W, RetiredWords, Chunks, TagsOk;
    AddedTiling(h, limbo, base, size);
    HeapTiling(h, limbo);
    TopFacts(h, limbo);
    OutsideTags(h.Mem(), m1, h.lay, h.segs);
    WidenedTags(m1, h.lay, h.segs, base, size);
    TopPinuse(m1, h.lay, h.top);
    RetiredTags(m1, Widened(h.lay, base, size), n, h.top, h.topsize);
  }

  lemma TopPinuse(m: Words, l: Layout, a: int)
    requires TagsOk(m, l) && Is(l, a, Top) && Aligned(l[a].size)
    ensures Pinuse(m, a)
  {
    hide W;
    assert TagOk(m, l, a);
    AlignedOdd(l[a].size);
  }

  lemma AddedPlaces(h: Heap, limbo: set<int>, base: int, size: nat, n: Words)
    requires HeapOk(h, limbo) && Fresh(h.segs, base, size) && OldTop(Widened(h.lay, base, size), h.top, h.topsize)
    ensures Places(Added(h, base, size, n), limbo + Leftover(h))
  {
    hide BinsOk, Tiling, TagsOk, W, Aligned, Widened, Retired, Tiled, TagOk;
    var g := Added(h, base, size, n);
    AddedNoTop(h, limbo);
    forall x ensures (Is(g.lay, x, Free) <==> Is(h.lay, x, Free) || x in Leftover(h))
      && (Is(g.lay, x, Top) <==> x == base)
      && (Is(h.lay, x, Free) ==> x in g.lay && g.lay[x] == h.lay[x])
    {
      AddedKind(h, limbo, base, size, n, x);
    }
    AddedKind(h, limbo, base, size, n, base);
  }

  lemma AddedNoTop(h: Heap, limbo: set<int>)
    requires HeapOk(h, limbo)
    ensures !Is(h.lay, h.top, Free) && h.top !in limbo && h.top !in h.bins.held && (h.dvsize != 0 ==> h.top != h.dv)
            && h.top != 0
  {
    hide BinsOk, Tiling, TagsOk, W;
    HeldNonzero(h, limbo);
  }

  /** The kinds of chunks after a segment has been added. */
  lemma AddedKind(h: Heap, limbo: set<int>, base: int, size: nat, n: Words, x: int)
    requires HeapOk(h, limbo) && Fresh(h.segs, base, size) && OldTop(Widened(h.lay, base, size), h.top, h.topsize)
    ensures var g := Added(h, base, size, n);
            && (Is(g.lay, x, Free) <==> Is(h.lay, x, Free) || x in Leftover(h)) && (Is(g.lay, x, Top) <==> x == base)
            && (Is(h.lay, x, Free) || Is(h.lay, x, Used) ==> x in g.lay && g.lay[x] == h.lay[x])
            && (Is(h.lay, x, Top) ==> !Is(g.lay, x, Tail))
            && base in g.lay && g.lay[base].size == LessFoot(size)
  {
    hide HeapOk, Tiling, TagsOk, Tiled, TagOk, Fresh, Aligned, Widened, Retired, OldTop,
      NoOverlap, InRange, Chained;
    TopFacts(h, limbo);
    AddedTiling(h, limbo, base, size);
    HeapTiling(h, limbo);
    TilingParts(Widened(h.lay, base, size), [Segment(base, size)] + h.segs);
    WidenedKeys(h.lay, h.segs, base, size, x);
    RetiredKeys(Widened(h.lay, base, size), h.top, h.topsize, x);
    TopOnly(h, limbo, x);
    AddedBase(h, limbo, base, size);
    RetiredKeys(Widened(h.lay, base, size), h.top, h.topsize, base);
  }

  lemma TopOnly(h: Heap, limbo: set<int>, x: int)
    requires HeapOk(h, limbo)
    ensures Is(h.lay, x, Top) ==> x == h.top
  {
    hide BinsOk, Tiling, TagsOk, W;
  }

  lemma AddedBase(h: Heap, limbo: set<int>, base: int, size: nat)
    requires HeapOk(h, limbo) && Fresh(h.segs, base, size)
    ensures base < h.top || base >= h.top + h.topsize + TOP_FOOT_SIZE
  {
    hide HeapOk, Tiling, TagsOk, Tiled, TagOk, Aligned;
    TopFacts(h, limbo);
    HeapTiling(h, limbo);
    FreshApart(h.lay, h.segs, base, size, h.top);
    FreshApart(h.lay, h.segs, base, size, h.top + h.topsize);
  }

  lemma AddedHeldClear(h: Heap, limbo: set<int>)
    requires HeapOk(h, limbo)
    ensures forall c :: c in h.bins.held ==>
              c + h.bins.held[c] <= h.top || h.top + h.topsize + TOP_FOOT_SIZE - 8 < c + HEAD
  {
    hide BinsOk, Chained, Segments, TagsOk, W, Aligned, FreePlaces, LimboPlaces, DvPlace, Tiled, TagOk;
    TopFacts(h, limbo);
    forall c | c in h.bins.held ensures c + h.bins.held[c] <= h.top
      || h.top + h.topsize + TOP_FOOT_SIZE - 8 < c + HEAD {
      TopLast(h, limbo, c);
      assert c in h.lay;
    }
  }

  /** A new segment takes over as the home of the top chunk. */
  lemma AddedOk(h: Heap, limbo: set<int>, base: int, size: nat, m1: Words, n: Words, live: set<int>)
    requires HeapOk(h, limbo) && Fresh(h.segs, base, size) && NewWords(h.Mem(), m1, h.segs, base, size)
    requires RetiredWords(m1, n, h.top, h.topsize)
    requires forall p :: p in live ==> Is(h.lay, p, Used)
    ensures OldTop(Widened(h.lay, base, size), h.top, h.topsize)
    ensures HeapOk(Added(h, base, size, n), limbo + Leftover(h))
    ensures Keeps(h.Mem(), h.lay, n, Added(h, base, size, n).lay, live)
  {
    hide BinsOk, Tiling, Places, Widened, Aligned, OldTop, Retired, SameHeap, W, TagsOk, Keeps, Leftover, SameOutside,
      Fresh, Tiled, TagOk;
    AddedTags(h, limbo, base, size, m1, n);
    AddedTiling(h, limbo, base, size);
    AddedPlaces(h, limbo, base, size, n);
    OutsideOk(h, limbo, m1, live);
    TopFacts(h, limbo);
    AddedHeldClear(h, limbo);
    BinsPatch(h.bins.(mem := m1), n, h.top, h.top + h.topsize + TOP_FOOT_SIZE - 8);
    AddedKeeps(h, limbo, base, size, m1, n, live);
  }

  lemma AddedKeeps(h: Heap, limbo: set<int>, base: int, size: nat, m1: Words, n: Words, live: set<int>)
    requires HeapOk(h, limbo) && Fresh(h.segs, base, size) && OldTop(Widened(h.lay, base, size), h.top, h.topsize)
    requires Keeps(h.Mem(), h.lay, m1, h.lay, live)
             && SameOutside(m1, n, h.top + HEAD, h.top + h.topsize + TOP_FOOT_SIZE - 8)
    ensures Keeps(h.Mem(), h.lay, n, Added(h, base, size, n).lay, live)
  {
    hide HeapOk, Aligned, Widened, Retired, W, Fresh, OldTop, Tiled, TagOk;
    TopFacts(h, limbo);
    var l, k := h.lay, Added(h, base, size, n).lay;
    forall p | p in live ensures KeepsOne(h.Mem(), l, n, k, p) {
      assert KeepsOne(h.Mem(), l, m1, l, p);
      AddedKind(h, limbo, base, size, n, p);
      AddedKind(h, limbo, base, size, n, Next(l, p));
      NextIn(h, limbo, p);
      TopLast(h, limbo, p);
      HeapBeside(h, limbo, p, h.top);
    }
  }

  lemma NextIn(h: Heap, limbo: set<int>, p: int)
    requires HeapOk(h, limbo) && Is(h.lay, p, Used)
    ensures Next(h.lay, p) in h.lay
  {
    hide BinsOk, Chunks, Segments, TagsOk, Places;
  }

  lemma HeapBeside(h: Heap, limbo: set<int>, a: int, x: int)
    requires HeapOk(h, limbo) && a in h.lay && x in h.lay && a != x
    ensures Next(h.lay, a) <= x || Next(h.lay, x) <= a
  {
    hide BinsOk, Chained, Segments, TagsOk, Places;
    Beside(h.lay, a, x);
  }
}

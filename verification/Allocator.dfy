/** LuaJIT's bundled memory allocator: malloc, free and realloc over boundary-tagged chunks. */
module Allocator {
  import opened TreeIndex
  import opened HeapWords
  import opened Bins
  import opened BinStores
  import opened TrieSearch
  import opened BinTable
  import opened HeapLayout
  import opened HeapTags
  import opened HeapState
  import opened HeapSteps
  import opened HeapSystem
  import opened HeapServe
  import opened HeapGrow
  import opened HeapFree
  import opened HeapUsed

  /** The chunk that holds the allocator state itself. */
  const STATE_SIZE: nat := 872

  function FirstLay(base: int): Layout {
    map[base := Tag(STATE_SIZE, Used), base + STATE_SIZE := Tag(GRANULARITY - STATE_SIZE - TOP_FOOT_SIZE, Top),
        base + GRANULARITY - TOP_FOOT_SIZE := Tag(TOP_FOOT_SIZE, Tail)]
  }

  lemma FirstTiling(base: int)
    requires Fresh([], base, GRANULARITY)
    ensures Tiling(FirstLay(base), [Segment(base, GRANULARITY)])
  {
    hide FirstLay, Chunks, Chained, SegmentOk;
    FirstChunks(base);
    var l, s := FirstLay(base), [Segment(base, GRANULARITY)];
    forall x | x in l ensures InSegment(s, x) {
      assert s[0].Holds(x);
    }
  }

  lemma FirstChunks(base: int)
    requires Fresh([], base, GRANULARITY)
    ensures var l := FirstLay(base);
            && Chunks(l) && Chained(l) && SegmentOk(l, Segment(base, GRANULARITY))
            && forall x :: x in l ==> base <= x < base + GRANULARITY
  {
    hide FirstLay, Aligned;
    FirstKeys(base);
    FirstAligned(base);
  }

  lemma FirstKeys(base: int)
    ensures var l, mid, end := FirstLay(base), base + STATE_SIZE, base + GRANULARITY - TOP_FOOT_SIZE;
            && (forall x :: x in l <==> x == base || x == mid || x == end)
            && l[base] == Tag(STATE_SIZE, Used) && l[mid] == Tag(GRANULARITY - STATE_SIZE - TOP_FOOT_SIZE, Top)
            && l[end] == Tag(TOP_FOOT_SIZE, Tail)
  {
  }

  lemma FirstAligned(base: int)
    requires Aligned(base)
    ensures Aligned(base + STATE_SIZE) && Aligned(base + GRANULARITY - TOP_FOOT_SIZE) && Aligned(GRANULARITY)
    ensures Aligned(STATE_SIZE) && Aligned(GRANULARITY - STATE_SIZE - TOP_FOOT_SIZE) && Aligned(TOP_FOOT_SIZE)
  {
  }

  lemma FirstTags(m: Words, base: int)
    requires Head(m, base) == STATE_SIZE + PINUSE + CINUSE
    requires Head(m, base + STATE_SIZE) == GRANULARITY - STATE_SIZE - TOP_FOOT_SIZE + PINUSE
    requires Head(m, base + GRANULARITY - TOP_FOOT_SIZE) == TOP_FOOT_SIZE
    ensures TagsOk(m, FirstLay(base))
  {
    hide W;
  }

  lemma FirstHeap(h: Heap, b: BinState, base: int)
    requires Fresh([], base, GRANULARITY) && BinsOk(b) && b.held == map[] && h.lay == FirstLay(base)
             && h.segs == [Segment(base, GRANULARITY)]
    requires h.bins == b.(mem := b.mem[base + HEAD := STATE_SIZE + PINUSE + CINUSE][h.top + HEAD := h.topsize + PINUSE]
                                      [h.top + h.topsize + HEAD := TOP_FOOT_SIZE])
    requires h.dv == 0 && h.dvsize == 0 && h.top == base + STATE_SIZE
             && h.topsize == GRANULARITY - STATE_SIZE - TOP_FOOT_SIZE
    ensures HeapOk(h, {}) && LiveOk(h.lay, {})
  {
    hide BinsOk, Tiling, TagsOk;
    FirstTiling(base);
    FirstTags(h.Mem(), base);
    BinsFrame(b, h.Mem());
  }

  lemma FirstAccounted(base: int)
    ensures Accounted(FirstLay(base), {}, {base})
  {
    assert UsedChunks(FirstLay(base)) == {base};
  }

  /** What mmap returns when it fails. */
  const CMFAIL: int := MAX_SIZE_T

  class Allocator {
    const table: BinTable
    var dv: int
    var dvsize: nat
    var top: int
    var topsize: nat
    var segs: seq<Segment>
    ghost var lay: Layout
    ghost var live: set<int>    // chunks of the blocks handed out
    ghost var system: set<int>  // chunks in use for the allocator state and the segment records

    /** lj_alloc_create: one segment, whose first chunk is kept for the allocator state. */
    constructor (tbase: int)
      requires Fresh([], tbase, GRANULARITY)
      ensures Valid() && live == {} && system == {tbase} && fresh(this) && fresh(table)
      ensures segs == [Segment(tbase, GRANULARITY)]
    {
      hide HeapOk, LiveOk, BinsOk, Fresh, FirstLay, Accounted;
      table := new BinTable();
      dv, dvsize := 0, 0;
      top, topsize := tbase + STATE_SIZE, GRANULARITY - STATE_SIZE - TOP_FOOT_SIZE;
      segs := [Segment(tbase, GRANULARITY)];
      live, system, lay := {}, {tbase}, FirstLay(tbase);
      new;
      ghost var b := table.Get();
      table.mem := table.mem[tbase + HEAD := STATE_SIZE + PINUSE + CINUSE];
      table.mem := table.mem[top + HEAD := topsize + PINUSE];
      table.mem := table.mem[top + topsize + HEAD := TOP_FOOT_SIZE];
      FirstHeap(Get(), b, tbase);
      FirstAccounted(tbase);
    }

    ghost function Get(): Heap
      reads this, table
    {
      Heap(table.Get(), lay, segs, dv, dvsize, top, topsize)
    }

    ghost predicate Valid()
      reads this, table
    {
      HeapOk(Get(), {}) && LiveOk(lay, live) && Accounted(lay, live, system) && |system| == |segs|
    }

    /** The bins as the heap knows them. */
    lemma Bins(limbo: set<int>)
      requires HeapOk(Get(), limbo)
      ensures BinsOk(table.Get())
    {
      hide BinsOk, Tiling, TagsOk, Places;
    }

    // -------------------------------------------------------------- head and foot words

    /** set_inuse_and_pinuse */
    method SetInuseAndPinuse(p: int, s: nat)
      modifies table`mem
      ensures table.mem == WholeMem(old(table.mem), p, s)
    {
      table.mem := table.mem[p + HEAD := s + CINUSE + PINUSE];
      table.mem := table.mem[p + s + HEAD := SetP(W(table.mem, p + s + HEAD))];
    }

    /** A chunk of s bytes at p is split: nb bytes in use, the rest free. */
    method SplitChunk(p: int, s: nat, nb: nat)
      requires nb <= s
      modifies table`mem
      ensures table.mem == SplitMem(old(table.mem), p, s, nb)
    {
      table.mem := table.mem[p + HEAD := nb + CINUSE + PINUSE];
      table.mem := table.mem[p + nb + HEAD := s - nb + PINUSE];
      table.mem := table.mem[p + nb + (s - nb) := s - nb];
    }

    // -------------------------------------------------------------- serving requests

    /** A small chunk that fits without remainder. */
    method TakeExact(i: nat, nb: nat) returns (p: int)
      requires Valid() && i in table.smallmap && nb <= 8 * i < nb + MIN_CHUNK_SIZE
      modifies table, this`lay
      ensures Serving(old(Get()), Get(), {}, live, p, nb) && Accounted(lay, live + {p}, system)
    {
      hide Accounted, HeapOk, BinsOk, Quiet, LiveOk, Keeps, W, WholeMem;
      ghost var h := Get();
      Bins({});
      p := table.UnlinkFirst(i);
      ghost var b := table.Get();
      WholeFromBin(h, b, p, nb, live);
      SetInuseAndPinuse(p, 8 * i);
      WholeAccounted(lay, live, system, p, 8 * i);
      lay := lay[p := Tag(8 * i, Used)];
      assert Get() == UsedWhole(h.(bins := b), p);
    }

    /** replace_dv: the old victim, a small chunk, goes to its bin. */
    method ReplaceDv(r: int, rs: nat, ghost h: Heap, ghost p: int, ghost nb: nat)
      requires Serving(h, Get(), {r}, live, p, nb) && SizeAt(lay, r) == rs && !Large(dvsize) && LiveOk(h.lay, live)
      modifies table, this`dv, this`dvsize
      ensures Serving(h, Get(), {}, live, p, nb)
    {
      hide Accounted, HeapOk, BinsOk, Quiet, LiveOk, Keeps, W, Room;
      ghost var g := Get();
      VictimFacts(g, {r});
      if dvsize != 0 {
        VictimOut(h, g, {r}, live, p, nb);
        ghost var g1 := g.(dv := 0, dvsize := 0);
        RestRoom(h, g1, {r} + {g.dv}, live, p, nb, g.dv);
        table.InsertSmall(dv, dvsize);
        RestBinned(h, g1, {r}, live, p, nb, g.dv, table.Get());
      }
      VictimIn(h, Get().(dv := 0, dvsize := 0), live, p, nb, r);
      dvsize, dv := rs, r;
    }

    /** A chunk from the next nonempty small bin; the remainder becomes the victim. */
    method TakeSmall(i: nat, nb: nat) returns (p: int)
      requires Valid() && i in table.smallmap && MIN_CHUNK_SIZE <= nb <= 8 * i && Aligned(nb) && !Large(dvsize)
      modifies table, this`lay, this`dv, this`dvsize
      ensures Serving(old(Get()), Get(), {}, live, p, nb) && Accounted(lay, live + {p}, system)
    {
      hide Accounted, HeapOk, BinsOk, Quiet, LiveOk, Keeps, W, WholeMem, SplitMem, Cut, Aligned;
      ghost var h := Get();
      Bins({});
      p := table.UnlinkFirst(i);
      ghost var b := table.Get();
      var rsize := 8 * i - nb;
      if rsize < MIN_CHUNK_SIZE {
        WholeFromBin(h, b, p, nb, live);
        SetInuseAndPinuse(p, 8 * i);
        WholeAccounted(lay, live, system, p, 8 * i);
        lay := lay[p := Tag(8 * i, Used)];
        assert Get() == UsedWhole(h.(bins := b), p);
      } else {
        PartFromBin(h, b, p, nb, live);
        SplitChunk(p, 8 * i, nb);
        CutAccounted(h, {}, live, system, p, nb, Kind.Free);
        lay := Cut(lay, p, nb, Used, Kind.Free);
        assert Get() == UsedPart(h.(bins := b), p, nb);
        ReplaceDv(p + nb, rsize, h, p, nb);
      }
    }

    /** tmalloc_small: the least chunk of the tree bins; the remainder becomes the victim. */
    method TakeLeast(nb: nat) returns (p: int)
      requires Valid() && table.treemap != {} && MIN_CHUNK_SIZE <= nb < MIN_LARGE_SIZE && Aligned(nb) && !Large(dvsize)
      modifies table, this`lay, this`dv, this`dvsize
      ensures Serving(old(Get()), Get(), {}, live, p, nb) && Accounted(lay, live + {p}, system)
      ensures Best(old(table.held), nb, p)
    {
      hide Accounted, HeapOk, BinsOk, Quiet, LiveOk, Keeps, W, WholeMem, SplitMem, Cut, Aligned;
      ghost var h := Get();
      Bins({});
      var rsize;
      p, rsize := table.FindLeast(nb);
      BestOf(table.held, nb, p, rsize);
      table.UnlinkLarge(p);
      ghost var b := table.Get();
      if rsize < MIN_CHUNK_SIZE {
        WholeFromBin(h, b, p, nb, live);
        SetInuseAndPinuse(p, rsize + nb);
        WholeAccounted(lay, live, system, p, rsize + nb);
        lay := lay[p := Tag(rsize + nb, Used)];
        assert Get() == UsedWhole(h.(bins := b), p);
      } else {
        PartFromBin(h, b, p, nb, live);
        SplitChunk(p, rsize + nb, nb);
        CutAccounted(h, {}, live, system, p, nb, Kind.Free);
        lay := Cut(lay, p, nb, Used, Kind.Free);
        assert Get() == UsedPart(h.(bins := b), p, nb);
        ReplaceDv(p + nb, rsize, h, p, nb);
      }
    }

    /** tmalloc_large: the best fit in the tree bins, unless the victim fits as well; the
        remainder goes to a bin. */
    method TakeBest(nb: nat) returns (p: int)
      requires Valid() && MIN_LARGE_SIZE <= nb < WORD && Aligned(nb)
      modifies table, this`lay
      ensures p != 0 ==> Serving(old(Get()), Get(), {}, live, p, nb) && Accounted(lay, live + {p}, system)
      ensures p != 0 ==> Best(old(table.held), nb, p) && (dvsize >= nb ==> old(table.held)[p] < dvsize)
      ensures p == 0 ==> Get() == old(Get())
      ensures p == 0 ==> forall a :: LargeIn(table.held, a) && table.held[a] >= nb ==>
                dvsize >= nb && table.held[a] >= dvsize
    {
      hide Accounted, HeapOk, BinsOk, Quiet, LiveOk, Keeps, W, WholeMem, SplitMem, Cut, Aligned;
      ghost var h := Get();
      Bins({});
      var v, rsize := table.FindBest(nb);
      VictimBetter(h, v, nb, rsize);
      if v != 0 {
        BestOf(table.held, nb, v, rsize);
      }
      if v != 0 && rsize < Sub64(dvsize, nb) {
        TakeTree(v, nb, rsize);
        return v;
      }
      return 0;
    }

    /** A chunk of the tree bins is taken out and split, or taken whole. */
    method TakeTree(v: int, nb: nat, rsize: nat)
      requires Valid() && MIN_CHUNK_SIZE <= nb < WORD && Aligned(nb)
      requires LargeIn(table.held, v) && table.held[v] == nb + rsize
      modifies table, this`lay
      ensures Serving(old(Get()), Get(), {}, live, v, nb) && Accounted(lay, live + {v}, system)
    {
      hide Accounted, HeapOk, BinsOk, Quiet, LiveOk, Keeps, W, WholeMem, SplitMem, Cut, Aligned, Room;
      ghost var h := Get();
      Bins({});
      table.UnlinkLarge(v);
      ghost var b := table.Get();
      if rsize < MIN_CHUNK_SIZE {
        WholeFromBin(h, b, v, nb, live);
        SetInuseAndPinuse(v, rsize + nb);
        WholeAccounted(lay, live, system, v, rsize + nb);
        lay := lay[v := Tag(rsize + nb, Used)];
        assert Get() == UsedWhole(h.(bins := b), v);
      } else {
        PartFromBin(h, b, v, nb, live);
        SplitChunk(v, rsize + nb, nb);
        CutAccounted(h, {}, live, system, v, nb, Kind.Free);
        lay := Cut(lay, v, nb, Used, Kind.Free);
        assert Get() == UsedPart(h.(bins := b), v, nb);
        BinRest(v + nb, rsize, h, v, nb);
      }
    }

    /** The remainder of a chunk goes to its bin. */
    method BinRest(r: int, rs: nat, ghost h: Heap, ghost p: int, ghost nb: nat)
      requires Serving(h, Get(), {r}, live, p, nb) && SizeAt(lay, r) == rs && LiveOk(h.lay, live)
      modifies table
      ensures Serving(h, Get(), {}, live, p, nb)
    {
      hide HeapOk, BinsOk, Quiet, LiveOk, Keeps, W, Room;
      ghost var g := Get();
      RestRoom(h, g, {r}, live, p, nb, r);
      table.InsertChunk(r, rs);
      assert {} + {r} == {r};
      RestBinned(h, g, {}, live, p, nb, r, table.Get());
    }

    /** The designated victim, split or exhausted. */
    method TakeDv(nb: nat) returns (p: int)
      requires Valid() && MIN_CHUNK_SIZE <= nb <= dvsize && Aligned(nb)
      modifies table, this`lay, this`dv, this`dvsize
      ensures Serving(old(Get()), Get(), {}, live, p, nb) && Accounted(lay, live + {p}, system)
    {
      hide Accounted, HeapOk, BinsOk, LiveOk, Keeps, W, WholeMem, SplitMem, Cut, Aligned;
      ghost var h := Get();
      VictimFacts(h, {});
      var rsize := dvsize - nb;
      p := dv;
      if rsize >= MIN_CHUNK_SIZE {
        PartOfVictim(h, nb, live);
        SplitChunk(p, dvsize, nb);
        dv, dvsize := p + nb, rsize;
        CutAccounted(h, {}, live, system, p, nb, Kind.Free);
        lay := Cut(lay, p, nb, Used, Kind.Free);
        assert Get() == UsedPart(h.(dv := 0, dvsize := 0), p, nb).(dv := p + nb, dvsize := rsize);
      } else {
        var dvs := dvsize;
        WholeVictim(h, nb, live);
        dvsize, dv := 0, 0;
        SetInuseAndPinuse(p, dvs);
        WholeAccounted(lay, live, system, p, dvs);
        lay := lay[p := Tag(dvs, Used)];
        assert Get() == UsedWhole(h.(dv := 0, dvsize := 0), p);
      }
    }

    /** The lower part of the top chunk. */
    method TakeTop(nb: nat) returns (p: int)
      requires Valid() && MIN_CHUNK_SIZE <= nb < topsize && Aligned(nb)
      modifies table`mem, this`lay, this`top, this`topsize
      ensures Serving(old(Get()), Get(), {}, live, p, nb) && Accounted(lay, live + {p}, system)
    {
      hide Accounted, HeapOk, BinsOk, LiveOk, Keeps, W, TopSplitMem, Cut, Aligned, Tiled, TagOk;
      ghost var h := Get();
      TopFacts(h, {});
      PartOfTop(h, nb, live);
      topsize := topsize - nb;
      p := top;
      top := p + nb;
      table.mem := table.mem[top + HEAD := topsize + PINUSE];
      table.mem := table.mem[p + HEAD := nb + CINUSE + PINUSE];
      CutAccounted(h, {}, live, system, p, nb, Top);
      lay := Cut(lay, p, nb, Used, Top);
      TopSplitStores(h.Mem(), p, h.topsize, nb);
      assert Get() == UsedTop(h, nb);
    }

    // -------------------------------------------------------------- memory from the system

    /** init_top */
    method InitTop(p: int, psize: nat)
      modifies table`mem, this`top, this`topsize
      ensures top == p && topsize == psize
      ensures table.mem == old(table.mem)[p + HEAD := psize + PINUSE][p + psize + HEAD := TOP_FOOT_SIZE]
    {
      top, topsize := p, psize;
      table.mem := table.mem[p + HEAD := psize + PINUSE];
      table.mem := table.mem[p + psize + HEAD := TOP_FOOT_SIZE];
    }

    /** The segment that ends at an address; the number of segments when there is none. */
    method SegmentEndingAt(a: int) returns (i: nat)
      ensures i <= |segs| && (i < |segs| ==> segs[i].End() == a)
      ensures i == |segs| ==> forall j :: 0 <= j < |segs| ==> segs[j].End() != a
    {
      i := 0;
      while i < |segs| && segs[i].End() != a
        invariant i <= |segs| && forall j :: 0 <= j < i ==> segs[j].End() != a
      {
        i := i + 1;
      }
    }

    method SegmentStartingAt(a: int) returns (i: nat)
      ensures i <= |segs| && (i < |segs| ==> segs[i].base == a)
      ensures i == |segs| ==> forall j :: 0 <= j < |segs| ==> segs[j].base != a
    {
      i := 0;
      while i < |segs| && segs[i].base != a
        invariant i <= |segs| && forall j :: 0 <= j < i ==> segs[j].base != a
      {
        i := i + 1;
      }
    }

    /** segment_holding */
    method SegmentHolding(a: int) returns (i: nat)
      requires InSegment(segs, a)
      ensures i < |segs| && segs[i].Holds(a)
    {
      i := 0;
      while !segs[i].Holds(a)
        invariant i < |segs| && forall j :: 0 <= j < i ==> !segs[j].Holds(a)
        decreases |segs| - i
      {
        i := i + 1;
      }
    }

    /** The fenceposts at the end of a retired segment. */
    method Fence(p0: int, end: int)
      requires p0 + FD <= end && Aligned(p0) && Aligned(end)
      modifies table`mem
      ensures SameOutside(old(table.mem), table.mem, p0 + HEAD, end - 8) && Head(table.mem, p0) == FENCEPOST_HEAD
    {
      var p := p0;
      table.mem := table.mem[p + HEAD := FENCEPOST_HEAD];
      while p + FD < end
        invariant p0 <= p && p + FD <= end && Aligned(p)
        invariant SameOutside(old(table.mem), table.mem, p0 + HEAD, end - 8) && Head(table.mem, p0) == FENCEPOST_HEAD
        decreases end - p
      {
        p := p + 8;
        table.mem := table.mem[p + HEAD := FENCEPOST_HEAD];
      }
    }

    /** New memory right after the segment of the top chunk. */
    method AppendSegment(i: nat, tsize: nat)
      requires Valid() && Appendable(Get(), i, tsize)
      modifies table`mem, this`lay, this`top, this`topsize, this`segs
      ensures Valid() && topsize == old(topsize) + tsize
      ensures Keeps(old(table.mem), old(lay), table.mem, lay, live)
    {
      hide HeapOk, LiveOk, Keeps, AppendLay, Appendable, Accounted;
      ghost var h := Get();
      AppendableIndex(h, i, tsize);
      LiveAreUsed(lay, live);
      AppendedOk(h, {}, i, tsize, live);
      KeptLive(h.Mem(), h.lay, Appended(h, i, tsize).Mem(), Appended(h, i, tsize).lay, live);
      segs := segs[i := Segment(segs[i].base, segs[i].size + tsize)];
      InitTop(top, topsize + tsize);
      AppendEnd(h, i, tsize);
      AppendedAccounted(h, tsize, live, system);
      lay := AppendLay(lay, h.top, h.top + h.topsize, tsize);
      AppendStores(h, i, tsize);
      assert Get() == Appended(h, i, tsize);
    }

    /** Where the record of a retired segment goes: right behind the old top chunk, or in its
        place if it is too small for a chunk. */
    method RecordPlace() returns (csp: int, oldEnd: int)
      requires Valid()
      ensures csp == (if topsize >= MIN_CHUNK_SIZE then top + topsize else top)
      ensures oldEnd == top + topsize + TOP_FOOT_SIZE && Aligned(top) && Aligned(topsize) && topsize >= 8
      ensures Aligned(oldEnd)
    {
      hide Accounted, HeapOk, LiveOk, InSegment, Aligned;
      OldTopEnds(Get());
      var j := SegmentHolding(top);
      OldTopEnd(Get(), j);
      oldEnd := segs[j].End();
      var raw := oldEnd - (RECORD_SIZE + 4 * 8 + 7);
      var asp := raw + (8 - (raw + FD) % 8) % 8;
      RecordSpot(oldEnd);
      csp := if asp < top + MIN_CHUNK_SIZE then top else asp;
    }

    /** The words of the new segment, of the record at csp and of the fenceposts behind it. */
    method RetireStores(tbase: int, tsize: nat, csp: int, oldEnd: int) returns (ghost m1: Words)
      requires Valid() && Fresh(segs, tbase, tsize) && Aligned(top) && Aligned(topsize) && topsize >= 8
      requires csp == (if topsize >= MIN_CHUNK_SIZE then top + topsize else top)
      requires oldEnd == top + topsize + TOP_FOOT_SIZE && Aligned(oldEnd)
      modifies table`mem, this`top, this`topsize, this`segs
      ensures top == tbase && topsize == LessFoot(tsize) == tsize - TOP_FOOT_SIZE
      ensures segs == [Segment(tbase, tsize)] + old(segs)
      ensures NewWords(old(table.mem), m1, old(segs), tbase, tsize)
      ensures RetiredWords(m1, table.mem, old(top), old(topsize))
    {
      hide Accounted, HeapOk, LiveOk, Fresh, SameOutside, W, BinsOk, Aligned, RetiredWords, NewWords;
      ghost var h := Get();
      var oldTop, tnext := top, csp + RECORD_SIZE;
      FreshSize(segs, tbase, tsize);
      InitTop(tbase, tsize - TOP_FOOT_SIZE);
      m1 := table.mem;
      NewStores(h.Mem(), h.segs, tbase, tsize);
      table.mem := table.mem[csp + HEAD := RECORD_SIZE + PINUSE + CINUSE];
      segs := [Segment(tbase, tsize)] + segs;
      ghost var m2 := table.mem;
      FenceSpot(h, csp, oldEnd);
      Fence(tnext, oldEnd);
      ghost var m3 := table.mem;
      if csp != oldTop {
        var psize := csp - oldTop;
        table.mem := table.mem[csp + HEAD := ClearP(W(table.mem, csp + HEAD))];
        table.mem := table.mem[oldTop + HEAD := psize + PINUSE];
        table.mem := table.mem[csp := psize];
        RetiredLarge(h, m1, m2, m3, table.mem);
      } else {
        RetiredSmall(h, m1, m2, table.mem);
      }
    }

    /** add_segment: the old top chunk is retired behind a segment record. */
    method AddSegment(tbase: int, tsize: nat)
      requires Valid() && Fresh(segs, tbase, tsize)
      modifies table, this`lay, this`top, this`topsize, this`segs, this`system
      ensures Valid() && topsize == tsize - TOP_FOOT_SIZE && old(system) <= system
      ensures Keeps(old(table.mem), old(lay), table.mem, lay, live)
    {
      hide Accounted, HeapOk, LiveOk, Keeps, Fresh, W, Retired, Widened, BinsOk, Quiet, Room, Aligned, RetiredWords,
        NewWords;
      ghost var h := Get();
      LiveAreUsed(lay, live);
      var oldTop := top;
      var csp, oldEnd := RecordPlace();
      AddedAccounted(h, tbase, tsize, live, system, csp);
      RecordNew(h, live, system, csp);
      ghost var m1 := RetireStores(tbase, tsize, csp, oldEnd);
      system := system + {csp};
      lay := Retired(Widened(lay, tbase, tsize), h.top, h.topsize);
      AddedOk(h, {}, tbase, tsize, m1, table.mem, live);
      ghost var g := Get();
      assert g == Added(h, tbase, tsize, table.mem);
      if csp != oldTop {
        LeftoverRoom(h, g, tbase, tsize, g.Mem());
        table.InsertChunk(oldTop, csp - oldTop);
        LeftoverBinned(h, g, table.Get(), live);
      } else {
        LeftoverNone(h, g, live);
      }
    }

    /** The first chunk is the top chunk. */
    method PrependTop(i: nat, tbase: int, tsize: nat, nb: nat, ghost h: Heap)
      requires HeapOk(Get(), {}) && LiveOk(lay, live) && Accounted(lay, live, system)
      requires Keeps(h.Mem(), h.lay, table.mem, lay, live)
      requires Fresh(segs, tbase, tsize) && i < |segs| && segs[i].base == tbase + tsize == top && Splits(tsize, nb)
      requires Head(table.mem, tbase) == nb + CINUSE + PINUSE
      modifies table`mem, this`lay, this`top, this`topsize, this`segs
      ensures Serving(h, Get(), {}, live, tbase, nb) && Accounted(lay, live + {tbase}, system) && |segs| == old(|segs|)
    {
      hide Accounted, HeapOk, LiveOk, Keeps, Fresh, W, Aligned, Fuse, FreedTopWords, OpenedLay, JoinedTop;
      ghost var h0 := Get();
      segs := segs[i := Segment(tbase, segs[i].size + tsize)];
      var q, qsize := tbase + nb, tsize - nb;
      topsize := topsize + qsize;
      top := q;
      table.mem := table.mem[q + HEAD := topsize + PINUSE];
      TopHead(h0.Mem(), q, topsize);
      JoinedTopServes(h0, i, tbase, tsize, nb, table.mem, live);
      JoinedTopIs(h0, i, tbase, tsize, nb, table.mem);
      JoinedTopAccounted(h0, i, tbase, tsize, nb, live, live, system);
      lay := Fuse(OpenedLay(lay, tbase, tsize, nb), q, h0.top + h0.topsize, Top);
      assert Get() == JoinedTop(h0, i, tbase, tsize, nb, table.mem);
      ServeAfter(h, h0, Get(), {}, live, tbase, nb);
    }

    /** The first chunk is the designated victim. */
    method PrependDv(i: nat, tbase: int, tsize: nat, nb: nat, ghost h: Heap)
      requires HeapOk(Get(), {}) && LiveOk(lay, live) && Accounted(lay, live, system)
      requires Keeps(h.Mem(), h.lay, table.mem, lay, live)
      requires Fresh(segs, tbase, tsize) && i < |segs| && segs[i].base == tbase + tsize == dv && Splits(tsize, nb)
      requires Head(table.mem, tbase) == nb + CINUSE + PINUSE
      modifies table`mem, this`lay, this`dv, this`dvsize, this`segs
      ensures Serving(h, Get(), {}, live, tbase, nb) && Accounted(lay, live + {tbase}, system) && |segs| == old(|segs|)
    {
      hide Accounted, HeapOk, LiveOk, Keeps, Fresh, W, Aligned, Fuse, OpenedLay, Joined, JoinWords, JoinEnd;
      ghost var h0 := Get();
      VictimFirst(h0, i);
      ghost var h1 := h0.(dv := 0, dvsize := 0);
      segs := segs[i := Segment(tbase, segs[i].size + tsize)];
      var q, qsize := tbase + nb, tsize - nb;
      dvsize := dvsize + qsize;
      dv := q;
      ghost var e := q + dvsize;
      table.mem := table.mem[q + HEAD := dvsize + PINUSE];
      table.mem := table.mem[q + dvsize := dvsize];
      JoinStores(h0.Mem(), table.mem, q, e);
      JoinedServes(h1, {h0.dv}, i, tbase, tsize, nb, table.mem, e, live);
      JoinedIs(h1, i, tbase, tsize, nb, table.mem, e);
      JoinedAccounted(h1, {h0.dv}, i, tbase, tsize, nb, e, live, live, system);
      lay := Fuse(OpenedLay(lay, tbase, tsize, nb), q, e, Kind.Free);
      VictimIn(h1, Joined(h1, i, tbase, tsize, nb, table.mem, e), live, tbase, nb, q);
      assert Get() == Joined(h1, i, tbase, tsize, nb, table.mem, e).(dv := q, dvsize := e - q);
      ServeAfter(h, h1, Get(), {}, live, tbase, nb);
    }

    /** The rest of the new memory becomes a free chunk that ends at e. */
    method PrependFree(i: nat, tbase: int, tsize: nat, nb: nat, e: int, ghost h: Heap, ghost limbo: set<int>)
      requires HeapOk(Get(), limbo) && LiveOk(lay, live) && Accounted(lay, live, system)
      requires Keeps(h.Mem(), h.lay, table.mem, lay, live)
      requires Fresh(segs, tbase, tsize) && i < |segs| && segs[i].base == tbase + tsize && Splits(tsize, nb)
      requires Head(table.mem, tbase) == nb + CINUSE + PINUSE && JoinEnd(Get(), limbo, tbase + tsize, e)
               && e >= tbase + tsize
      modifies table, this`lay, this`segs
      ensures Serving(h, Get(), {}, live, tbase, nb) && Accounted(lay, live + {tbase}, system) && |segs| == old(|segs|)
    {
      hide Accounted, HeapOk, LiveOk, Keeps, Fresh, W, Aligned, Fuse, OpenedLay, Joined, JoinWords, JoinEnd, BinsOk,
        Quiet, Room;
      ghost var h1 := Get();
      segs := segs[i := Segment(tbase, segs[i].size + tsize)];
      var q := tbase + nb;
      var qsize := e - q;
      table.mem := table.mem[e + HEAD := ClearP(W(table.mem, e + HEAD))];
      table.mem := table.mem[q + HEAD := qsize + PINUSE];
      table.mem := table.mem[q + qsize := qsize];
      JoinClear(h1.Mem(), table.mem, q, e);
      JoinedServes(h1, limbo, i, tbase, tsize, nb, table.mem, e, live);
      JoinedIs(h1, i, tbase, tsize, nb, table.mem, e);
      JoinedAccounted(h1, limbo, i, tbase, tsize, nb, e, live, live, system);
      lay := Fuse(OpenedLay(lay, tbase, tsize, nb), q, e, Kind.Free);
      assert Get() == Joined(h1, i, tbase, tsize, nb, table.mem, e);
      BinRest(q, qsize, h1, tbase, nb);
      ServeAfter(h, h1, Get(), {}, live, tbase, nb);
    }

    /** prepend_alloc: new memory right before a segment serves the request; the rest joins the
        first chunk of the segment. */
    method PrependAlloc(i: nat, tbase: int, tsize: nat, nb: nat) returns (p: int)
      requires Valid() && Fresh(segs, tbase, tsize) && i < |segs| && segs[i].base == tbase + tsize && Splits(tsize, nb)
      modifies table, this`lay, this`top, this`topsize, this`segs, this`dv, this`dvsize
      ensures Serving(old(Get()), Get(), {}, live, p, nb) && p == tbase && Accounted(lay, live + {p}, system)
      ensures |segs| == old(|segs|)
    {
      hide Accounted, HeapOk, LiveOk, Keeps, Fresh, W, Aligned, BinsOk, Quiet, Cinuse, ChunkSize, JoinEnd;
      ghost var h := Get();
      var oldfirst := segs[i].base;
      p := tbase;
      BlockHead(h, tbase, tsize, nb, live);
      table.mem := table.mem[p + HEAD := nb + PINUSE + CINUSE];
      ghost var h0 := Get();
      assert h0 == h.(bins := h.bins.(mem := h0.Mem()));
      if oldfirst == top {
        PrependTop(i, tbase, tsize, nb, h);
      } else if oldfirst == dv {
        PrependDv(i, tbase, tsize, nb, h);
      } else {
        FirstKinds(h0, i);
        if !Cinuse(table.mem, oldfirst) {
          var nsize := ChunkSize(W(table.mem, oldfirst + HEAD));
          Bins({});
          table.UnlinkChunk(oldfirst, nsize);
          FirstOut(h, h0, table.Get(), oldfirst, live);
          BlockStays(h0, table.Get(), tbase, tsize);
          PrependFree(i, tbase, tsize, nb, oldfirst + nsize, h, {oldfirst});
        } else {
          FirstUsed(h0, oldfirst);
          PrependFree(i, tbase, tsize, nb, oldfirst, h, {});
        }
      }
    }

    /** alloc_sys: mp is what the system returned for the mapping asked for. */
    method AllocSys(nb: nat, mp: int) returns (p: int)
      requires Valid() && MIN_CHUNK_SIZE <= nb < WORD && (nb != MAX_SIZE_T ==> Aligned(nb))
      requires mp != CMFAIL && SysSize(nb) > nb ==> Fresh(segs, mp, SysSize(nb))
      modifies table, this`lay, this`top, this`topsize, this`segs, this`dv, this`dvsize, this`system
      ensures p == 0 <==> mp == CMFAIL || SysSize(nb) <= nb
      ensures p == 0 ==> Get() == old(Get())
      ensures p != 0 ==> Serving(old(Get()), Get(), {}, live, p, nb) && Accounted(lay, live + {p}, system)
      ensures old(system) <= system && |system| == |segs| && (p == 0 ==> system == old(system))
    {
      hide Accounted, HeapOk, LiveOk, Keeps, Fresh, SysSize, Appendable;
      var tsize := SysSize(nb);
      if tsize <= nb || mp == CMFAIL {
        return 0;
      }
      ghost var h := Get();
      SysSizeFits(nb);
      SysSplits(nb);
      FreshSize(segs, mp, tsize);
      var i := SegmentEndingAt(mp);
      if i < |segs| && segs[i].Holds(top) {
        AppendableIntro(h, i, tsize);
        AppendSegment(i, tsize);
      } else {
        i := SegmentStartingAt(mp + tsize);
        if i < |segs| {
          p := PrependAlloc(i, mp, tsize, nb);
          return;
        }
        AddSegment(mp, tsize);
      }
      ghost var h1 := Get();
      p := TakeTop(nb);
      ServeAfter(h, h1, Get(), {}, live, p, nb);
      BlockNonzero(Get(), p);
    }

    // -------------------------------------------------------------- freeing

    /** set_size_and_pinuse_of_free_chunk */
    method SetFree(p: int, s: nat)
      modifies table`mem
      ensures table.mem == old(table.mem)[p + HEAD := s + PINUSE][p + s := s]
    {
      table.mem := table.mem[p + HEAD := s + PINUSE];
      table.mem := table.mem[p + s := s];
    }

    /** The merged chunk goes to a bin. */
    method BinFreed(a: int, s: nat, ghost h: Heap, ghost p: int, ghost rest: set<int>)
      requires HeapOk(Get(), {a}) && SizeAt(lay, a) == s && Others(h, Get(), rest, p)
      modifies table
      ensures HeapOk(Get(), {}) && Others(h, Get(), rest, p)
    {
      hide HeapOk, Others, BinsOk, Quiet, Room, W, ChunkSize;
      ghost var g := Get();
      FreeRoom(g, a);
      table.InsertChunk(a, s);
      FreeBinned(h, g, table.Get(), a, p, rest);
    }

    /** The chunk behind the merged ones is in use. */
    method FreeBeforeUsed(a: int, psize: nat, next: int, wasDv: bool, ghost h: Heap, ghost g: Heap, ghost p: int,
                          ghost limbo: set<int>, ghost rest: set<int>)
      requires HeapOk(g, limbo) && Back(g, limbo, a, p) && Next(g.lay, p) == next && Is(g.lay, next, Used)
               && Others(h, g, rest, p)
      requires Accounted(g.lay, rest + {p}, system) && p !in rest
      requires psize == next - a && g == (if wasDv then Get().(dv := 0, dvsize := 0) else Get()) && (wasDv ==> dv == a)
      modifies table, this`lay, this`dvsize
      ensures HeapOk(Get(), {}) && Others(h, Get(), rest, p)
      ensures Accounted(lay, rest, system) && Reclaimed(lay, p, Next(g.lay, p))
    {
      hide Accounted, Reclaimed, HeapOk, Others, Back, Span, FreedWords, W, Fuse;
      SpanUsed(g, limbo, a, p);
      SpanRoom(g, limbo, a, p, next);
      table.mem := table.mem[next + HEAD := ClearP(W(table.mem, next + HEAD))];
      SetFree(a, psize);
      FreedClear(g.Mem(), table.mem, a, next);
      Coalesced(h, g, limbo, table.mem, a, p, next, rest);
      SpanAccounted(g, limbo, a, p, next, rest, system);
      lay := Fuse(lay, a, next, Kind.Free);
      ghost var g1 := Freed(g, table.mem, a, next);
      if wasDv {
        FreeVictim(h, g1, a, p, rest);
        dvsize := psize;
      } else {
        assert Get() == g1;
        BinFreed(a, psize, h, p, rest);
      }
    }

    /** The chunk behind is the top chunk. */
    method FreeIntoTop(a: int, psize: nat, wasDv: bool, ghost h: Heap, ghost g: Heap, ghost p: int,
                       ghost limbo: set<int>, ghost rest: set<int>)
      requires HeapOk(g, limbo) && Back(g, limbo, a, p) && Next(g.lay, p) == g.top && Others(h, g, rest, p)
      requires Accounted(g.lay, rest + {p}, system) && p !in rest
      requires psize == top - a && g == (if wasDv then Get().(dv := 0, dvsize := 0) else Get())
      modifies table`mem, this`lay, this`dv, this`dvsize, this`top, this`topsize
      ensures HeapOk(Get(), {}) && Others(h, Get(), rest, p)
      ensures Accounted(lay, rest, system) && Reclaimed(lay, p, Next(g.lay, p))
    {
      hide Accounted, Reclaimed, HeapOk, Others, Back, FreedTopWords, W, Fuse;
      var tsize := topsize + psize;
      topsize := tsize;
      top := a;
      table.mem := table.mem[a + HEAD := tsize + PINUSE];
      TopHead(g.Mem(), a, tsize);
      CoalescedTop(h, g, limbo, table.mem, a, p, rest);
      TopAccounted(g, limbo, a, p, rest, system);
      lay := Fuse(lay, a, g.top + g.topsize, Top);
      if wasDv {
        dv, dvsize := 0, 0;
      }
      assert Get() == FreedTop(g, table.mem, a);
    }

    /** The chunk behind is the designated victim. */
    method FreeIntoDv(a: int, psize: nat, ghost h: Heap, ghost p: int, ghost limbo: set<int>, ghost rest: set<int>)
      requires HeapOk(Get(), limbo) && Back(Get(), limbo, a, p) && Next(lay, p) == dv && Others(h, Get(), rest, p)
               && psize == dv - a
      requires Accounted(lay, rest + {p}, system) && p !in rest
      modifies table`mem, this`lay, this`dv, this`dvsize
      ensures HeapOk(Get(), {}) && Others(h, Get(), rest, p)
      ensures Accounted(lay, rest, system) && Reclaimed(lay, p, Next(old(lay), p))
    {
      hide Accounted, Reclaimed, HeapOk, Others, Back, Span, FreedWords, W, Fuse, Pinuse;
      ghost var g := Get();
      FrontVictim(h, g, limbo, a, p, rest);
      ghost var g1, e := g.(dv := 0, dvsize := 0), Next(lay, dv);
      SpanRoom(g1, limbo + {dv}, a, p, e);
      dvsize := dvsize + psize;
      ghost var y := dv;
      dv := a;
      SetFree(a, dvsize);
      FreedStores(g.Mem(), table.mem, a, e);
      Coalesced(h, g1, limbo + {y}, table.mem, a, p, e, rest);
      SpanAccounted(g1, limbo + {y}, a, p, e, rest, system);
      lay := Fuse(lay, a, e, Kind.Free);
      FreeVictim(h, Freed(g1, table.mem, a, e), a, p, rest);
    }

    /** The chunk behind is in a bin. */
    method FreeWithNext(a: int, psize: nat, next: int, wasDv: bool, ghost h: Heap, ghost g: Heap, ghost p: int,
                        ghost limbo: set<int>, ghost rest: set<int>)
      requires HeapOk(g, limbo) && Back(g, limbo, a, p) && Next(g.lay, p) == next && Others(h, g, rest, p)
      requires Is(g.lay, next, Kind.Free) && next in g.bins.held && g.bins.held[next] == SizeAt(g.lay, next)
      requires ChunkSize(W(g.Mem(), next + HEAD)) == SizeAt(g.lay, next) && Accounted(g.lay, rest + {p}, system)
               && p !in rest
      requires psize == next - a && g == (if wasDv then Get().(dv := 0, dvsize := 0) else Get()) && (wasDv ==> dv == a)
      modifies table, this`lay, this`dvsize
      ensures HeapOk(Get(), {}) && Others(h, Get(), rest, p)
      ensures Accounted(lay, rest, system) && Reclaimed(lay, p, Next(g.lay, p))
    {
      hide Accounted, Reclaimed, HeapOk, Others, Back, Span, FreedWords, W, Fuse, Pinuse, BinsOk, Quiet, ChunkSize;
      var nsize := ChunkSize(W(table.mem, next + HEAD));
      HeapBins(g, limbo);
      table.UnlinkChunk(next, nsize);
      ghost var g1, e := g.(bins := table.Get()), next + nsize;
      FrontBinned(h, g, limbo, table.Get(), a, p, rest);
      SpanRoom(g1, limbo + {next}, a, p, e);
      SetFree(a, psize + nsize);
      FreedStores(g1.Mem(), table.mem, a, e);
      Coalesced(h, g1, limbo + {next}, table.mem, a, p, e, rest);
      SpanAccounted(g1, limbo + {next}, a, p, e, rest, system);
      lay := Fuse(lay, a, e, Kind.Free);
      ghost var g2 := Freed(g1, table.mem, a, e);
      if wasDv {
        FreeVictim(h, g2, a, p, rest);
        dvsize := psize + nsize;
      } else {
        assert Get() == g2;
        BinFreed(a, psize + nsize, h, p, rest);
      }
    }

    /** lj_alloc_free on a chunk in use: it is merged with the free chunks around it. */
    method FreeChunk(p: int, ghost rest: set<int>)
      requires HeapOk(Get(), {}) && Is(lay, p, Used) && !Is(lay, Next(lay, p), Tail) && LiveOk(lay, rest) && p !in rest
      requires Accounted(lay, rest + {p}, system)
      modifies table, this`lay, this`dv, this`dvsize, this`top, this`topsize
      ensures HeapOk(Get(), {}) && Others(old(Get()), Get(), rest, p)
      ensures Accounted(lay, rest, system) && Reclaimed(lay, p, Next(old(lay), p))
    {
      hide Accounted, Reclaimed, HeapOk, Others, Back, W, Pinuse, BinsOk, Quiet, ChunkSize, Cinuse, LiveOk;
      ghost var h := Get();
      FreeStart(h, p, rest);
      var psize := ChunkSize(W(table.mem, p + HEAD));
      var next, a, wasDv := p + psize, p, false;
      ghost var g, limbo: set<int> := h, {};
      if !Pinuse(table.mem, p) {
        BackFree(h, p);
        var prevsize := W(table.mem, p);
        a := p - prevsize;
        psize := psize + prevsize;
        if a != dv {
          Bins({});
          table.UnlinkChunk(a, prevsize);
          BackBinned(h, table.Get(), a, p, rest);
          g, limbo := Get(), {a};
        } else {
          BackVictim(h, p, rest);
          wasDv, g, limbo := true, h.(dv := 0, dvsize := 0), {a};
        }
      }
      Forward(g, limbo, a, p);
      if !Cinuse(table.mem, next) {
        if next == top {
          FreeIntoTop(a, psize, wasDv, h, g, p, limbo, rest);
        } else if next == dv {
          FreeIntoDv(a, psize, h, p, limbo, rest);
        } else {
          FreeWithNext(a, psize, next, wasDv, h, g, p, limbo, rest);
        }
      } else {
        FreeBeforeUsed(a, psize, next, wasDv, h, g, p, limbo, rest);
      }
    }

    /** lj_alloc_free */
    method Free(mem: int)
      requires Valid() && (mem != 0 ==> mem - FD in live)
      modifies this, table
      ensures Valid() && live == old(live) - {mem - FD} && segs == old(segs) && system == old(system)
      ensures mem != 0 ==> Reclaimed(lay, mem - FD, Next(old(lay), mem - FD))
      ensures Keeps(old(table.mem), old(lay), table.mem, lay, live)
    {
      hide Accounted, Reclaimed, HeapOk, Others, Keeps, LiveOk;
      if mem != 0 {
        var p := mem - FD;
        ghost var h, rest := Get(), live - {p};
        LiveLess(lay, live, p);
        assert rest + {p} == live;
        FreeChunk(p, rest);
        OthersUsed(h, Get(), rest, p);
        OthersKeep(h, Get(), rest, p);
        live := rest;
      } else {
        NoNegative(Get(), live);
        SelfKeeps(table.mem, lay, live);
      }
    }

    // -------------------------------------------------------------- allocating

    /** The chunk for a request, from whichever source serves it; 0 when there is none. */
    method Allocate(nsize: nat, mp: int) returns (p: int)
      requires Valid() && nsize < WORD
      requires mp != CMFAIL && SysSize(ChunkFor(nsize)) > ChunkFor(nsize) ==> Fresh(segs, mp, SysSize(ChunkFor(nsize)))
      modifies table, this`lay, this`top, this`topsize, this`segs, this`dv, this`dvsize, this`system
      ensures p == 0 ==> Get() == old(Get()) && Exhausted(lay, ChunkFor(nsize))
      ensures p == 0 ==> mp == CMFAIL || SysSize(ChunkFor(nsize)) <= ChunkFor(nsize)
      ensures p != 0 ==> Serving(old(Get()), Get(), {}, live, p, ChunkFor(nsize)) && nsize < MAX_REQUEST
      ensures p != 0 ==> Accounted(lay, live + {p}, system)
      ensures old(system) <= system && |system| == |segs| && (p == 0 ==> system == old(system))
    {
      hide Accounted, HeapOk, LiveOk, Fresh, SysSize, Serving, Aligned, PadRequest, Best, Exhausted;
      ghost var h := Get();
      var nb: nat;
      if nsize <= MAX_SMALL_REQUEST {
        nb := if nsize < MIN_REQUEST then MIN_CHUNK_SIZE else PadRequest(nsize);
        ChunkForFits(nsize);
        SmallIndex(nb);
        var idx := nb / 8;
        if idx in table.smallmap || idx + 1 in table.smallmap {
          p := TakeExact(if idx in table.smallmap then idx else idx + 1, nb);
          ServedNonzero(h, Get(), live, p, nb);
          return;
        } else if nb > dvsize {
          var i := table.Lowest(table.smallmap, idx + 1);
          if i < NSMALLBINS {
            p := TakeSmall(i, nb);
            ServedNonzero(h, Get(), live, p, nb);
            return;
          } else if table.treemap != {} {
            p := TakeLeast(nb);
            ServedNonzero(h, Get(), live, p, nb);
            return;
          }
          NoneSmall(h, nb);
        }
      } else if nsize >= MAX_REQUEST {
        nb := MAX_SIZE_T;
        TooLarge(h);
        NoneHuge(h);
      } else {
        nb := PadRequest(nsize);
        ChunkForFits(nsize);
        if table.treemap != {} {
          p := TakeBest(nb);
          if p != 0 {
            return;
          }
        } else {
          NoneLarge(h, nb);
        }
      }
      if nb <= dvsize {
        p := TakeDv(nb);
        ServedNonzero(h, Get(), live, p, nb);
      } else if nb < topsize {
        p := TakeTop(nb);
        ServedNonzero(h, Get(), live, p, nb);
      } else {
        NoneFits(h, nb);
        p := AllocSys(nb, mp);
      }
    }

    /** lj_alloc_malloc: a null pointer, with nothing changed, or a new block that is aligned,
        large enough and apart from all others, which stay with their contents. */
    method Malloc(nsize: nat, mp: int) returns (mem: int)
      requires Valid() && nsize < WORD
      requires mp != CMFAIL && SysSize(ChunkFor(nsize)) > ChunkFor(nsize) ==> Fresh(segs, mp, SysSize(ChunkFor(nsize)))
      modifies this, table
      ensures Valid() && Keeps(old(table.mem), old(lay), table.mem, lay, old(live))
      ensures old(system) <= system
      ensures mem == 0 ==> live == old(live) && system == old(system) && lay == old(lay)
      ensures mem == 0 ==>
                Exhausted(lay, ChunkFor(nsize)) && (mp == CMFAIL || SysSize(ChunkFor(nsize)) <= ChunkFor(nsize))
      ensures mem != 0 ==> mem - FD !in old(live) && live == old(live) + {mem - FD} && mem % 8 == 0 && mem > 0
      ensures mem != 0 ==> Snug(SizeAt(lay, mem - FD), nsize)
    {
      hide Accounted, HeapOk, LiveOk, Fresh, SysSize, Keeps, ChunkFor, Snug;
      ghost var h := Get();
      var p := Allocate(nsize, mp);
      if p == 0 {
        SelfKeeps(table.mem, lay, live);
        return 0;
      }
      mem := p + FD;
      ChunkForFits(nsize);
      Handed(h, Get(), live, p, ChunkFor(nsize));
      SnugFits(SizeAt(lay, p), nsize);
      live := live + {p};
    }

    // -------------------------------------------------------------- resizing

    /** set_inuse */
    method SetInuse(p: int, s: nat)
      modifies table`mem
      ensures table.mem == InuseMem(old(table.mem), p, s)
    {
      table.mem := table.mem[p + HEAD := W(table.mem, p + HEAD) % 2 + s + CINUSE];
      table.mem := table.mem[p + s + HEAD := SetP(W(table.mem, p + s + HEAD))];
    }

    /** memcpy of whole words. */
    method CopyWords(dst: int, src: int, n: nat)
      requires Aligned(n) && (dst + n <= src || src + n <= dst)
      modifies table`mem
      ensures n > 0 ==> SameOutside(old(table.mem), table.mem, dst, dst + n - 8)
      ensures n == 0 ==> table.mem == old(table.mem)
      ensures SameWords(old(table.mem), src, table.mem, dst, n)
    {
      var i := 0;
      while i < n
        invariant 0 <= i <= n && Aligned(i) && (i == 0 ==> table.mem == old(table.mem))
        invariant i > 0 ==> SameOutside(old(table.mem), table.mem, dst, dst + i - 8)
        invariant SameWords(old(table.mem), src, table.mem, dst, i)
      {
        table.mem := table.mem[dst + i := W(table.mem, src + i)];
        i := i + 8;
      }
    }

    /** A block that is large enough already; the end of it is freed if it makes a chunk. */
    method ShrinkBlock(p: int, nb: nat)
      requires Valid() && p in live && MIN_CHUNK_SIZE <= nb <= SizeAt(lay, p) && Aligned(nb)
      modifies table, this`lay, this`dv, this`dvsize, this`top, this`topsize
      ensures Valid() && Resized(old(Get()), Get(), live, p, nb)
    {
      hide Accounted, HeapOk, LiveOk, Keeps, Aligned, W, Others, InuseMem, Cut, ChunkSize;
      ghost var h := Get();
      LiveLess(lay, live, p);
      BlockSize(h, p);
      var oldsize := ChunkSize(W(table.mem, p + HEAD));
      var rsize := oldsize - nb;
      if rsize >= MIN_CHUNK_SIZE {
        var rem := p + nb;
        ghost var rest := live - {p};
        ShrinkStart(h, p, nb, live);
        SetInuse(p, nb);
        SetInuse(rem, rsize);
        ShrunkAccounted(h, live, system, p, nb);
        lay := Cut(lay, p, nb, Used, Used);
        ghost var g := Get();
        assert g == Shrunk(h, p, nb);
        FreeChunk(rem, live);
        ShrinkDone(h, g, Get(), live, p, nb);
      } else {
        ResizedSelf(h, live, p, nb);
      }
    }

    /** A block before the top chunk grows into it. */
    method GrowBlock(p: int, nb: nat)
      requires Valid() && p in live && BeforeTop(Get(), p, nb)
      modifies table`mem, this`lay, this`top, this`topsize
      ensures Valid() && Resized(old(Get()), Get(), live, p, nb)
    {
      hide Accounted, HeapOk, LiveOk, Keeps, Aligned, W, InuseMem, GrownLay, GrowMem;
      ghost var h := Get();
      LiveLess(lay, live, p);
      GrowDone(h, live, p, nb);
      GrowSizes(h, p, nb);
      var newtopsize := top + topsize - p - nb;
      var newtop := p + nb;
      SetInuse(p, nb);
      table.mem := table.mem[newtop + HEAD := newtopsize + PINUSE];
      GrowStores(h.Mem(), p, nb, newtopsize);
      GrownAccounted(h, live, system, p, nb);
      lay := GrownLay(lay, p, h.top + h.topsize, nb);
      top, topsize := newtop, newtopsize;
      assert Get() == Grown(h, p, nb);
    }

    /** lj_alloc_realloc on a block: a null pointer, with the block and all others untouched, or
        a block of the new size with the old contents up to the smaller of both sizes. */
    method Realloc(mem: int, nsize: nat, mp: int) returns (newmem: int)
      requires Valid() && mem - FD in live && nsize < WORD
      requires mp != CMFAIL && SysSize(ChunkFor(nsize)) > ChunkFor(nsize) ==> Fresh(segs, mp, SysSize(ChunkFor(nsize)))
      modifies this, table
      ensures Valid() && Keeps(old(table.mem), old(lay), table.mem, lay, old(live) - {mem - FD})
      ensures old(system) <= system && (newmem == 0 ==> system == old(system))
      ensures newmem == 0 ==>
                live == old(live) && lay == old(lay) && Keeps(old(table.mem), old(lay), table.mem, lay, live)
      ensures newmem == 0 ==>
                Exhausted(lay, ChunkFor(nsize)) && (mp == CMFAIL || SysSize(ChunkFor(nsize)) <= ChunkFor(nsize))
      ensures nsize < MAX_REQUEST ==> (newmem == mem <==> InPlace(old(Get()), mem - FD, ChunkFor(nsize)))
      ensures newmem != 0 ==> live == old(live) - {mem - FD} + {newmem - FD} && newmem - FD !in old(live) - {mem - FD}
      ensures newmem != 0 ==>
                newmem > 0 && newmem % 8 == 0 && Snug(SizeAt(lay, newmem - FD), nsize)
      ensures newmem != 0 && newmem != mem ==> Reclaimed(lay, mem - FD, Next(old(lay), mem - FD))
      ensures newmem != 0 ==>
                SameWords(old(table.mem), mem, table.mem, newmem, Least(nsize, SizeAt(old(lay), mem - FD) - 8))
    {
      hide Accounted, Exhausted, HeapOk, LiveOk, Keeps, Fresh, SysSize, W, ChunkFor, Snug, Aligned, Resized, ChunkSize,
        Reclaimed;
      if nsize >= MAX_REQUEST {
        SelfKeeps(table.mem, lay, live);
        KeepsLess(table.mem, lay, table.mem, lay, live, live - {mem - FD});
        TooLarge(Get());
        NoneHuge(Get());
        NoneFits(Get(), MAX_SIZE_T);
        ChunkForHuge(nsize);
        return 0;
      }
      ghost var h := Get();
      var oldp := mem - FD;
      LiveLess(lay, live, oldp);
      BlockSize(h, oldp);
      ChunkForFits(nsize);
      var oldsize := ChunkSize(W(table.mem, oldp + HEAD));
      var nb := ChunkFor(nsize);
      if oldsize >= nb {
        ShrinkBlock(oldp, nb);
        ResizedFacts(h, Get(), live, oldp, nb);
        SnugFits(SizeAt(lay, oldp), nsize);
        BlockNonzero(h, oldp);
        AlignedSum(oldp, FD);
        AlignedEight(mem);
        SameWordsLess(h.Mem(), mem, table.mem, mem, Least(nb - 8, oldsize - 8), Least(nsize, oldsize - 8));
        newmem := mem;
        assert live == live - {oldp} + {oldp};
      } else if oldp + oldsize == top && oldsize + topsize > nb {
        GrowBlock(oldp, nb);
        ResizedFacts(h, Get(), live, oldp, nb);
        SnugFits(SizeAt(lay, oldp), nsize);
        BlockNonzero(h, oldp);
        AlignedSum(oldp, FD);
        AlignedEight(mem);
        SameWordsLess(h.Mem(), mem, table.mem, mem, Least(nb - 8, oldsize - 8), Least(nsize, oldsize - 8));
        newmem := mem;
        assert live == live - {oldp} + {oldp};
      } else {
        newmem := Moved(mem, nsize, mp);
      }
    }

    /** malloc, copy, free. */
    method Moved(mem: int, nsize: nat, mp: int) returns (newmem: int)
      requires Valid() && mem - FD in live && nsize < MAX_REQUEST && SizeAt(lay, mem - FD) < ChunkFor(nsize)
      requires mp != CMFAIL && SysSize(ChunkFor(nsize)) > ChunkFor(nsize) ==> Fresh(segs, mp, SysSize(ChunkFor(nsize)))
      modifies this, table
      ensures Valid() && Keeps(old(table.mem), old(lay), table.mem, lay, old(live) - {mem - FD})
      ensures old(system) <= system && (newmem == 0 ==> system == old(system))
      ensures newmem == 0 ==>
                live == old(live) && lay == old(lay) && Keeps(old(table.mem), old(lay), table.mem, lay, live)
      ensures newmem == 0 ==>
                Exhausted(lay, ChunkFor(nsize)) && (mp == CMFAIL || SysSize(ChunkFor(nsize)) <= ChunkFor(nsize))
      ensures newmem != mem
      ensures newmem != 0 ==> live == old(live) - {mem - FD} + {newmem - FD} && newmem - FD !in old(live) - {mem - FD}
      ensures newmem != 0 ==> newmem > 0 && newmem % 8 == 0 && Snug(SizeAt(lay, newmem - FD), nsize)
      ensures newmem != 0 ==> Reclaimed(lay, mem - FD, Next(old(lay), mem - FD))
      ensures newmem != 0 ==>
                SameWords(old(table.mem), mem, table.mem, newmem, Least(nsize, SizeAt(old(lay), mem - FD) - 8))
    {
      hide Accounted, Exhausted, HeapOk, LiveOk, Keeps, Fresh, SysSize, W, ChunkFor, Snug, Aligned, ChunkSize,
        Reclaimed;
      ghost var h, live0 := Get(), live;
      var oldp := mem - FD;
      LiveLess(lay, live, oldp);
      BlockSize(h, oldp);
      BlockNonzero(h, oldp);
      var oldsize := ChunkSize(W(table.mem, oldp + HEAD));
      newmem := Malloc(nsize, mp);
      if newmem == 0 {
        KeepsLess(h.Mem(), h.lay, table.mem, lay, live, live - {oldp});
        return;
      }
      var q := newmem - FD;
      ghost var g, rest := Get(), live0 - {oldp};
      var oc := oldsize - 8;
      KeptNext(h.Mem(), h.lay, g.Mem(), g.lay, live0, oldp);
      SnugRoom(SizeAt(lay, q), nsize);
      CopyFits(h, g, live0, oldp, q, nsize);
      CopyWords(newmem, mem, if oc < nsize then oc else nsize);
      ghost var g1 := Get();
      CopyDone(h, g, g1, live0, oldp, q);
      ghost var m1 := table.mem;
      Free(mem);
      MoveDone(h, g1, Get(), live0, oldp, q);
      MovedWords(h, g, g1, Get(), live0, oldp, q, oc);
    }

    /** lj_alloc_f: the allocator function of the Lua state. */
    method AllocF(ptr: int, nsize: nat, mp: int) returns (mem: int)
      requires Valid() && (ptr != 0 ==> ptr - FD in live) && nsize < WORD
      requires mp != CMFAIL && SysSize(ChunkFor(nsize)) > ChunkFor(nsize) ==> Fresh(segs, mp, SysSize(ChunkFor(nsize)))
      modifies this, table
      ensures Valid() && Keeps(old(table.mem), old(lay), table.mem, lay, old(live) - {ptr - FD})
              && old(system) <= system
      ensures nsize == 0 ==> mem == 0 && live == old(live) - {ptr - FD} && segs == old(segs) && system == old(system)
      ensures nsize == 0 && ptr != 0 ==> Reclaimed(lay, ptr - FD, Next(old(lay), ptr - FD))
      ensures nsize != 0 && mem == 0 ==>
                && live == old(live) && system == old(system) && lay == old(lay)
                && Keeps(old(table.mem), old(lay), table.mem, lay, live) && Exhausted(lay, ChunkFor(nsize))
                && (mp == CMFAIL || SysSize(ChunkFor(nsize)) <= ChunkFor(nsize))
      ensures ptr != 0 && 0 < nsize < MAX_REQUEST ==> (mem == ptr <==> InPlace(old(Get()), ptr - FD, ChunkFor(nsize)))
      ensures nsize != 0 && mem != 0 ==>
                && live == old(live) - {ptr - FD} + {mem - FD} && mem - FD !in old(live) - {ptr - FD}
                && mem > 0 && mem % 8 == 0 && Snug(SizeAt(lay, mem - FD), nsize)
      ensures nsize != 0 && mem != 0 && ptr != 0 ==>
                SameWords(old(table.mem), ptr, table.mem, mem, Least(nsize, SizeAt(old(lay), ptr - FD) - 8))
      ensures nsize != 0 && mem != 0 && ptr != 0 && mem != ptr ==> Reclaimed(lay, ptr - FD, Next(old(lay), ptr - FD))
    {
      hide Accounted, Exhausted, HeapOk, LiveOk, Keeps, Fresh, SysSize, W, ChunkFor, Snug;
      if nsize == 0 {
        Free(ptr);
        return 0;
      } else if ptr == 0 {
        NoNegative(Get(), live);
        mem := Malloc(nsize, mp);
      } else {
        mem := Realloc(ptr, nsize, mp);
      }
    }
  }

  // ---------------------------------------------------------------- when nothing fits

  /** No chunk of the heap can serve nb bytes. */
  ghost predicate Exhausted(l: Layout, nb: nat) {
    forall a :: (Is(l, a, Free) ==> SizeAt(l, a) < nb) && (Is(l, a, Top) ==> SizeAt(l, a) <= nb)
  }

  /** No large chunk in the bins can serve nb bytes, nor a small one. */
  ghost predicate NoneHeld(h: Held, nb: nat) {
    forall a :: a in h ==> h[a] < nb
  }

  lemma NoneFits(h: Heap, nb: nat)
    requires HeapOk(h, {}) && h.dvsize < nb && h.topsize <= nb && NoneHeld(h.bins.held, nb)
    ensures Exhausted(h.lay, nb)
  {
    hide BinsOk, Tiling, TagsOk;
    HeldNonzero(h, {});
  }

  lemma NoneSmall(h: Heap, nb: nat)
    requires HeapOk(h, {}) && MIN_CHUNK_SIZE <= nb < MIN_LARGE_SIZE && Aligned(nb) && h.bins.treemap == {}
    requires forall i :: nb / 8 <= i < NSMALLBINS ==> i !in h.bins.smallmap
    ensures NoneHeld(h.bins.held, nb)
  {
    hide BinsOk, HeapOk;
    HeapBins(h, {});
    forall a | a in h.bins.held ensures h.bins.held[a] < nb {
      if Large(h.bins.held[a]) {
        LargeMapped(h.bins, a);
      } else {
        SmallMapped(h.bins, a);
      }
    }
  }

  lemma NoneLarge(h: Heap, nb: nat)
    requires HeapOk(h, {}) && nb >= MIN_LARGE_SIZE
    requires h.bins.treemap == {} || forall a :: LargeIn(h.bins.held, a) ==> h.bins.held[a] < nb
    ensures NoneHeld(h.bins.held, nb)
  {
    hide BinsOk, HeapOk;
    HeapBins(h, {});
    forall a | a in h.bins.held ensures h.bins.held[a] < nb {
      if Large(h.bins.held[a]) && h.bins.treemap == {} {
        LargeMapped(h.bins, a);
      }
    }
  }

  lemma ChunkForHuge(n: nat)
    requires n >= MAX_REQUEST
    ensures ChunkFor(n) == MAX_SIZE_T
  {
  }

  lemma NoneHuge(h: Heap)
    requires HeapOk(h, {})
    ensures NoneHeld(h.bins.held, MAX_SIZE_T)
  {
    hide TreesOk, RingsOk, Tiling, TagsOk, Places;
  }

  lemma TopSplitStores(m: Words, p: int, s: nat, nb: nat)
    requires nb <= s
    ensures m[p + nb + HEAD := s - nb + PINUSE][p + HEAD := nb + CINUSE + PINUSE] == TopSplitMem(m, p, s, nb)
  {
  }

  /** The unsigned comparison with the victim. */
  lemma VictimBetter(h: Heap, v: int, nb: nat, rest: nat)
    requires HeapOk(h, {}) && BestFit(h.bins.held, nb, v, rest) && 0 < nb < WORD
    ensures h.dvsize < WORD
    ensures v != 0 ==> (rest < Sub64(h.dvsize, nb) <==> h.dvsize < nb || rest < h.dvsize - nb)
  {
    hide BinsOk, Segments, Chained, NoOverlap, TagsOk, FreePlaces, TopPlace, LimboPlaces;
    if h.dvsize != 0 {
      assert ChunkOk(h.dv, h.lay[h.dv].size);
    }
    if v != 0 {
      assert ChunkOk(v, h.lay[v].size);
    }
    Better(h.dvsize, nb, 0);
    if h.dvsize < nb {
      assert Sub64(h.dvsize, nb) == h.dvsize - nb + WORD;
    }
  }

  // ---------------------------------------------------------------- adding a segment

  /** pad_request(sizeof(struct malloc_segment)) */
  const RECORD_SIZE: nat := 32

  lemma AppendableIndex(h: Heap, i: nat, size: nat)
    requires Appendable(h, i, size)
    ensures i < |h.segs| && size > 0
  {
  }

  lemma AppendStores(h: Heap, i: nat, size: nat)
    ensures Appended(h, i, size).Mem()
            == h.Mem()[h.top + HEAD := h.topsize + size + PINUSE]
                      [h.top + (h.topsize + size) + HEAD := TOP_FOOT_SIZE]
  {
    hide AppendLay;
    assert h.top + (h.topsize + size) + HEAD == h.top + h.topsize + size + HEAD;
  }

  lemma FreshSize(segs: seq<Segment>, base: int, size: nat)
    requires Fresh(segs, base, size)
    ensures size >= 2 * TOP_FOOT_SIZE && base >= STATE_END
  {
  }

  lemma OldTopEnds(h: Heap)
    requires HeapOk(h, {})
    ensures InSegment(h.segs, h.top)
  {
    hide BinsOk, Chunks, Chained, TagsOk, SegmentOk;
  }

  /** Where the old segment ends. */
  lemma OldTopEnd(h: Heap, j: nat)
    requires HeapOk(h, {}) && j < |h.segs| && h.segs[j].Holds(h.top)
    ensures h.segs[j].End() == h.top + h.topsize + TOP_FOOT_SIZE && Aligned(h.top) && Aligned(h.topsize)
            && h.topsize >= 8
    ensures Aligned(h.segs[j].End())
  {
    hide HeapOk, Aligned, Tiled, TagOk, Pinuse, W;
    TopFacts(h, {});
    TopSegment(h, {}, j);
    TopAligned(h);
    FootAligned();
    AlignedSum(h.top, h.topsize);
    AlignedSum(h.top + h.topsize, TOP_FOOT_SIZE);
  }

  lemma FootAligned()
    ensures Aligned(TOP_FOOT_SIZE)
  {
  }

  lemma TopAligned(h: Heap)
    requires HeapOk(h, {})
    ensures Aligned(h.top)
  {
    hide BinsOk, NoOverlap, Chained, Segments, TagsOk;
    assert ChunkOk(h.top, h.lay[h.top].size);
  }

  /** The segment record fits exactly in the space kept after the top chunk. */
  lemma RecordSpot(end: int)
    requires Aligned(end)
    ensures var raw := end - (RECORD_SIZE + 4 * 8 + 7); raw + (8 - (raw + FD) % 8) % 8 == end - TOP_FOOT_SIZE
  {
  }

  lemma NewStores(m: Words, segs: seq<Segment>, base: int, size: nat)
    requires Fresh(segs, base, size)
    ensures NewWords(m, m[base + HEAD := size - TOP_FOOT_SIZE + PINUSE]
                         [base + (size - TOP_FOOT_SIZE) + HEAD := TOP_FOOT_SIZE], segs, base, size)
  {
    FreshOutside(segs, base, size, base + HEAD);
    FreshOutside(segs, base, size, base + size - TOP_FOOT_SIZE + HEAD);
  }

  lemma FenceSpot(h: Heap, csp: int, end: int)
    requires csp == h.top || csp == h.top + h.topsize
    requires end == h.top + h.topsize + TOP_FOOT_SIZE && Aligned(h.top) && Aligned(h.topsize) && h.topsize >= 8
    ensures csp + RECORD_SIZE + FD <= end && Aligned(csp + RECORD_SIZE)
  {
  }

  lemma RetiredLarge(h: Heap, m1: Words, m2: Words, m3: Words, n: Words)
    requires var csp := h.top + h.topsize;
             && h.topsize >= MIN_CHUNK_SIZE && m2 == m1[csp + HEAD := RECORD_SIZE + PINUSE + CINUSE]
             && SameOutside(m2, m3, csp + RECORD_SIZE + HEAD, csp + TOP_FOOT_SIZE - 8)
             && Head(m3, csp + RECORD_SIZE) == FENCEPOST_HEAD
             && n == m3[csp + HEAD := ClearP(W(m3, csp + HEAD))][h.top + HEAD := h.topsize + PINUSE][csp := h.topsize]
    ensures RetiredWords(m1, n, h.top, h.topsize)
  {
    var csp := h.top + h.topsize;
    assert W(m3, csp + HEAD) == W(m2, csp + HEAD);
    forall w | w < h.top + HEAD || w > csp + TOP_FOOT_SIZE - 8 ensures W(n, w) == W(m1, w) {
      assert W(m3, w) == W(m2, w);
    }
  }

  lemma RetiredSmall(h: Heap, m1: Words, m2: Words, n: Words)
    requires h.topsize < MIN_CHUNK_SIZE && m2 == m1[h.top + HEAD := RECORD_SIZE + PINUSE + CINUSE]
    requires SameOutside(m2, n, h.top + RECORD_SIZE + HEAD, h.top + h.topsize + TOP_FOOT_SIZE - 8)
    requires Head(n, h.top + RECORD_SIZE) == FENCEPOST_HEAD
    ensures RetiredWords(m1, n, h.top, h.topsize)
  {
    var end := h.top + h.topsize + TOP_FOOT_SIZE - 8;
    forall w | w < h.top + HEAD || w > end ensures W(n, w) == W(m1, w) {
      assert W(n, w) == W(m2, w);
    }
  }

  lemma LeftoverRoom(h: Heap, g: Heap, base: int, size: nat, n: Words)
    requires HeapOk(h, {}) && Fresh(h.segs, base, size) && OldTop(Widened(h.lay, base, size), h.top, h.topsize)
    requires h.topsize >= MIN_CHUNK_SIZE && g == Added(h, base, size, n) && HeapOk(g, {} + Leftover(h))
    ensures BinsOk(g.bins) && Room(g.bins.held, h.top, h.topsize) && ChunkSize(W(g.Mem(), h.top + HEAD)) == h.topsize
    ensures h.top in g.lay && SizeAt(g.lay, h.top) == h.topsize
  {
    hide HeapOk, Fresh, Room, W, ChunkSize, Widened, Retired, Tiling, TagsOk, Tiled, TagOk;
    HeapBins(g, {} + Leftover(h));
    RoomFor(g, {} + Leftover(h), h.top);
    HeapTiling(h, {});
    AddedTiling(h, {}, base, size);
    TilingParts(Widened(h.lay, base, size), [Segment(base, size)] + h.segs);
    RetiredKeys(Widened(h.lay, base, size), h.top, h.topsize, h.top);
  }

  lemma LeftoverBinned(h: Heap, g: Heap, b: BinState, live: set<int>)
    requires h.topsize >= MIN_CHUNK_SIZE && HeapOk(g, {} + Leftover(h)) && Keeps(h.Mem(), h.lay, g.Mem(), g.lay, live)
             && LiveOk(h.lay, live)
    requires h.top in g.lay && BinsOk(b) && b.held == g.bins.held[h.top := SizeAt(g.lay, h.top)]
             && Quiet(g.Mem(), b.mem, b.held)
    ensures HeapOk(g.(bins := b), {}) && Keeps(h.Mem(), h.lay, b.mem, g.lay, live) && LiveOk(g.lay, live)
  {
    hide HeapOk, BinsOk, Quiet, Keeps;
    KeptLive(h.Mem(), h.lay, g.Mem(), g.lay, live);
    Binned(g, {} + Leftover(h), b, h.top, live);
    assert {} + Leftover(h) - {h.top} == {};
    KeepsTrans(h.Mem(), h.lay, g.Mem(), g.lay, b.mem, g.lay, live);
  }

  lemma LeftoverNone(h: Heap, g: Heap, live: set<int>)
    requires h.topsize < MIN_CHUNK_SIZE && HeapOk(g, {} + Leftover(h)) && Keeps(h.Mem(), h.lay, g.Mem(), g.lay, live)
             && LiveOk(h.lay, live)
    ensures HeapOk(g, {}) && LiveOk(g.lay, live)
  {
    hide HeapOk, Keeps;
    assert {} + Leftover(h) == {};
    KeptLive(h.Mem(), h.lay, g.Mem(), g.lay, live);
  }

  lemma FirstUsed(h: Heap, x: int)
    requires Is(h.lay, x, Used)
    ensures JoinEnd(h, {}, x, x)
  {
  }

  lemma AppendableIntro(h: Heap, i: nat, size: nat)
    requires i < |h.segs| && h.segs[i].Holds(h.top) && Fresh(h.segs, h.segs[i].End(), size)
    ensures Appendable(h, i, size)
  {
  }

  /** What the system is asked for leaves a chunk after the request. */
  lemma SysSplits(nb: nat)
    requires MIN_CHUNK_SIZE <= nb < WORD && SysSize(nb) > nb && (nb != MAX_SIZE_T ==> Aligned(nb))
    ensures Splits(SysSize(nb), nb) && SysSize(nb) - TOP_FOOT_SIZE > nb
  {
    hide SysSize;
    SysSizeFits(nb);
    if nb == MAX_SIZE_T {
      SysSizeMax();
    }
  }

  lemma SysSizeMax()
    ensures SysSize(MAX_SIZE_T) == GRANULARITY
  {
  }

  lemma BlockNonzero(g: Heap, p: int)
    requires HeapOk(g, {}) && Is(g.lay, p, Used)
    ensures p > 0 && Aligned(p)
  {
    hide BinsOk, NoOverlap, Chained, Segments, TagsOk, Places;
    assert ChunkOk(p, g.lay[p].size);
  }

  lemma SpanRoom(g: Heap, limbo: set<int>, a: int, p: int, e: int)
    requires HeapOk(g, limbo) && Span(g, limbo, a, p, e)
    ensures a + MIN_CHUNK_SIZE <= e
  {
    hide HeapOk, Region, Span;
    SpanRegion(g, limbo, a, p, e);
    RegionSize(g, limbo, a, e, p);
  }

  lemma FreeStart(h: Heap, p: int, rest: set<int>)
    requires HeapOk(h, {}) && Is(h.lay, p, Used) && LiveOk(h.lay, rest) && p !in rest
    ensures ChunkSize(W(h.Mem(), p + HEAD)) == SizeAt(h.lay, p) && Next(h.lay, p) == p + SizeAt(h.lay, p)
    ensures Pinuse(h.Mem(), p) ==> Back(h, {}, p, p)
    ensures Others(h, h, rest, p)
  {
    hide HeapOk, W, ChunkSize, LiveOk, Keeps;
    KindBit(h, {}, p);
    SelfKeeps(h.Mem(), h.lay, rest);
  }

  lemma LiveLess(l: Layout, live: set<int>, p: int)
    requires LiveOk(l, live) && p in live
    ensures LiveOk(l, live - {p}) && Is(l, p, Used) && !Is(l, Next(l, p), Tail)
  {
  }

  lemma OthersKeep(h: Heap, g: Heap, rest: set<int>, p: int)
    requires Others(h, g, rest, p)
    ensures Keeps(h.Mem(), h.lay, g.Mem(), g.lay, rest)
  {
  }

  lemma NoNegative(h: Heap, live: set<int>)
    requires HeapOk(h, {}) && LiveOk(h.lay, live)
    ensures live - {0 - FD} == live
  {
    hide HeapOk;
    if 0 - FD in live {
      assert Is(h.lay, 0 - FD, Used);
      BlockNonzero(h, 0 - FD);
    }
  }

  lemma SmallIndex(nb: nat)
    requires MIN_CHUNK_SIZE <= nb < MIN_LARGE_SIZE && Aligned(nb)
    ensures nb / 8 < NSMALLBINS && 8 * (nb / 8) == nb
  {
  }

  lemma ServedNonzero(h: Heap, g: Heap, live: set<int>, p: int, nb: nat)
    requires Serving(h, g, {}, live, p, nb)
    ensures p != 0
  {
    hide HeapOk, Keeps;
    BlockNonzero(g, p);
  }

  /** Nothing is as large as the largest word, and the system is not asked for it. */
  lemma TooLarge(h: Heap)
    requires HeapOk(h, {})
    ensures h.dvsize < MAX_SIZE_T && h.topsize < MAX_SIZE_T && SysSize(MAX_SIZE_T) <= MAX_SIZE_T
  {
    hide BinsOk, NoOverlap, Chained, Segments, TagsOk, FreePlaces, HeldPlaces, LimboPlaces;
    if h.dvsize != 0 {
      assert ChunkOk(h.dv, h.lay[h.dv].size);
    }
    assert ChunkOk(h.top, h.lay[h.top].size);
    SysSizeMax();
  }

  lemma Handed(h: Heap, g: Heap, live: set<int>, p: int, nb: nat)
    requires Serving(h, g, {}, live, p, nb) && LiveOk(h.lay, live)
    ensures HeapOk(g, {}) && LiveOk(g.lay, live + {p}) && p > 0 && (p + FD) % 8 == 0
  {
    hide HeapOk, Keeps;
    KeptLive(h.Mem(), h.lay, g.Mem(), g.lay, live);
    BlockNonzero(g, p);
    AlignedSum(p, FD);
  }

  /** The bytes of two blocks never overlap. */
  lemma BlocksApart(h: Heap, live: set<int>, p: int, q: int)
    requires HeapOk(h, {}) && LiveOk(h.lay, live) && p in live && q in live && p != q
    ensures p + FD + (SizeAt(h.lay, p) - 8) <= q + FD || q + FD + (SizeAt(h.lay, q) - 8) <= p + FD
  {
    hide BinsOk, InRange, Chained, Segments, TagsOk, Places;
    assert Is(h.lay, p, Used) && Is(h.lay, q, Used);
    Beside(h.lay, p, q);
  }

  // ---------------------------------------------------------------- resizing

  function Least(a: int, b: int): int { if a <= b then a else b }

  /** The words of two blocks agree up to a length. */
  ghost predicate SameWords(m: Words, src: int, n: Words, dst: int, len: int) {
    forall k :: 0 <= k < len && Aligned(k) ==> W(n, dst + k) == W(m, src + k)
  }

  lemma SameWordsLess(m: Words, src: int, n: Words, dst: int, len: int, less: int)
    requires SameWords(m, src, n, dst, len) && less <= len
    ensures SameWords(m, src, n, dst, less)
  {
  }

  /** Block p has at least nb bytes now and keeps what fits of its contents; others stay. */
  /** A block can get nb bytes where it is. */
  predicate InPlace(h: Heap, p: int, nb: nat) {
    SizeAt(h.lay, p) >= nb || (Next(h.lay, p) == h.top && p + nb < h.top + h.topsize)
  }

  ghost predicate Resized(h: Heap, g: Heap, live: set<int>, p: int, nb: nat) {
    && Keeps(h.Mem(), h.lay, g.Mem(), g.lay, live - {p}) && Is(g.lay, p, Used)
    && nb <= SizeAt(g.lay, p) < nb + MIN_CHUNK_SIZE
    && forall w :: p + FD <= w <= p + nb && w <= p + SizeAt(h.lay, p) ==> W(g.Mem(), w) == W(h.Mem(), w)
  }

  lemma BlockSize(h: Heap, p: int)
    requires HeapOk(h, {}) && Is(h.lay, p, Used)
    ensures ChunkSize(W(h.Mem(), p + HEAD)) == SizeAt(h.lay, p) && Next(h.lay, p) == p + SizeAt(h.lay, p)
    ensures SizeAt(h.lay, p) >= MIN_CHUNK_SIZE && Aligned(SizeAt(h.lay, p)) && Aligned(p)
  {
    hide HeapOk, W, ChunkSize, TagOk, Tiled;
    KindBit(h, {}, p);
    UsedFacts(h, {}, p);
  }

  lemma ResizedSelf(h: Heap, live: set<int>, p: int, nb: nat)
    requires LiveOk(h.lay, live) && p in live && nb <= SizeAt(h.lay, p) < nb + MIN_CHUNK_SIZE
    ensures Resized(h, h, live, p, nb)
  {
    hide Keeps, W;
    LiveLess(h.lay, live, p);
    SelfKeeps(h.Mem(), h.lay, live - {p});
  }

  lemma ShrinkStart(h: Heap, p: int, nb: nat, live: set<int>)
    requires HeapOk(h, {}) && LiveOk(h.lay, live) && p in live && Splits(SizeAt(h.lay, p), nb)
    ensures var g := Shrunk(h, p, nb);
            && HeapOk(g, {}) && Is(g.lay, p + nb, Used) && !Is(g.lay, Next(g.lay, p + nb), Tail)
            && LiveOk(g.lay, live) && p + nb !in live
            && SizeAt(g.lay, p) == nb
  {
    hide HeapOk, Keeps, InuseMem, Aligned, W;
    LiveLess(h.lay, live, p);
    ShrunkOk(h, {}, p, nb, live - {p});
    KeptLive(h.Mem(), h.lay, Shrunk(h, p, nb).Mem(), Shrunk(h, p, nb).lay, live - {p});
    ShrunkLay(h, p, nb, live);
  }

  lemma ShrunkLay(h: Heap, p: int, nb: nat, live: set<int>)
    requires HeapOk(h, {}) && LiveOk(h.lay, live) && p in live && 0 < nb < SizeAt(h.lay, p)
    ensures var g := Shrunk(h, p, nb);
            && Is(g.lay, p, Used) && SizeAt(g.lay, p) == nb && Is(g.lay, p + nb, Used) && Next(g.lay, p) == p + nb
            && p + nb !in h.lay
            && Next(g.lay, p + nb) == Next(h.lay, p) && !Is(g.lay, Next(h.lay, p), Tail) && p + nb !in live
  {
    hide BinsOk, InRange, Chained, Segments, TagsOk, Places, InuseMem, Cut;
    assert Is(h.lay, p, Used) && !Is(h.lay, Next(h.lay, p), Tail);
    CutKeys(h.lay, p, nb, Used, Used, p + nb);
    CutKeys(h.lay, p, nb, Used, Used, Next(h.lay, p));
    assert p + nb in live ==> Is(h.lay, p + nb, Used);
  }

  lemma ShrinkDone(h: Heap, g: Heap, f: Heap, live: set<int>, p: int, nb: nat)
    requires HeapOk(h, {}) && LiveOk(h.lay, live) && p in live && Splits(SizeAt(h.lay, p), nb) && g == Shrunk(h, p, nb)
    requires HeapOk(f, {}) && Others(g, f, live, p + nb)
    ensures LiveOk(f.lay, live) && Resized(h, f, live, p, nb)
  {
    hide HeapOk, Keeps, InuseMem, Aligned, W, Shrunk;
    LiveLess(h.lay, live, p);
    ShrunkOk(h, {}, p, nb, live - {p});
    ShrinkStart(h, p, nb, live);
    OthersUsed(g, f, live, p + nb);
    KeepsLess(g.Mem(), g.lay, f.Mem(), f.lay, live, live - {p});
    KeepsTrans(h.Mem(), h.lay, g.Mem(), g.lay, f.Mem(), f.lay, live - {p});
    ShrinkWordsKept(g, f, live, p, nb);
  }

  lemma ShrinkWordsKept(g: Heap, f: Heap, live: set<int>, p: int, nb: nat)
    requires Keeps(g.Mem(), g.lay, f.Mem(), f.lay, live) && p in live && SizeAt(g.lay, p) == nb
    ensures SizeAt(f.lay, p) == nb && Is(f.lay, p, Used)
            && forall w :: p + FD <= w <= p + nb ==> W(f.Mem(), w) == W(g.Mem(), w)
  {
    hide W;
    assert KeepsOne(g.Mem(), g.lay, f.Mem(), f.lay, p);
    forall w | p + FD <= w <= p + nb ensures W(f.Mem(), w) == W(g.Mem(), w) {
      assert InBlock(g.lay, p, w);
    }
  }

  lemma GrowDone(h: Heap, live: set<int>, p: int, nb: nat)
    requires HeapOk(h, {}) && LiveOk(h.lay, live) && p in live && BeforeTop(h, p, nb)
    ensures var g := Grown(h, p, nb); HeapOk(g, {}) && LiveOk(g.lay, live) && Resized(h, g, live, p, nb)
  {
    hide HeapOk, Keeps, GrowMem, Aligned, W, GrownLay, TagOk, Tiled;
    LiveLess(h.lay, live, p);
    GrownOk(h, {}, p, nb, live - {p});
    var g := Grown(h, p, nb);
    KeptLive(h.Mem(), h.lay, g.Mem(), g.lay, live - {p});
    GrowLayFacts(h, p, nb);
  }

  lemma GrowLayFacts(h: Heap, p: int, nb: nat)
    requires HeapOk(h, {}) && BeforeTop(h, p, nb)
    ensures var g := Grown(h, p, nb);
            Is(g.lay, p, Used) && SizeAt(g.lay, p) == nb && Next(g.lay, p) == p + nb && Is(g.lay, p + nb, Top)
  {
    hide HeapOk, GrowMem, Aligned, W, GrownLay, TagOk, Tiled, Tiling, TagsOk;
    TopFacts(h, {});
    HeapTiling(h, {});
    TilingParts(h.lay, h.segs);
    UsedFacts(h, {}, p);
    GrownKeys(h.lay, p, h.top + h.topsize, nb, p);
  }

  lemma GrowSizes(h: Heap, p: int, nb: nat)
    requires HeapOk(h, {}) && BeforeTop(h, p, nb)
    ensures p + nb < h.top + h.topsize
  {
  }

  lemma GrowStores(m: Words, p: int, nb: nat, rest: nat)
    ensures InuseMem(m, p, nb)[p + nb + HEAD := rest + PINUSE] == GrowMem(m, p, nb, rest)
  {
  }

  lemma ResizedFacts(h: Heap, g: Heap, live: set<int>, p: int, nb: nat)
    requires Resized(h, g, live, p, nb) && nb >= MIN_CHUNK_SIZE && Aligned(nb) && Aligned(SizeAt(h.lay, p))
             && SizeAt(h.lay, p) >= MIN_CHUNK_SIZE
    ensures Keeps(h.Mem(), h.lay, g.Mem(), g.lay, live - {p}) && nb <= SizeAt(g.lay, p) < nb + MIN_CHUNK_SIZE
    ensures SameWords(h.Mem(), p + FD, g.Mem(), p + FD, Least(nb - 8, SizeAt(h.lay, p) - 8))
  {
    hide Keeps, W, Aligned;
    var len := Least(nb - 8, SizeAt(h.lay, p) - 8);
    AlignedLess(nb);
    AlignedLess(SizeAt(h.lay, p));
    forall k | 0 <= k < len && Aligned(k) ensures W(g.Mem(), p + FD + k) == W(h.Mem(), p + FD + k) {
      AlignedBelow(k, len);
    }
  }

  lemma AlignedLess(a: int)
    requires Aligned(a)
    ensures Aligned(a - 8)
  {
  }

  /** The new block holds the old contents, which lie elsewhere. */
  lemma CopyFits(h: Heap, g: Heap, live: set<int>, p: int, q: int, nsize: nat)
    requires HeapOk(h, {}) && LiveOk(h.lay, live) && p in live && HeapOk(g, {}) && LiveOk(g.lay, live + {q})
             && q !in live
    requires Keeps(h.Mem(), h.lay, g.Mem(), g.lay, live) && nsize < MAX_REQUEST
             && SizeAt(h.lay, p) < ChunkFor(nsize) <= SizeAt(g.lay, q)
    ensures SizeAt(h.lay, p) - 8 < nsize && SizeAt(g.lay, p) == SizeAt(h.lay, p) && SizeAt(h.lay, p) < SizeAt(g.lay, q)
    ensures Aligned(SizeAt(h.lay, p) - 8) && SizeAt(h.lay, p) >= MIN_CHUNK_SIZE
    ensures var n := SizeAt(h.lay, p) - 8; q + FD + n <= p + FD || p + FD + n <= q + FD
  {
    hide HeapOk, Keeps, LiveOk, ChunkFor;
    LiveLess(h.lay, live, p);
    BlockSize(h, p);
    CopyLength(nsize, SizeAt(h.lay, p));
    KeptSize(h.Mem(), h.lay, g.Mem(), g.lay, live, p);
    BlocksApart(g, live + {q}, p, q);
  }

  lemma KeptSize(m: Words, l: Layout, n: Words, k: Layout, live: set<int>, p: int)
    requires Keeps(m, l, n, k, live) && p in live
    ensures SizeAt(k, p) == SizeAt(l, p)
  {
    hide W;
    assert KeepsOne(m, l, n, k, p);
  }

  /** A block that has to move is smaller than the request. */
  lemma CopyLength(nsize: nat, s: nat)
    requires nsize < MAX_REQUEST && MIN_CHUNK_SIZE <= s < ChunkFor(nsize) && Aligned(s)
    ensures s - 8 < nsize && Aligned(s - 8)
  {
  }

  lemma KeptNext(m: Words, l: Layout, n: Words, k: Layout, live: set<int>, p: int)
    requires Keeps(m, l, n, k, live) && p in live
    ensures Next(k, p) == Next(l, p)
  {
    hide W;
    assert KeepsOne(m, l, n, k, p);
  }

  lemma CopyDone(h: Heap, g: Heap, g1: Heap, live: set<int>, p: int, q: int)
    requires HeapOk(g, {}) && LiveOk(g.lay, live + {q}) && q !in live && p in live
             && Keeps(h.Mem(), h.lay, g.Mem(), g.lay, live)
    requires MIN_CHUNK_SIZE <= SizeAt(h.lay, p) < SizeAt(g.lay, q)
    requires g1 == g.(bins := g.bins.(mem := g1.Mem()))
             && SameOutside(g.Mem(), g1.Mem(), q + FD, q + FD + (SizeAt(h.lay, p) - 8) - 8)
    ensures HeapOk(g1, {}) && LiveOk(g1.lay, live + {q}) && Keeps(h.Mem(), h.lay, g1.Mem(), g1.lay, live)
  {
    hide HeapOk, Keeps, SameOutside;
    LiveLess(g.lay, live + {q}, q);
    assert live + {q} - {q} == live;
    SameWider(g.Mem(), g1.Mem(), q + FD, q + FD + (SizeAt(h.lay, p) - 8) - 8, Next(g.lay, q));
    BlockWritten(g, g1.Mem(), q, live);
    KeepsTrans(h.Mem(), h.lay, g.Mem(), g.lay, g1.Mem(), g1.lay, live);
  }

  lemma MoveDone(h: Heap, g: Heap, f: Heap, live: set<int>, p: int, q: int)
    requires p in live && q !in live && Keeps(h.Mem(), h.lay, g.Mem(), g.lay, live)
             && Keeps(g.Mem(), g.lay, f.Mem(), f.lay, live + {q} - {p})
    ensures Keeps(h.Mem(), h.lay, f.Mem(), f.lay, live - {p}) && live + {q} - {p} == live - {p} + {q}
            && SizeAt(f.lay, q) == SizeAt(g.lay, q)
  {
    hide Keeps;
    assert p != q;
    KeepsLess(h.Mem(), h.lay, g.Mem(), g.lay, live, live - {p});
    KeepsLess(g.Mem(), g.lay, f.Mem(), f.lay, live + {q} - {p}, live - {p});
    KeepsTrans(h.Mem(), h.lay, g.Mem(), g.lay, f.Mem(), f.lay, live - {p});
    KeptSize(g.Mem(), g.lay, f.Mem(), f.lay, live + {q} - {p}, q);
  }

  lemma AlignedEight(a: int)
    ensures Aligned(a) <==> a % 8 == 0
  {
  }

  lemma MovedWords(h: Heap, g: Heap, g1: Heap, f: Heap, live: set<int>, p: int, q: int, len: nat)
    requires p in live && q !in live && Keeps(h.Mem(), h.lay, g.Mem(), g.lay, live) && len == SizeAt(h.lay, p) - 8
    requires SameWords(g.Mem(), p + FD, g1.Mem(), q + FD, len) && g1.lay == g.lay && SizeAt(h.lay, p) < SizeAt(g.lay, q)
    requires Keeps(g1.Mem(), g1.lay, f.Mem(), f.lay, live + {q} - {p}) && Aligned(len)
    ensures SameWords(h.Mem(), p + FD, f.Mem(), q + FD, len)
  {
    hide Keeps, W, Aligned;
    forall k | 0 <= k < len && Aligned(k) ensures W(f.Mem(), q + FD + k) == W(h.Mem(), p + FD + k) {
      AlignedBelow(k, len);
      MovedWord(h, g, g1, f, live, p, q, k);
    }
  }

  lemma MovedWord(h: Heap, g: Heap, g1: Heap, f: Heap, live: set<int>, p: int, q: int, k: nat)
    requires p in live && q !in live && Keeps(h.Mem(), h.lay, g.Mem(), g.lay, live) && k + 8 <= SizeAt(h.lay, p) - 8
    requires W(g1.Mem(), q + FD + k) == W(g.Mem(), p + FD + k) && g1.lay == g.lay && SizeAt(h.lay, p) < SizeAt(g.lay, q)
    requires Keeps(g1.Mem(), g1.lay, f.Mem(), f.lay, live + {q} - {p})
    ensures W(f.Mem(), q + FD + k) == W(h.Mem(), p + FD + k)
  {
    hide W;
    assert KeepsOne(h.Mem(), h.lay, g.Mem(), g.lay, p);
    assert InBlock(h.lay, p, p + FD + k);
    assert KeepsOne(g1.Mem(), g1.lay, f.Mem(), f.lay, q);
    assert InBlock(g1.lay, q, q + FD + k);
  }
}

/** How chunks tile the segments of the heap, and what their head and foot words say. */
module HeapLayout {
  import opened HeapWords
  import opened Bins

  /** A segment got from the system. */
  datatype Segment = Segment(base: int, size: nat)
  {
    function End(): int { base + size }
    predicate Holds(a: int) { base <= a < End() }
  }

  /** Chunks in use, free chunks, the top chunk, and the space kept at the end of a segment. */
  datatype Kind = Used | Free | Top | Tail

  datatype Tag = Tag(size: nat, kind: Kind)

  type Layout = map<int, Tag>

  // All memory lies below this address, as LuaJIT demands of its mappings.
  const ADDRESS_END: int := 0x1_0000_0000

  function Next(l: Layout, a: int): int { if a in l then a + l[a].size else a }

  function SizeAt(l: Layout, a: int): nat { if a in l then l[a].size else 0 }

  function Minus(a: nat, b: nat): nat { if a >= b then a - b else 0 }

  predicate Is(l: Layout, a: int, k: Kind) { a in l && l[a].kind == k }

  predicate Aligned(a: int) { a % 8 == 0 }

  predicate ChunkOk(a: int, size: nat) {
    a >= STATE_END && Aligned(a) && size > 0 && Aligned(size) && a + size <= ADDRESS_END
  }

  /** Chunks are aligned and in range. */
  ghost predicate InRange(l: Layout) {
    forall a :: a in l ==> ChunkOk(a, l[a].size)
  }

  ghost predicate NoOverlap(l: Layout) {
    forall a, b :: a in l && b in l && a < b ==> a + l[a].size <= b
  }

  ghost predicate Chunks(l: Layout) {
    InRange(l) && NoOverlap(l)
  }

  /** A chunk is followed by a chunk, or ends its segment. */
  ghost predicate Chained(l: Layout) {
    forall a :: a in l && l[a].kind != Tail ==> Next(l, a) in l
  }

  ghost predicate SegmentOk(l: Layout, s: Segment) {
    && s.base in l && l[s.base].kind != Tail && s.End() <= ADDRESS_END && Aligned(s.base) && Aligned(s.size)
    && s.size > 0
    && (forall a :: a in l && s.Holds(a) ==> if l[a].kind == Tail then Next(l, a) == s.End() else Next(l, a) < s.End())
  }

  ghost predicate InSegment(segs: seq<Segment>, a: int) {
    exists i :: 0 <= i < |segs| && segs[i].Holds(a)
  }

  ghost predicate SegmentsApart(segs: seq<Segment>) {
    forall i, j :: 0 <= i < j < |segs| ==> segs[i].End() <= segs[j].base || segs[j].End() <= segs[i].base
  }

  ghost predicate Segments(l: Layout, segs: seq<Segment>) {
    && SegmentsApart(segs)
    && (forall i :: 0 <= i < |segs| ==> SegmentOk(l, segs[i]))
    && (forall a :: a in l ==> InSegment(segs, a))
  }

  /** The chunks tile the segments. */
  ghost predicate Tiling(l: Layout, segs: seq<Segment>) {
    Chunks(l) && Chained(l) && Segments(l, segs)
  }

  /** Every address of a segment from a on lies in a chunk. */
  lemma {:induction false} CoveredFrom(l: Layout, s: Segment, a: int, x: int) returns (c: int)
    requires Chunks(l) && Chained(l) && SegmentOk(l, s) && a in l && s.Holds(a) && a <= x < s.End()
    ensures c in l && c <= x < Next(l, c)
    decreases x - a
  {
    if x < Next(l, a) {
      c := a;
    } else {
      c := CoveredFrom(l, s, Next(l, a), x);
    }
  }

  /** Every address of a segment lies in exactly one chunk. */
  lemma Covered(l: Layout, segs: seq<Segment>, i: nat, x: int) returns (c: int)
    requires Tiling(l, segs) && i < |segs| && segs[i].Holds(x)
    ensures c in l && c <= x < Next(l, c)
    ensures forall b :: b in l && b <= x < Next(l, b) ==> b == c
  {
    hide Chained, SegmentOk, InRange;
    SegmentBase(l, segs[i]);
    c := CoveredFrom(l, segs[i], segs[i].base, x);
  }

  lemma SegmentBase(l: Layout, s: Segment)
    requires SegmentOk(l, s)
    ensures s.base in l && l[s.base].kind != Tail
  {
  }

  // ---------------------------------------------------------------- merging and splitting

  /** The chunks from a up to e as one. */
  function Fuse(l: Layout, a: int, e: int, k: Kind): Layout {
    (map x | x in l && !(a < x < e) :: l[x])[a := Tag(if e > a then e - a else 0, k)]
  }

  /** Chunk a cut in two. */
  function Cut(l: Layout, a: int, n: nat, j: Kind, k: Kind): Layout {
    l[a := Tag(n, j)][a + n := Tag(Minus(SizeAt(l, a), n), k)]
  }

  lemma FuseKeys(l: Layout, a: int, e: int, k: Kind)
    requires a < e
    ensures var f := Fuse(l, a, e, k);
            && (forall x :: x in f && x != a ==> x in l && f[x] == l[x] && (x < a || x >= e))
            && (forall x :: x in l && (x < a || x >= e) ==> x in f)
            && a in f && f[a] == Tag(e - a, k)
  {
  }

  lemma FuseChunks(l: Layout, a: int, e: int, k: Kind)
    requires Chunks(l) && Chained(l) && a in l && e in l && a < e && k != Tail
    ensures Chunks(Fuse(l, a, e, k)) && Chained(Fuse(l, a, e, k))
  {
    hide Fuse, Aligned;
    var f := Fuse(l, a, e, k);
    FuseKeys(l, a, e, k);
    AlignedDiff(a, e);
    assert ChunkOk(a, e - a) && InRange(f);
    FuseOverlap(l, a, e, k);
    forall x | x in f && f[x].kind != Tail ensures Next(f, x) in f {
      if x < a {
        assert Next(l, x) in l && Next(l, x) <= a;
      }
    }
  }

  lemma AlignedDiff(a: int, e: int)
    requires Aligned(a) && Aligned(e)
    ensures Aligned(e - a) && Aligned(a + e)
  {
  }

  lemma FuseOverlap(l: Layout, a: int, e: int, k: Kind)
    requires NoOverlap(l) && a in l && e in l && a < e
    ensures NoOverlap(Fuse(l, a, e, k))
  {
    hide Fuse;
    var f := Fuse(l, a, e, k);
    FuseKeys(l, a, e, k);
    forall x, y | x in f && y in f && x < y ensures x + f[x].size <= y {
    }
  }

  lemma FuseSegment(l: Layout, a: int, e: int, k: Kind, home: Segment, s: Segment)
    requires Chunks(l) && SegmentOk(l, s) && SegmentOk(l, home) && a in l && e in l && a < e && k != Tail
    requires home.Holds(a) && e < home.End() && (s == home || s.End() <= home.base || home.End() <= s.base)
    ensures SegmentOk(Fuse(l, a, e, k), s)
  {
    var f := Fuse(l, a, e, k);
    forall x | x in f && s.Holds(x)
      ensures if f[x].kind == Tail then Next(f, x) == s.End() else Next(f, x) < s.End()
    {
      if x != a {
        assert x in l && f[x] == l[x];
      }
    }
  }

  lemma FuseTiling(l: Layout, segs: seq<Segment>, a: int, e: int, k: Kind, i: nat)
    requires Tiling(l, segs) && a in l && e in l && a < e && k != Tail
    requires i < |segs| && segs[i].Holds(a) && e < segs[i].End()
    ensures Tiling(Fuse(l, a, e, k), segs)
  {
    hide Chunks, Chained, SegmentOk;
    var f := Fuse(l, a, e, k);
    FuseChunks(l, a, e, k);
    forall j | 0 <= j < |segs| ensures SegmentOk(f, segs[j]) {
      FuseSegment(l, a, e, k, segs[i], segs[j]);
    }
    forall x | x in f ensures InSegment(segs, x) {
      assert x in l;
    }
  }

  lemma CutChunks(l: Layout, a: int, n: nat, j: Kind, k: Kind)
    requires Chunks(l) && Chained(l) && a in l && 0 < n < l[a].size && Aligned(n) && j != Tail && k != Tail
             && l[a].kind != Tail
    ensures Chunks(Cut(l, a, n, j, k)) && Chained(Cut(l, a, n, j, k))
  {
    hide Aligned;
    var f := Cut(l, a, n, j, k);
    AlignedDiff(n, l[a].size);
    AlignedDiff(a, n);
    assert InRange(f);
    CutOverlap(l, a, n, j, k);
    CutChained(l, a, n, j, k);
  }

  lemma CutOverlap(l: Layout, a: int, n: nat, j: Kind, k: Kind)
    requires NoOverlap(l) && a in l && 0 < n < l[a].size
    ensures NoOverlap(Cut(l, a, n, j, k))
  {
    var f := Cut(l, a, n, j, k);
    forall x, y | x in f && y in f && x < y ensures x + f[x].size <= y {
      if x == a + n {
        assert a + l[a].size <= y;
      } else if y == a + n && x != a {
        assert x < a;
      }
    }
  }

  lemma CutChained(l: Layout, a: int, n: nat, j: Kind, k: Kind)
    requires NoOverlap(l) && Chained(l) && a in l && 0 < n < l[a].size && l[a].kind != Tail
    ensures Chained(Cut(l, a, n, j, k))
  {
    var f := Cut(l, a, n, j, k);
    forall x | x in f && f[x].kind != Tail ensures Next(f, x) in f {
      if x != a && x != a + n {
        assert Next(l, x) in l;
      }
    }
  }

  lemma CutSegment(l: Layout, a: int, n: nat, j: Kind, k: Kind, s: Segment, home: Segment)
    requires Chunks(l) && a in l && 0 < n < l[a].size && Aligned(n) && j != Tail && k != Tail && l[a].kind != Tail
    requires SegmentOk(l, s) && SegmentOk(l, home) && home.Holds(a)
    requires s == home || s.End() <= home.base || home.End() <= s.base
    ensures SegmentOk(Cut(l, a, n, j, k), s)
  {
  }

  lemma CutTiling(l: Layout, segs: seq<Segment>, a: int, n: nat, j: Kind, k: Kind)
    requires Tiling(l, segs) && a in l && 0 < n < l[a].size && Aligned(n) && j != Tail && k != Tail && l[a].kind != Tail
    ensures Tiling(Cut(l, a, n, j, k), segs)
  {
    hide Chunks, Chained, SegmentOk;
    var f := Cut(l, a, n, j, k);
    CutChunks(l, a, n, j, k);
    var i :| 0 <= i < |segs| && segs[i].Holds(a);
    forall c | 0 <= c < |segs| ensures SegmentOk(f, segs[c]) {
      CutSegment(l, a, n, j, k, segs[c], segs[i]);
    }
    forall x | x in f ensures InSegment(segs, x) {
      if x == a + n {
        CutHeld(l, a, n, segs[i]);
        assert segs[i].Holds(x);
      } else {
        assert x in l;
      }
    }
  }

  lemma CutHeld(l: Layout, a: int, n: nat, s: Segment)
    requires a in l && 0 < n < l[a].size && l[a].kind != Tail && SegmentOk(l, s) && s.Holds(a)
    ensures s.Holds(a + n)
  {
  }

  /** A chunk and the next one lie in the same segment. */
  lemma NextHeld(l: Layout, segs: seq<Segment>, a: int, i: nat)
    requires Tiling(l, segs) && a in l && l[a].kind != Tail && i < |segs| && segs[i].Holds(a)
    ensures Next(l, a) in l && segs[i].Holds(Next(l, a))
  {
  }

  lemma RetagTiling(l: Layout, segs: seq<Segment>, a: int, k: Kind)
    requires Tiling(l, segs) && a in l && l[a].kind != Tail && k != Tail
    ensures Tiling(l[a := Tag(l[a].size, k)], segs)
  {
    hide Segments;
    var f := l[a := Tag(l[a].size, k)];
    assert Chunks(f) && Chained(f);
    RetagSegments(l, segs, a, k);
  }

  lemma RetagSegments(l: Layout, segs: seq<Segment>, a: int, k: Kind)
    requires Segments(l, segs) && a in l && l[a].kind != Tail && k != Tail
    ensures Segments(l[a := Tag(l[a].size, k)], segs)
  {
    hide SegmentOk;
    var f := l[a := Tag(l[a].size, k)];
    forall i | 0 <= i < |segs| ensures SegmentOk(f, segs[i]) {
      RetagSegment(l, segs[i], a, k);
    }
    forall x | x in f ensures InSegment(segs, x) {
      assert x in l;
    }
  }

  lemma RetagSegment(l: Layout, s: Segment, a: int, k: Kind)
    requires SegmentOk(l, s) && a in l && l[a].kind != Tail && k != Tail
    ensures SegmentOk(l[a := Tag(l[a].size, k)], s)
  {
    var f := l[a := Tag(l[a].size, k)];
    forall x | x in f && s.Holds(x)
      ensures if f[x].kind == Tail then Next(f, x) == s.End() else Next(f, x) < s.End()
    {
      assert x in l;
    }
  }
}

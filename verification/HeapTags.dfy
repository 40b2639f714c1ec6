/** Boundary tags: head and foot words agree with the layout. */
module HeapTags {
  import opened HeapWords
  import opened Bins
  import opened HeapLayout

  const PINUSE: int := 1
  const CINUSE: int := 2
  const FENCEPOST_HEAD: int := 11
  const TOP_FOOT_SIZE: nat := 64
  const MIN_CHUNK_SIZE: nat := 32

  function Head(m: Words, a: int): int { W(m, a + HEAD) }

  predicate Pinuse(m: Words, a: int) { Head(m, a) % 2 == 1 }

  predicate Cinuse(m: Words, a: int) { Head(m, a) / 2 % 2 == 1 }

  /** A chunk in use: its head, and the free chunk before it if its PINUSE bit is clear. */
  ghost predicate UsedOk(m: Words, l: Layout, a: int)
    requires a in l
  {
    var s := l[a].size;
    && s >= MIN_CHUNK_SIZE
    && (Head(m, a) == s + CINUSE + PINUSE
        || (Head(m, a) == s + CINUSE && var b := a - W(m, a); Is(l, b, Free) && Next(l, b) == a))
  }

  /** A free chunk: its head, its foot, and a chunk in use after it. */
  ghost predicate FreeOk(m: Words, l: Layout, a: int)
    requires a in l
  {
    var s := l[a].size;
    && s >= MIN_CHUNK_SIZE && Head(m, a) == s + PINUSE && W(m, a + s) == s
    && Is(l, a + s, Used)
  }

  ghost predicate TopOk(m: Words, l: Layout, a: int)
    requires a in l
  {
    && Head(m, a) == l[a].size + PINUSE
    && Next(l, a) in l && l[Next(l, a)] == Tag(TOP_FOOT_SIZE, Tail) && Head(m, Next(l, a)) == TOP_FOOT_SIZE
  }

  /** The end of a segment: room kept after the top chunk, or fenceposts. */
  ghost predicate TailOk(m: Words, l: Layout, a: int)
    requires a in l
  {
    l[a].size >= MIN_CHUNK_SIZE && (Head(m, a) == TOP_FOOT_SIZE || Head(m, a) == FENCEPOST_HEAD)
  }

  ghost predicate KindOk(m: Words, l: Layout, a: int)
    requires a in l
  {
    match l[a].kind
    case Used => UsedOk(m, l, a)
    case Free => FreeOk(m, l, a)
    case Top => TopOk(m, l, a)
    case Tail => TailOk(m, l, a)
  }

  /** A chunk's words, and the PINUSE bit of the next one, which says whether it is in use. */
  ghost predicate TagOk(m: Words, l: Layout, a: int) {
    a in l ==>
      && KindOk(m, l, a)
      && (l[a].kind != Tail ==> (Pinuse(m, Next(l, a)) <==> l[a].kind == Used))
  }

  ghost predicate TagsOk(m: Words, l: Layout) {
    forall a :: a in l ==> TagOk(m, l, a)
  }

  /** Words outside [lo, hi] stay. */
  ghost predicate SameOutside(m: Words, n: Words, lo: int, hi: int) {
    forall w :: w < lo || w > hi ==> W(n, w) == W(m, w)
  }

  lemma SameWider(m: Words, n: Words, lo: int, hi: int, hi': int)
    requires SameOutside(m, n, lo, hi) && hi <= hi'
    ensures SameOutside(m, n, lo, hi')
  {
  }

  /** Layouts that differ between a and e only. */
  ghost predicate SameBeyond(l: Layout, k: Layout, a: int, e: int) {
    && (forall x :: x in l && (x < a || x >= e) ==> x in k && k[x] == l[x])
    && (forall x :: x in k && (x < a || x >= e) ==> x in l)
  }

  /** Chunks before a keep their tags. */
  lemma PatchBefore(m: Words, l: Layout, n: Words, k: Layout, a: int, e: int, hi: int, x: int)
    requires NoOverlap(l) && InRange(l) && TagOk(m, l, x) && x in l && x < a && a in l && a in k && a < e
    requires SameOutside(m, n, a + HEAD, hi) && SameBeyond(l, k, a, e)
    requires l[a].kind != Tail && (Pinuse(n, a) <==> Pinuse(m, a)) && (k[a].kind == Used || Pinuse(m, a))
    ensures TagOk(n, k, x)
  {
    hide W, Aligned;
    assert x + l[x].size <= a && l[x].size >= HEAD by {
      SizeAtLeast(l, x);
    }
    var y := Next(l, x);
    assert Head(n, x) == Head(m, x) && W(n, x) == W(m, x) && W(n, y) == W(m, y);
    if y != a && y in l {
      SizeAtLeast(l, y);
      assert y < a;
      assert y + l[y].size <= a;
    }
    assert y < a ==> Head(n, y) == Head(m, y);
  }

  lemma SizeAtLeast(l: Layout, x: int)
    requires InRange(l) && x in l
    ensures l[x].size >= 8
  {
  }

  /** Chunks after e keep their tags. */
  lemma PatchAfter(m: Words, l: Layout, n: Words, k: Layout, a: int, e: int, hi: int, x: int)
    requires NoOverlap(l) && InRange(l) && TagOk(m, l, x) && x in l && x > e && e in l && a < e
    requires SameOutside(m, n, a + HEAD, hi) && SameBeyond(l, k, a, e) && hi <= e + HEAD && hi < Next(l, e)
    ensures TagOk(n, k, x)
  {
    hide W, Aligned;
    assert Next(l, e) <= x;
    var y := Next(l, x);
    assert Head(n, x) == Head(m, x) && W(n, x) == W(m, x) && W(n, y) == W(m, y) && Head(n, y) == Head(m, y);
    assert k[x] == l[x];
    if l[x].kind == Used && Head(m, x) == l[x].size + CINUSE {
      var b := x - W(m, x);
      assert b >= e;
    }
  }

  /** Rewriting the chunks from a up to e, and the words from a's head to e's head at most,
      keeps the tags of all the other chunks. */
  lemma PatchTags(m: Words, l: Layout, n: Words, k: Layout, a: int, e: int, hi: int)
    requires NoOverlap(l) && InRange(l) && TagsOk(m, l) && a in l && e in l && a < e && a in k
    requires SameOutside(m, n, a + HEAD, hi) && SameBeyond(l, k, a, e) && hi <= e + HEAD && hi < Next(l, e)
    requires l[a].kind != Tail && (Pinuse(n, a) <==> Pinuse(m, a)) && (k[a].kind == Used || Pinuse(m, a))
    requires forall x :: x in k && a <= x <= e ==> TagOk(n, k, x)
    ensures TagsOk(n, k)
  {
    hide TagOk, W, NoOverlap, InRange, SameOutside, Pinuse;
    forall x | x in k ensures TagOk(n, k, x) {
      if x < a {
        PatchBefore(m, l, n, k, a, e, hi, x);
      } else if x > e {
        PatchAfter(m, l, n, k, a, e, hi, x);
      }
    }
  }

  // ---------------------------------------------------------------- what stays in blocks

  /** Words of a block: from the first word after the head up to the foot of the next chunk. */
  predicate InBlock(l: Layout, p: int, w: int) { p in l && p + FD <= w <= p + l[p].size }

  /** A block stays where it is, with its contents, and none comes to lie at a segment's end. */
  ghost predicate KeepsOne(m: Words, l: Layout, n: Words, k: Layout, p: int) {
    && Is(l, p, Used) && p in k && k[p] == l[p] && (Is(k, Next(l, p), Tail) ==> Is(l, Next(l, p), Tail))
    && (forall w :: InBlock(l, p, w) ==> W(n, w) == W(m, w))
  }

  ghost predicate Keeps(m: Words, l: Layout, n: Words, k: Layout, live: set<int>) {
    forall p :: p in live ==> KeepsOne(m, l, n, k, p)
  }

  lemma KeepsTrans(m: Words, l: Layout, n: Words, k: Layout, o: Words, j: Layout, live: set<int>)
    requires Keeps(m, l, n, k, live) && Keeps(n, k, o, j, live)
    ensures Keeps(m, l, o, j, live)
  {
    hide W;
    forall p | p in live ensures KeepsOne(m, l, o, j, p) {
      assert KeepsOne(m, l, n, k, p) && KeepsOne(n, k, o, j, p);
      forall w | InBlock(l, p, w) ensures W(o, w) == W(m, w) {
        assert InBlock(k, p, w);
      }
    }
  }

  lemma KeepsLess(m: Words, l: Layout, n: Words, k: Layout, live: set<int>, fewer: set<int>)
    requires Keeps(m, l, n, k, live) && fewer <= live
    ensures Keeps(m, l, n, k, fewer)
  {
  }

  lemma PatchKeeps(m: Words, l: Layout, n: Words, k: Layout, a: int, e: int, live: set<int>)
    requires NoOverlap(l) && a in l && e in l && a < e && !Is(k, a, Tail)
    requires SameOutside(m, n, a + HEAD, e + HEAD) && SameBeyond(l, k, a, e)
    requires forall p :: p in live ==> Is(l, p, Used) && !(a <= p < e)
    ensures Keeps(m, l, n, k, live)
  {
    hide W;
    forall p | p in live ensures KeepsOne(m, l, n, k, p) {
      assert Is(l, p, Used);
      assert p < a ==> p + l[p].size <= a;
    }
  }
}

/** The stores of the tree macros, and the change of the trie records they amount to. */
module BinStores {
  import opened TreeIndex
  import opened Trie
  import opened TrieMem
  import opened HeapWords
  import opened Bins

  lemma FieldsAt(m: Words, k: set<int>, a: int)
    requires a in k
    ensures var c := At(TreeView(m, k), a);
            && c.size == ChunkSize(W(m, a + HEAD)) && c.fd == W(m, a + FD) && c.bk == W(m, a + BK)
            && c.kid0 == W(m, a + KID0) && c.kid1 == W(m, a + KID1) && c.parent == W(m, a + PARENT)
  {
  }

  /** x becomes the root of a bin. */
  function PutRoot(m: Words, x: int, q: int): Words {
    m[x + PARENT := q][x + FD := x][x + BK := x]
  }

  lemma PutRootView(m: Words, k: set<int>, x: int, s: nat, q: int)
    requires Spaced(k, 64) && x in k
    requires ChunkSize(W(m, x + HEAD)) == s && W(m, x + KID0) == 0 && W(m, x + KID1) == 0
    ensures TreeView(PutRoot(m, x, q), k) == TreeView(m, k)[x := Alone(x, s, q)]
  {
    hide TreeView, Spaced, W, ChunkSize;
    FieldsAt(m, k, x);
    var m1 := m[x + PARENT := q];
    var m2 := m1[x + FD := x];
    StoreParent(m, k, x, q);
    StoreFd(m1, k, x, x);
    StoreBk(m2, k, x, x);
    var v := TreeView(m, k);
    var v1 := v[x := At(v, x).(parent := q)];
    var v2 := v1[x := At(v1, x).(fd := x)];
    assert v2[x := At(v2, x).(bk := x)] == v[x := Alone(x, s, q)];
  }

  /** x becomes a child of the chunk at `at`. */
  function PutBelow(m: Words, x: int, at: int, right: bool): Words {
    PutRoot(m[at + KidAt(right) := x], x, at)
  }

  lemma PutBelowView(m: Words, k: set<int>, x: int, s: nat, at: int, right: bool)
    requires Spaced(k, 64) && x in k && at in k && at != x
    requires ChunkSize(W(m, x + HEAD)) == s && W(m, x + KID0) == 0 && W(m, x + KID1) == 0
    ensures TreeView(PutBelow(m, x, at, right), k) == LinkIn(TreeView(m, k), Below(at, right), x, s)
  {
    hide TreeView, W, ChunkSize;
    var m1 := m[at + KidAt(right) := x];
    KidStoreKeeps(m, k, x, at, right, x);
    PutRootView(m1, k, x, s, at);
    StoreKid(m, k, at, right, x);
    var v := TreeView(m, k);
    var c, d := At(v, at).WithKid(right, x), Alone(x, s, at);
    assert v[at := c][x := d] == v[x := d][at := c];
  }

  /** A store to another chunk keeps the words of x. */
  lemma KidStoreKeeps(m: Words, k: set<int>, x: int, at: int, right: bool, v: int)
    requires Spaced(k, 64) && x in k && at in k && at != x
    ensures var n := m[at + KidAt(right) := v];
            W(n, x + HEAD) == W(m, x + HEAD) && W(n, x + KID0) == W(m, x + KID0) && W(n, x + KID1) == W(m, x + KID1)
  {
  }

  /** x joins the ring of the chunk at `at`. */
  function PutBeside(m: Words, x: int, at: int): Words {
    var f := W(m, at + FD);
    m[at + FD := x][f + BK := x][x + FD := f][x + BK := at][x + PARENT := 0]
  }

  lemma PutBesideView(m: Words, k: set<int>, x: int, s: nat, at: int)
    requires Spaced(k, 64) && x in k && at in k && W(m, at + FD) in k && at != x && W(m, at + FD) != x
    requires ChunkSize(W(m, x + HEAD)) == s && W(m, x + KID0) == 0 && W(m, x + KID1) == 0
    ensures TreeView(PutBeside(m, x, at), k) == LinkIn(TreeView(m, k), Same(at), x, s)
  {
    hide TreeView, Spaced, W, ChunkSize;
    FieldsAt(m, k, x);
    FieldsAt(m, k, at);
    var f := W(m, at + FD);
    var m1 := m[at + FD := x];
    var m2 := m1[f + BK := x];
    var m3 := m2[x + FD := f];
    var m4 := m3[x + BK := at];
    StoreFd(m, k, at, x);
    StoreBk(m1, k, f, x);
    StoreFd(m2, k, x, f);
    StoreBk(m3, k, x, at);
    StoreParent(m4, k, x, 0);
    BesideRecords(TreeView(m, k), x, s, at, f);
  }

  lemma BesideRecords(v: Mem, x: int, s: nat, at: int, f: int)
    requires x != at && x != f && At(v, at).fd == f
    requires At(v, x).size == s && At(v, x).kid0 == 0 && At(v, x).kid1 == 0
    ensures var v1 := v[at := At(v, at).(fd := x)];
            var v2 := v1[f := At(v1, f).(bk := x)];
            var v3 := v2[x := At(v2, x).(fd := f)];
            var v4 := v3[x := At(v3, x).(bk := at)];
            v4[x := At(v4, x).(parent := 0)] == LinkIn(v, Same(at), x, s)
  {
  }

  lemma RingOutView(m: Words, k: set<int>, x: int)
    requires Spaced(k, 64) && x in k && W(m, x + FD) in k && W(m, x + BK) in k
    ensures TreeView(RingDrop(m, x), k) == RingOut(TreeView(m, k), x)
  {
    hide Spaced, TreeView, W;
    FieldsAt(m, k, x);
    var f, r := W(m, x + FD), W(m, x + BK);
    StoreBk(m, k, f, r);
    StoreFd(m[f + BK := r], k, r, f);
  }

  /** The chunk r takes over the children of x. */
  function TakeOver(m: Words, x: int, r: int, q: int): Words {
    var m1 := m[r + PARENT := q];
    var c0 := W(m1, x + KID0);
    var m2 := if c0 != 0 then m1[r + KID0 := c0][c0 + PARENT := r] else m1;
    var c1 := W(m2, x + KID1);
    if c1 != 0 then m2[r + KID1 := c1][c1 + PARENT := r] else m2
  }

  lemma TakeOverKid(m: Words, k: set<int>, x: int, r: int, right: bool)
    requires Spaced(k, 64) && x in k && r in k && x != r
    requires W(m, x + KidAt(right)) in k
    ensures var c := W(m, x + KidAt(right));
            var n := m[r + KidAt(right) := c][c + PARENT := r];
            var v1 := TreeView(m, k)[r := At(TreeView(m, k), r).WithKid(right, c)];
            TreeView(n, k) == v1[c := At(v1, c).(parent := r)]
  {
    hide TreeView, Spaced, W;
    var c := W(m, x + KidAt(right));
    StoreKid(m, k, r, right, c);
    StoreParent(m[r + KidAt(right) := c], k, c, r);
  }

  /** Stores to parents and to other chunks keep the children of x. */
  lemma KidsKept(m: Words, k: set<int>, x: int, a: int, v: int)
    requires Spaced(k, 64) && x in k && a in k
    ensures W(m[a + PARENT := v], x + KID0) == W(m, x + KID0) && W(m[a + PARENT := v], x + KID1) == W(m, x + KID1)
    ensures a != x ==>
              W(m[a + KID0 := v], x + KID1) == W(m, x + KID1) && W(m[a + KID0 := v], x + KID0) == W(m, x + KID0)
  {
  }

  lemma TakeOverView(m: Words, k: set<int>, x: int, r: int, q: int)
    requires Spaced(k, 64) && x in k && r in k && x != r
    requires W(m, x + KID0) == 0 || W(m, x + KID0) in k
    requires W(m, x + KID1) == 0 || W(m, x + KID1) in k
    ensures TreeView(TakeOver(m, x, r, q), k) == Adopt(TreeView(m, k), x, r, q)
  {
    hide TreeView, Spaced, W;
    FieldsAt(m, k, x);
    var c0, c1 := W(m, x + KID0), W(m, x + KID1);
    var m1 := m[r + PARENT := q];
    StoreParent(m, k, r, q);
    KidsKept(m, k, x, r, q);
    var m2 := if c0 != 0 then m1[r + KID0 := c0][c0 + PARENT := r] else m1;
    if c0 != 0 {
      TakeOverKid(m1, k, x, r, false);
      KidsKept(m1, k, x, r, c0);
      KidsKept(m1[r + KID0 := c0], k, x, c0, r);
    }
    if c1 != 0 {
      TakeOverKid(m2, k, x, r, true);
    }
  }

  // ---------------------------------------------------------------- words touched

  predicate LargeIn(h: Held, a: int) { a in h && Large(h[a]) }

  lemma LargeQuietSelf(m: Words, h: Held)
    ensures LargeQuiet(m, m, h)
  {
  }

  lemma PutRootQuiet(m: Words, n: Words, h: Held, x: int, q: int)
    requires LargeQuiet(m, n, h) && LargeIn(h, x)
    ensures LargeQuiet(m, PutRoot(n, x, q), h)
  {
    hide LargeQuiet;
    LargeStore(m, n, h, x, PARENT, q);
    LargeStore(m, n[x + PARENT := q], h, x, FD, x);
    LargeStore(m, n[x + PARENT := q][x + FD := x], h, x, BK, x);
  }

  lemma PutBelowQuiet(m: Words, h: Held, x: int, at: int, right: bool)
    requires LargeIn(h, x) && LargeIn(h, at)
    ensures LargeQuiet(m, PutBelow(m, x, at, right), h)
  {
    hide LargeQuiet;
    LargeQuietSelf(m, h);
    LargeStore(m, m, h, at, KidAt(right), x);
    PutRootQuiet(m, m[at + KidAt(right) := x], h, x, at);
  }

  lemma PutBesideQuiet(m: Words, h: Held, x: int, at: int)
    requires LargeIn(h, x) && LargeIn(h, at) && LargeIn(h, W(m, at + FD))
    ensures LargeQuiet(m, PutBeside(m, x, at), h)
  {
    hide LargeQuiet, W;
    var f := W(m, at + FD);
    var m1 := m[at + FD := x];
    var m2 := m1[f + BK := x];
    var m3 := m2[x + FD := f];
    var m4 := m3[x + BK := at];
    LargeQuietSelf(m, h);
    LargeStore(m, m, h, at, FD, x);
    LargeStore(m, m1, h, f, BK, x);
    LargeStore(m, m2, h, x, FD, f);
    LargeStore(m, m3, h, x, BK, at);
    LargeStore(m, m4, h, x, PARENT, 0);
  }

  lemma RingDropQuiet(m: Words, h: Held, x: int)
    requires LargeIn(h, W(m, x + FD)) && LargeIn(h, W(m, x + BK))
    ensures LargeQuiet(m, RingDrop(m, x), h)
  {
    hide LargeQuiet, W;
    var f, r := W(m, x + FD), W(m, x + BK);
    LargeQuietSelf(m, h);
    LargeStore(m, m, h, f, BK, r);
    LargeStore(m, m[f + BK := r], h, r, FD, f);
  }

  lemma TakeOverQuiet(m: Words, n: Words, h: Held, x: int, r: int, q: int)
    requires HeldOk(h) && LargeQuiet(m, n, h) && LargeIn(h, x) && LargeIn(h, r) && x != r
    requires W(n, x + KID0) == 0 || LargeIn(h, W(n, x + KID0))
    requires W(n, x + KID1) == 0 || LargeIn(h, W(n, x + KID1))
    ensures LargeQuiet(m, TakeOver(n, x, r, q), h)
  {
    hide LargeQuiet, W, HeldOk;
    LargeSpaced(h);
    var k := LargeKeys(h);
    var c0, c1 := W(n, x + KID0), W(n, x + KID1);
    var m1 := n[r + PARENT := q];
    LargeStore(m, n, h, r, PARENT, q);
    KidsKept(n, k, x, r, q);
    var m2 := if c0 != 0 then m1[r + KID0 := c0][c0 + PARENT := r] else m1;
    if c0 != 0 {
      LargeStore(m, m1, h, r, KID0, c0);
      LargeStore(m, m1[r + KID0 := c0], h, c0, PARENT, r);
      KidsKept(m1, k, x, r, c0);
      KidsKept(m1[r + KID0 := c0], k, x, c0, r);
    }
    if c1 != 0 {
      LargeStore(m, m2, h, r, KID1, c1);
      LargeStore(m, m2[r + KID1 := c1], h, c1, PARENT, r);
    }
  }

  /** Writing words of a chunk outside the bins leaves them alone. */
  lemma NewWord(b: BinState, x: int, s: nat, off: int, v: int)
    requires BinsOk(b) && Room(b.held, x, s) && HEAD <= off < s
    ensures BinsOk(b.(mem := b.mem[x + off := v]))
  {
    hide BinsOk, Room;
    forall w | BinWord(b.held, w) ensures W(b.mem[x + off := v], w) == W(b.mem, w) {
      NewWordApart(b, x, s, off, w);
    }
    BinsFrame(b, b.mem[x + off := v]);
  }

  lemma NewWordApart(b: BinState, x: int, s: nat, off: int, w: int)
    requires BinsOk(b) && Room(b.held, x, s) && HEAD <= off < s && BinWord(b.held, w)
    ensures w != x + off
  {
    hide TreesOk, RingsOk;
    var h := b.held;
    if w - HEAD in h {
    } else if w >= STATE_END {
      var a :| a in h && a + FD <= w < a + LinkEnd(h[a]);
    }
  }
}

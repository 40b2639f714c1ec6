/** The allocator's memory: words at byte addresses, with the records of free chunks laid
    over them. */
module HeapWords {
  import opened TrieMem

  type Words = map<int, int>

  function W(m: Words, a: int): int { if a in m then m[a] else 0 }

  // Offsets of the words of a chunk; the word at offset 0 is the foot of the chunk before.
  const HEAD: int := 8
  const FD: int := 16
  const BK: int := 24
  const KID0: int := 32
  const KID1: int := 40
  const PARENT: int := 48
  const INDEX: int := 56

  /** The size in a head word, whose two low bits are flags. */
  function ChunkSize(head: int): int { head / 4 * 4 }

  function RecordAt(m: Words, a: int): Chunk {
    Chunk(ChunkSize(W(m, a + HEAD)), W(m, a + FD), W(m, a + BK), W(m, a + KID0), W(m, a + KID1), W(m, a + PARENT))
  }

  /** The tree chunks at the addresses of k. */
  function TreeView(m: Words, k: set<int>): Mem { map a | a in k :: RecordAt(m, a) }

  /** The ring words of the chunks and bin headers at the addresses of k. */
  function RingView(m: Words, k: set<int>): Mem {
    map a | a in k :: Chunk(0, W(m, a + FD), W(m, a + BK), 0, 0, 0)
  }

  ghost predicate Spaced(k: set<int>, gap: int) {
    forall a, b :: a in k && b in k && a != b ==> a + gap <= b || b + gap <= a
  }

  function KidAt(right: bool): int { if right then KID1 else KID0 }

  // A store to one word of one chunk changes that field of its record only.

  lemma StoreFd(m: Words, k: set<int>, a: int, v: int)
    requires a in k && Spaced(k, 64)
    ensures TreeView(m[a + FD := v], k) == TreeView(m, k)[a := At(TreeView(m, k), a).(fd := v)]
  {
  }

  lemma StoreBk(m: Words, k: set<int>, a: int, v: int)
    requires a in k && Spaced(k, 64)
    ensures TreeView(m[a + BK := v], k) == TreeView(m, k)[a := At(TreeView(m, k), a).(bk := v)]
  {
  }

  lemma StoreKid(m: Words, k: set<int>, a: int, right: bool, v: int)
    requires a in k && Spaced(k, 64)
    ensures TreeView(m[a + KidAt(right) := v], k) == TreeView(m, k)[a := At(TreeView(m, k), a).WithKid(right, v)]
  {
  }

  lemma StoreParent(m: Words, k: set<int>, a: int, v: int)
    requires a in k && Spaced(k, 64)
    ensures TreeView(m[a + PARENT := v], k) == TreeView(m, k)[a := At(TreeView(m, k), a).(parent := v)]
  {
  }

  lemma StoreRingFd(m: Words, k: set<int>, a: int, v: int)
    requires a in k && Spaced(k, 16)
    ensures RingView(m[a + FD := v], k) == RingView(m, k)[a := At(RingView(m, k), a).(fd := v)]
  {
  }

  lemma StoreRingBk(m: Words, k: set<int>, a: int, v: int)
    requires a in k && Spaced(k, 16)
    ensures RingView(m[a + BK := v], k) == RingView(m, k)[a := At(RingView(m, k), a).(bk := v)]
  {
  }
}

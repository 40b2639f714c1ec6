/** Sizes and tree bins of LuaJIT's bundled allocator: which bin holds which sizes. */
module TreeIndex {
  import opened Powers

  const SIZE_BITS: nat := 64
  const TREEBIN_SHIFT: nat := 8
  const NTREEBINS: nat := 32
  const MIN_LARGE_SIZE: nat := 256

  /** Index of the highest set bit (lj_fls). */
  function Fls(x: nat): (k: nat)
    requires x > 0
    ensures Pow2(k) <= x < Pow2(k + 1)
  {
    if x == 1 then 0 else Fls(x / 2) + 1
  }

  /** Sizes up to here keep all their bits in the unsigned int that selects the bin. */
  const SIZE_LIMIT: nat := 0x100_0000_0000

  /** The size in units of 256, cut to an unsigned int. */
  function Units(s: nat): nat { (s / 256) % 0x1_0000_0000 }

  lemma UnitsSmall(s: nat)
    requires s < SIZE_LIMIT
    ensures Units(s) == s / 256
  {
  }

  /** The bin of a size (compute_tree_index). */
  function BinOf(s: nat): nat {
    var x := Units(s);
    if x == 0 then 0
    else if x > 0xFFFF then NTREEBINS - 1
    else
      var k := Fls(x);
      2 * k + (s / Pow2(k + TREEBIN_SHIFT - 1)) % 2
  }

  /** The size of the smallest chunk held in bin i (minsize_for_tree_index). */
  function MinSize(i: nat): nat {
    Pow2(i / 2 + TREEBIN_SHIFT) + (i % 2) * Pow2(i / 2 + TREEBIN_SHIFT - 1)
  }

  /** Number of size bits that the trie in bin i resolves: all of them in the last bin. */
  function Bits(i: nat): nat {
    if i == NTREEBINS - 1 then SIZE_BITS else i / 2 + TREEBIN_SHIFT - 1
  }

  /** Start of the interval of sizes that the root of the trie in bin i covers. */
  function Low(i: nat): nat {
    if i == NTREEBINS - 1 then 0 else MinSize(i)
  }

  /** leftshift_for_tree_index */
  function LeftShift(i: nat): nat
    requires i < NTREEBINS
  {
    SIZE_BITS - Bits(i)
  }

  lemma MinSizeNext(i: nat)
    ensures MinSize(i + 1) == MinSize(i) + Pow2(i / 2 + TREEBIN_SHIFT - 1)
  {
    if i % 2 == 0 {
      assert (i + 1) / 2 == i / 2 && (i + 1) % 2 == 1;
    } else {
      assert (i + 1) / 2 == i / 2 + 1 && (i + 1) % 2 == 0;
    }
  }

  lemma {:induction false} MinSizeMonotone(i: nat, j: nat)
    requires i <= j
    ensures MinSize(i) <= MinSize(j)
    decreases j
  {
    if i < j {
      MinSizeMonotone(i, j - 1);
      MinSizeNext(j - 1);
    }
  }

  lemma Quotient(s: nat, d: nat, lo: nat)
    requires d > 0
    ensures s / d >= lo <==> s >= lo * d
  {
    var q := s / d;
    assert s == q * d + s % d;
    if q >= lo {
      assert q * d >= lo * d;
    } else {
      assert (q + 1) * d <= lo * d;
    }
  }

  /** A size whose highest bit is k + 8 lies in bin 2k or 2k + 1, by its next bit. */
  lemma BinOfFls(s: nat, k: nat)
    requires Pow2(k + TREEBIN_SHIFT) <= s < Pow2(k + 1 + TREEBIN_SHIFT)
    ensures (s / Pow2(k + TREEBIN_SHIFT - 1)) % 2 == if s < 3 * Pow2(k + TREEBIN_SHIFT - 1) then 0 else 1
  {
    var d := Pow2(k + TREEBIN_SHIFT - 1);
    assert Pow2(k + TREEBIN_SHIFT) == 2 * d && Pow2(k + 1 + TREEBIN_SHIFT) == 4 * d;
    Quotient(s, d, 2);
    Quotient(s, d, 3);
    Quotient(s, d, 4);
  }

  lemma FlsScaled(s: nat)
    requires s >= 256
    ensures var k := Fls(s / 256); Pow2(k + TREEBIN_SHIFT) <= s < Pow2(k + 1 + TREEBIN_SHIFT)
  {
    hide Pow2;
    Pow2Eight();
    var x := s / 256;
    var k := Fls(x);
    Pow2Add(k, TREEBIN_SHIFT);
    Pow2Add(k + 1, TREEBIN_SHIFT);
    Quotient(s, 256, Pow2(k));
    Quotient(s, 256, Pow2(k + 1));
  }

  lemma BinMiddle(s: nat, k: nat)
    requires 256 <= s < SIZE_LIMIT && s / 256 <= 0xFFFF && k == Fls(s / 256)
    requires Pow2(k + TREEBIN_SHIFT) <= s < Pow2(k + 1 + TREEBIN_SHIFT)
    ensures BinOf(s) == 2 * k + (if s < 3 * Pow2(k + TREEBIN_SHIFT - 1) then 0 else 1) && k <= 15
  {
    hide Units, Pow2, Fls;
    UnitsSmall(s);
    BinOfFls(s, k);
    assert Pow2(k) <= s / 256;
    if k >= 16 {
      Pow2Monotone(16, k);
      Pow2Eight();
    }
  }

  lemma MinSizePair(k: nat)
    ensures MinSize(2 * k) == 2 * Pow2(k + TREEBIN_SHIFT - 1)
    ensures MinSize(2 * k + 1) == 3 * Pow2(k + TREEBIN_SHIFT - 1)
    ensures MinSize(2 * k + 2) == 4 * Pow2(k + TREEBIN_SHIFT - 1)
  {
    assert (2 * k) / 2 == k && (2 * k + 1) / 2 == k && (2 * k + 2) / 2 == k + 1;
  }

  /** A bin holds exactly the sizes from its minimum up to that of the next bin; the last
      one holds everything from its minimum on. */
  lemma BinBounds(s: nat)
    requires MIN_LARGE_SIZE <= s < SIZE_LIMIT
    ensures BinOf(s) < NTREEBINS && MinSize(BinOf(s)) <= s
    ensures BinOf(s) < NTREEBINS - 1 ==> s < MinSize(BinOf(s) + 1)
  {
    hide Pow2, MinSize, Units;
    Pow2Eight();
    UnitsSmall(s);
    if s / 256 > 0xFFFF {
    } else {
      FlsScaled(s);
      var k := Fls(s / 256);
      BinMiddle(s, k);
      MinSizePair(k);
      Pow2Twice(k + TREEBIN_SHIFT - 1);
    }
  }

  lemma Pow2Twice(k: nat)
    ensures Pow2(k + 1) == 2 * Pow2(k) && Pow2(k + 2) == 4 * Pow2(k)
  {
  }

  lemma Pow2Eight()
    ensures Pow2(8) == 256 && Pow2(16) == 0x10000
    ensures MinSize(NTREEBINS - 1) == 0xC00000
  {
    assert Pow2(4) == 16;
    Pow2Add(4, 4);
    Pow2Add(8, 8);
    Pow2Add(15, 8);
    Pow2Add(15, 7);
    assert Pow2(15) == 0x8000 && Pow2(7) == 128;
  }

  /** Larger sizes never go to smaller bins. */
  lemma BinMonotone(s: nat, t: nat)
    requires MIN_LARGE_SIZE <= s <= t < SIZE_LIMIT
    ensures BinOf(s) <= BinOf(t)
  {
    BinBounds(s);
    BinBounds(t);
    if BinOf(t) < BinOf(s) {
      MinSizeMonotone(BinOf(t) + 1, BinOf(s));
    }
  }

  /** Sizes of a bin lie in the interval that the root of its trie covers. */
  lemma BinInterval(s: nat)
    requires MIN_LARGE_SIZE <= s < SIZE_LIMIT
    ensures BinOf(s) < NTREEBINS
    ensures Low(BinOf(s)) <= s < Low(BinOf(s)) + Pow2(Bits(BinOf(s)))
  {
    hide Pow2, BinOf;
    BinBounds(s);
    MinSizeNext(BinOf(s));
    Pow2Large();
  }

  lemma Pow2Large()
    ensures Pow2(63) == 0x8000_0000_0000_0000 && Pow2(64) == 0x1_0000_0000_0000_0000
  {
    Pow2Eight();
    Pow2Add(16, 16);
    Pow2Add(32, 32);
  }

  /** The bin chosen from x, the low bits of a shifted size, for x up to 0xFFFF. */
  lemma BinOfTruncated(s: nat)
    ensures BinOf(s) < NTREEBINS
    ensures s >= SIZE_LIMIT ==> (BinOf(s) == NTREEBINS - 1 <==> Units(s) >= 0xC000)
  {
    hide Pow2;
    Pow2Eight();
    var x := Units(s);
    if 0 < x <= 0xFFFF {
      var k := Fls(x);
      FlsSmall(x);
      if k == 15 {
        BitAt22(s, x);
      }
    }
  }

  lemma FlsSmall(x: nat)
    requires 0 < x <= 0xFFFF
    ensures Fls(x) <= 15 && (Fls(x) == 15 <==> x >= 0x8000)
  {
    hide Pow2, Fls;
    Pow2Eight();
    Pow2Fifteen();
    if Fls(x) >= 16 {
      Pow2Monotone(16, Fls(x));
    }
    if Fls(x) <= 14 {
      Pow2Monotone(Fls(x) + 1, 15);
    }
    if Fls(x) == 15 {
      assert Pow2(Fls(x)) <= x;
    }
  }

  lemma Pow2Fifteen()
    ensures Pow2(15) == 0x8000
  {
    assert Pow2(7) == 128;
    Pow2Add(7, 8);
    Pow2Eight();
  }

  lemma BitAt22(s: nat, x: nat)
    requires x == Units(s) && 0x8000 <= x <= 0xFFFF
    ensures (s / Pow2(15 + TREEBIN_SHIFT - 1)) % 2 == 1 <==> x >= 0xC000
  {
    hide Pow2, Units;
    Pow2At22();
    UnitsBit(s, x);
  }

  lemma UnitsBit(s: nat, x: nat)
    requires x == Units(s) && 0x8000 <= x <= 0xFFFF
    ensures (s / 0x40_0000) % 2 == 1 <==> x >= 0xC000
  {
    var y := s / 256;
    QuotientTwice(s);
    CutKeepsBit(y, x);
  }

  lemma QuotientTwice(s: nat)
    ensures s / 0x40_0000 == s / 256 / 0x4000
  {
  }

  lemma CutKeepsBit(y: nat, x: nat)
    requires x == y % 0x1_0000_0000 && 0x8000 <= x <= 0xFFFF
    ensures (y / 0x4000) % 2 == 1 <==> x >= 0xC000
  {
    var q := y / 0x1_0000_0000;
    assert y / 0x4000 == q * 0x4_0000 + x / 0x4000;
  }

  lemma Pow2At22()
    ensures Pow2(22) == 0x40_0000
  {
    assert Pow2(11) == 2048;
    Pow2Add(11, 11);
  }

  /** The bin of a size holds it exactly when the 32-bit cut loses nothing that matters. */
  lemma BinRight(s: nat)
    requires s >= MIN_LARGE_SIZE
    ensures (&& MinSize(BinOf(s)) <= s
             && (BinOf(s) < NTREEBINS - 1 ==> s < MinSize(BinOf(s) + 1)))
            <==> (s < SIZE_LIMIT || Units(s) >= 0xC000)
  {
    hide Pow2, MinSize, BinOf, Units;
    Pow2Eight();
    BinOfTruncated(s);
    if s < SIZE_LIMIT {
      BinBounds(s);
    } else if BinOf(s) < NTREEBINS - 1 {
      MinSizeMonotone(BinOf(s) + 1, NTREEBINS - 1);
    }
  }

  /** From 2^40 on, larger sizes can go to smaller bins. */
  lemma BinNotMonotone()
    ensures BinOf(512) == 2 && BinOf(SIZE_LIMIT) == 0
  {
    assert 512 / 256 == 2 && Fls(2) == 1;
    assert Pow2(8) == 256;
  }

  // ---------------------------------------------------------------- the shifted size

  const WORD: nat := 0x1_0000_0000_0000_0000

  /** Shift left in a 64-bit word. */
  function Shl(x: nat, n: nat): nat { (x * Pow2(n)) % WORD }

  /** Top bit of a 64-bit word. */
  predicate TopBit(x: nat) { x / 0x8000_0000_0000_0000 % 2 == 1 }

  /** The word whose top k bits are d. */
  function Key(d: nat, k: nat): nat
    requires k <= SIZE_BITS
  {
    d * Pow2(SIZE_BITS - k)
  }

  /** Reading and shifting out the top bit tells in which half of 2^k the distance lies. */
  lemma KeyStep(d: nat, k: nat)
    requires 1 <= k <= SIZE_BITS && d < Pow2(k)
    ensures TopBit(Key(d, k)) <==> d >= Pow2(k - 1)
    ensures Shl(Key(d, k), 1) == Key(if d >= Pow2(k - 1) then d - Pow2(k - 1) else d, k - 1)
  {
    hide Pow2;
    var p, half := Pow2(SIZE_BITS - k), Pow2(k - 1);
    Pow2Add(k - 1, SIZE_BITS - k);
    Pow2Large();
    Pow2Twice(k - 1);
    Pow2Twice(SIZE_BITS - k);
    Pow2Twice(0);
    Pow2Zero();
    var x, h := d * p, half * p;
    assert h == 0x8000_0000_0000_0000;
    KeyHalves(d, half, p, h);
    assert Pow2(SIZE_BITS - (k - 1)) == 2 * p;
    KeyShift(d, half, p, x, h);
  }

  lemma Pow2Zero()
    ensures Pow2(0) == 1 && Pow2(1) == 2
  {
  }

  lemma {:induction false} MulOrder(a: nat, b: nat, p: nat)
    requires p > 0 && a < b
    ensures a * p + p <= b * p
    decreases b
  {
    assert b * p == (b - 1) * p + p;
    if a < b - 1 {
      MulOrder(a, b - 1, p);
    }
  }

  lemma KeyHalves(d: nat, half: nat, p: nat, h: nat)
    requires p > 0 && d < 2 * half && h == half * p == 0x8000_0000_0000_0000
    ensures d * p < 2 * h && (d >= half <==> d * p >= h)
    ensures TopBit(d * p) <==> d >= half
  {
    hide TopBit;
    MulOrder(d, 2 * half, p);
    assert (2 * half) * p == 2 * h;
    if d < half {
      MulOrder(d, half, p);
    } else if d > half {
      MulOrder(half, d, p);
    }
    TopBitRange(d * p);
  }

  lemma TopBitRange(x: nat)
    requires x < WORD
    ensures TopBit(x) <==> x >= 0x8000_0000_0000_0000
  {
  }

  lemma KeyShift(d: nat, half: nat, p: nat, x: nat, h: nat)
    requires x == d * p && h == half * p == 0x8000_0000_0000_0000 && x < 2 * h && (d >= half <==> x >= h)
    ensures (x * 2) % WORD == (if d >= half then d - half else d) * (2 * p)
  {
    if d >= half {
      assert (d - half) * (2 * p) == 2 * (d * p) - 2 * (half * p);
    } else {
      assert d * (2 * p) == 2 * (d * p);
    }
  }

  /** The first shift drops the prefix that all sizes of the bin share. */
  lemma KeyStart(s: nat)
    requires MIN_LARGE_SIZE <= s < SIZE_LIMIT
    ensures BinOf(s) < NTREEBINS && Low(BinOf(s)) <= s
    ensures Shl(s, LeftShift(BinOf(s))) == Key(s - Low(BinOf(s)), Bits(BinOf(s)))
  {
    hide Pow2, BinOf;
    BinInterval(s);
    var i := BinOf(s);
    var lo, k := Low(i), Bits(i);
    var p := Pow2(SIZE_BITS - k);
    Pow2Add(k, SIZE_BITS - k);
    Pow2Large();
    var c := LowMultiple(i);
    ScaleDown(s, lo, c, Pow2(k), p);
  }

  lemma ScaleDown(s: nat, lo: nat, c: nat, q: nat, p: nat)
    requires lo == c * q && p * q == WORD && lo <= s < lo + q
    ensures (s * p) % WORD == (s - lo) * p
  {
    var d := s - lo;
    assert s * p == d * p + c * q * p;
    assert c * q * p == c * WORD by {
      assert q * p == WORD;
      assert c * q * p == c * (q * p);
    }
    assert d * p <= (q - 1) * p;
    assert (q - 1) * p == WORD - p;
    ModPlus(d * p, c);
  }

  lemma ModPlus(x: nat, c: nat)
    requires x < WORD
    ensures (x + c * WORD) % WORD == x
  {
  }

  lemma LowMultiple(i: nat) returns (c: nat)
    requires i < NTREEBINS
    ensures Low(i) == c * Pow2(Bits(i))
  {
    hide Pow2;
    c := if i < NTREEBINS - 1 then 2 + i % 2 else 0;
    Pow2Twice(Bits(i));
  }
}

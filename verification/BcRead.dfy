/** The input side of LuaJIT's bytecode reader: a refill buffer over a reader callback, and
    ULEB128 numbers. */
module BcRead {

  type Byte = b: int | 0 <= b < 256

  const LJ_MAX_MEM: int := 0x7fffff00
  const WORD32: int := 0x1_0000_0000

  /** What the reader callback still delivers: no data or an empty block is the end. */
  function Stream(blocks: seq<seq<Byte>>): seq<Byte> {
    if blocks == [] || blocks[0] == [] then [] else blocks[0] + Stream(blocks[1..])
  }

  // ---------------------------------------------------------------- ULEB128

  function Uleb(v: nat): seq<Byte> {
    if v < 128 then [v] else [v % 128 + 128] + Uleb(v / 128)
  }

  /** The length of the number at the start of s: up to the first byte below 128. */
  function Extent(s: seq<Byte>): nat {
    if s == [] then 0 else if s[0] < 128 then 1 else 1 + Extent(s[1..])
  }

  /** Groups of seven bits, the lowest first. */
  function Value(s: seq<Byte>): nat {
    if s == [] then 0 else s[0] % 128 + 128 * Value(s[1..])
  }

  predicate Ended(s: seq<Byte>, most: nat) {
    exists k :: 0 <= k < |s| && k < most && s[k] < 128
  }

  lemma {:induction false} UlebRoundTrip(v: nat, t: seq<Byte>)
    ensures Extent(Uleb(v) + t) == |Uleb(v)| && Value(Uleb(v)) == v && Uleb(v)[|Uleb(v)| - 1] < 128
  {
    if v >= 128 {
      UlebRoundTrip(v / 128, t);
      assert (Uleb(v) + t)[1..] == Uleb(v / 128) + t && Uleb(v)[1..] == Uleb(v / 128);
    } else {
      assert Uleb(v)[1..] == [];
    }
  }

  /** A number below 2^35 takes at most five bytes. */
  lemma UlebShort(v: nat)
    requires v < 0x8_0000_0000
    ensures |Uleb(v)| <= 5
  {
    UlebStep(v);
    UlebStep(v / 128);
    UlebStep(v / 128 / 128);
    UlebStep(v / 128 / 128 / 128);
    UlebStep(v / 128 / 128 / 128 / 128);
  }

  lemma UlebStep(v: nat)
    ensures |Uleb(v)| == if v < 128 then 1 else 1 + |Uleb(v / 128)|
  {
  }

  lemma {:induction false} ExtentEnded(s: seq<Byte>, k: nat)
    requires k < |s| && s[k] < 128
    ensures 1 <= Extent(s) <= k + 1 && s[Extent(s) - 1] < 128 && forall j :: 0 <= j < Extent(s) - 1 ==> s[j] >= 128
  {
    if s[0] >= 128 {
      ExtentEnded(s[1..], k - 1);
    }
  }

  function Pow128(n: nat): nat { if n == 0 then 1 else 128 * Pow128(n - 1) }

  /** Appending a group of bits at the top. */
  lemma {:induction false} ValueSnoc(s: seq<Byte>, b: Byte)
    ensures Value(s + [b]) == Value(s) + Shifted(b, Pow128(|s|))
  {
    if s == [] {
      assert [b][1..] == [];
    } else {
      ValueSnoc(s[1..], b);
      assert (s + [b])[1..] == s[1..] + [b];
      var p := Pow128(|s| - 1);
      Scaled(b as int % 128, p);
    }
  }

  function Low32(x: nat): nat { x % WORD32 }

  /** The low seven bits of b put at the place of value m, above the bits of v. */
  function WithBits(v: nat, b: Byte, m: nat): nat { Low32(v + Shifted(b, m)) }

  function Shifted(b: Byte, m: nat): nat { b as int % 128 * m }

  lemma Scaled(x: nat, p: nat)
    ensures 128 * (x * p) == x * (128 * p)
  {
  }

  // ---------------------------------------------------------------- pieces of a sequence

  /** What the next call of the reader adds to the bytes that are left. */
  lemma StreamStep(a: seq<Byte>, blocks: seq<seq<Byte>>)
    ensures a + Stream(blocks) == if blocks == [] || blocks[0] == [] then a else (a + blocks[0]) + Stream(blocks[1..])
    ensures a + [] == a
  {
  }

  lemma Dropped(a: seq<Byte>, b: seq<Byte>, k: nat)
    requires k <= |a|
    ensures (a + b)[k..] == a[k..] + b
  {
  }

  /** A buffer whose bytes from `at` on are the first i bytes of s. */
  ghost function Copied(buf: seq<Byte>, at: nat, s: seq<Byte>, i: nat): seq<Byte>
    requires i <= |s| && at + i <= |buf|
  {
    buf[..at] + s[..i] + buf[at + i..]
  }

  lemma CopiedEnds(buf: seq<Byte>, at: nat, s: seq<Byte>)
    requires at + |s| <= |buf|
    ensures Copied(buf, at, s, 0) == buf && Copied(buf, at, s, |s|) == buf[..at] + s + buf[at + |s|..]
  {
  }

  lemma CopiedMore(buf: seq<Byte>, at: nat, s: seq<Byte>, i: nat)
    requires i < |s| && at + |s| <= |buf|
    ensures |Copied(buf, at, s, i)| == |buf|
    ensures Copied(buf, at, s, i)[at + i := s[i]] == Copied(buf, at, s, i + 1)
  {
  }


  class LexState {
    var sb: array<Byte>              // the buffer for what a number or a block needs in one piece
    var sbn: nat                     // bytes in it
    var block: seq<Byte>             // the latest block of the reader
    var p: nat                       // the read position, in the buffer or in the block
    var n: nat                       // bytes left there
    var inBuffer: bool
    var current: int                 // negative after the end of the data
    var blocks: seq<seq<Byte>>       // what the reader callback will deliver

    ghost predicate Valid()
      reads this, sb
    {
      && sb.Length > 0 && sbn <= sb.Length
      && (n > 0 && sbn > 0 ==> inBuffer && p + n == sbn)
      && (n > 0 && sbn == 0 ==> !inBuffer && p + n == |block|)
    }

    /** The bytes that can be read without a refill. */
    ghost function Unread(): (s: seq<Byte>)
      requires Valid()
      reads this, sb
      ensures |s| == n
    {
      if n == 0 then [] else if sbn > 0 then sb[p..p + n] else block[p..p + n]
    }

    /** All bytes still to come, in whatever blocks. */
    ghost function Flat(): seq<Byte>
      requires Valid()
      reads this, sb
    {
      Unread() + if current < 0 then [] else Stream(blocks)
    }

    constructor (blocks: seq<seq<Byte>>)
      ensures Valid() && Flat() == Stream(blocks) && current == 0 && fresh(sb)
    {
      sb := new Byte[32];
      sbn, block, p, n, inBuffer, current := 0, [], 0, 0, false, 0;
      this.blocks := blocks;
    }

    /** bcread_resize */
    method Resize(len: nat)
      requires sb.Length > 0
      modifies this`sb
      ensures sb.Length >= len && sb.Length >= old(sb.Length) && (sb == old(sb) || fresh(sb))
      ensures sb[..old(sb.Length)] == old(sb[..])
    {
      if sb.Length < len {
        var sz := sb.Length * 2;
        while len > sz
          invariant sz > sb.Length
        {
          sz := sz * 2;
        }
        var from, a := sb, new Byte[sz];
        for i := 0 to from.Length
          invariant a[..i] == from[..i]
        {
          a[i] := from[i];
        }
        assert from[..from.Length] == from[..];
        sb := a;
      }
    }

    /** memcpy into the buffer. */
    method Copy(at: nat, s: seq<Byte>)
      requires at + |s| <= sb.Length
      modifies sb
      ensures sb[..] == old(sb[..at]) + s + old(sb[at + |s|..])
    {
      hide Copied;
      CopiedEnds(sb[..], at, s);
      for i := 0 to |s|
        invariant sb[..] == Copied(old(sb[..]), at, s, i)
      {
        CopiedMore(old(sb[..]), at, s, i);
        sb[at + i] := s[i];
      }
    }

    /** memmove to the start of the buffer, front to back. */
    method MoveDown(from: nat, len: nat)
      requires from + len <= sb.Length
      modifies sb
      ensures sb[..len] == old(sb[from..from + len])
    {
      for i := 0 to len
        invariant forall k :: 0 <= k < i ==> sb[k] == old(sb[from + k])
        invariant forall k :: i <= k < sb.Length ==> sb[k] == old(sb[k])
      {
        sb[i] := sb[from + i];
      }
      assert forall k :: 0 <= k < len ==> sb[..len][k] == old(sb[from + k]) == old(sb[from..from + len])[k];
    }

    // -------------------------------------------------------------- refilling

    /** What is left of the latest block, or of the buffer, goes to the start of the buffer. */
    method Gather(len: nat)
      requires Valid() && n < len
      modifies this`sb, this`sbn, this`p, this`inBuffer, sb
      ensures Valid() && (sb == old(sb) || fresh(sb)) && sbn == n && Unread() == old(Unread())
    {
      hide Stream;
      if n > 0 {
        ghost var left := Unread();
        if sbn > 0 {  // move down in buffer
          if n != sbn {
            MoveDown(p, n);
          }
          assert sb[..n] == left;
        } else {      // copy from buffer provided by reader
          Resize(len);
          Copy(0, block[p..p + n]);
          assert sb[..n] == sb[..][..n] == left;
          inBuffer := true;
        }
        p := 0;
        assert sb[0..n] == sb[..n];
      }
      sbn := n;
    }

    /** The next block of the reader goes behind what is in the buffer, or is used in place. */
    method Take(len: nat, data: seq<Byte>)
      requires Valid() && sbn == n && data != []
      modifies this`sb, this`sbn, this`p, this`n, this`block, this`inBuffer, sb
      ensures Valid() && (sb == old(sb) || fresh(sb)) && Unread() == old(Unread()) + data
    {
      if sbn > 0 {  // append to buffer
        var m := sbn + |data|;
        Resize(if m < len then len else m);
        Copy(sbn, data);
        n, sbn := m, m;
        p := 0;
      } else {      // return buffer provided by reader
        n, p, block, inBuffer := |data|, 0, data, false;
      }
    }

    /** One call of the reader; false at the end of the data. */
    method Read(len: nat) returns (more: bool)
      requires Valid() && n < len && current >= 0
      modifies this, sb
      ensures Valid() && (sb == old(sb) || fresh(sb)) && current == old(current)
      ensures more ==> |blocks| < old(|blocks|) && Flat() == old(Flat())
      ensures !more ==> Unread() == old(Unread()) == old(Flat())
    {
      hide Stream;
      StreamStep(Unread(), blocks);
      Gather(len);
      if blocks == [] || blocks[0] == [] {  // EOF?
        if blocks != [] {
          blocks := blocks[1..];
        }
        return false;
      }
      var data := blocks[0];
      blocks := blocks[1..];
      Take(len, data);
      more := true;
    }

    /** Only bad if more is asked for. */
    method Finish()
      requires Valid()
      modifies this`current
      ensures Valid() && current == -1 && Unread() == old(Unread()) == Flat()
    {
      current := -1;
    }

    lemma Counts()
      requires Valid()
      ensures |Unread()| == n <= |Flat()|
    {
    }

    /** Refill the buffer until it holds len bytes. However the reader has cut its data into
        blocks, the bytes still to come stay the same; it fails if and only if too much is asked
        for, the end has been passed, or bytes that are needed are not there. */
    method Fill(len: nat, need: bool) returns (ok: bool)
      requires Valid() && n < len
      modifies this, sb
      ensures ok <==> len <= LJ_MAX_MEM && old(current) >= 0 && (need ==> len <= |old(Flat())|)
      ensures ok ==> Valid() && (sb == old(sb) || fresh(sb)) && Flat() == old(Flat())
      ensures ok ==> n >= len || (!need && Unread() == old(Flat()) && current < 0)
    {
      hide Unread, Stream;
      if len > LJ_MAX_MEM || current < 0 {
        return false;
      }
      var more := true;
      while more && n < len
        invariant Valid() && (sb == old(sb) || fresh(sb)) && (more ==> current == old(current) && Flat() == old(Flat()))
        invariant !more ==> !need && Unread() == old(Flat()) == Flat() && current < 0
        decreases more, |blocks|
      {
        more := Read(len);
        Counts();
        if !more {
          if need {
            return false;
          }
          Finish();
        }
      }
      Counts();
      ok := true;
    }

    /** bcread_need */
    method Need(len: nat) returns (ok: bool)
      requires Valid()
      modifies this, sb
      ensures ok <==> old(n) >= len || (len <= LJ_MAX_MEM && old(current) >= 0 && len <= |old(Flat())|)
      ensures ok ==> Valid() && (sb == old(sb) || fresh(sb)) && Flat() == old(Flat()) && n >= len
    {
      ok := true;
      if n < len {
        ok := Fill(len, true);
      }
    }

    /** bcread_want */
    method Want(len: nat) returns (ok: bool)
      requires Valid()
      modifies this, sb
      ensures ok <==> old(n) >= len || (len <= LJ_MAX_MEM && old(current) >= 0)
      ensures ok ==> Valid() && (sb == old(sb) || fresh(sb)) && Flat() == old(Flat())
      ensures ok ==> n >= len || (Unread() == Flat() && current < 0)
    {
      ok := true;
      if n < len {
        ok := Fill(len, false);
      }
    }

    // -------------------------------------------------------------- reading

    /** The byte k places after the read position. */
    function At(k: nat): (b: Byte)
      requires Valid() && k < n
      reads this, sb
      ensures b == Unread()[k]
    {
      if sbn > 0 then sb[p + k] else block[p + k]
    }

    /** bcread_consume and the move of the read position. */
    method Consume(len: nat)
      requires Valid() && len <= n
      modifies this`p, this`n
      ensures Valid() && n == old(n) - len && Unread() == old(Unread())[len..] && Flat() == old(Flat())[len..]
    {
      hide Stream;
      Dropped(Unread(), if current < 0 then [] else Stream(blocks), len);
      p, n := p + len, n - len;
    }

    /** bcread_mem: a block from the buffer. */
    method Mem(len: nat) returns (r: seq<Byte>)
      requires Valid() && len <= n
      modifies this`p, this`n
      ensures r == old(Flat())[..len] && Valid() && Flat() == old(Flat())[len..] && n == old(n) - len
    {
      r := if sbn > 0 && n > 0 then sb[p..p + len] else if n > 0 then block[p..p + len] else [];
      Consume(len);
    }

    method ReadByte() returns (b: Byte)
      requires Valid() && n > 0
      modifies this`p, this`n
      ensures b == old(Flat())[0] && Valid() && Flat() == old(Flat())[1..] && n == old(n) - 1
    {
      b := At(0);
      Consume(1);
    }

    /** bcread_uleb128, in 32 bit arithmetic; the number has at most five bytes. */
    method ReadUleb() returns (v: nat)
      requires Valid() && Ended(Unread(), 5)
      modifies this`p, this`n
      ensures var e := Extent(old(Unread()));
              e <= old(n) && v == Low32(Value(old(Unread())[..e])) && Valid() && Flat() == old(Flat())[e..]
                && n == old(n) - e
    {
      hide Value, Extent, Unread, Stream, Pow128, Ended, WithBits, Low32;
      ghost var s := Unread();
      Counts();
      EndedSome(s);
      var b, k := At(0), 1;
      v := b;
      GroupFirst(s);
      if b >= 0x80 {
        v := v % 0x80;
        var m: nat := 0x80;  // 1 << sh
        PowerFirst();
        while b >= 0x80
          modifies {}
          invariant Valid() && 1 <= k <= n == |s| && s == Unread() && b == s[k - 1] && m == Pow128(k)
          invariant forall j :: 0 <= j < k - 1 ==> s[j] >= 128
          invariant v == Low32(Value(s[..k]))
          decreases n - k + if b >= 0x80 then 1 else 0
        {
          GoesOn(s, k);
          b := At(k);
          WholeNext(s, k, m);
          v := WithBits(v, b, m);
          m, k := m * 128, k + 1;
        }
      }
      GroupEnds(s, k);
      Consume(k);
    }

    /** bcread_uleb128_33: the top 32 bits of a 33 bit number. */
    method ReadUleb33() returns (v: nat)
      requires Valid() && Ended(Unread(), 5)
      modifies this`p, this`n
      ensures var e := Extent(old(Unread()));
              e <= old(n) && v == Low32(Value(old(Unread())[..e]) / 2) && Valid() && Flat() == old(Flat())[e..]
                && n == old(n) - e
    {
      hide Value, Extent, Unread, Stream, Pow128, Ended, WithBits, Low32;
      ghost var s := Unread();
      Counts();
      EndedSome(s);
      var b, k := At(0), 1;
      v := b / 2;
      GroupFirst(s);
      HalfFirst(s);
      if v >= 0x40 {
        v := v % 0x40;
        var m: nat := 0x40;  // 1 << sh
        PowerFirst();
        while b >= 0x80
          modifies {}
          invariant Valid() && 1 <= k <= n == |s| && s == Unread() && b == s[k - 1] && 2 * m == Pow128(k)
          invariant forall j :: 0 <= j < k - 1 ==> s[j] >= 128
          invariant v == Low32(Value(s[..k]) / 2)
          decreases n - k + if b >= 0x80 then 1 else 0
        {
          GoesOn(s, k);
          b := At(k);
          HalfNext(s, k, m);
          v := WithBits(v, b, m);
          m, k := m * 128, k + 1;
        }
      }
      GroupEnds(s, k);
      Consume(k);
    }

    /** A number as bcread_proto reads it, after asking for five bytes: its value and what comes
        after it depend on the bytes of the stream alone. */
    method NextNumber() returns (v: nat, ok: bool)
      requires Valid() && Ended(Flat(), 5)
      modifies this, sb
      ensures ok <==> old(n) >= 5 || old(current) >= 0
      ensures ok ==>
                var e := Extent(old(Flat()));
                && e <= |old(Flat())| && v == Low32(Value(old(Flat())[..e]))
                && Valid() && (sb == old(sb) || fresh(sb)) && Flat() == old(Flat())[e..]
    {
      hide Value, Extent, Unread, Stream, Low32, Ended;
      ghost var flat := Flat();
      v := 0;
      ok := Want(5);
      if ok {
        Counts();
        FlatStarts();
        SamePrefix(Unread(), flat);
        v := ReadUleb();
      }
    }

    lemma AtEnd()
      requires Valid()
      ensures current < 0 ==> |Flat()| == n
    {
    }

    lemma FlatStarts()
      requires Valid()
      ensures Unread() <= Flat()
    {
    }

    /** A block behind its length, as the chunk name is stored: what is returned and what comes
        after it depend on the bytes of the stream alone. */
    method NextBlock() returns (r: seq<Byte>, ok: bool)
      requires Valid() && current >= 0 && Ended(Flat(), 5)
      modifies this, sb
      ensures ok ==> Valid() && (sb == old(sb) || fresh(sb))
      ensures ok ==> |r| == BlockLength(old(Flat())) && old(Flat()) == LengthBytes(old(Flat())) + r + Flat()
      ensures !ok ==>
                || BlockLength(old(Flat())) > LJ_MAX_MEM
                || |LengthBytes(old(Flat()))| + BlockLength(old(Flat())) > |old(Flat())|
    {
      hide Value, Extent, Unread, Stream, Low32, Ended;
      ghost var flat := Flat();
      var len;
      len, ok := NextNumber();
      r := [];
      Counts();
      AtEnd();
      Slices(flat, len);
      ok := Need(len);
      if ok {
        Counts();
        r := Mem(len);
      }
    }
  }

  /** The bytes of the number at the start of s. */
  function LengthBytes(s: seq<Byte>): seq<Byte> {
    if Extent(s) <= |s| then s[..Extent(s)] else []
  }

  function BlockLength(s: seq<Byte>): nat { Low32(Value(LengthBytes(s))) }

  lemma Slices(s: seq<Byte>, len: nat)
    ensures var e := Extent(s);
            e <= |s| ==>
              && |LengthBytes(s)| == e && LengthBytes(s) == s[..e]
              && (e + len <= |s| ==> s == LengthBytes(s) + s[e..][..len] + s[e..][len..])
  {
    var e := Extent(s);
    assert e <= |s| ==> s == s[..e] + s[e..];
    assert e + len <= |s| ==> s[e..] == s[e..][..len] + s[e..][len..];
  }

  lemma SamePrefix(s: seq<Byte>, flat: seq<Byte>)
    requires s <= flat && Ended(flat, 5) && (|s| >= 5 || s == flat)
    ensures Ended(s, 5) && Extent(s) == Extent(flat) <= |s| && s[..Extent(s)] == flat[..Extent(flat)]
  {
    hide Extent;
    var k :| 0 <= k < |flat| && k < 5 && flat[k] < 128;
    assert s[k] < 128;
    ExtentEnded(s, k);
    ExtentEnded(flat, k);
    ExtentOnly(s, flat);
  }

  lemma {:induction false} ExtentOnly(s: seq<Byte>, flat: seq<Byte>)
    requires s <= flat && Extent(s) >= 1 && Extent(s) <= |s| && s[Extent(s) - 1] < 128
    ensures Extent(s) == Extent(flat)
  {
    if s[0] >= 128 {
      ExtentOnly(s[1..], flat[1..]);
    }
  }

  lemma EndedSome(s: seq<Byte>)
    requires Ended(s, 5)
    ensures s != []
  {
  }

  lemma GroupFirst(s: seq<Byte>)
    requires s != []
    ensures Value(s[..1]) == s[0] % 128 && Pow128(0) == 1 && Low32(Value(s[..1])) == s[0] % 128
  {
    assert s[..1][0] == s[0] && s[..1][1..] == [];
  }

  lemma GoesOn(s: seq<Byte>, k: nat)
    requires Ended(s, 5) && 1 <= k <= |s| && forall j :: 0 <= j < k ==> s[j] >= 128
    ensures k < |s| && k < 5
  {
  }

  lemma GroupNext(s: seq<Byte>, k: nat)
    requires 1 <= k < |s|
    ensures Value(s[..k + 1]) == Value(s[..k]) + Shifted(s[k], Pow128(k)) && Pow128(k + 1) == Pow128(k) * 128
  {
    assert s[..k + 1] == s[..k] + [s[k]];
    ValueSnoc(s[..k], s[k]);
  }

  lemma PowerFirst()
    ensures Pow128(1) == 128
  {
    assert Pow128(0) == 1;
  }

  lemma WithLow(v: nat, b: Byte, m: nat)
    ensures WithBits(Low32(v), b, m) == Low32(v + Shifted(b, m))
  {
    hide Shifted;
    ModSum(v, Shifted(b, m));
  }

  lemma WholeNext(s: seq<Byte>, k: nat, m: nat)
    requires 1 <= k < |s| && m == Pow128(k)
    ensures m * 128 == Pow128(k + 1)
    ensures WithBits(Low32(Value(s[..k])), s[k], m) == Low32(Value(s[..k + 1]))
  {
    hide Value, Low32, WithBits, Shifted;
    GroupNext(s, k);
    WithLow(Value(s[..k]), s[k], m);
  }

  lemma HalfNext(s: seq<Byte>, k: nat, m: nat)
    requires 1 <= k < |s| && 2 * m == Pow128(k)
    ensures 2 * (m * 128) == Pow128(k + 1)
    ensures WithBits(Low32(Value(s[..k]) / 2), s[k], m) == Low32(Value(s[..k + 1]) / 2)
  {
    hide Value, Low32, WithBits, Shifted;
    GroupNext(s, k);
    HalfShifted(Value(s[..k]), s[k], m);
    WithLow(Value(s[..k]) / 2, s[k], m);
  }

  lemma HalfShifted(a: nat, b: Byte, m: nat)
    ensures (a + Shifted(b, 2 * m)) / 2 == a / 2 + Shifted(b, m)
  {
    Doubled(b as int % 128, m);
    Halved(a, Shifted(b, m));
  }

  lemma Doubled(x: nat, m: nat)
    ensures x * (2 * m) == 2 * (x * m)
  {
  }

  lemma Halved(a: nat, c: nat)
    ensures (a + 2 * c) / 2 == a / 2 + c
  {
  }

  lemma HalfByte(b: Byte)
    ensures Low32(b as int % 128 / 2) == b as int / 2 % 0x40
    ensures b as int / 2 >= 0x40 <==> b >= 0x80
  {
  }

  lemma HalfFirst(s: seq<Byte>)
    requires s != []
    ensures Low32(Value(s[..1]) / 2) == s[0] as int / 2 % 0x40
    ensures s[0] as int / 2 >= 0x40 <==> s[0] >= 0x80
  {
    hide Value, Low32;
    GroupFirst(s);
    HalfByte(s[0]);
  }

  lemma GroupEnds(s: seq<Byte>, k: nat)
    requires 1 <= k <= |s| && s[k - 1] < 128 && forall j :: 0 <= j < k - 1 ==> s[j] >= 128
    ensures Extent(s) == k
  {
    ExtentEnded(s, k - 1);
  }

  lemma ModSum(a: nat, b: nat)
    ensures (a % WORD32 + b) % WORD32 == (a + b) % WORD32
  {
    ModDrop(a / WORD32, a % WORD32 + b);
    assert a + b == WORD32 * (a / WORD32) + (a % WORD32 + b);
  }

  lemma ModDrop(q: nat, r: nat)
    ensures (WORD32 * q + r) % WORD32 == r % WORD32
  {
  }

  // ---------------------------------------------------------------- the writer

  /** bcwrite_uleb128 */
  method WriteUleb(v0: nat) returns (out: seq<Byte>)
    ensures out == Uleb(v0)
  {
    var v := v0;
    out := [];
    while v >= 0x80
      invariant out + Uleb(v) == Uleb(v0)
    {
      assert out + ([v % 128 + 128] + Uleb(v / 128)) == (out + [v % 128 + 128]) + Uleb(v / 128);
      out := out + [v % 128 + 128];
      v := v / 128;
    }
    out := out + [v];
  }

  /** Twice k in 32 bits, with bit 31 forced to that of k. */
  function Forced(k: nat): nat {
    var low := 2 * k % WORD32;
    if k >= 0x8000_0000 && low < 0x8000_0000 then low + 0x8000_0000 else low
  }

  /** A 33 bit number, as bcwrite_knum writes it: the low 32 bits with bit 31 forced, so that
      five bytes are written, and the last byte patched to hold bits 28 to 32. */
  method WriteUleb33(k: nat, lsb: nat) returns (out: seq<Byte>)
    requires k < WORD32 && lsb <= 1
    ensures out == Uleb(2 * k + lsb)
  {
    hide Uleb, Forced;
    out := WriteUleb(Forced(k) + lsb);
    if k >= 0x8000_0000 {
      Patched(k, lsb);
      out := out[|out| - 1 := out[|out| - 1] % 8 + k / 0x4000_0000 * 8];
    } else {
      NotForced(k);
    }
  }

  lemma NotForced(k: nat)
    requires k < 0x8000_0000
    ensures Forced(k) == 2 * k
  {
  }

  lemma UlebFive(v: nat)
    requires 0x1000_0000 <= v < 0x8_0000_0000
    ensures Uleb(v) == [v % 128 + 128, v / 128 % 128 + 128, v / 0x4000 % 128 + 128, v / 0x20_0000 % 128 + 128,
                        v / 0x1000_0000]
  {
    var a := v / 128;
    var b := a / 128;
    var c := b / 128;
    var d := c / 128;
    assert b == v / 0x4000 && c == v / 0x20_0000 && d == v / 0x1000_0000;
    UlebOne(v);
    UlebOne(a);
    UlebOne(b);
    UlebOne(c);
    UlebOne(d);
  }

  lemma UlebOne(v: nat)
    ensures Uleb(v) == if v < 128 then [v] else [v % 128 + 128] + Uleb(v / 128)
  {
  }

  /** Multiples of 2^28 only show in the fifth byte. */
  lemma HighBits(l: nat, c: nat)
    ensures var v := l + c * 0x1000_0000;
            && v % 128 == l % 128 && v / 128 % 128 == l / 128 % 128 && v / 0x4000 % 128 == l / 0x4000 % 128
            && v / 0x20_0000 % 128 == l / 0x20_0000 % 128 && v / 0x1000_0000 == l / 0x1000_0000 + c
  {
    LowDigit(l, c * 0x20_0000, 1, c * 0x1000_0000);
    LowDigit(l, c * 0x4000, 128, c * 0x1000_0000);
    LowDigit(l, c * 128, 0x4000, c * 0x1000_0000);
    LowDigit(l, c, 0x20_0000, c * 0x1000_0000);
    HighDigit(l, c, 0x1000_0000);
  }

  lemma LowDigit(l: nat, q: nat, m: nat, x: nat)
    requires m > 0 && x == 128 * q * m
    ensures (l + x) / m % 128 == l / m % 128
  {
    HighDigit(l, 128 * q, m);
    Remainder(l / m, q);
  }

  lemma HighDigit(l: nat, q: nat, m: nat)
    requires m > 0
    ensures (l + q * m) / m == l / m + q
  {
    var a, r := l / m, l % m;
    DivMod(l, m);
    Distributed(a, q, m);
    Quotient(a + q, r, m);
  }

  lemma Distributed(a: nat, b: nat, m: nat)
    ensures (a + b) * m == a * m + b * m
  {
  }

  lemma Quotient(a: nat, r: nat, m: nat)
    requires r < m
    ensures (a * m + r) / m == a
  {
    DivMod(a * m + r, m);
    Times((a * m + r) / m, a, (a * m + r) % m, r, m);
  }

  lemma DivMod(x: nat, m: nat)
    requires m > 0
    ensures x == x / m * m + x % m && x % m < m
  {
  }

  /** Quotient and remainder are unique. */
  lemma Times(x: nat, a: nat, rem: nat, r: nat, m: nat)
    requires x * m + rem == a * m + r && rem < m && r < m
    ensures x == a
  {
    var d, f := x - a, a - x;
    assert d * m == x * m - a * m && f * m == a * m - x * m;
    assert d >= 1 ==> d * m >= m;
    assert f >= 1 ==> f * m >= m;
  }

  lemma Remainder(a: nat, b: nat)
    ensures (a + 128 * b) % 128 == a % 128
  {
  }

  /** The number written has bit 31 forced; the true one has bits 31 and 32 of twice k. */
  lemma ForcedBits(k: nat, lsb: nat) returns (l: nat)
    requires 0x8000_0000 <= k < WORD32 && lsb <= 1
    ensures l < 0x8000_0000 && 2 * k + lsb == l + k / 0x4000_0000 * 0x8000_0000
    ensures Forced(k) + lsb == l + 0x8000_0000
  {
    l := 2 * (k % 0x4000_0000) + lsb;
  }

  lemma Patched(k: nat, lsb: nat)
    requires 0x8000_0000 <= k < WORD32 && lsb <= 1
    ensures var w := Uleb(Forced(k) + lsb);
            |w| == 5 && w[4] % 8 + k / 0x4000_0000 * 8 < 256
              && Uleb(2 * k + lsb) == w[4 := w[4] % 8 + k / 0x4000_0000 * 8]
  {
    hide Uleb, Forced;
    var l := ForcedBits(k, lsb);
    var top := k / 0x4000_0000;
    assert Forced(k) + lsb == l + 8 * 0x1000_0000 && 2 * k + lsb == l + (8 * top) * 0x1000_0000;
    HighBits(l, 8);
    HighBits(l, 8 * top);
    UlebFive(Forced(k) + lsb);
    UlebFive(2 * k + lsb);
    assert l / 0x1000_0000 < 8 && (l / 0x1000_0000 + 8) % 8 == l / 0x1000_0000;
  }

  // ---------------------------------------------------------------- round trips

  /** What the writer has put in front of t is read back, and t is left, in whatever blocks the
      bytes arrive. */
  lemma NumberRoundTrip(v: nat, t: seq<Byte>)
    requires v < WORD32
    ensures var s := Uleb(v) + t;
            && Ended(s, 5) && Extent(s) <= |s| && Low32(Value(s[..Extent(s)])) == v && s[Extent(s)..] == t
  {
    UlebRoundTrip(v, t);
    UlebShort(v);
    var s := Uleb(v) + t;
    assert s[..|Uleb(v)|] == Uleb(v) && s[|Uleb(v)|..] == t;
    assert s[|Uleb(v)| - 1] < 128;
  }

  /** Half of a number and its lowest bit. */
  lemma HalfAndBit(k: nat, lsb: nat, v: nat)
    requires k < WORD32 && lsb <= 1 && v == 2 * k + lsb
    ensures Low32(v / 2) == k && v % 2 == lsb && v % 128 % 2 == lsb && (v % 128 + 128) % 2 == lsb
  {
    assert v / 2 == k && Low32(k) == k;
    var q, r := v / 128, v % 128;
    assert v == 128 * q + r;
    assert r == 2 * (k - 64 * q) + lsb;
  }

  lemma Number33RoundTrip(k: nat, lsb: nat, t: seq<Byte>)
    requires k < WORD32 && lsb <= 1
    ensures var s := Uleb(2 * k + lsb) + t;
            && Ended(s, 5) && Extent(s) <= |s| && Low32(Value(s[..Extent(s)]) / 2) == k && s[Extent(s)..] == t
            && s[0] % 2 == lsb
  {
    hide Uleb, Value, Extent, Low32;
    var v := 2 * k + lsb;
    HalfAndBit(k, lsb, v);
    UlebRoundTrip(v, t);
    UlebShort(v);
    UlebOne(v);
    var s := Uleb(v) + t;
    assert s[..|Uleb(v)|] == Uleb(v) && s[|Uleb(v)|..] == t;
    assert s[|Uleb(v)| - 1] < 128;
  }
}

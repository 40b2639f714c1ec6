/** C strings in the SQLite shell: writing them quoted, splitting a line into arguments, and
    resolving backslashes in place. */
module CString {

  type Byte = b: int | 0 <= b < 256

  const BACKSLASH: Byte := 92
  const QUOTE: Byte := 34
  const APOSTROPHE: Byte := 39
  const MAX_ARGS: nat := 50

  predicate IsPrint(c: Byte) { 32 <= c <= 126 }
  predicate IsSpace(c: Byte) { 9 <= c <= 13 || c == 32 }
  predicate IsOctal(c: Byte) { 48 <= c <= 55 }

  // ---------------------------------------------------------------- writing

  /** How output_c_string writes one byte. */
  function Escape(c: Byte): seq<Byte> {
    if c == BACKSLASH then [BACKSLASH, BACKSLASH]
    else if c == QUOTE then [BACKSLASH, QUOTE]
    else if c == 9 then [BACKSLASH, 116]
    else if c == 10 then [BACKSLASH, 110]
    else if c == 13 then [BACKSLASH, 114]
    else if !IsPrint(c) then [BACKSLASH, 48 + c / 64, 48 + c / 8 % 8, 48 + c % 8]
    else [c]
  }

  function Escaped(z: seq<Byte>): seq<Byte> {
    if z == [] then [] else Escape(z[0]) + Escaped(z[1..])
  }

  function Quoted(z: seq<Byte>): seq<Byte> { [QUOTE] + Escaped(z) + [QUOTE] }

  method OutputCString(z: seq<Byte>) returns (out: seq<Byte>)
    ensures out == Quoted(z)
  {
    out := [QUOTE];
    for i := 0 to |z|
      invariant out + Escaped(z[i..]) == [QUOTE] + Escaped(z)
    {
      var c := z[i];
      assert z[i..][0] == c && z[i..][1..] == z[i + 1..];
      assert (out + Escape(c)) + Escaped(z[i + 1..]) == out + (Escape(c) + Escaped(z[i + 1..]));
      if c == BACKSLASH {
        out := out + [c, c];
      } else if c == QUOTE {
        out := out + [BACKSLASH, QUOTE];
      } else if c == 9 {
        out := out + [BACKSLASH, 116];
      } else if c == 10 {
        out := out + [BACKSLASH, 110];
      } else if c == 13 {
        out := out + [BACKSLASH, 114];
      } else if !IsPrint(c) {
        out := out + [BACKSLASH, 48 + c / 64, 48 + c / 8 % 8, 48 + c % 8];
      } else {
        out := out + [c];
      }
    }
    assert z[|z|..] == [];
    out := out + [QUOTE];
  }

  // ---------------------------------------------------------------- resolving backslashes

  function Named(c: Byte): Byte {
    if c == 97 then 7 else if c == 98 then 8 else if c == 116 then 9 else if c == 110 then 10
    else if c == 118 then 11 else if c == 102 then 12 else if c == 114 then 13 else c
  }

  /** How many octal digits, up to three, s starts with. */
  function OctalLength(s: seq<Byte>): (n: nat)
    ensures n <= 3 && n <= |s|
  {
    if s == [] || !IsOctal(s[0]) then 0
    else if |s| == 1 || !IsOctal(s[1]) then 1
    else if |s| == 2 || !IsOctal(s[2]) then 2
    else 3
  }

  /** The value of the first n octal digits of s. */
  function Octal(s: seq<Byte>, n: nat): nat
    requires n <= OctalLength(s)
  {
    if n == 0 then 0 else Octal(s, n - 1) * 8 + s[n - 1] - 48
  }

  /** The byte that a backslash and what follows it stand for, and how many bytes they take. */
  function EscapeAt(s: seq<Byte>): (r: (Byte, nat))
    requires |s| > 1
    ensures 1 < r.1 <= |s|
  {
    var n := OctalLength(s[1..]);
    if n > 0 then (Octal(s[1..], n) % 256, 1 + n) else (Named(s[1]), 2)
  }

  function Resolve(s: seq<Byte>): (r: seq<Byte>)
    ensures |r| <= |s|
  {
    if s == [] then []
    else if s[0] == BACKSLASH && |s| > 1 then [EscapeAt(s).0] + Resolve(s[EscapeAt(s).1..])
    else [s[0]] + Resolve(s[1..])
  }

  lemma OctalThree(c: Byte, t: seq<Byte>)
    ensures var d := [48 + c / 64, 48 + c / 8 % 8, 48 + c % 8] + t;
            OctalLength(d) == 3 && Octal(d, 3) == c
  {
    var d: seq<Byte> := [48 + c / 64, 48 + c / 8 % 8, 48 + c % 8] + t;
    assert Octal(d, 0) == 0;
    assert Octal(d, 1) == c / 64;
    assert Octal(d, 2) == c / 64 * 8 + c / 8 % 8;
  }

  lemma ResolveStep(s: seq<Byte>, n: nat, c: Byte)
    requires |s| > 1 && s[0] == BACKSLASH && EscapeAt(s) == (c, n)
    ensures Resolve(s) == [c] + Resolve(s[n..])
  {
  }

  lemma Tail(a: seq<Byte>, t: seq<Byte>, k: nat)
    requires k <= |a|
    ensures (a + t)[k..] == a[k..] + t
  {
  }

  lemma ResolveOne(c: Byte, t: seq<Byte>)
    ensures Resolve(Escape(c) + t) == [c] + Resolve(t)
  {
    hide Octal, OctalLength, Resolve;
    var e := Escape(c);
    Tail(e, t, 1);
    Tail(e, t, |e|);
    assert e[|e|..] + t == t;
    if |e| == 4 {
      OctalThree(c, t);
      assert e[1..] == [48 + c / 64, 48 + c / 8 % 8, 48 + c % 8];
      ResolveStep(e + t, 4, c);
    } else if |e| == 2 {
      NamedBack(c, t);
      assert e[1..] == [e[1]];
      ResolveStep(e + t, 2, c);
    } else {
      ResolvePlain(e + t);
    }
  }

  lemma NamedBack(c: Byte, t: seq<Byte>)
    requires |Escape(c)| == 2
    ensures Named(Escape(c)[1]) == c && OctalLength([Escape(c)[1]] + t) == 0
  {
  }

  lemma ResolvePlain(s: seq<Byte>)
    requires s != [] && s[0] != BACKSLASH
    ensures Resolve(s) == [s[0]] + Resolve(s[1..])
  {
  }

  /** Resolving what was written gives the original back. */
  lemma {:induction false} ResolveEscaped(z: seq<Byte>)
    ensures Resolve(Escaped(z)) == z
  {
    if z != [] {
      ResolveEscaped(z[1..]);
      ResolveOne(z[0], Escaped(z[1..]));
    }
  }

  // ---------------------------------------------------------------- resolving in place

  /** The bytes from a up to e, and a terminating zero. */
  ghost predicate Holds(z: array<Byte>, a: int, e: int, t: seq<Byte>)
    reads z
  {
    0 <= a <= e < z.Length && z[a..e] == t && z[e] == 0
  }

  /** resolve_backslashes, on the text from a up to its terminating zero at e. */
  method ResolveBackslashes(z: array<Byte>, a: nat, e: nat)
    requires a <= e < z.Length && z[e] == 0 && 0 !in z[a..e]
    modifies z
    ensures var r := Resolve(old(z[a..e])); Holds(z, a, a + |r|, r)
    ensures forall k :: 0 <= k < a || e <= k < z.Length ==> z[k] == old(z[k])
  {
    hide Resolve;
    var p := FirstBackslash(z, a, e);
    ghost var front := z[a..p];
    NoZero(z, a, p, e);
    var j := Compact(z, p, e);
    assert z[a..p] == front;
    assert z[a..j] == z[a..p] + z[p..j];
  }

  lemma NoZero(z: array<Byte>, a: nat, p: nat, e: nat)
    requires a <= p <= e < z.Length && 0 !in z[a..e]
    ensures 0 !in z[p..e]
  {
    assert z[p..e] == z[a..e][p - a..];
  }

  /** Nothing changes in front of the first backslash. */
  method FirstBackslash(z: array<Byte>, a: nat, e: nat) returns (p: nat)
    requires a <= e < z.Length && z[e] == 0
    ensures a <= p <= e && Resolve(z[a..e]) == z[a..p] + Resolve(z[p..e])
  {
    hide Resolve;
    p := a;
    assert z[a..a] == [];
    while z[p] != 0 && z[p] != BACKSLASH
      invariant a <= p <= e
      invariant Resolve(z[a..e]) == z[a..p] + Resolve(z[p..e])
      decreases e - p
    {
      ghost var s := z[p..e];
      assert p < e && s[0] == z[p] && s[1..] == z[p + 1..e];
      ResolvePlain(s);
      assert z[a..p + 1] == z[a..p] + [z[p]];
      p := p + 1;
    }
  }

  /** The rewriting loop. The write position never passes the read position, so that what is
      still to be read is as it was. */
  method Compact(z: array<Byte>, p: nat, e: nat) returns (j: nat)
    requires p <= e < z.Length && z[e] == 0 && 0 !in z[p..e]
    modifies z
    ensures p <= j <= e && z[p..j] == Resolve(old(z[p..e])) && z[j] == 0
    ensures forall k :: 0 <= k < p || e <= k < z.Length ==> z[k] == old(z[k])
  {
    hide Resolve;
    ghost var was := z[..];
    var i := p;
    j := p;
    assert z[p..p] == [] && was[p..e] == z[p..e];
    while z[i] != 0
      invariant p <= j <= i <= e
      invariant forall k :: i <= k < z.Length || 0 <= k < p ==> z[k] == was[k]
      invariant Resolve(was[p..e]) == z[p..j] + Resolve(was[i..e]) && 0 !in was[i..e]
      decreases e - i
    {
      Unread(z, was, i, e);
      var c, n := ReadOne(z, i, e);
      Later(was, i, i + n, e);
      Unread(z, was, i + n, e);
      ghost var done := z[p..j];
      z[j] := c;
      assert z[p..j + 1] == done + [c];
      Joined(done, [c], Resolve(was[i + n..e]));
      i, j := i + n, j + 1;
    }
    Unread(z, was, i, e);
    ResolveNone();
    if j < i {
      ghost var done := z[p..j];
      z[j] := 0;
      assert z[p..j] == done;
    }
  }

  lemma Later(was: seq<Byte>, i: nat, j: nat, e: nat)
    requires i <= j <= e <= |was| && 0 !in was[i..e]
    ensures 0 !in was[j..e]
  {
    assert was[j..e] == was[i..e][j - i..];
  }

  lemma Unread(z: array<Byte>, was: seq<Byte>, i: nat, e: nat)
    requires i <= e < z.Length == |was| && (forall k :: i <= k < z.Length ==> z[k] == was[k]) && 0 !in was[i..e]
    ensures z[i..e] == was[i..e] && (z[i] == 0 ==> was[i..e] == [])
  {
    assert i < e ==> was[i..e][0] == z[i];
  }

  lemma ResolveNone()
    ensures Resolve([]) == []
  {
  }

  /** One byte of the text that ends at e: an escape or the byte itself. */
  method ReadOne(z: array<Byte>, i: nat, e: nat) returns (c: Byte, n: nat)
    requires i < e < z.Length && z[e] == 0 && 0 !in z[i..e]
    ensures 1 <= n <= e - i && Resolve(z[i..e]) == [c] + Resolve(z[i + n..e])
  {
    hide Octal, OctalLength, Resolve;
    ghost var s := z[i..e];
    c, n := z[i], 1;
    assert s[1..] == z[i + 1..e];
    if c == BACKSLASH && z[i + 1] != 0 {
      c, n := z[i + 1], 2;
      OctalDigits(z, i + 1, e);
      if IsOctal(c) {
        var v := c as int - 48;
        if IsOctal(z[i + 2]) {
          v, n := v * 8 + z[i + 2] - 48, 3;
          if IsOctal(z[i + 3]) {
            v, n := v * 8 + z[i + 3] - 48, 4;
          }
        }
        c := v % 256;
      } else {
        c := Named(c);
      }
      ResolveStep(s, n, c);
      assert s[n..] == z[i + n..e];
    } else {
      ResolveLast(s);
    }
  }

  lemma ResolveLast(s: seq<Byte>)
    requires s != [] && (s[0] != BACKSLASH || |s| == 1)
    ensures Resolve(s) == [s[0]] + Resolve(s[1..])
  {
  }

  /** The digits found one after the other; the terminating zero is none. */
  lemma OctalDigits(z: array<Byte>, i: nat, e: nat)
    requires i < e < z.Length && z[e] == 0
    ensures var s := z[i..e];
            && (!IsOctal(z[i]) ==> OctalLength(s) == 0)
            && (IsOctal(z[i]) && !IsOctal(z[i + 1]) ==> OctalLength(s) == 1 && Octal(s, 1) == z[i] - 48)
            && (IsOctal(z[i]) && IsOctal(z[i + 1]) && !IsOctal(z[i + 2]) ==>
                  OctalLength(s) == 2 && Octal(s, 2) == (z[i] as int - 48) * 8 + z[i + 1] - 48)
            && (IsOctal(z[i]) && IsOctal(z[i + 1]) && IsOctal(z[i + 2]) ==>
                  OctalLength(s) == 3 && Octal(s, 3) == ((z[i] as int - 48) * 8 + z[i + 1] - 48) * 8 + z[i + 2] - 48)
  {
    var s := z[i..e];
    if IsOctal(z[i]) {
      assert Octal(s, 1) == z[i] - 48;
    }
  }

  // ---------------------------------------------------------------- splitting a line

  function Spaces(s: seq<Byte>): (n: nat)
    ensures n <= |s| && (n < |s| ==> !IsSpace(s[n]))
  {
    if s == [] || !IsSpace(s[0]) then 0 else 1 + Spaces(s[1..])
  }

  function Word(s: seq<Byte>): (n: nat)
    ensures n <= |s|
  {
    if s == [] || IsSpace(s[0]) then 0 else 1 + Word(s[1..])
  }

  /** Where a quoted argument ends: at its delimiter, which a backslash in double quotes skips. */
  function Scan(s: seq<Byte>, delim: Byte): (n: nat)
    ensures n <= |s| && (n < |s| ==> s[n] == delim)
  {
    if s == [] || s[0] == delim then 0
    else if s[0] == BACKSLASH && delim == QUOTE && |s| > 1 then 2 + Scan(s[2..], delim)
    else 1 + Scan(s[1..], delim)
  }

  /** The argument at the start of s, which is no space, and where to go on. */
  function ArgAt(s: seq<Byte>): (r: (seq<Byte>, nat))
    requires s != []
    ensures 0 < r.1 <= |s| || (r.1 == 0 && IsSpace(s[0]))
  {
    if s[0] == QUOTE || s[0] == APOSTROPHE then
      var n := Scan(s[1..], s[0]);
      var text := s[1..1 + n];
      (if s[0] == QUOTE then Resolve(text) else text, if 1 + n < |s| then n + 2 else n + 1)
    else
      var n := Word(s);
      (Resolve(s[..n]), if n < |s| then n + 1 else n)
  }

  /** The arguments of a line, at most `left` of them. */
  function Args(s: seq<Byte>, left: nat): seq<seq<Byte>>
    decreases |s|
  {
    var t := s[Spaces(s)..];
    if left == 0 || t == [] then [] else [ArgAt(t).0] + Args(t[ArgAt(t).1..], left - 1)
  }

  method SkipSpaces(z: array<Byte>, h: nat, end: nat) returns (p: nat)
    requires h <= end < z.Length && z[end] == 0
    ensures h <= p <= end && p - h == Spaces(z[h..end]) && !IsSpace(z[p])
  {
    p := h;
    while IsSpace(z[p])
      invariant h <= p <= end && Spaces(z[h..end]) == p - h + Spaces(z[p..end])
      decreases end - p
    {
      assert z[p..end][1..] == z[p + 1..end];
      p := p + 1;
    }
  }

  method FindWord(z: array<Byte>, h: nat, end: nat) returns (p: nat)
    requires h <= end < z.Length && z[end] == 0 && 0 !in z[h..end]
    ensures h <= p <= end && p - h == Word(z[h..end])
  {
    p := h;
    while z[p] != 0 && !IsSpace(z[p])
      invariant h <= p <= end && Word(z[h..end]) == p - h + Word(z[p..end])
      decreases end - p
    {
      assert z[p..end][1..] == z[p + 1..end];
      p := p + 1;
    }
    assert p < end ==> z[h..end][p - h] == z[p];
  }

  method FindDelimiter(z: array<Byte>, h: nat, end: nat, delim: Byte) returns (p: nat)
    requires h <= end < z.Length && z[end] == 0 && 0 !in z[h..end] && delim != 0
    ensures h <= p <= end && p - h == Scan(z[h..end], delim)
  {
    hide Scan;
    p := h;
    while z[p] != 0 && z[p] != delim
      invariant h <= p <= end && Scan(z[h..end], delim) == p - h + Scan(z[p..end], delim)
      decreases end - p
    {
      ghost var s := z[p..end];
      ScanStep(s, delim);
      assert s[1..] == z[p + 1..end];
      if z[p] == BACKSLASH && delim == QUOTE && z[p + 1] != 0 {
        assert s[2..] == z[p + 2..end];
        p := p + 1;
      }
      p := p + 1;
    }
    Inside(z, h, p, p, end);
    ScanStops(z[p..end], delim);
  }

  lemma ScanStep(s: seq<Byte>, delim: Byte)
    requires s != [] && s[0] != delim
    ensures Scan(s, delim) ==
            if s[0] == BACKSLASH && delim == QUOTE && |s| > 1 then 2 + Scan(s[2..], delim) else 1 + Scan(s[1..], delim)
  {
  }

  lemma ScanStops(s: seq<Byte>, delim: Byte)
    requires s == [] || s[0] == delim
    ensures Scan(s, delim) == 0
  {
  }

  /** Reads the argument at h, with its terminator and its escapes resolved in place. */
  method ReadArg(z: array<Byte>, h: nat, end: nat) returns (a: nat, h': nat)
    requires h < end < z.Length && z[end] == 0 && 0 !in z[h..end] && !IsSpace(z[h])
    modifies z
    ensures var (t, n) := ArgAt(old(z[h..end]));
            h' == h + n && h <= a && Holds(z, a, a + |t|, t) && (a + |t| < h' || h' == end)
    ensures h < h' <= end && forall k :: 0 <= k < h || h' <= k < z.Length ==> z[k] == old(z[k])
  {
    hide Resolve, Scan, Word, Holds;
    if z[h] == APOSTROPHE || z[h] == QUOTE {
      a, h' := ReadQuoted(z, h, end);
    } else {
      a, h' := ReadWord(z, h, end);
    }
  }

  method ReadQuoted(z: array<Byte>, h: nat, end: nat) returns (a: nat, h': nat)
    requires h < end < z.Length && z[end] == 0 && 0 !in z[h..end] && (z[h] == APOSTROPHE || z[h] == QUOTE)
    modifies z
    ensures var (t, n) := ArgAt(old(z[h..end]));
            h' == h + n && h <= a && Holds(z, a, a + |t|, t) && (a + |t| < h' || h' == end)
    ensures h < h' <= end && forall k :: 0 <= k < h || h' <= k < z.Length ==> z[k] == old(z[k])
  {
    hide Resolve, Scan, Word;
    ghost var s := z[h..end];
    var delim := z[h];
    a := h + 1;
    NoZero(z, h, a, end);
    assert s[1..] == z[a..end];
    var p := FindDelimiter(z, a, end, delim);
    Slice(z, h, a, p, end);
    Inside(z, h, a, p, end);
    h' := p;
    if z[p] == delim {
      z[p], h' := 0, p + 1;
    }
    assert z[a..p] == s[1..1 + (p - a)];
    if delim == QUOTE {
      ResolveBackslashes(z, a, p);
    }
  }

  lemma Slice(z: array<Byte>, h: nat, a: nat, p: nat, end: nat)
    requires h <= a <= p <= end <= z.Length
    ensures z[h..end][a - h..p - h] == z[a..p]
  {
    var x, y := z[h..end][a - h..p - h], z[a..p];
    forall k | 0 <= k < |x| ensures x[k] == y[k] {
      assert x[k] == z[a + k];
    }
  }

  method ReadWord(z: array<Byte>, h: nat, end: nat) returns (a: nat, h': nat)
    requires h < end < z.Length && z[end] == 0 && 0 !in z[h..end] && !IsSpace(z[h])
    requires z[h] != APOSTROPHE && z[h] != QUOTE
    modifies z
    ensures var (t, n) := ArgAt(old(z[h..end]));
            h' == h + n && h <= a && Holds(z, a, a + |t|, t) && (a + |t| < h' || h' == end)
    ensures h < h' <= end && forall k :: 0 <= k < h || h' <= k < z.Length ==> z[k] == old(z[k])
  {
    hide Resolve, Scan, Word;
    ghost var s := z[h..end];
    a := h;
    WordSome(s);
    var p := FindWord(z, h, end);
    Slice(z, h, h, p, end);
    Inside(z, h, h, p, end);
    h' := p;
    if z[p] != 0 {
      z[p], h' := 0, p + 1;
    }
    assert z[a..p] == s[..p - h];
    ResolveBackslashes(z, a, p);
  }

  lemma WordSome(s: seq<Byte>)
    requires s != [] && !IsSpace(s[0])
    ensures Word(s) > 0
  {
  }

  lemma Inside(z: array<Byte>, h: nat, a: nat, p: nat, end: nat)
    requires h <= a <= p <= end < z.Length && 0 !in z[h..end]
    ensures 0 !in z[a..p] && (p < end ==> z[p] != 0)
  {
    forall k | a <= k < end ensures z[k] != 0 {
      assert z[h..end][k - h] == z[k];
    }
  }

  /** Every argument is where its pointer says, ended by a zero. */
  ghost predicate AllHold(z: array<Byte>, args: seq<nat>, toks: seq<seq<Byte>>, h: int, end: int)
    reads z
  {
    && |args| == |toks|
    && forall k :: 0 <= k < |args| ==>
         Holds(z, args[k], args[k] + |toks[k]|, toks[k]) && (args[k] + |toks[k]| < h || h == end)
  }

  /** The argument at h, behind those read before. */
  method NextArg(z: array<Byte>, h: nat, end: nat, ghost args: seq<nat>, ghost toks: seq<seq<Byte>>)
    returns (a: nat, h': nat)
    requires h < end < z.Length && z[end] == 0 && 0 !in z[h..end] && !IsSpace(z[h]) && AllHold(z, args, toks, h, end)
    modifies z
    ensures var (t, n) := ArgAt(old(z[h..end]));
            h' == h + n && h < h' <= end && AllHold(z, args + [a], toks + [t], h', end)
              && z[h'..end] == old(z[h..end])[n..]
    ensures z[end] == 0 && 0 !in z[h'..end]
  {
    hide ArgAt, AllHold, Holds;
    ghost var t, was := z[h..end], z[..];
    HeldNow(z, args, toks, h, end);
    a, h' := ReadArg(z, h, end);
    assert t == was[h..end];
    AfterArg(z, was, t, h, h', end);
    Kept(z, was, args, toks, a, ArgAt(t).0, h, h', end);
  }

  /** The arguments `toks` have been read, and s is still to be read. */
  ghost predicate SoFar(toks: seq<seq<Byte>>, s: seq<Byte>, line: seq<Byte>) {
    |toks| <= MAX_ARGS && toks + Args(s, MAX_ARGS - |toks|) == Args(line, MAX_ARGS)
  }

  lemma NoneSoFar(line: seq<Byte>)
    ensures SoFar([], line, line)
  {
    hide Args;
    assert [] + Args(line, MAX_ARGS) == Args(line, MAX_ARGS);
  }

  lemma Joined<T>(a: seq<T>, b: seq<T>, c: seq<T>)
    ensures (a + b) + c == a + (b + c)
  {
  }

  lemma OneMore(toks: seq<seq<Byte>>, s: seq<Byte>, t: seq<Byte>, line: seq<Byte>)
    requires SoFar(toks, s, line) && |toks| < MAX_ARGS && t == s[Spaces(s)..]
    ensures t == [] ==> toks == Args(line, MAX_ARGS)
    ensures t != [] ==> SoFar(toks + [ArgAt(t).0], t[ArgAt(t).1..], line)
  {
    hide ArgAt, Spaces, Args;
    var left := MAX_ARGS - |toks|;
    ArgsStep(s, t, left);
    if t == [] {
      assert toks + [] == toks;
    } else {
      var rest := Args(t[ArgAt(t).1..], left - 1);
      Joined(toks, [ArgAt(t).0], rest);
    }
  }

  lemma AllSoFar(toks: seq<seq<Byte>>, s: seq<Byte>, line: seq<Byte>)
    requires SoFar(toks, s, line) && (|toks| == MAX_ARGS || s == [])
    ensures toks == Args(line, MAX_ARGS)
  {
    ArgsEnd(s, MAX_ARGS - |toks|);
    assert toks + [] == toks;
  }

  /** The argument loop of do_meta_command, from h on. */
  method ReadArgs(z: array<Byte>, h0: nat, end: nat) returns (args: seq<nat>)
    requires h0 <= end < z.Length && z[end] == 0 && 0 !in z[h0..end]
    modifies z
    ensures AllHold(z, args, Args(old(z[h0..end]), MAX_ARGS), end, end)
  {
    hide ArgAt, Spaces, Args, AllHold, SoFar;
    args := [];
    var h := h0;
    ghost var line := z[h0..end];
    ghost var toks: seq<seq<Byte>> := [];
    NoneHold(z, h, end);
    NoneSoFar(line);
    while z[h] != 0 && |args| < MAX_ARGS
      invariant h0 <= h <= end && z[end] == 0 && 0 !in z[h..end] && |args| == |toks| <= MAX_ARGS
      invariant AllHold(z, args, toks, h, end) && SoFar(toks, z[h..end], line)
      decreases end - h
    {
      var p := SkipSpaces(z, h, end);
      NoZero(z, h, p, end);
      Slice(z, h, p, end, end);
      AllLater(z, args, toks, h, p, end);
      OneMore(toks, z[h..end], z[p..end], line);
      AtEnd(z, p, end);
      if z[p] == 0 {
        AllLater(z, args, toks, p, end, end);
        return;
      }
      ghost var t := ArgAt(z[p..end]).0;
      var a;
      a, h := NextArg(z, p, end, args, toks);
      args, toks := args + [a], toks + [t];
    }
    AtEnd(z, h, end);
    AllSoFar(toks, z[h..end], line);
    AllLater(z, args, toks, h, end, end);
  }

  lemma NoneHold(z: array<Byte>, h: nat, end: nat)
    ensures AllHold(z, [], [], h, end)
  {
  }

  lemma AllLater(z: array<Byte>, args: seq<nat>, toks: seq<seq<Byte>>, h: nat, p: nat, end: nat)
    requires AllHold(z, args, toks, h, end) && h <= p <= end
    ensures AllHold(z, args, toks, p, end)
  {
  }

  lemma AtEnd(z: array<Byte>, h: nat, end: nat)
    requires h <= end < z.Length && 0 !in z[h..end]
    ensures z[h] == 0 ==> z[h..end] == []
  {
    assert h < end ==> z[h..end][0] == z[h];
  }

  /** What comes after an argument is still to be read as it was. */
  lemma AfterArg(z: array<Byte>, was: seq<Byte>, t: seq<Byte>, p: nat, h: nat, end: nat)
    requires p <= h <= end < z.Length == |was| && t == was[p..end] && 0 !in t
             && (forall k :: h <= k < z.Length ==> z[k] == was[k])
    ensures t[h - p..] == z[h..end] && 0 !in z[h..end] && z[end] == was[end]
  {
    assert forall k :: h <= k < end ==> z[k] == t[k - p];
  }

  lemma ArgsStep(s: seq<Byte>, t: seq<Byte>, left: nat)
    requires t == s[Spaces(s)..] && left > 0
    ensures Args(s, left) == if t == [] then [] else [ArgAt(t).0] + Args(t[ArgAt(t).1..], left - 1)
  {
  }

  lemma ArgsEnd(s: seq<Byte>, left: nat)
    requires left == 0 || s == []
    ensures Args(s, left) == []
  {
  }

  /** Arguments read before are out of the way. */
  lemma Kept(z: array<Byte>, was: seq<Byte>, args: seq<nat>, toks: seq<seq<Byte>>, a: nat, t: seq<Byte>, p: nat,
             h: nat, end: nat)
    requires p < h <= end < z.Length == |was| && |args| == |toks| && forall k :: 0 <= k < p ==> z[k] == was[k]
    requires forall k :: 0 <= k < |args| ==> HeldBefore(was, args[k], toks[k], p)
    requires Holds(z, a, a + |t|, t) && (a + |t| < h || h == end)
    ensures AllHold(z, args + [a], toks + [t], h, end)
  {
    forall k | 0 <= k < |args| ensures Holds(z, args[k], args[k] + |toks[k]|, toks[k]) && args[k] + |toks[k]| < h {
      assert HeldBefore(was, args[k], toks[k], p);
      assert z[args[k]..args[k] + |toks[k]|] == was[args[k]..args[k] + |toks[k]|];
    }
  }

  ghost predicate HeldBefore(was: seq<Byte>, a: nat, t: seq<Byte>, p: nat) {
    a + |t| < p <= |was| && was[a..a + |t|] == t && was[a + |t|] == 0
  }

  lemma HeldNow(z: array<Byte>, args: seq<nat>, toks: seq<seq<Byte>>, p: nat, end: nat)
    requires AllHold(z, args, toks, p, end) && p < end < z.Length
    ensures |args| == |toks| && forall k :: 0 <= k < |args| ==> HeldBefore(z[..], args[k], toks[k], p)
  {
    forall k | 0 <= k < |args| ensures HeldBefore(z[..], args[k], toks[k], p) {
      assert z[..][args[k]..args[k] + |toks[k]|] == z[args[k]..args[k] + |toks[k]|];
    }
  }

  // ---------------------------------------------------------------- round trip

  lemma ScanSkips(c: Byte, t: seq<Byte>)
    ensures Scan(Escape(c) + t, QUOTE) == |Escape(c)| + Scan(t, QUOTE)
  {
    hide Scan;
    if |Escape(c)| == 4 {
      ScanOctal(48 + c / 64, 48 + c / 8 % 8, 48 + c % 8, t);
    } else if |Escape(c)| == 2 {
      ScanPair(Escape(c)[1], t);
      assert Escape(c) == [BACKSLASH, Escape(c)[1]];
    } else {
      ScanPlain(c, t);
    }
  }

  lemma ScanPair(c: Byte, t: seq<Byte>)
    ensures Scan([BACKSLASH, c] + t, QUOTE) == 2 + Scan(t, QUOTE)
  {
    assert ([BACKSLASH, c] + t)[2..] == t;
  }

  lemma ScanOctal(a: Byte, b: Byte, c: Byte, t: seq<Byte>)
    requires IsOctal(b) && IsOctal(c)
    ensures Scan([BACKSLASH, a, b, c] + t, QUOTE) == 4 + Scan(t, QUOTE)
  {
    assert [BACKSLASH, a, b, c] + t == [BACKSLASH, a] + ([b] + ([c] + t));
    ScanPair(a, [b] + ([c] + t));
    ScanPlain(b, [c] + t);
    ScanPlain(c, t);
  }

  lemma ScanPlain(c: Byte, t: seq<Byte>)
    requires c != QUOTE && c != BACKSLASH
    ensures Scan([c] + t, QUOTE) == 1 + Scan(t, QUOTE)
  {
    assert ([c] + t)[1..] == t;
  }

  /** A quoted argument ends at its own closing quote. */
  lemma {:induction false} ScanQuoted(z: seq<Byte>, rest: seq<Byte>)
    ensures Scan(Escaped(z) + ([QUOTE] + rest), QUOTE) == |Escaped(z)|
  {
    hide Scan, Escape;
    if z == [] {
      assert Escaped(z) + ([QUOTE] + rest) == [QUOTE] + rest;
      ScanStops([QUOTE] + rest, QUOTE);
    } else {
      ScanQuoted(z[1..], rest);
      ScanSkips(z[0], Escaped(z[1..]) + ([QUOTE] + rest));
      Joined(Escape(z[0]), Escaped(z[1..]), [QUOTE] + rest);
    }
  }

  /** A line of quoted strings. */
  function Line(words: seq<seq<Byte>>): seq<Byte> {
    if words == [] then [] else [32] + Quoted(words[0]) + Line(words[1..])
  }

  lemma QuotedArg(w: seq<Byte>, rest: seq<Byte>)
    ensures ArgAt(Quoted(w) + rest) == (w, |Quoted(w)|) && (Quoted(w) + rest)[|Quoted(w)|..] == rest
  {
    hide Scan, Resolve, Escaped;
    var s := Quoted(w) + rest;
    Joined([QUOTE], Escaped(w), [QUOTE]);
    Joined([QUOTE], Escaped(w) + [QUOTE], rest);
    Joined(Escaped(w), [QUOTE], rest);
    Tail([QUOTE], Escaped(w) + ([QUOTE] + rest), 1);
    assert s[1..] == Escaped(w) + ([QUOTE] + rest);
    ScanQuoted(w, rest);
    assert s[1..1 + |Escaped(w)|] == Escaped(w);
    ResolveEscaped(w);
  }

  /** Whatever strings are written, quoted, on a line: the arguments read are those strings. */
  lemma {:induction false} LineRoundTrip(words: seq<seq<Byte>>, left: nat)
    requires |words| <= left
    ensures Args(Line(words), left) == words
  {
    hide ArgAt, Spaces, Args, Quoted;
    if words == [] {
      NoSpaces();
      ArgsEnd([], left);
    } else {
      var s, t := Line(words), Quoted(words[0]) + Line(words[1..]);
      LineRoundTrip(words[1..], left - 1);
      QuotedArg(words[0], Line(words[1..]));
      QuoteFirst(words[0]);
      assert s == [32] + t && s[1..] == t && t[0] == QUOTE;
      OneSpace(t);
      ArgsStep(s, t, left);
    }
  }

  lemma QuoteFirst(w: seq<Byte>)
    ensures Quoted(w) != [] && Quoted(w)[0] == QUOTE
  {
  }

  lemma NoSpaces()
    ensures Spaces([]) == 0
  {
  }

  lemma OneSpace(t: seq<Byte>)
    requires t != [] && !IsSpace(t[0])
    ensures Spaces([32] + t) == 1 && ([32] + t)[1..] == t
  {
  }

  // ---------------------------------------------------------------- all kinds of arguments

  /** An argument as it is written: bare, in single quotes, or in double quotes. */
  datatype Arg = Bare(text: seq<Byte>) | Single(text: seq<Byte>) | Double(text: seq<Byte>)

  /** Double quotes and backslashes stand behind a backslash only, and none is at the end. */
  predicate Guarded(t: seq<Byte>) {
    if t == [] then true
    else if t[0] == BACKSLASH then |t| > 1 && Guarded(t[2..])
    else t[0] != QUOTE && Guarded(t[1..])
  }

  predicate ArgOk(a: Arg) {
    match a
    case Bare(t) => t != [] && t[0] != QUOTE && t[0] != APOSTROPHE && forall i :: 0 <= i < |t| ==> !IsSpace(t[i])
    case Single(t) => APOSTROPHE !in t
    case Double(t) => Guarded(t)
  }

  function WrittenArg(a: Arg): seq<Byte> {
    match a
    case Bare(t) => t
    case Single(t) => [APOSTROPHE] + t + [APOSTROPHE]
    case Double(t) => [QUOTE] + t + [QUOTE]
  }

  /** Escapes are resolved except in single quotes. */
  function ValueOf(a: Arg): seq<Byte> { if a.Single? then a.text else Resolve(a.text) }

  predicate Gap(s: seq<Byte>) { s != [] && forall i :: 0 <= i < |s| ==> IsSpace(s[i]) }

  /** Arguments on a line, each behind white space. */
  function ArgLine(items: seq<(seq<Byte>, Arg)>): seq<Byte> {
    if items == [] then [] else items[0].0 + (WrittenArg(items[0].1) + ArgLine(items[1..]))
  }

  predicate ItemsOk(items: seq<(seq<Byte>, Arg)>) {
    forall i :: 0 <= i < |items| ==> Gap(items[i].0) && ArgOk(items[i].1)
  }

  /** The values of the first arguments. */
  function Values(items: seq<(seq<Byte>, Arg)>, left: nat): seq<seq<Byte>> {
    if items == [] || left == 0 then [] else [ValueOf(items[0].1)] + Values(items[1..], left - 1)
  }

  lemma {:induction false} WordBare(t: seq<Byte>, rest: seq<Byte>)
    requires (forall i :: 0 <= i < |t| ==> !IsSpace(t[i])) && (rest == [] || IsSpace(rest[0]))
    ensures Word(t + rest) == |t|
  {
    if t == [] {
      assert t + rest == rest;
    } else {
      assert (t + rest)[1..] == t[1..] + rest;
      WordBare(t[1..], rest);
    }
  }

  lemma {:induction false} ScanSingle(t: seq<Byte>, rest: seq<Byte>)
    requires APOSTROPHE !in t
    ensures Scan(t + ([APOSTROPHE] + rest), APOSTROPHE) == |t|
  {
    if t == [] {
      assert t + ([APOSTROPHE] + rest) == [APOSTROPHE] + rest;
    } else {
      assert (t + ([APOSTROPHE] + rest))[1..] == t[1..] + ([APOSTROPHE] + rest);
      ScanSingle(t[1..], rest);
    }
  }

  lemma {:induction false} ScanGuarded(t: seq<Byte>, rest: seq<Byte>)
    requires Guarded(t)
    ensures Scan(t + ([QUOTE] + rest), QUOTE) == |t|
  {
    var end := [QUOTE] + rest;
    if t == [] {
      assert t + end == end;
    } else if t[0] == BACKSLASH {
      assert (t + end)[2..] == t[2..] + end;
      ScanGuarded(t[2..], rest);
    } else {
      assert (t + end)[1..] == t[1..] + end;
      ScanGuarded(t[1..], rest);
    }
  }

  /** An argument is read in front of white space or the end of the line; a space is taken with a
      bare one. */
  lemma ArgReads(a: Arg, rest: seq<Byte>)
    requires ArgOk(a) && (rest == [] || IsSpace(rest[0]))
    ensures var w := WrittenArg(a);
            && w != [] && !IsSpace(w[0])
            && ArgAt(w + rest) == (ValueOf(a), if a.Bare? && rest != [] then |w| + 1 else |w|)
  {
    hide Resolve, Scan, Word;
    var w := WrittenArg(a);
    var s := w + rest;
    match a
    case Bare(t) =>
      WordBare(t, rest);
      assert s[..|t|] == t && s[0] == t[0];
    case Single(t) =>
      ScanSingle(t, rest);
      assert s[1..] == t + ([APOSTROPHE] + rest) && s[1..1 + |t|] == t;
    case Double(t) =>
      ScanGuarded(t, rest);
      assert s[1..] == t + ([QUOTE] + rest) && s[1..1 + |t|] == t;
  }

  lemma {:induction false} SpacesGap(gap: seq<Byte>, t: seq<Byte>)
    requires (forall i :: 0 <= i < |gap| ==> IsSpace(gap[i])) && (t == [] || !IsSpace(t[0]))
    ensures Spaces(gap + t) == |gap|
  {
    if gap == [] {
      assert gap + t == t;
    } else {
      assert (gap + t)[1..] == gap[1..] + t;
      SpacesGap(gap[1..], t);
    }
  }

  lemma ArgsSpace(s: seq<Byte>, left: nat)
    requires s != [] && IsSpace(s[0])
    ensures Args(s, left) == Args(s[1..], left)
  {
    assert s[Spaces(s)..] == s[1..][Spaces(s[1..])..];
  }

  lemma LineStarts(items: seq<(seq<Byte>, Arg)>)
    requires ItemsOk(items)
    ensures ArgLine(items) == [] || IsSpace(ArgLine(items)[0])
    ensures items != [] ==> Gap(items[0].0) && ArgOk(items[0].1) && ItemsOk(items[1..])
  {
    assert forall i :: 0 <= i < |items| - 1 ==> items[1..][i] == items[i + 1];
  }

  /** A line is read as its arguments, however many spaces, tabs or line ends stand in front of
      each and however each is written. */
  lemma {:induction false} LineArgs(items: seq<(seq<Byte>, Arg)>, left: nat)
    requires ItemsOk(items)
    ensures Args(ArgLine(items), left) == Values(items, left)
    decreases |items|
  {
    hide ArgAt, Spaces, Args, ArgOk, WrittenArg, ItemsOk;
    var s := ArgLine(items);
    if items == [] || left == 0 {
      ArgsEnd(s, left);
    } else {
      var (gap, a) := items[0];
      var w, rest := WrittenArg(a), ArgLine(items[1..]);
      LineStarts(items);
      LineStarts(items[1..]);
      ArgReads(a, rest);
      SpacesGap(gap, w + rest);
      assert s[|gap|..] == w + rest;
      ArgsStep(s, w + rest, left);
      LineArgs(items[1..], left - 1);
      Tail(w, rest, |w|);
      assert w[|w|..] + rest == rest;
      if a.Bare? && rest != [] {
        ArgsSpace(rest, left - 1);
        assert (w + rest)[|w| + 1..] == rest[1..];
      }
    }
  }

  // ---------------------------------------------------------------- the documented escapes

  /** The byte the documentation gives for the character behind a backslash: alarm, backspace, tab,
      newline, vertical tab, form feed, carriage return, space, or the character itself. */
  function DocumentedName(c: Byte): Byte {
    if c == 'a' as int then 7 else if c == 'b' as int then 8 else if c == 't' as int then 9
    else if c == 'n' as int then 10 else if c == 'v' as int then 11 else if c == 'f' as int then 12
    else if c == 'r' as int then 13 else if c == 's' as int then 32 else c
  }

  predicate Octet(s: seq<Byte>, k: nat) { k < |s| && '0' as int <= s[k] <= '7' as int }

  /** The documented byte of the escape at the start of s, and its length: up to three octal digits,
      or one other character. */
  function DocumentedEscape(s: seq<Byte>): (r: (Byte, nat))
    requires |s| > 1
    ensures 1 < r.1 <= |s|
  {
    if !Octet(s, 1) then (DocumentedName(s[1]), 2)
    else if !Octet(s, 2) then (s[1] - 48, 2)
    else if !Octet(s, 3) then (8 * (s[1] - 48) + (s[2] - 48), 3)
    else ((64 * (s[1] as int - 48) + 8 * (s[2] as int - 48) + (s[3] as int - 48)) % 256, 4)
  }

  /** A text with its escapes resolved as documented. */
  function Documented(s: seq<Byte>): seq<Byte> {
    if s == [] then []
    else if s[0] == BACKSLASH && |s| > 1 then [DocumentedEscape(s).0] + Documented(s[DocumentedEscape(s).1..])
    else [s[0]] + Documented(s[1..])
  }

  /** One of the escapes of a text is a backslash and an s. */
  predicate HasSpaceEscape(s: seq<Byte>) {
    if s == [] then false
    else if s[0] == BACKSLASH && |s| > 1 then s[1] == 's' as int || HasSpaceEscape(s[DocumentedEscape(s).1..])
    else HasSpaceEscape(s[1..])
  }

  /** The code does what its documentation says exactly for texts without the escape of a space. */
  lemma {:induction false} ResolvesAsDocumented(s: seq<Byte>)
    ensures Resolve(s) == Documented(s) <==> !HasSpaceEscape(s)
  {
    hide EscapeAt, Named, DocumentedEscape;
    if s != [] {
      if s[0] == BACKSLASH && |s| > 1 {
        var n := EscapeAt(s).1;
        EscapeDocumented(s);
        ResolvesAsDocumented(s[n..]);
        SameFirst(EscapeAt(s).0, Resolve(s[n..]), DocumentedEscape(s).0, Documented(s[n..]));
      } else {
        ResolvesAsDocumented(s[1..]);
        SameFirst(s[0], Resolve(s[1..]), s[0], Documented(s[1..]));
      }
    }
  }

  lemma EscapeDocumented(s: seq<Byte>)
    requires |s| > 1
    ensures EscapeAt(s).1 == DocumentedEscape(s).1
    ensures EscapeAt(s).0 == DocumentedEscape(s).0 <==> s[1] != 's' as int
  {
    var t := s[1..];
    if Octet(s, 1) {
      assert Octal(t, 0) == 0;
      assert Octal(t, 1) == s[1] - 48;
      if Octet(s, 2) {
        assert Octal(t, 2) == Octal(t, 1) * 8 + t[1] - 48;
      }
    }
  }

  lemma SameFirst(a: Byte, s: seq<Byte>, b: Byte, t: seq<Byte>)
    ensures [a] + s == [b] + t <==> a == b && s == t
  {
    assert ([a] + s)[0] == a && ([a] + s)[1..] == s && ([b] + t)[1..] == t;
  }

  /** A backslash and an s stand for the letter, not for a space. */
  lemma NoSpaceEscape(t: seq<Byte>)
    ensures Resolve([BACKSLASH, 115] + t) == [115] + Resolve(t) != Documented([BACKSLASH, 115] + t)
  {
    var s := [BACKSLASH, 115] + t;
    assert s[1..] == [115] + t && s[2..] == t;
    ResolveStep(s, 2, 115);
    ResolvesAsDocumented(s);
  }

  // ---------------------------------------------------------------- the bytes written

  /** The bytes that pass for white space and those that are printed as they are. */
  lemma ByteKinds(c: Byte)
    ensures IsSpace(c) <==> c == ' ' as int || '\t' as int <= c <= '\r' as int
    ensures IsPrint(c) <==> ' ' as int <= c <= '~' as int
    ensures Escape(c) == [c] <==> IsPrint(c) && c != '\\' as int && c != '\"' as int
  {
  }

  /** A string is written in printable characters. */
  lemma {:induction false} QuotedPrints(z: seq<Byte>)
    ensures forall i :: 0 <= i < |Escaped(z)| ==> ' ' as int <= Escaped(z)[i] <= '~' as int
    ensures Quoted(z) == ['\"' as int] + Escaped(z) + ['\"' as int]
  {
    if z != [] {
      QuotedPrints(z[1..]);
      assert forall i :: 0 <= i < |Escape(z[0])| ==> ' ' as int <= Escape(z[0])[i] <= '~' as int;
    }
  }
}

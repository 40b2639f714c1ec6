/** The SQLite shell's CSV: what the writer writes, the reader reads back. */
module Csv {
  import opened Wrappers

  /** Bytes, and the end of the file. */
  const EOF: int := -1
  const QUOTE: int := 34
  const CR: int := 13
  const LF: int := 10

  // ---------------------------------------------------------------- writing

  /** needCsvQuote: all bytes but plain printable ones. */
  predicate NeedsQuote(c: int) { !(33 <= c <= 126) || c == QUOTE || c == 39 }

  predicate Plain(z: seq<int>, sep: int) { z != [] && forall i :: 0 <= i < |z| ==> !NeedsQuote(z[i]) && z[i] != sep }

  /** The text between the quotes: quotes are doubled. */
  function Doubled(z: seq<int>): seq<int> {
    if z == [] then [] else (if z[0] == QUOTE then [QUOTE, QUOTE] else [z[0]]) + Doubled(z[1..])
  }

  /** One field as it is written. */
  function Field(z: seq<int>, sep: int): seq<int> {
    if Plain(z, sep) then z else [QUOTE] + Doubled(z) + [QUOTE]
  }

  /** output_csv, for a field that is not null and a separator of one character. */
  method OutputCsv(z: seq<int>, sep: int, bSep: bool) returns (out: seq<int>)
    requires forall i :: 0 <= i < |z| ==> 0 < z[i] < 256
    ensures out == Field(z, sep) + (if bSep then [sep] else [])
  {
    var i := 0;
    while i < |z|
      invariant 0 <= i <= |z| && forall j :: 0 <= j < i ==> !NeedsQuote(z[j]) && z[j] != sep
    {
      if NeedsQuote(z[i]) || z[i] == sep {
        i := 0;
        break;
      }
      i := i + 1;
    }
    if i == 0 {
      out := [QUOTE];
      while i < |z|
        invariant 0 <= i <= |z| && out + Doubled(z[i..]) == [QUOTE] + Doubled(z)
      {
        assert z[i..][0] == z[i] && z[i..][1..] == z[i + 1..];
        if z[i] == QUOTE {
          out := out + [QUOTE];
        }
        out := out + [z[i]];
        i := i + 1;
      }
      assert z[i..] == [] && out + [] == out;
      out := out + [QUOTE];
    } else {
      out := z;
    }
    if bSep {
      out := out + [sep];
    }
  }

  // ---------------------------------------------------------------- reading

  /** A field read: its text, if there was one, the character that ended it, and the input left. */
  datatype Read = Read(field: Option<seq<int>>, term: int, rest: seq<int>)

  /** The next character, and what is left of the input. */
  function Next(s: seq<int>): int { if s == [] then EOF else s[0] }
  function Tail(s: seq<int>): seq<int> { if s == [] then s else s[1..] }

  /** The text up to its last quote. */
  function BeforeQuote(z: seq<int>): seq<int> {
    if z == [] then [] else if z[|z| - 1] == QUOTE then z[..|z| - 1] else BeforeQuote(z[..|z| - 1])
  }

  predicate EndsQuoted(c: int, pc: int, ppc: int, sep: int) {
    (c == sep && pc == QUOTE) || (c == LF && pc == QUOTE) || (c == LF && pc == CR && ppc == QUOTE)
      || (c == EOF && pc == QUOTE)
  }

  /** Reading after an opening quote: z is the text so far, pc and ppc the characters before. */
  function ReadQuoted(s: seq<int>, z: seq<int>, pc: int, ppc: int, sep: int): Read
    decreases |s|
  {
    var c, t := Next(s), Tail(s);
    if c == QUOTE && pc == QUOTE then ReadQuoted(t, z, 0, ppc, sep)
    else if EndsQuoted(c, pc, ppc, sep) then Read(Some(BeforeQuote(z)), c, t)
    else if s == [] then Read(Some(z), EOF, t)
    else ReadQuoted(t, z + [c], c, pc, sep)
  }

  function DropCr(z: seq<int>): seq<int> { if z != [] && z[|z| - 1] == CR then z[..|z| - 1] else z }

  /** Reading without quotes. */
  function ReadPlain(s: seq<int>, z: seq<int>, sep: int): Read
    decreases |s|
  {
    var c, t := Next(s), Tail(s);
    if s == [] || c == sep || c == LF then Read(Some(if c == LF then DropCr(z) else z), c, t)
    else ReadPlain(t, z + [c], sep)
  }

  function ReadField(s: seq<int>, sep: int): Read {
    if s == [] then Read(None, EOF, s)
    else if s[0] == QUOTE then ReadQuoted(s[1..], [], 0, 0, sep)
    else ReadPlain(s, [], sep)
  }

  /** The reader's state: the input, and a growing buffer for the text of a field. */
  class ImportCtx {
    const input: seq<int>
    const sep: int
    var pos: nat
    var z: array<int>
    var n: nat
    var line: int
    var term: int

    constructor (input: seq<int>, sep: int)
      requires forall i :: 0 <= i < |input| ==> 0 <= input[i] < 256
      ensures Valid() && this.input == input && this.sep == sep && pos == 0 && fresh(z)
    {
      this.input, this.sep := input, sep;
      pos, n, line, term := 0, 0, 1, EOF;
      z := new int[0];
    }

    predicate Valid()
      reads this, z
    {
      pos <= |input| && n <= z.Length && forall i :: 0 <= i < |input| ==> 0 <= input[i] < 256
    }

    function Text(): seq<int>
      requires Valid()
      reads this, z
    {
      z[..n]
    }

    function Left(): seq<int>
      requires Valid()
      reads this, z
    {
      input[pos..]
    }

    /** fgetc */
    method Getc() returns (c: int)
      requires Valid()
      modifies this`pos
      ensures Valid() && c == Next(old(Left())) && Left() == Tail(old(Left())) && Text() == old(Text())
      ensures c == EOF <==> old(Left()) == []
    {
      if pos == |input| {
        return EOF;
      }
      c := input[pos];
      pos := pos + 1;
    }

    /** import_append_char */
    method AppendChar(c: int)
      requires Valid()
      modifies this`z, this`n, z
      ensures Valid() && Text() == old(Text()) + [c] && Left() == old(Left()) && (z == old(z) || fresh(z))
    {
      if n + 1 >= z.Length {
        var grown := new int[z.Length + z.Length + 100];
        forall i | 0 <= i < n {
          grown[i] := z[i];
        }
        z := grown;
      }
      z[n] := c;
      n := n + 1;
    }

    /** Takes off the closing quote and what follows it. */
    method DropQuote()
      requires Valid() && QUOTE in Text()
      modifies this`n
      ensures Valid() && Text() == BeforeQuote(old(Text())) && Left() == old(Left())
    {
      ghost var text := Text();
      n := n - 1;
      assert text[..n + 1] == text;
      while z[n] != QUOTE
        invariant n < |text| && Text() == text[..n] && QUOTE in text[..n + 1]
                  && BeforeQuote(text[..n + 1]) == BeforeQuote(text) && Left() == old(Left())
        decreases n
      {
        assert text[..n + 1][..n] == text[..n] && text[..n + 1][n] == text[n];
        assert QUOTE in text[..n];
        n := n - 1;
      }
      assert text[..n + 1][n] == QUOTE && text[..n + 1][..n] == text[..n];
    }

    /** csv_read_one_field, with line feeds as row separators. */
    method ReadOneField() returns (ok: bool)
      requires Valid()
      modifies this, z
      ensures Valid() && (z == old(z) || fresh(z))
      ensures var r := ReadField(old(Left()), sep);
              ok == r.field.Some? && (ok ==> Text() == r.field.value) && term == r.term && Left() == r.rest
    {
      ghost var s := Left();
      n := 0;
      var c := Getc();
      if c == EOF {
        term := EOF;
        return false;
      }
      ok := true;
      if c == QUOTE {
        ReadRestQuoted();
      } else {
        ReadRestPlain(c, s);
      }
    }

    /** The loop after an opening quote. */
    method ReadRestQuoted()
      requires Valid() && n == 0
      modifies this, z
      ensures Valid() && (z == old(z) || fresh(z))
      ensures var r := ReadQuoted(old(Left()), [], 0, 0, sep);
              r.field == Some(Text()) && term == r.term && Left() == r.rest
    {
      var pc, ppc := 0, 0;
      while true
        invariant Valid() && (z == old(z) || fresh(z))
                  && ReadQuoted(Left(), Text(), pc, ppc, sep) == ReadQuoted(old(Left()), [], 0, 0, sep)
        invariant (pc == QUOTE ==> QUOTE in Text()) && (pc == CR && ppc == QUOTE ==> QUOTE in Text())
        decreases |input| - pos
      {
        var c := Getc();
        if c == LF {
          line := line + 1;
        }
        if c == QUOTE && pc == QUOTE {
          pc := 0;
          continue;
        }
        if EndsQuoted(c, pc, ppc, sep) {
          DropQuote();
          term := c;
          break;
        }
        if c == EOF {
          term := c;
          break;
        }
        AppendChar(c);
        ppc := pc;
        pc := c;
      }
    }

    /** The loop without quotes, from the first character on. */
    method ReadRestPlain(first: int, ghost s: seq<int>)
      requires Valid() && n == 0 && s != [] && first == s[0] && Left() == s[1..] && first != EOF
      modifies this, z
      ensures Valid() && (z == old(z) || fresh(z))
      ensures var r := ReadPlain(s, [], sep); r.field == Some(Text()) && term == r.term && Left() == r.rest
    {
      var c := first;
      ghost var t := s;
      while c != EOF && c != sep && c != LF
        invariant Valid() && (z == old(z) || fresh(z)) && c == Next(t) && Left() == Tail(t) && (c == EOF <==> t == [])
        invariant ReadPlain(t, Text(), sep) == ReadPlain(s, [], sep)
        decreases |t|
      {
        AppendChar(c);
        t := Left();
        c := Getc();
      }
      if c == LF {
        line := line + 1;
        if n > 0 && z[n - 1] == CR {
          assert Text()[|Text()| - 1] == CR && Text()[..n - 1] == z[..n - 1];
          n := n - 1;
        }
      }
      term := c;
    }

    /** Reads one row: fields up to the first that a separator does not end. */
    method ReadColumns() returns (row: Row)
      requires Valid() && sep != EOF
      modifies this, z
      ensures Valid() && (row, Left()) == ReadRow(old(Left()), sep)
    {
      hide ReadField;
      row := [];
      ghost var s := Left();
      assert [] + ReadRow(s, sep).0 == ReadRow(s, sep).0;
      FieldShorter(s, sep);
      var ok := ReadOneField();
      while ok
        invariant Valid() && (z == old(z) || fresh(z))
        invariant var r := ReadField(s, sep);
                  && ok == r.field.Some? && (ok ==> Text() == r.field.value) && term == r.term && Left() == r.rest
                  && (ok ==> |r.rest| < |s|)
        invariant ReadRow(old(Left()), sep) == (row + ReadRow(s, sep).0, ReadRow(s, sep).1)
        decreases |s|
      {
        RowStep(s, sep, row);
        row := row + [Text()];
        if term != sep {
          return;
        }
        s := Left();
        FieldShorter(s, sep);
        ok := ReadOneField();
      }
      assert row + [] == row;
    }
  }

  // ---------------------------------------------------------------- reading back what was written

  /** A separator the reader can tell from quotes and row ends. */
  predicate SepOk(sep: int) { 0 < sep < 256 && sep != QUOTE && sep != CR && sep != LF }

  predicate Bytes(z: seq<int>) { forall i :: 0 <= i < |z| ==> 0 < z[i] < 256 }

  /** What can follow a field: a separator, a row end of either kind, or the end of the file. */
  predicate Ending(t: seq<int>, sep: int, rest: seq<int>) {
    t == [sep] || t == [LF] || t == [CR, LF] || (t == [] && rest == [])
  }

  function TermOf(t: seq<int>): int { if t == [] then EOF else t[|t| - 1] }

  /** Inside the quotes every character comes back, and no quote looks like the closing one. */
  lemma {:induction false} QuotedBody(w: seq<int>, tail: seq<int>, z: seq<int>, pc: int, ppc: int, sep: int)
    returns (pc': int, ppc': int)
    requires Bytes(w) && SepOk(sep) && pc != QUOTE && ppc != QUOTE
    ensures pc' != QUOTE && ppc' != QUOTE
    ensures ReadQuoted(Doubled(w) + tail, z, pc, ppc, sep) == ReadQuoted(tail, z + w, pc', ppc', sep)
    decreases |w|
  {
    if w == [] {
      assert Doubled(w) + tail == tail && z + w == z;
      pc', ppc' := pc, ppc;
    } else {
      var c, more := w[0], Doubled(w[1..]) + tail;
      assert z + [c] + w[1..] == z + w;
      if c == QUOTE {
        assert Doubled(w) + tail == [QUOTE] + ([QUOTE] + more);
        assert ([QUOTE] + ([QUOTE] + more))[1..] == [QUOTE] + more && ([QUOTE] + more)[1..] == more;
        pc', ppc' := QuotedBody(w[1..], tail, z + [c], 0, pc, sep);
      } else {
        assert Doubled(w) + tail == [c] + more && ([c] + more)[1..] == more;
        pc', ppc' := QuotedBody(w[1..], tail, z + [c], c, pc, sep);
      }
    }
  }

  lemma QuoteLast(z: seq<int>)
    ensures BeforeQuote(z + [QUOTE]) == z && BeforeQuote(z + [QUOTE] + [CR]) == z
  {
    assert (z + [QUOTE])[..|z|] == z;
    assert (z + [QUOTE] + [CR])[..|z| + 1] == z + [QUOTE];
  }

  /** The closing quote and what ends the field. */
  lemma QuotedEnd(t: seq<int>, rest: seq<int>, z: seq<int>, pc: int, ppc: int, sep: int)
    requires SepOk(sep) && pc != QUOTE && ppc != QUOTE && Ending(t, sep, rest)
    ensures ReadQuoted([QUOTE] + (t + rest), z, pc, ppc, sep) == Read(Some(z), TermOf(t), rest)
  {
    var s := t + rest;
    assert ([QUOTE] + s)[1..] == s;
    QuoteLast(z);
    assert ReadQuoted([QUOTE] + s, z, pc, ppc, sep) == ReadQuoted(s, z + [QUOTE], QUOTE, pc, sep);
    if t == [CR, LF] {
      assert s == [CR] + ([LF] + rest) && s[1..] == [LF] + rest && ([LF] + rest)[1..] == rest;
      assert ReadQuoted(s, z + [QUOTE], QUOTE, pc, sep) == ReadQuoted([LF] + rest, z + [QUOTE] + [CR], CR, QUOTE, sep);
    } else if t != [] {
      assert s[1..] == rest;
    }
  }

  lemma {:induction false} PlainBody(w: seq<int>, tail: seq<int>, z: seq<int>, sep: int)
    requires forall i :: 0 <= i < |w| ==> !NeedsQuote(w[i]) && w[i] != sep
    ensures ReadPlain(w + tail, z, sep) == ReadPlain(tail, z + w, sep)
    decreases |w|
  {
    if w == [] {
      assert w + tail == tail && z + w == z;
    } else {
      assert (w + tail)[0] == w[0] && (w + tail)[1..] == w[1..] + tail;
      PlainBody(w[1..], tail, z + [w[0]], sep);
      assert z + [w[0]] + w[1..] == z + w;
    }
  }

  lemma PlainEnd(t: seq<int>, rest: seq<int>, z: seq<int>, sep: int)
    requires SepOk(sep) && Ending(t, sep, rest) && Plain(z, sep)
    ensures ReadPlain(t + rest, z, sep) == Read(Some(z), TermOf(t), rest)
  {
    var s := t + rest;
    assert z[|z| - 1] != CR;
    if t == [CR, LF] {
      assert s[1..] == [LF] + rest && ([LF] + rest)[1..] == rest;
      assert (z + [CR])[..|z|] == z;
      assert ReadPlain(s, z, sep) == ReadPlain([LF] + rest, z + [CR], sep);
    } else if t != [] {
      assert s[1..] == rest;
    }
  }

  lemma PlainRoundTrip(z: seq<int>, sep: int, t: seq<int>, rest: seq<int>)
    requires Plain(z, sep) && SepOk(sep) && Ending(t, sep, rest)
    ensures ReadField(z + (t + rest), sep) == Read(Some(z), TermOf(t), rest)
  {
    hide ReadPlain, ReadQuoted, Ending;
    PlainBody(z, t + rest, [], sep);
    assert [] + z == z;
    PlainEnd(t, rest, z, sep);
    assert (z + (t + rest))[0] == z[0];
  }

  lemma QuotedRoundTrip(z: seq<int>, sep: int, t: seq<int>, rest: seq<int>)
    requires Bytes(z) && SepOk(sep) && Ending(t, sep, rest)
    ensures ReadField([QUOTE] + (Doubled(z) + ([QUOTE] + (t + rest))), sep) == Read(Some(z), TermOf(t), rest)
  {
    hide ReadPlain, ReadQuoted, Ending, Bytes, SepOk, Doubled;
    var tail := [QUOTE] + (t + rest);
    var s := [QUOTE] + (Doubled(z) + tail);
    assert s[0] == QUOTE && s[1..] == Doubled(z) + tail;
    var pc, ppc := QuotedBody(z, tail, [], 0, 0, sep);
    assert [] + z == z;
    QuotedEnd(t, rest, z, pc, ppc, sep);
  }

  /** Whatever the field holds and however it ends, it is read back. */
  lemma FieldRoundTrip(z: seq<int>, sep: int, t: seq<int>, rest: seq<int>)
    requires Bytes(z) && SepOk(sep) && Ending(t, sep, rest)
    ensures ReadField(Field(z, sep) + t + rest, sep) == Read(Some(z), TermOf(t), rest)
  {
    hide ReadField, Doubled, Bytes, Ending, SepOk, Plain;
    if Plain(z, sep) {
      assert z + t + rest == z + (t + rest);
      PlainRoundTrip(z, sep, t, rest);
    } else {
      assert [QUOTE] + Doubled(z) + [QUOTE] + t + rest == [QUOTE] + (Doubled(z) + ([QUOTE] + (t + rest)));
      QuotedRoundTrip(z, sep, t, rest);
    }
  }

  /** A field is written bare exactly when it is not empty and has only visible ASCII characters,
      none of them a quotation mark, an apostrophe or the separator; else it stands in quotation
      marks. */
  lemma FieldBare(z: seq<int>, sep: int)
    ensures Field(z, sep) == z <==>
            z != [] && forall i :: 0 <= i < |z| ==>
              ' ' as int < z[i] <= '~' as int && z[i] != '\"' as int && z[i] != '\'' as int && z[i] != sep
    ensures Field(z, sep) == z || Field(z, sep) == ['\"' as int] + Doubled(z) + ['\"' as int]
  {
    DoubledLonger(z);
  }

  lemma {:induction false} DoubledLonger(z: seq<int>)
    ensures |Doubled(z)| >= |z|
  {
    if z != [] {
      DoubledLonger(z[1..]);
    }
  }

  lemma {:induction false} BareBody(w: seq<int>, tail: seq<int>, z: seq<int>, sep: int)
    requires sep !in w && LF !in w
    ensures ReadPlain(w + tail, z, sep) == ReadPlain(tail, z + w, sep)
    decreases |w|
  {
    if w == [] {
      assert w + tail == tail && z + w == z;
    } else {
      assert (w + tail)[0] == w[0] && (w + tail)[1..] == w[1..] + tail;
      BareBody(w[1..], tail, z + [w[0]], sep);
      assert z + [w[0]] + w[1..] == z + w;
    }
  }

  lemma BareEnd(t: seq<int>, rest: seq<int>, z: seq<int>, sep: int)
    requires SepOk(sep) && Ending(t, sep, rest)
    ensures ReadPlain(t + rest, z, sep) == Read(Some(if t == [LF] then DropCr(z) else z), TermOf(t), rest)
  {
    var s := t + rest;
    if t == [CR, LF] {
      assert s[1..] == [LF] + rest && ([LF] + rest)[1..] == rest;
      assert (z + [CR])[..|z|] == z;
      assert ReadPlain(s, z, sep) == ReadPlain([LF] + rest, z + [CR], sep);
    } else if t != [] {
      assert s[1..] == rest;
    }
  }

  /** A field that does not start with a quotation mark is read as it is, whoever has written it; a
      carriage return in front of the line feed that ends it belongs to the row end. */
  lemma BareRead(z: seq<int>, sep: int, t: seq<int>, rest: seq<int>)
    requires SepOk(sep) && Ending(t, sep, rest) && sep !in z && LF !in z && z + t != []
    requires z != [] ==> z[0] != '\"' as int
    ensures ReadField(z + (t + rest), sep) == Read(Some(if t == [LF] then DropCr(z) else z), TermOf(t), rest)
  {
    hide ReadPlain, ReadQuoted;
    BareBody(z, t + rest, [], sep);
    assert [] + z == z;
    BareEnd(t, rest, z, sep);
    assert z != [] ==> (z + (t + rest))[0] == z[0];
    assert z == [] ==> z + (t + rest) == t + rest;
  }

  // ---------------------------------------------------------------- rows and tables

  type Row = seq<seq<int>>

  /** A row as the shell writes it, with the given row end. */
  function WriteRow(row: Row, sep: int, end: seq<int>): seq<int>
    requires row != []
  {
    if |row| == 1 then Field(row[0], sep) + end
    else Field(row[0], sep) + [sep] + WriteRow(row[1..], sep, end)
  }

  function WriteTable(rows: seq<Row>, sep: int, end: seq<int>): seq<int> {
    if rows == [] then []
    else (if rows[0] == [] then [] else WriteRow(rows[0], sep, end)) + WriteTable(rows[1..], sep, end)
  }

  /** Reads the fields of one row: up to a field that a separator does not end. */
  function ReadRow(s: seq<int>, sep: int): (Row, seq<int>)
    decreases |s|
  {
    var r := ReadField(s, sep);
    if r.field.None? then ([], r.rest)
    else if r.term == sep && |r.rest| < |s| then
      var more := ReadRow(r.rest, sep);
      ([r.field.value] + more.0, more.1)
    else ([r.field.value], r.rest)
  }

  function ReadTable(s: seq<int>, sep: int): seq<Row>
    decreases |s|
  {
    if s == [] then []
    else
      var (row, rest) := ReadRow(s, sep);
      if |rest| < |s| then [row] + ReadTable(rest, sep) else [row]
  }

  predicate RowOk(row: Row) { row != [] && forall i :: 0 <= i < |row| ==> Bytes(row[i]) }

  predicate EndOk(end: seq<int>) { end == [LF] || end == [CR, LF] }

  lemma {:induction false} RowRoundTrip(row: Row, sep: int, end: seq<int>, rest: seq<int>)
    requires RowOk(row) && SepOk(sep) && EndOk(end)
    ensures ReadRow(WriteRow(row, sep, end) + rest, sep) == (row, rest)
    decreases |row|
  {
    hide ReadField, Field, Bytes;
    var s := WriteRow(row, sep, end) + rest;
    if |row| == 1 {
      assert s == Field(row[0], sep) + end + rest && row == [row[0]];
      FieldRoundTrip(row[0], sep, end, rest);
    } else {
      var more := WriteRow(row[1..], sep, end) + rest;
      assert s == Field(row[0], sep) + [sep] + more;
      FieldRoundTrip(row[0], sep, [sep], more);
      RowRoundTrip(row[1..], sep, end, rest);
      assert row == [row[0]] + row[1..];
    }
  }

  /** A table is read back with its fields and its row boundaries. */
  lemma {:induction false} TableRoundTrip(rows: seq<Row>, sep: int, end: seq<int>)
    requires SepOk(sep) && EndOk(end) && forall i :: 0 <= i < |rows| ==> RowOk(rows[i])
    ensures ReadTable(WriteTable(rows, sep, end), sep) == rows
    decreases |rows|
  {
    hide ReadRow, WriteRow, RowOk;
    if rows != [] {
      var rest := WriteTable(rows[1..], sep, end);
      RowFilled(rows[0]);
      RowRoundTrip(rows[0], sep, end, rest);
      RowNonempty(rows[0], sep, end);
      TableRoundTrip(rows[1..], sep, end);
      assert rows == [rows[0]] + rows[1..];
    }
  }

  lemma RowFilled(row: Row)
    requires RowOk(row)
    ensures row != []
  {
  }

  lemma {:induction false} RowNonempty(row: Row, sep: int, end: seq<int>)
    requires row != [] && EndOk(end)
    ensures WriteRow(row, sep, end) != []
    decreases |row|
  {
    if |row| > 1 {
      RowNonempty(row[1..], sep, end);
    }
  }

  lemma RowStep(s: seq<int>, sep: int, row: Row)
    requires ReadField(s, sep).field.Some? && |ReadField(s, sep).rest| < |s|
    ensures var r := ReadField(s, sep);
            if r.term == sep then
              && row + ReadRow(s, sep).0 == (row + [r.field.value]) + ReadRow(r.rest, sep).0
              && ReadRow(s, sep).1 == ReadRow(r.rest, sep).1
            else row + ReadRow(s, sep).0 == row + [r.field.value] && ReadRow(s, sep).1 == r.rest
  {
    hide ReadField;
    var r := ReadField(s, sep);
    if r.term == sep {
      RowAssociates(row, r.field.value, ReadRow(r.rest, sep).0);
    }
  }

  lemma RowAssociates(row: Row, f: seq<int>, more: Row)
    ensures row + ([f] + more) == (row + [f]) + more
  {
  }

  /** Reading a field takes something from the input. */
  lemma FieldShorter(s: seq<int>, sep: int)
    ensures ReadField(s, sep).field.Some? ==> |ReadField(s, sep).rest| < |s|
    ensures ReadField(s, sep).field.None? ==> s == [] && ReadField(s, sep).rest == []
  {
    if s != [] {
      QuotedShorter(s[1..], [], 0, 0, sep);
      PlainShorter(s, [], sep);
    }
  }

  lemma {:induction false} QuotedShorter(s: seq<int>, z: seq<int>, pc: int, ppc: int, sep: int)
    ensures ReadQuoted(s, z, pc, ppc, sep).field.Some? && |ReadQuoted(s, z, pc, ppc, sep).rest| <= |s|
    decreases |s|
  {
    if s != [] {
      QuotedShorter(s[1..], z, 0, ppc, sep);
      QuotedShorter(s[1..], z + [s[0]], s[0], pc, sep);
    }
  }

  lemma {:induction false} PlainShorter(s: seq<int>, z: seq<int>, sep: int)
    ensures ReadPlain(s, z, sep).field.Some? && (s != [] ==> |ReadPlain(s, z, sep).rest| < |s|)
    decreases |s|
  {
    if s != [] {
      PlainShorter(s[1..], z + [s[0]], sep);
    }
  }

  /** A row of the CSV output mode. */
  method OutputRow(row: Row, sep: int, end: seq<int>) returns (out: seq<int>)
    requires RowOk(row)
    ensures out == WriteRow(row, sep, end)
  {
    hide Field;
    out := [];
    var i := 0;
    while i < |row| - 1
      invariant 0 <= i < |row| && out + WriteRow(row[i..], sep, end) == WriteRow(row, sep, end)
    {
      var f := OutputCsv(row[i], sep, true);
      assert row[i..][0] == row[i] && row[i..][1..] == row[i + 1..];
      out := out + f;
      i := i + 1;
    }
    assert row[i..] == [row[i]];
    var f := OutputCsv(row[i], sep, false);
    assert Field(row[i], sep) + [] == Field(row[i], sep);
    out := out + f + end;
  }
}

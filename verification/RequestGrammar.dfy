/** The grammar of HTTP requests: the parser completes exactly the texts of well-formed requests. */
module RequestGrammar {
  import opened Wrappers
  import opened Request

  // ---------------------------------------------------------------- the alphabet

  /** Characters that are in tokens beside letters and digits. */
  predicate IsMark(c: char) { c in "!#$%&'*+-.^_`|~" }

  lemma Marks(c: char)
    ensures IsMark(c) <==>
            c == '!' || ('#' <= c <= '\'') || c == '*' || c == '+' || c == '-' || c == '.' || ('^' <= c <= '`')
              || c == '|' || c == '~'
  {
    var t := "!#$%&'*+-.^_`|~";
    assert |t| == 15 && t[0] == '!' && t[1] == '#' && t[2] == '$' && t[3] == '%' && t[4] == '&' && t[5] == '\''
           && t[6] == '*' && t[7] == '+';
    assert t[8] == '-' && t[9] == '.' && t[10] == '^' && t[11] == '_' && t[12] == '`' && t[13] == '|' && t[14] == '~';
  }

  lemma Specials(c: char)
    ensures IsSpecial(c) <==>
            c == '\t' || c == ' ' || c == '\"' || c == '(' || c == ')' || c == ',' || c == '/' || (':' <= c <= '@')
              || ('[' <= c <= ']') || c == '{' || c == '}'
  {
    var s := "()<>@,;:\\\"/[]?={} \t";
    assert |s| == 19 && s[0] == '(' && s[1] == ')' && s[2] == '<' && s[3] == '>' && s[4] == '@' && s[5] == ','
           && s[6] == ';' && s[7] == ':' && s[8] == '\\' && s[9] == '\"';
    assert s[10] == '/' && s[11] == '[' && s[12] == ']' && s[13] == '?' && s[14] == '=' && s[15] == '{'
           && s[16] == '}' && s[17] == ' ' && s[18] == '\t';
  }

  /** The characters of tokens, as in section 2.2 of RFC 2616: letters, digits, and
      ! # $ % & ' * + - . ^ _ ` | ~ . */
  lemma TokenChars(c: char)
    ensures IsToken(c) <==> '0' <= c <= '9' || 'A' <= c <= 'Z' || 'a' <= c <= 'z' || IsMark(c)
    ensures IsCtl(c) <==> c < ' ' || c as int == 127
  {
    hide IsMark, IsSpecial;
    Marks(c);
    Specials(c);
  }

  // ---------------------------------------------------------------- what has been read

  /** The parts of a request read so far, with the header line being read. */
  datatype Part = Part(method_: string, uri: string, major: string, minor: string, lines: seq<Line>, cur: Line)

  /** The version read so far. */
  ghost predicate VersionOk(state: State, version: string, p: Part) {
    match state
    case VersionH => version == ""
    case VersionT1 => version == "H"
    case VersionT2 => version == "HT"
    case VersionP => version == "HTT"
    case VersionSlash => version == "HTTP"
    case MajorStart => version == "HTTP/"
    case Major => Number(p.major) && version == "HTTP/" + p.major
    case MinorStart => Number(p.major) && version == "HTTP/" + p.major + ['.']
    case _ => Number(p.major) && Number(p.minor) && version == "HTTP/" + p.major + ['.'] + p.minor
  }

  predicate InVersion(state: State) {
    state in {VersionH, VersionT1, VersionT2, VersionP, VersionSlash, MajorStart, Major, MinorStart, Minor, Newline1}
  }

  predicate InHead(state: State) { state in {LineStart, Lws, Name, Space, Value, Newline2, Newline3} }

  /** The request line as read. */
  ghost predicate LineRead(r: Req, p: Part) {
    && Tokens(p.method_) && r.method_ == p.method_ && Plain(p.uri) && ' ' !in p.uri && r.uri == p.uri
    && VersionOk(r.state, r.version, p)
  }

  ghost function LineSoFar(r: Req): string { r.method_ + [' '] + r.uri + [' '] + r.version }

  /** A header line up to its end. */
  function Piece(l: Line): string {
    match l
    case New(name, value) => name + [':'] + [' '] + value
    case Fold(blank, text) => blank + text
  }

  /** What the text of the line being read is. */
  ghost function CurText(state: State, l: Line): string {
    match state
    case Name => if l.New? then l.name else ""
    case Space => if l.New? then l.name + [':'] else ""
    case Value => Piece(l)
    case Lws => if l.Fold? then l.blank else ""
    case Newline2 => Piece(l) + ['\r']
    case Newline3 => ['\r']
    case _ => ""
  }

  ghost predicate CurOk(state: State, p: Part) {
    match state
    case Name => p.cur.New? && Tokens(p.cur.name) && p.cur.value == ""
    case Space => p.cur.New? && Tokens(p.cur.name) && p.cur.value == ""
    case Value => LineOk(p.cur) && (p.cur.Fold? ==> p.cur.text != "" && p.lines != [])
    case Lws => p.cur.Fold? && Blanks(p.cur.blank) && p.cur.text == "" && p.lines != []
    case Newline2 => LineOk(p.cur) && (p.cur.Fold? ==> p.lines != [])
    case _ => true
  }

  predicate WithCur(state: State) { state in {Name, Space, Value, Lws, Newline2} }

  /** The headers read so far. */
  ghost predicate HeadRead(r: Req, p: Part) {
    && LinesOk(p.lines) && CurOk(r.state, p)
    && r.headers == HeadersOf(if WithCur(r.state) then p.lines + [p.cur] else p.lines)
    && r.raw == LineSoFar(r) + ['\r'] + ['\n'] + HeaderText(p.lines) + CurText(r.state, p.cur)
  }

  /** The object holds the parts, and the raw text is those parts written out. */
  ghost predicate Shaped(r: Req, p: Part) {
    match r.state
    case MethodStart => r == Start(r.remaining)
    case Method =>
      Tokens(p.method_) && r == Start(r.remaining).(state := Method, method_ := p.method_, raw := p.method_)
    case Uri =>
      && Tokens(p.method_) && Plain(p.uri) && ' ' !in p.uri
      && r == Start(r.remaining).(state := Uri, method_ := p.method_, uri := p.uri, raw := p.method_ + [' '] + p.uri)
    case Body =>
      && LineRead(r, p) && LinesOk(p.lines) && r.headers == HeadersOf(p.lines)
      && r.raw == LineSoFar(r) + ['\r'] + ['\n'] + HeaderText(p.lines) + ['\r'] + ['\n'] + r.body
    case _ =>
      && LineRead(r, p) && r.body == ""
      && if InVersion(r.state) then
        r.headers == [] && r.raw == LineSoFar(r) + (if r.state == Newline1 then ['\r'] else "")
      else HeadRead(r, p)
  }

  // ---------------------------------------------------------------- one more character

  lemma LineStep(r: Req, p: Part, c: char) returns (p': Part)
    requires Ok(r) && Shaped(r, p) && Next(r, c).0.Indeterminate? && r.state in {MethodStart, Method, Uri}
    ensures Shaped(Next(r, c).1, p')
  {
    hide IsToken, IsCtl;
    p' := p;
    match r.state
    case MethodStart => p' := p.(method_ := [c], uri := "");
    case Method =>
      if c == ' ' {
        p' := p.(uri := "");
        assert p.method_ + [' '] + "" == p.method_ + [' '];
      } else {
        p' := p.(method_ := p.method_ + [c]);
      }
    case Uri =>
      if c == ' ' {
        assert p.method_ + [' '] + p.uri + [' '] + "" == p.method_ + [' '] + p.uri + [' '];
      } else {
        p' := p.(uri := p.uri + [c]);
        assert p.method_ + [' '] + p.uri + [c] == p.method_ + [' '] + (p.uri + [c]);
      }
  }

  /** A character of the version goes to the end of both texts. */
  lemma LinePush(m: string, u: string, v: string, c: char)
    ensures m + [' '] + u + [' '] + v + [c] == m + [' '] + u + [' '] + (v + [c])
    ensures m + [' '] + u + [' '] + v + "" == m + [' '] + u + [' '] + v
  {
  }

  lemma VersionPush(r: Req, p: Part, c: char) returns (p': Part)
    requires Ok(r) && LineRead(r, p) && Next(r, c).0.Indeterminate? && InVersion(r.state) && r.state != Newline1
    ensures p' == p.(major := p'.major, minor := p'.minor)
    ensures var q := Next(r, c).1;
            && LineRead(q, p') && q.headers == r.headers && q.body == r.body && q.raw == r.raw + [c]
            && InVersion(q.state)
            && (if q.state == Newline1 then q.version == r.version && c == '\r' else q.version == r.version + [c])
  {
    hide IsToken, IsCtl, Tokens, Plain;
    p' := p;
    match r.state
    case MajorStart => p' := p.(major := [c]);
    case Major =>
      if c != '.' {
        p' := p.(major := p.major + [c]);
        assert "HTTP/" + p.major + [c] == "HTTP/" + (p.major + [c]);
      }
    case MinorStart => p' := p.(minor := [c]);
    case Minor =>
      if c != '\r' {
        p' := p.(minor := p.minor + [c]);
        assert "HTTP/" + p.major + ['.'] + p.minor + [c] == "HTTP/" + p.major + ['.'] + (p.minor + [c]);
      }
    case VersionH => assert "" + ['H'] == "H";
    case _ =>
  }

  lemma VersionStepped(r: Req, p: Part, c: char) returns (p': Part)
    requires Ok(r) && Shaped(r, p) && Next(r, c).0.Indeterminate? && InVersion(r.state)
    ensures Shaped(Next(r, c).1, p')
  {
    hide LineRead, IsDigit;
    if r.state == Newline1 {
      p' := p.(lines := []);
      LineReadOn(r, p, p', Next(r, c).1);
      var l := LineSoFar(r);
      assert l + ['\r'] + ['\n'] + "" + "" == l + ['\r'] + ['\n'];
    } else {
      p' := VersionPush(r, p, c);
      LinePush(r.method_, r.uri, r.version, c);
      LineKept(r, p, Next(r, c).1, p');
    }
  }

  lemma LineKept(r: Req, p: Part, q: Req, p': Part)
    requires LineRead(r, p) && LineRead(q, p') && p'.method_ == p.method_ && p'.uri == p.uri
    ensures q.method_ == r.method_ && q.uri == r.uri
  {
  }

  /** Behind the request line its parts stay. */
  lemma LineReadOn(r: Req, p: Part, p': Part, q: Req)
    requires LineRead(r, p) && (r.state == Newline1 || InHead(r.state)) && (InHead(q.state) || q.state == Body)
    requires q.method_ == r.method_ && q.uri == r.uri && q.version == r.version
    requires p'.method_ == p.method_ && p'.uri == p.uri && p'.major == p.major && p'.minor == p.minor
    ensures LineRead(q, p') && LineSoFar(q) == LineSoFar(r)
  {
  }

  /** The last header of the lines, which the line being read is about. */
  lemma CurHeaders(lines: seq<Line>, cur: Line)
    ensures var h, g := HeadersOf(lines), HeadersOf(lines + [cur]);
            && (cur.New? ==> g == h + [(cur.name, cur.value)])
            && (cur.Fold? ==> if h == [] then g == h else g == h[|h| - 1 := (h[|h| - 1].0, h[|h| - 1].1 + cur.text)])
  {
    assert (lines + [cur])[..|lines|] == lines;
  }

  lemma HeaderGrows(lines: seq<Line>, cur: Line)
    ensures HeaderText(lines + [cur]) == HeaderText(lines) + LineEnd(cur)
  {
    assert (lines + [cur])[..|lines|] == lines;
  }

  lemma LinesGrow(lines: seq<Line>, cur: Line)
    requires LinesOk(lines) && LineOk(cur) && (cur.Fold? ==> lines != [])
    ensures LinesOk(lines + [cur])
  {
    hide LineOk;
  }

  lemma TextGrows(a: string, b: string, c: char)
    ensures a + b + [c] == a + (b + [c]) && a + "" == a && "" + [c] == [c]
  {
  }

  /** The line being read has become cur with character c, in state `next`. */
  ghost predicate CurRead(p: Part, before: string, c: char, cur: Line, q: Req) {
    && CurOk(q.state, p.(cur := cur)) && WithCur(q.state) && CurText(q.state, cur) == before + [c]
    && q.headers == HeadersOf(p.lines + [cur])
  }

  /** A character of a header line goes to the end of the line being read. */
  lemma CurStep(r: Req, p: Part, c: char) returns (cur: Line)
    requires Ok(r) && HeadRead(r, p) && Next(r, c).0.Indeterminate? && r.state in {LineStart, Name, Space, Value, Lws}
    requires !(r.state == LineStart && c == '\r')
    ensures CurRead(p, if r.state == LineStart then "" else CurText(r.state, p.cur), c, cur, Next(r, c).1)
  {
    hide Ok, HeadRead, CurRead, Next, CurText;
    if r.state == LineStart {
      cur := FirstStep(r, p, c);
    } else if r.state in {Name, Space} {
      cur := NameStep(r, p, c);
    } else if r.state == Value {
      cur := ValueStep(r, p, c);
    } else {
      cur := LwsStep(r, p, c);
    }
  }

  lemma FirstStep(r: Req, p: Part, c: char) returns (cur: Line)
    requires Ok(r) && HeadRead(r, p) && Next(r, c).0.Indeterminate? && r.state == LineStart && c != '\r'
    ensures CurRead(p, "", c, cur, Next(r, c).1)
  {
    hide IsToken, IsCtl, BodyLength, HeaderValue, Stoull, HeaderText, HeadersOf, LineSoFar;
    cur := if r.headers != [] && BlankChar(c) then Fold([c], "") else New([c], "");
    CurHeaders(p.lines, cur);
    SomeLines(p.lines);
    FoldNothing(r.headers);
  }

  lemma NameStep(r: Req, p: Part, c: char) returns (cur: Line)
    requires Ok(r) && HeadRead(r, p) && Next(r, c).0.Indeterminate? && r.state in {Name, Space}
    ensures CurRead(p, CurText(r.state, p.cur), c, cur, Next(r, c).1)
  {
    hide IsToken, IsCtl, BodyLength, HeaderValue, Stoull, HeaderText, HeadersOf, LineSoFar;
    cur := p.cur;
    CurHeaders(p.lines, p.cur);
    if r.state == Space {
      assert p.cur.name + [':'] + [' '] + "" == p.cur.name + [':'] + [' '];
    } else if c != ':' {
      cur := New(p.cur.name + [c], "");
      CurHeaders(p.lines, cur);
    }
  }

  lemma ValueStep(r: Req, p: Part, c: char) returns (cur: Line)
    requires Ok(r) && HeadRead(r, p) && Next(r, c).0.Indeterminate? && r.state == Value
    ensures CurRead(p, CurText(r.state, p.cur), c, cur, Next(r, c).1)
  {
    hide IsToken, IsCtl, BodyLength, HeaderValue, Stoull, HeaderText, HeadersOf, LineSoFar, LineOk, Piece;
    cur := p.cur;
    if c != '\r' {
      cur := CurPush(p.cur, c);
      ValueGrows(p.cur, c);
      LastPush(p.lines, p.cur, c);
    }
  }

  lemma LwsStep(r: Req, p: Part, c: char) returns (cur: Line)
    requires Ok(r) && HeadRead(r, p) && Next(r, c).0.Indeterminate? && r.state == Lws
    ensures CurRead(p, CurText(r.state, p.cur), c, cur, Next(r, c).1)
  {
    hide IsToken, IsCtl, BodyLength, HeaderValue, Stoull, HeaderText, HeadersOf, LineSoFar;
    cur := p.cur;
    CurHeaders(p.lines, p.cur);
    if c == '\r' {
      assert p.cur.blank + "" == p.cur.blank;
    } else if BlankChar(c) {
      cur := Fold(p.cur.blank + [c], "");
      CurHeaders(p.lines, cur);
    } else {
      cur := Fold(p.cur.blank, [c]);
      LastPush(p.lines, p.cur, c);
      assert "" + [c] == [c];
    }
  }

  function CurPush(l: Line, c: char): Line {
    match l
    case New(name, value) => New(name, value + [c])
    case Fold(blank, text) => Fold(blank, text + [c])
  }

  lemma SomeLines(lines: seq<Line>)
    ensures HeadersOf(lines) != [] ==> lines != []
  {
  }

  lemma FoldNothing(h: Headers)
    ensures h != [] ==> h[|h| - 1 := (h[|h| - 1].0, h[|h| - 1].1 + "")] == h
  {
    assert h != [] ==> h[|h| - 1].1 + "" == h[|h| - 1].1;
  }

  lemma ValueGrows(l: Line, c: char)
    requires LineOk(l) && !IsCtl(c) && (l.Fold? ==> l.text != "")
    ensures LineOk(CurPush(l, c)) && CurText(Value, CurPush(l, c)) == CurText(Value, l) + [c]
  {
    match l
    case New(name, value) => TextGrows(name + [':'] + [' '], value, c);
    case Fold(blank, text) => TextGrows(blank, text, c);
  }

  lemma LastPush(lines: seq<Line>, l: Line, c: char)
    requires HeadersOf(lines + [l]) != []
    ensures HeadersOf(lines + [CurPush(l, c)]) == ValuePush(HeadersOf(lines + [l]), c)
  {
    CurHeaders(lines, l);
    CurHeaders(lines, CurPush(l, c));
    if l.Fold? && HeadersOf(lines) != [] {
      var h := HeadersOf(lines);
      assert h[|h| - 1].1 + l.text + [c] == h[|h| - 1].1 + (l.text + [c]);
    }
  }

  lemma HeadStep(r: Req, p: Part, c: char) returns (p': Part)
    requires Ok(r) && Shaped(r, p) && Next(r, c).0.Indeterminate? && InHead(r.state)
    ensures Shaped(Next(r, c).1, p')
  {
    hide Ok, Next, Shaped;
    if r.state == Newline2 {
      p' := LineEndStep(r, p, c);
    } else if r.state == Newline3 || (r.state == LineStart && c == '\r') {
      p' := BlankStep(r, p, c);
    } else {
      p' := InLineStep(r, p, c);
    }
  }

  lemma LineEndStep(r: Req, p: Part, c: char) returns (p': Part)
    requires Ok(r) && Shaped(r, p) && Next(r, c).0.Indeterminate? && r.state == Newline2
    ensures Shaped(Next(r, c).1, p')
  {
    hide LineRead, LineSoFar, HeadersOf, HeaderText, BodyLength, HeaderValue, Stoull, CurOk, CurText, LineEnd;
    CurTexts(p.cur);
    p' := p.(lines := p.lines + [p.cur]);
    CurNewline(p);
    LinesGrow(p.lines, p.cur);
    HeaderGrows(p.lines, p.cur);
    NewlineText(LineSoFar(r) + ['\r'] + ['\n'], HeaderText(p.lines), p.cur);
    FreeCur(p');
    LineReadOn(r, p, p', Next(r, c).1);
  }

  lemma BlankStep(r: Req, p: Part, c: char) returns (p': Part)
    requires Ok(r) && Shaped(r, p) && Next(r, c).0.Indeterminate?
    requires r.state == Newline3 || (r.state == LineStart && c == '\r')
    ensures Shaped(Next(r, c).1, p')
  {
    hide LineRead, LineSoFar, HeadersOf, HeaderText, BodyLength, HeaderValue, Stoull, CurOk, CurText, LineEnd;
    p' := p;
    var head := LineSoFar(r) + ['\r'] + ['\n'] + HeaderText(p.lines);
    CurTexts(p.cur);
    FreeCur(p);
    assert head + ['\r'] + ['\n'] + "" == head + ['\r'] + ['\n'];
    assert head + "" == head;
    LineReadOn(r, p, p', Next(r, c).1);
  }

  lemma InLineStep(r: Req, p: Part, c: char) returns (p': Part)
    requires Ok(r) && Shaped(r, p) && Next(r, c).0.Indeterminate? && r.state in {LineStart, Name, Space, Value, Lws}
    requires !(r.state == LineStart && c == '\r')
    ensures Shaped(Next(r, c).1, p')
  {
    hide LineRead, LineSoFar, HeadersOf, HeaderText, CurOk, CurText, LineEnd, Next, Ok;
    var head := LineSoFar(r) + ['\r'] + ['\n'] + HeaderText(p.lines);
    CurTexts(p.cur);
    var cur := CurStep(r, p, c);
    p' := p.(cur := cur);
    TextGrows(head, CurText(r.state, p.cur), c);
    HeadGoesOn(r, c);
    LineReadOn(r, p, p', Next(r, c).1);
  }

  /** In a header line only the headers and the raw text change. */
  lemma HeadGoesOn(r: Req, c: char)
    requires Ok(r) && Next(r, c).0.Indeterminate? && r.state in {LineStart, Name, Space, Value, Lws}
    ensures var q := Next(r, c).1;
            && q.method_ == r.method_ && q.uri == r.uri && q.version == r.version && q.body == r.body == ""
            && q.raw == r.raw + [c] && InHead(q.state)
  {
    hide IsToken, IsCtl;
  }

  lemma FreeCur(p: Part)
    ensures CurOk(LineStart, p) && CurOk(Newline3, p)
  {
  }

  lemma CurTexts(l: Line)
    ensures CurText(LineStart, l) == "" && CurText(Newline3, l) == ['\r']
  {
  }

  lemma CurNewline(p: Part)
    requires CurOk(Newline2, p)
    ensures LineOk(p.cur) && (p.cur.Fold? ==> p.lines != [])
  {
  }

  lemma NewlineText(a: string, b: string, l: Line)
    ensures a + b + CurText(Newline2, l) + ['\n'] == a + (b + LineEnd(l)) + ""
  {
    assert CurText(Newline2, l) + ['\n'] == LineEnd(l);
  }

  lemma BodyStep(r: Req, p: Part, c: char)
    requires Ok(r) && Shaped(r, p) && r.state == Body
    ensures Shaped(Next(r, c).1, p)
  {
    hide HeaderText, HeadersOf, Tokens, Plain, Number;
    TextGrows(LineSoFar(r) + ['\r'] + ['\n'] + HeaderText(p.lines) + ['\r'] + ['\n'], r.body, c);
  }

  lemma Stepped(r: Req, p: Part, c: char) returns (p': Part)
    requires Ok(r) && Shaped(r, p) && Next(r, c).0.Indeterminate?
    ensures Shaped(Next(r, c).1, p')
  {
    hide Next, Ok, Shaped;
    if r.state in {MethodStart, Method, Uri} {
      p' := LineStep(r, p, c);
    } else if InVersion(r.state) {
      p' := VersionStepped(r, p, c);
    } else if InHead(r.state) {
      p' := HeadStep(r, p, c);
    } else {
      p' := p;
      BodyStep(r, p, c);
    }
  }

  // ---------------------------------------------------------------- whole requests

  /** Whatever the parser has read without an error has the shape of a request. */
  lemma {:induction false} EatShaped(rest: nat, t: string) returns (p: Part)
    requires Ok(Start(rest)) && Eat(Start(rest), t).Some?
    ensures Shaped(Eat(Start(rest), t).value, p) && Eat(Start(rest), t).value.raw == t
    decreases |t|
  {
    hide Next, Ok;
    if t == "" {
      p := Part("", "", "", "", [], New("", ""));
    } else {
      var n := |t| - 1;
      assert t == t[..n] + [t[n]];
      EatPrefix(Start(rest), t[..n], [t[n]]);
      p := EatShaped(rest, t[..n]);
      var r := Eat(Start(rest), t[..n]).value;
      EatJoin(Start(rest), t[..n], [t[n]]);
      EatLast(r, t[n]);
      NextOk(r, t[n]);
      p := Stepped(r, p, t[n]);
    }
  }

  lemma EatLast(r: Req, c: char)
    requires Ok(r)
    ensures Eat(r, [c]) == if Next(r, c).0.Indeterminate? then Some(Next(r, c).1) else None
  {
    hide Next, Ok;
    NextOk(r, c);
    assert [c][1..] == "";
  }

  ghost predicate IsFrom(done: Req, m: Message) {
    && done.method_ == m.method_ && done.uri == m.uri && done.version == VersionText(m)
    && done.headers == HeadersOf(m.lines) && done.body == m.body
  }

  lemma LastChar(r: Req, p: Part, c: char, done: Req) returns (m: Message)
    requires Ok(r) && Shaped(r, p) && Next(r, c) == (Good, done)
    ensures WellFormed(m) && r.raw + [c] == Print(m) && IsFrom(done, m)
  {
    hide HeaderText, HeadersOf, BodyLength, HeaderValue, Stoull, Tokens, Plain, Number, LinesOk, Next, Ok;
    OnlyThere(r, c);
    NextOk(r, c);
    m := Message(p.method_, p.uri, p.major, p.minor, p.lines, done.body);
    var l := r.method_ + [' '] + r.uri + [' '];
    var head := LineSoFar(r) + ['\r'] + ['\n'] + HeaderText(p.lines);
    LineJoins(l, p.major, p.minor);
    GoodKeeps(r, c, done);
    if r.state == Body {
      TextGrows(head + ['\r'] + ['\n'], r.body, c);
    } else {
      assert head + ['\r'] + ['\n'] + "" == head + ['\r'] + ['\n'];
    }
  }

  lemma LineJoins(l: string, major: string, minor: string)
    ensures l + ("HTTP/" + major + ['.'] + minor) == l + "HTTP/" + major + ['.'] + minor
  {
  }

  /** A request is complete only behind the blank line or with its body. */
  lemma OnlyThere(r: Req, c: char)
    requires Ok(r) && Next(r, c).0.Good?
    ensures (r.state == Newline3 && c == '\n') || r.state == Body
  {
    hide IsToken, IsCtl, IsDigit;
  }

  lemma GoodKeeps(r: Req, c: char, done: Req)
    requires Ok(r) && Next(r, c) == (Good, done)
    ensures done.method_ == r.method_ && done.uri == r.uri && done.version == r.version && done.headers == r.headers
    ensures done.body == if r.state == Body then r.body + [c] else r.body
    ensures r.state != Body ==> r.body == ""
  {
    hide IsToken, IsCtl, IsDigit;
  }

  /** A text that completes a request is the text of a message. */
  lemma FromText(rest: nat, t: string, done: Req) returns (m: Message)
    requires Ok(Start(rest)) && Completes(Start(rest), t, done)
    ensures WellFormed(m) && t == Print(m) && IsFrom(done, m)
  {
    hide WellFormed, Print, IsFrom, Eat, Next, Shaped;
    var n := |t| - 1;
    var p := EatShaped(rest, t[..n]);
    m := LastChar(Eat(Start(rest), t[..n]).value, p, t[n], done);
    assert t[..n] + [t[n]] == t;
  }

  /** The grammar: the parser completes a request with the last character of a text exactly when the
      text is that of a well-formed request - and then it has the parts of that request. */
  lemma Grammar(rest: nat, t: string)
    ensures Ok(Start(rest))
    ensures (exists done :: Completes(Start(rest), t, done)) <==> (exists m :: WellFormed(m) && t == Print(m))
    ensures forall done :: Completes(Start(rest), t, done) ==>
              exists m :: WellFormed(m) && t == Print(m) && IsFrom(done, m)
  {
    hide WellFormed, Print, IsFrom, Completes;
    forall done | Completes(Start(rest), t, done)
      ensures exists m :: WellFormed(m) && t == Print(m) && IsFrom(done, m)
    {
      var m := FromText(rest, t, done);
    }
    if m :| WellFormed(m) && t == Print(m) {
      var done := PrintedCompletes(rest, m);
    }
  }

  // ---------------------------------------------------------------- the announced length

  /** A number in decimal digits. */
  function Shown(n: nat): string { (if n < 10 then "" else Shown(n / 10)) + [('0' as int + n % 10) as char] }

  lemma {:induction false} ShownDigits(n: nat)
    ensures Shown(n) != "" && (forall i :: 0 <= i < |Shown(n)| ==> IsDigit(Shown(n)[i])) && Decimal(Shown(n)) == n
  {
    var c := ('0' as int + n % 10) as char;
    if n >= 10 {
      ShownDigits(n / 10);
      assert Shown(n)[..|Shown(n)| - 1] == Shown(n / 10);
    } else {
      assert Shown(n) == [c] && [c][..0] == "";
    }
  }

  lemma {:induction false} AllDigits(s: string)
    requires forall i :: 0 <= i < |s| ==> IsDigit(s[i])
    ensures Digits(s) == |s|
  {
    if s != "" {
      AllDigits(s[1..]);
    }
  }

  /** A length in decimal digits is the length of the body. */
  lemma LengthRead(headers: Headers, n: nat)
    requires n < WORD64 && HeaderValue(headers, "Content-Length") == Shown(n)
    ensures BodyLength(headers) == n
  {
    hide Decimal, Digits, HeaderValue;
    var s := Shown(n);
    ShownDigits(n);
    AllDigits(s);
    assert s[..|s|] == s && IsDigit(s[0]);
  }

  ghost predicate FirstOf(headers: Headers, name: string, k: int) {
    0 <= k < |headers| && headers[k].0 == name && forall i :: 0 <= i < k ==> headers[i].0 != name
  }

  /** The value of a header is that of the first one of its name. */
  lemma {:induction false} HeaderFirst(headers: Headers, name: string)
    ensures (forall i :: 0 <= i < |headers| ==> headers[i].0 != name) ==> HeaderValue(headers, name) == ""
    ensures forall k :: FirstOf(headers, name, k) ==> HeaderValue(headers, name) == headers[k].1
  {
    if headers != [] {
      HeaderFirst(headers[1..], name);
      forall k | FirstOf(headers, name, k) && k > 0 ensures FirstOf(headers[1..], name, k - 1) {
        assert forall i :: 0 <= i < k - 1 ==> headers[1..][i] == headers[i + 1];
      }
    }
  }
}

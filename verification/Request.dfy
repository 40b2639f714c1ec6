/** The incremental HTTP request parser: one character at a time, across calls. */
module Request {
  import opened Wrappers

  datatype Result = Good | Bad | Indeterminate

  datatype State =
    | MethodStart | Method | Uri
    | VersionH | VersionT1 | VersionT2 | VersionP | VersionSlash
    | MajorStart | Major | MinorStart | Minor
    | Newline1 | LineStart | Lws | Name | Space | Value | Newline2 | Newline3 | Body

  type Headers = seq<(string, string)>

  const WORD64: int := 0x1_0000_0000_0000_0000

  /** The parser object as a value. */
  datatype Req = Req(state: State, remaining: nat, raw: string, method_: string, uri: string, version: string,
                     headers: Headers, body: string)
  {
    function Reset(): Req { Req(MethodStart, remaining, "", "", "", "", [], "") }
  }

  // ---------------------------------------------------------------- characters

  predicate IsChar(c: char) { c as int <= 127 }
  predicate IsCtl(c: char) { c as int <= 31 || c as int == 127 }
  predicate IsDigit(c: char) { '0' <= c <= '9' }
  predicate IsSpecial(c: char) { c in "()<>@,;:\\\"/[]?={} \t" }
  predicate IsToken(c: char) { IsChar(c) && !IsCtl(c) && !IsSpecial(c) }

  /** The value of the first header of a name, or nothing. */
  function HeaderValue(headers: Headers, name: string): string {
    if headers == [] then "" else if headers[0].0 == name then headers[0].1 else HeaderValue(headers[1..], name)
  }

  // ---------------------------------------------------------------- numbers (std::stoull)

  function Digits(s: string): (n: nat)
    ensures n <= |s|
  {
    if s == "" || !IsDigit(s[0]) then 0 else 1 + Digits(s[1..])
  }

  function Decimal(s: string): nat {
    if s == "" || !IsDigit(s[|s| - 1]) then 0 else 10 * Decimal(s[..|s| - 1]) + (s[|s| - 1] as int - '0' as int)
  }

  function SkipSpaces(s: string): string { if s != "" && s[0] == ' ' then SkipSpaces(s[1..]) else s }


  /** A number at the start of s: spaces, a sign, digits. None stands for an exception. */
  function Stoull(s: string): Option<nat> {
    var t := SkipSpaces(s);
    var u := if t != "" && (t[0] == '+' || t[0] == '-') then t[1..] else t;
    var v := Decimal(u[..Digits(u)]);
    if Digits(u) == 0 || v >= WORD64 then None
    else if t[0] == '-' then Some((WORD64 - v) % WORD64)
    else Some(v)
  }

  /** How many bytes of body the headers announce. */
  function BodyLength(headers: Headers): nat {
    match Stoull(HeaderValue(headers, "Content-Length"))
    case None => 0
    case Some(n) => n
  }

  // ---------------------------------------------------------------- one character

  /** The last header with c appended to its value. */
  function ValuePush(headers: Headers, c: char): Headers
    requires headers != []
  {
    var n := |headers| - 1;
    headers[n := (headers[n].0, headers[n].1 + [c])]
  }

  function NamePush(headers: Headers, c: char): Headers
    requires headers != []
  {
    var n := |headers| - 1;
    headers[n := (headers[n].0 + [c], headers[n].1)]
  }

  /** In a header line there is a header. */
  predicate InHeader(r: Req) {
    r.state in {Lws, Name, Space, Value} ==> r.headers != []
  }

  /** While the body is read, what is there and what remains add up to the announced length. */
  predicate InBody(r: Req) {
    if r.state.Body? then r.remaining > 0 && |r.body| + r.remaining == BodyLength(r.headers) else r.body == ""
  }

  predicate Ok(r: Req) { InHeader(r) && InBody(r) }

  /** Accept c if `good`, and go on in state `next`. */
  function On(r: Req, good: bool, next: State): (Result, Req) {
    if good then (Indeterminate, r.(state := next)) else (Bad, r)
  }

  function Next(r0: Req, c: char): (Result, Req)
    requires Ok(r0)
  {
    var r := r0.(raw := r0.raw + [c]);
    match r.state
    case MethodStart => On(r.(method_ := r.method_ + (if IsToken(c) then [c] else "")), IsToken(c), Method)
    case Method =>
      if c == ' ' then (Indeterminate, r.(state := Uri))
      else On(r.(method_ := r.method_ + (if IsToken(c) then [c] else "")), IsToken(c), Method)
    case Uri =>
      if c == ' ' then (Indeterminate, r.(state := VersionH))
      else On(r.(uri := r.uri + (if !IsCtl(c) then [c] else "")), !IsCtl(c), Uri)
    case VersionH => Version(r, c, c == 'H', VersionT1)
    case VersionT1 => Version(r, c, c == 'T', VersionT2)
    case VersionT2 => Version(r, c, c == 'T', VersionP)
    case VersionP => Version(r, c, c == 'P', VersionSlash)
    case VersionSlash => Version(r, c, c == '/', MajorStart)
    case MajorStart => Version(r, c, IsDigit(c), Major)
    case Major => if c == '.' then Version(r, c, true, MinorStart) else Version(r, c, IsDigit(c), Major)
    case MinorStart => Version(r, c, IsDigit(c), Minor)
    case Minor => if c == '\r' then (Indeterminate, r.(state := Newline1)) else Version(r, c, IsDigit(c), Minor)
    case Newline1 => On(r, c == '\n', LineStart)
    case LineStart =>
      if c == '\r' then (Indeterminate, r.(state := Newline3))
      else if r.headers != [] && (c == ' ' || c == '\t') then (Indeterminate, r.(state := Lws))
      else if !IsToken(c) then (Bad, r)
      else (Indeterminate, r.(headers := r.headers + [([c], "")], state := Name))
    case Lws =>
      if c == '\r' then (Indeterminate, r.(state := Newline2))
      else if c == ' ' || c == '\t' then (Indeterminate, r)
      else if IsCtl(c) then (Bad, r)
      else (Indeterminate, r.(headers := ValuePush(r.headers, c), state := Value))
    case Name =>
      if c == ':' then (Indeterminate, r.(state := Space))
      else if !IsToken(c) then (Bad, r)
      else (Indeterminate, r.(headers := NamePush(r.headers, c)))
    case Space => On(r, c == ' ', Value)
    case Value =>
      if c == '\r' then (Indeterminate, r.(state := Newline2))
      else if IsCtl(c) then (Bad, r)
      else (Indeterminate, r.(headers := ValuePush(r.headers, c)))
    case Newline2 => On(r, c == '\n', LineStart)
    case Newline3 =>
      if c != '\n' then (Bad, r)
      else
        (match Stoull(HeaderValue(r.headers, "Content-Length"))
         case None => (Good, r)
         case Some(n) => if n > 0 then (Indeterminate, r.(state := Body, remaining := n))
              else (Good, r.(remaining := 0)))
    case Body =>
      var r' := r.(body := r.body + [c], remaining := r.remaining - 1);
      (if r'.remaining > 0 then Indeterminate else Good, r')
  }

  function Version(r: Req, c: char, good: bool, next: State): (Result, Req) {
    On(r.(version := r.version + (if good then [c] else "")), good, next)
  }

  /** Every character keeps the invariants; when a request is complete, its body is as long as
      its headers announce. */
  lemma NextOk(r: Req, c: char)
    requires Ok(r)
    ensures var (res, r') := Next(r, c);
            && (res.Indeterminate? ==> Ok(r') && r'.raw == r.raw + [c])
            && (res.Good? ==> |r'.body| == BodyLength(r'.headers) && r'.raw == r.raw + [c])
            && Ok(r'.Reset())
  {
    hide IsToken, IsCtl, BodyLength;
    if r.state.Newline3? {
      BlankLine(r);
    } else if !r.state.Body? {
      HeadOk(r, c);
    }
  }

  lemma HeadOk(r: Req, c: char)
    requires Ok(r) && !r.state.Newline3? && !r.state.Body?
    ensures var (res, r') := Next(r, c);
            && !res.Good? && (res.Indeterminate? ==> Ok(r') && !r'.state.Body?) && r'.raw == r.raw + [c]
            && Ok(r'.Reset())
  {
    hide IsToken, IsCtl, BodyLength, Stoull, HeaderValue;
  }

  // ---------------------------------------------------------------- one call

  /** What one call does with its text: the outcome, the request if it is complete, and the
      parser left behind. What follows a complete or bad request is dropped. */
  function Feed(r: Req, text: string): (Result, Option<Req>, Req)
    requires Ok(r)
    decreases |text|
  {
    if text == "" then (Indeterminate, None, r)
    else
      var (res, r') := Next(r, text[0]);
      NextOk(r, text[0]);
      match res
      case Good => (Good, Some(r'), r'.Reset())
      case Bad => (Bad, None, r'.Reset())
      case Indeterminate => Feed(r', text[1..])
  }

  // ---------------------------------------------------------------- the parser object

  class Parser {
    var state: State
    var remaining: nat
    var raw: string
    var method_: string
    var uri: string
    var version: string
    var headers: Headers
    var body: string
    var result: Result

    function View(): Req
      reads this
    {
      Req(state, remaining, raw, method_, uri, version, headers, body)
    }

    constructor ()
      ensures View() == Start(0) && Ok(View())
    {
      state, remaining, raw, method_, uri, version, headers, body := MethodStart, 0, "", "", "", "", [], "";
      result := Indeterminate;
    }

    method Reset()
      modifies this`state, this`raw, this`method_, this`uri, this`version, this`headers, this`body
      ensures View() == old(View()).Reset()
    {
      state, raw, method_, uri, version, headers, body := MethodStart, "", "", "", "", [], "";
    }

    /** A character of the version. */
    method PushVersion(c: char, good: bool, next: State) returns (res: Result)
      modifies this`state, this`version
      ensures (res, View()) == Version(old(View()), c, good, next)
    {
      if !good {
        assert version + "" == version;
        return Bad;
      }
      state := next;
      version := version + [c];
      res := Indeterminate;
    }

    /** The character c of the request line. */
    method ConsumeLine(c: char) returns (res: Result)
      requires Ok(View()) && state in {MethodStart, Method, Uri, MajorStart, Major, MinorStart, Minor}
      modifies this
      ensures (res, View()) == Next(old(View()), c) && result == old(result)
    {
      raw := raw + [c];
      res := Indeterminate;
      assert method_ + "" == method_ && uri + "" == uri;
      match state {
        case MethodStart =>
          if !IsToken(c) { return Bad; }
          state := Method;
          method_ := method_ + [c];
        case Method =>
          if c == ' ' {
            state := Uri;
          } else {
            if !IsToken(c) { return Bad; }
            method_ := method_ + [c];
          }
        case Uri =>
          if c == ' ' {
            state := VersionH;
          } else {
            if IsCtl(c) { return Bad; }
            uri := uri + [c];
          }
        case MajorStart => res := PushVersion(c, IsDigit(c), Major);
        case Major => res := PushVersion(c, c == '.' || IsDigit(c), if c == '.' then MinorStart else Major);
        case MinorStart => res := PushVersion(c, IsDigit(c), Minor);
        case Minor =>
          if c == '\r' {
            state := Newline1;
          } else {
            res := PushVersion(c, IsDigit(c), Minor);
          }
      }
    }

    /** The character c of a header line. */
    method ConsumeHeader(c: char) returns (res: Result)
      requires Ok(View()) && state in {LineStart, Lws, Name, Space, Value}
      modifies this
      ensures (res, View()) == Next(old(View()), c) && result == old(result)
    {
      raw := raw + [c];
      res := Indeterminate;
      match state {
        case LineStart =>
          if c == '\r' {
            state := Newline3;
          } else if headers != [] && (c == ' ' || c == '\t') {
            state := Lws;
          } else {
            if !IsToken(c) { return Bad; }
            headers := headers + [([c], "")];
            state := Name;
          }
        case Lws =>
          if c == '\r' {
            state := Newline2;
          } else if !(c == ' ' || c == '\t') {
            if IsCtl(c) { return Bad; }
            state := Value;
            headers := ValuePush(headers, c);
          }
        case Name =>
          if c == ':' {
            state := Space;
          } else {
            if !IsToken(c) { return Bad; }
            headers := NamePush(headers, c);
          }
        case Space =>
          if c != ' ' { return Bad; }
          state := Value;
        case Value =>
          if c == '\r' {
            state := Newline2;
          } else {
            if IsCtl(c) { return Bad; }
            headers := ValuePush(headers, c);
          }
      }
    }

    /** One character. */
    method Consume(c: char) returns (res: Result)
      requires Ok(View())
      modifies this
      ensures (res, View()) == Next(old(View()), c) && result == old(result)
    {
      if state in {MethodStart, Method, Uri, MajorStart, Major, MinorStart, Minor} {
        res := ConsumeLine(c);
        return;
      }
      if state in {LineStart, Lws, Name, Space, Value} {
        res := ConsumeHeader(c);
        return;
      }
      raw := raw + [c];
      res := Indeterminate;
      match state {
        case VersionH => res := PushVersion(c, c == 'H', VersionT1);
        case VersionT1 => res := PushVersion(c, c == 'T', VersionT2);
        case VersionT2 => res := PushVersion(c, c == 'T', VersionP);
        case VersionP => res := PushVersion(c, c == 'P', VersionSlash);
        case VersionSlash => res := PushVersion(c, c == '/', MajorStart);
        case Newline1 =>
          if c != '\n' { return Bad; }
          state := LineStart;
        case Newline2 =>
          if c != '\n' { return Bad; }
          state := LineStart;
        case Newline3 =>
          if c != '\n' { return Bad; }
          var n := Stoull(HeaderValue(headers, "Content-Length"));
          if n.None? { return Good; }
          remaining := n.value;
          if remaining == 0 { return Good; }
          state := Body;
        case Body =>
          body := body + [c];
          remaining := remaining - 1;
          if remaining == 0 { return Good; }
      }
    }

    /** One call: a request when it is complete. */
    method Parse(text: string) returns (r: Option<Req>)
      requires Ok(View())
      modifies this
      ensures Ok(View()) && (result, r, View()) == Feed(old(View()), text)
    {
      hide Ok, Next;
      result := Indeterminate;
      var i := 0;
      while i < |text|
        invariant 0 <= i <= |text| && Ok(View()) && result == Indeterminate
        invariant Feed(View(), text[i..]) == Feed(old(View()), text)
      {
        NextOk(View(), text[i]);
        assert text[i..][0] == text[i] && text[i..][1..] == text[i + 1..];
        result := Consume(text[i]);
        if result.Good? {
          r := Some(View());
          Reset();
          return;
        } else if result.Bad? {
          Reset();
          return None;
        }
        i := i + 1;
      }
      r := None;
    }
  }

  /** The parser between two requests. */
  function Start(remaining: nat): Req { Req(MethodStart, remaining, "", "", "", "", [], "") }

  // ---------------------------------------------------------------- any split

  /** The parser after a text in which no request ends. */
  function Eat(r: Req, text: string): (e: Option<Req>)
    requires Ok(r)
    ensures e.Some? ==> Ok(e.value)
    decreases |text|
  {
    if text == "" then Some(r)
    else
      NextOk(r, text[0]);
      var (res, r') := Next(r, text[0]);
      if res.Indeterminate? then Eat(r', text[1..]) else None
  }

  lemma {:induction false} EatJoin(r: Req, a: string, b: string)
    requires Ok(r) && Eat(r, a).Some?
    ensures Eat(r, a + b) == Eat(Eat(r, a).value, b)
    ensures Feed(r, a + b) == Feed(Eat(r, a).value, b)
    decreases |a|
  {
    hide Next, Ok;
    if a == "" {
      assert a + b == b;
    } else {
      NextOk(r, a[0]);
      assert (a + b)[0] == a[0] && (a + b)[1..] == a[1..] + b;
      EatJoin(Next(r, a[0]).1, a[1..], b);
    }
  }

  lemma EatFeeds(r: Req, a: string)
    requires Ok(r) && Eat(r, a).Some?
    ensures Feed(r, a) == (Indeterminate, None, Eat(r, a).value)
  {
    EatJoin(r, a, "");
    assert a + "" == a;
  }

  lemma {:induction false} EatPrefix(r: Req, a: string, b: string)
    requires Ok(r) && Eat(r, a + b).Some?
    ensures Eat(r, a).Some?
    decreases |a|
  {
    hide Next, Ok;
    if a != "" {
      NextOk(r, a[0]);
      assert (a + b)[0] == a[0] && (a + b)[1..] == a[1..] + b;
      EatPrefix(Next(r, a[0]).1, a[1..], b);
    }
  }

  /** Text completes a request with its last character and not before. */
  ghost predicate Completes(r: Req, text: string, done: Req)
    requires Ok(r)
  {
    text != "" && Eat(r, text[..|text| - 1]).Some? &&
    Next(Eat(r, text[..|text| - 1]).value, text[|text| - 1]) == (Good, done)
  }

  function Concat(parts: seq<string>): string {
    if parts == [] then "" else parts[0] + Concat(parts[1..])
  }

  /** The outcomes of successive calls. */
  function Session(r: Req, parts: seq<string>): seq<(Result, Option<Req>)>
    requires Ok(r)
    decreases |parts|
  {
    if parts == [] then []
    else
      FeedOk(r, parts[0]);
      var (res, done, r') := Feed(r, parts[0]);
      [(res, done)] + Session(r', parts[1..])
  }

  lemma {:induction false} FeedOk(r: Req, text: string)
    requires Ok(r)
    ensures Ok(Feed(r, text).2)
    decreases |text|
  {
    hide Next, Ok;
    if text != "" {
      NextOk(r, text[0]);
      if Next(r, text[0]).0.Indeterminate? {
        FeedOk(Next(r, text[0]).1, text[1..]);
      }
    }
  }

  lemma CompletesFeed(r: Req, text: string, done: Req)
    requires Ok(r) && Completes(r, text, done)
    ensures Feed(r, text) == (Good, Some(done), done.Reset())
  {
    hide Next, Ok;
    var n := |text| - 1;
    EatJoin(r, text[..n], text[n..]);
    assert text == text[..n] + text[n..];
    assert text[n..][0] == text[n] && text[n..][1..] == "";
    var q := Eat(r, text[..n]).value;
    NextOk(q, text[n]);
  }

  /** What follows a complete request in the same call is lost. */
  lemma RestDropped(r: Req, text: string, done: Req, rest: string)
    requires Ok(r) && Completes(r, text, done)
    ensures Feed(r, text + rest) == (Good, Some(done), done.Reset())
  {
    hide Next, Ok;
    var n := |text| - 1;
    EatJoin(r, text[..n], text[n..] + rest);
    assert text + rest == text[..n] + (text[n..] + rest);
    assert (text[n..] + rest)[0] == text[n];
    NextOk(Eat(r, text[..n]).value, text[n]);
  }

  /** However a completing text is cut into calls, all are indeterminate except the last one,
      which gives the request. */
  lemma {:induction false} AnySplit(r: Req, parts: seq<string>, done: Req)
    requires Ok(r) && parts != [] && parts[|parts| - 1] != "" && Completes(r, Concat(parts), done)
    ensures var o := Session(r, parts);
            && |o| == |parts| && o[|o| - 1] == (Good, Some(done))
            && forall i :: 0 <= i < |o| - 1 ==> o[i] == (Indeterminate, None)
    decreases |parts|
  {
    hide Next, Ok;
    var a, b := parts[0], Concat(parts[1..]);
    FeedOk(r, a);
    if |parts| == 1 {
      assert b == "" && a + b == a;
      CompletesFeed(r, a, done);
    } else {
      var n := |a + b| - 1;
      LastPart(parts[1..]);
      assert (a + b)[..n] == a + b[..|b| - 1] && (a + b)[n] == b[|b| - 1];
      EatPrefix(r, a, b[..|b| - 1]);
      EatJoin(r, a, b[..|b| - 1]);
      EatFeeds(r, a);
      AnySplit(Eat(r, a).value, parts[1..], done);
    }
  }

  lemma {:induction false} LastPart(parts: seq<string>)
    requires parts != [] && parts[|parts| - 1] != ""
    ensures Concat(parts) != ""
  {
    if |parts| > 1 {
      LastPart(parts[1..]);
    }
  }

  // ---------------------------------------------------------------- printed requests

  /** A header line: a new header, or, behind blanks, more of the value of the header before it. */
  datatype Line = New(name: string, value: string) | Fold(blank: string, text: string)

  datatype Message = Message(method_: string, uri: string, major: string, minor: string, lines: seq<Line>, body: string)

  predicate Tokens(s: string) { s != "" && forall i :: 0 <= i < |s| ==> IsToken(s[i]) }

  predicate Plain(s: string) { forall i :: 0 <= i < |s| ==> !IsCtl(s[i]) }

  predicate Number(s: string) { s != "" && forall i :: 0 <= i < |s| ==> IsDigit(s[i]) }

  predicate BlankChar(c: char) { c == ' ' || c == '\t' }

  predicate Blanks(s: string) { s != "" && forall i :: 0 <= i < |s| ==> BlankChar(s[i]) }

  predicate LineOk(l: Line) {
    match l
    case New(name, value) => Tokens(name) && Plain(value)
    case Fold(blank, text) => Blanks(blank) && Plain(text) && (text != "" ==> !BlankChar(text[0]))
  }

  predicate LinesOk(lines: seq<Line>) {
    (forall i :: 0 <= i < |lines| ==> LineOk(lines[i])) && (lines != [] ==> lines[0].New?)
  }

  /** The headers that header lines stand for. */
  function HeadersOf(lines: seq<Line>): Headers {
    if lines == [] then []
    else
      var h := HeadersOf(lines[..|lines| - 1]);
      match lines[|lines| - 1]
      case New(name, value) => h + [(name, value)]
      case Fold(_, text) => if h == [] then h else h[|h| - 1 := (h[|h| - 1].0, h[|h| - 1].1 + text)]
  }

  predicate WellFormed(m: Message) {
    && Tokens(m.method_) && Plain(m.uri) && ' ' !in m.uri && Number(m.major) && Number(m.minor)
    && LinesOk(m.lines) && |m.body| == BodyLength(HeadersOf(m.lines))
  }

  function LineEnd(l: Line): string {
    match l
    case New(name, value) => name + [':'] + [' '] + value + ['\r'] + ['\n']
    case Fold(blank, text) => blank + text + ['\r'] + ['\n']
  }

  function HeaderText(lines: seq<Line>): string {
    if lines == [] then "" else HeaderText(lines[..|lines| - 1]) + LineEnd(lines[|lines| - 1])
  }

  function VersionText(m: Message): string { "HTTP/" + m.major + ['.'] + m.minor }

  function LineText(m: Message): string {
    m.method_ + [' '] + m.uri + [' '] + "HTTP/" + m.major + ['.'] + m.minor + ['\r'] + ['\n']
  }

  function Print(m: Message): string { LineText(m) + HeaderText(m.lines) + ['\r'] + ['\n'] + m.body }

  /** The parser after the text of the request line, the headers so far, or the body so far. */
  function Read(rest: nat, state: State, raw: string, m: Message, headers: Headers, body: string): Req {
    Req(state, rest, raw, m.method_, m.uri, VersionText(m), headers, body)
  }

  lemma EatOne(r: Req, c: char)
    requires Ok(r) && Next(r, c).0.Indeterminate?
    ensures Ok(Next(r, c).1) && Eat(r, [c]) == Some(Next(r, c).1)
  {
    NextOk(r, c);
    assert [c][1..] == "";
  }

  lemma {:induction false} EatMethod(r: Req, s: string)
    requires Ok(r) && r.state.Method? && forall i :: 0 <= i < |s| ==> IsToken(s[i])
    ensures Eat(r, s) == Some(r.(method_ := r.method_ + s, raw := r.raw + s))
    decreases |s|
  {
    if s != "" {
      var q := Next(r, s[0]).1;
      EatMethod(q, s[1..]);
      assert [s[0]] + s[1..] == s;
      Regroup(r.method_, s);
      Regroup(r.raw, s);
    } else {
      assert r.method_ + "" == r.method_ && r.raw + "" == r.raw;
    }
  }

  lemma Regroup(a: string, s: string)
    requires s != ""
    ensures a + [s[0]] + s[1..] == a + s
  {
  }

  lemma {:induction false} EatUri(r: Req, s: string)
    requires Ok(r) && r.state.Uri? && Plain(s) && ' ' !in s
    ensures Eat(r, s) == Some(r.(uri := r.uri + s, raw := r.raw + s))
    decreases |s|
  {
    if s != "" {
      EatUri(Next(r, s[0]).1, s[1..]);
      Regroup(r.uri, s);
      Regroup(r.raw, s);
    } else {
      assert r.uri + "" == r.uri && r.raw + "" == r.raw;
    }
  }

  lemma {:induction false} EatDigits(r: Req, s: string)
    requires Ok(r) && (r.state.Major? || r.state.Minor?) && forall i :: 0 <= i < |s| ==> IsDigit(s[i])
    ensures Eat(r, s) == Some(r.(version := r.version + s, raw := r.raw + s))
    decreases |s|
  {
    if s != "" {
      EatDigits(Next(r, s[0]).1, s[1..]);
      Regroup(r.version, s);
      Regroup(r.raw, s);
    } else {
      assert r.version + "" == r.version && r.raw + "" == r.raw;
    }
  }

  lemma {:induction false} EatName(r: Req, done: Headers, name: string, s: string)
    requires Ok(r) && r.state.Name? && r.headers == done + [(name, "")] && forall i :: 0 <= i < |s| ==> IsToken(s[i])
    ensures Eat(r, s) == Some(r.(headers := done + [(name + s, "")], raw := r.raw + s))
    decreases |s|
  {
    if s != "" {
      var q := Next(r, s[0]).1;
      assert q.headers == done + [(name + [s[0]], "")];
      EatName(q, done, name + [s[0]], s[1..]);
      Regroup(name, s);
      Regroup(r.raw, s);
    } else {
      assert name + "" == name && r.raw + "" == r.raw;
    }
  }

  lemma {:induction false} EatValue(r: Req, done: Headers, name: string, value: string, s: string)
    requires Ok(r) && r.state.Value? && r.headers == done + [(name, value)] && Plain(s)
    ensures Eat(r, s) == Some(r.(headers := done + [(name, value + s)], raw := r.raw + s))
    decreases |s|
  {
    if s != "" {
      var q := Next(r, s[0]).1;
      assert q.headers == done + [(name, value + [s[0]])];
      EatValue(q, done, name, value + [s[0]], s[1..]);
      Regroup(value, s);
      Regroup(r.raw, s);
    } else {
      assert value + "" == value && r.raw + "" == r.raw;
    }
  }

  lemma {:induction false} EatBody(r: Req, s: string)
    requires Ok(r) && r.state.Body? && |s| < r.remaining
    ensures Eat(r, s) == Some(r.(body := r.body + s, remaining := r.remaining - |s|, raw := r.raw + s))
    decreases |s|
  {
    if s != "" {
      EatBody(Next(r, s[0]).1, s[1..]);
      Regroup(r.body, s);
      Regroup(r.raw, s);
    } else {
      assert r.body + "" == r.body && r.raw + "" == r.raw;
    }
  }

  /** Two texts in a row. */
  lemma EatTwo(r: Req, a: string, q: Req, b: string, e: Req)
    requires Ok(r) && Eat(r, a) == Some(q) && Ok(q) && Eat(q, b) == Some(e)
    ensures Eat(r, a + b) == Some(e)
  {
    EatJoin(r, a, b);
  }

  lemma EatLineMethod(rest: nat, m: Message)
    requires WellFormed(m)
    ensures Eat(Start(rest), m.method_) == Some(Start(rest).(state := Method, method_ := m.method_, raw := m.method_))
  {
    var q := Next(Start(rest), m.method_[0]).1;
    EatMethod(q, m.method_[1..]);
    assert "" + [m.method_[0]] == [m.method_[0]] && [m.method_[0]] + m.method_[1..] == m.method_;
  }

  /** The version name, from one state to the next. */
  lemma EatHttp(r: Req)
    requires Ok(r) && r.state.VersionH? && r.version == ""
    ensures Eat(r, "HTTP/") == Some(r.(state := MajorStart, version := "HTTP/", raw := r.raw + "HTTP/"))
  {
    hide Eat;
    EatNone(r);
    assert r.raw + "" == r.raw;
    assert "" + ['H'] == "H" && "H" + ['T'] == "HT" && "HT" + ['T'] == "HTT" && "HTT" + ['P'] == "HTTP"
           && "HTTP" + ['/'] == "HTTP/";
    VersionStep(r, VersionH, "", 'H', VersionT1);
    VersionStep(r, VersionT1, "H", 'T', VersionT2);
    VersionStep(r, VersionT2, "HT", 'T', VersionP);
    VersionStep(r, VersionP, "HTT", 'P', VersionSlash);
    VersionStep(r, VersionSlash, "HTTP", '/', MajorStart);
  }

  lemma VersionStep(r: Req, now: State, done: string, c: char, next: State)
    requires Ok(r) && r.state.VersionH?
    requires Eat(r, done) == Some(r.(state := now, version := done, raw := r.raw + done))
    requires (now, c, next) in {(VersionH, 'H', VersionT1), (VersionT1, 'T', VersionT2), (VersionT2, 'T', VersionP),
                                (VersionP, 'P', VersionSlash), (VersionSlash, '/', MajorStart)}
    ensures Eat(r, done + [c]) == Some(r.(state := next, version := done + [c], raw := r.raw + (done + [c])))
  {
    hide Eat;
    EatMore(r, done, r.(state := now, version := done, raw := r.raw + done), c);
    assert r.raw + done + [c] == r.raw + (done + [c]);
  }

  lemma EatNumber(r: Req, digits: string)
    requires Ok(r) && (r.state.MajorStart? || r.state.MinorStart?) && Number(digits)
    ensures Eat(r, digits) ==
            Some(r.(state := if r.state.MajorStart? then Major else Minor,
                    version := r.version + digits, raw := r.raw + digits))
  {
    EatDigits(Next(r, digits[0]).1, digits[1..]);
    Regroup(r.version, digits);
    Regroup(r.raw, digits);
  }

  /** The parser in the request line, with this much text read. */
  function InLine(rest: nat, state: State, raw: string, method_: string, uri: string, version: string): Req {
    Req(state, rest, raw, method_, uri, version, [], "")
  }

  /** One more character of the request line or between headers. */
  lemma EatMore(r: Req, text: string, q: Req, c: char)
    requires Ok(r) && Eat(r, text) == Some(q) && Ok(q) && Next(q, c).0.Indeterminate?
    ensures Eat(r, text + [c]) == Some(Next(q, c).1)
  {
    hide Next, Ok;
    EatOne(q, c);
    EatTwo(r, text, q, [c], Next(q, c).1);
  }

  lemma EatLineUri(rest: nat, m: Message)
    requires WellFormed(m)
    ensures var t := m.method_ + [' '] + m.uri + [' '];
            Eat(Start(rest), t) == Some(InLine(rest, VersionH, t, m.method_, m.uri, ""))
  {
    hide Tokens, Number, LinesOk, BodyLength;
    var s := Start(rest);
    EatLineMethod(rest, m);
    var t1 := m.method_ + [' '];
    EatMore(s, m.method_, s.(state := Method, method_ := m.method_, raw := m.method_), ' ');
    var q1 := InLine(rest, Uri, t1, m.method_, "", "");
    EatUri(q1, m.uri);
    assert "" + m.uri == m.uri;
    EatTwo(s, t1, q1, m.uri, InLine(rest, Uri, t1 + m.uri, m.method_, m.uri, ""));
    EatMore(s, t1 + m.uri, InLine(rest, Uri, t1 + m.uri, m.method_, m.uri, ""), ' ');
  }

  lemma EatLineVersion(rest: nat, m: Message)
    requires WellFormed(m)
    ensures var t := m.method_ + [' '] + m.uri + [' '] + "HTTP/" + m.major + ['.'] + m.minor;
            Eat(Start(rest), t) == Some(InLine(rest, Minor, t, m.method_, m.uri, VersionText(m)))
  {
    hide Tokens, Number, LinesOk, BodyLength, Plain, Eat;
    var s := Start(rest);
    EatLineUri(rest, m);
    var t1 := m.method_ + [' '] + m.uri + [' '];
    var q1 := InLine(rest, VersionH, t1, m.method_, m.uri, "");
    EatHttp(q1);
    var t2, v2 := t1 + "HTTP/", "HTTP/";
    var q2 := InLine(rest, MajorStart, t2, m.method_, m.uri, v2);
    EatTwo(s, t1, q1, "HTTP/", q2);
    EatNumber(q2, m.major);
    var q3 := InLine(rest, Major, t2 + m.major, m.method_, m.uri, v2 + m.major);
    EatTwo(s, t2, q2, m.major, q3);
    EatMore(s, t2 + m.major, q3, '.');
    var t4, v4 := t2 + m.major + ['.'], v2 + m.major + ['.'];
    var q4 := InLine(rest, MinorStart, t4, m.method_, m.uri, v4);
    EatNumber(q4, m.minor);
    EatTwo(s, t4, q4, m.minor, InLine(rest, Minor, t4 + m.minor, m.method_, m.uri, v4 + m.minor));
  }

  lemma EatLine(rest: nat, m: Message)
    requires WellFormed(m)
    ensures Eat(Start(rest), LineText(m)) == Some(Read(rest, LineStart, LineText(m), m, [], ""))
  {
    hide WellFormed, Eat;
    EatLineVersion(rest, m);
    var s, t := Start(rest), m.method_ + [' '] + m.uri + [' '] + "HTTP/" + m.major + ['.'] + m.minor;
    EatMore(s, t, InLine(rest, Minor, t, m.method_, m.uri, VersionText(m)), '\r');
    EatMore(s, t + ['\r'], InLine(rest, Newline1, t + ['\r'], m.method_, m.uri, VersionText(m)), '\n');
  }

  /** One header line. */
  lemma EatHeader(r: Req, h: (string, string))
    requires Ok(r) && r.state.LineStart? && Tokens(h.0) && Plain(h.1)
    ensures var t := h.0 + [':'] + [' '] + h.1 + ['\r'] + ['\n'];
            Eat(r, t) == Some(r.(headers := r.headers + [h], raw := r.raw + t))
  {
    hide BodyLength, HeaderValue, Next, Plain, Eat;
    var name := h.0;
    var q1 := Next(r, name[0]).1;
    NameStarts(r, name[0]);
    EatOne(r, name[0]);
    EatName(q1, r.headers, [name[0]], name[1..]);
    assert [name[0]] + name[1..] == name;
    Regroup(r.raw, name);
    var q2 := r.(state := Name, headers := r.headers + [(name, "")], raw := r.raw + name);
    EatTwo(r, [name[0]], q1, name[1..], q2);
    EatHeaderRest(r, q2, h);
  }

  /** A character that only moves the parser to another state. */
  ghost predicate Moves(q: Req, c: char, next: State) {
    Ok(q) && Ok(q.(state := next)) && Next(q, c) == (Indeterminate, q.(state := next, raw := q.raw + [c]))
  }

  lemma Punctuation(q: Req)
    requires Ok(q)
    ensures q.state.Name? ==> Moves(q, ':', Space)
    ensures q.state.Space? ==> Moves(q, ' ', Value)
    ensures q.state.Value? || q.state.Lws? ==> Moves(q, '\r', Newline2)
    ensures q.state.Newline2? ==> Moves(q, '\n', LineStart)
  {
    hide BodyLength, HeaderValue, Stoull, IsToken, IsCtl;
  }

  /** Two such characters. */
  lemma EatPair(r: Req, t: string, q: Req, a: char, s1: State, b: char, s2: State)
    requires Ok(r) && Eat(r, t) == Some(q) && q.raw == r.raw + t && Moves(q, a, s1)
    requires Moves(q.(state := s1, raw := q.raw + [a]), b, s2)
    ensures Eat(r, t + [a] + [b]) == Some(q.(state := s2, raw := r.raw + (t + [a] + [b])))
  {
    hide Next, Ok, Eat;
    EatMore(r, t, q, a);
    EatMore(r, t + [a], q.(state := s1, raw := q.raw + [a]), b);
    Joined(r.raw, t, [a]);
    Joined(r.raw, t + [a], [b]);
  }

  lemma EatColon(r: Req, q2: Req, name: string)
    requires Ok(r) && Ok(q2) && Eat(r, name) == Some(q2) && q2.state.Name? && q2.raw == r.raw + name
    ensures var t := name + [':'] + [' ']; Eat(r, t) == Some(q2.(state := Value, raw := r.raw + t))
  {
    hide Next, Eat, Ok;
    Punctuation(q2);
    MovesOk(q2, ':', Space);
    Punctuation(q2.(state := Space, raw := q2.raw + [':']));
    EatPair(r, name, q2, ':', Space, ' ', Value);
  }

  lemma MovesOk(q: Req, c: char, next: State)
    requires Moves(q, c, next)
    ensures Ok(q.(state := next, raw := q.raw + [c]))
  {
  }

  lemma EatEnd(r: Req, t: string, q: Req)
    requires Ok(r) && Ok(q) && Eat(r, t) == Some(q) && q.state.Value? && q.raw == r.raw + t
    ensures Eat(r, t + ['\r'] + ['\n']) == Some(q.(state := LineStart, raw := r.raw + (t + ['\r'] + ['\n'])))
  {
    hide Next, Eat, Ok;
    Punctuation(q);
    MovesOk(q, '\r', Newline2);
    Punctuation(q.(state := Newline2, raw := q.raw + ['\r']));
    EatPair(r, t, q, '\r', Newline2, '\n', LineStart);
  }

  lemma NameStarts(r: Req, c: char)
    requires Ok(r) && r.state.LineStart? && IsToken(c)
    ensures Next(r, c) == (Indeterminate, r.(state := Name, headers := r.headers + [([c], "")], raw := r.raw + [c]))
  {
    hide BodyLength, HeaderValue;
  }

  lemma EatHeaderRest(r: Req, q2: Req, h: (string, string))
    requires Ok(r) && Ok(q2) && Eat(r, h.0) == Some(q2) && Plain(h.1) && r.state.LineStart?
    requires q2 == r.(state := Name, headers := r.headers + [(h.0, "")], raw := r.raw + h.0)
    ensures var t := h.0 + [':'] + [' '] + h.1 + ['\r'] + ['\n'];
            Eat(r, t) == Some(r.(headers := r.headers + [h], raw := r.raw + t))
  {
    hide BodyLength, HeaderValue, Eat, Plain;
    var name, value := h.0, h.1;
    EatColon(r, q2, name);
    var t := name + [':'] + [' '];
    var q3 := q2.(state := Value, raw := r.raw + t);
    EatValue(q3, r.headers, name, "", value);
    assert "" + value == value && r.raw + t + value == r.raw + (t + value);
    var q4 := q3.(headers := r.headers + [h], raw := r.raw + (t + value));
    EatTwo(r, t, q3, value, q4);
    EatEnd(r, t + value, q4);
  }

  /** Blanks at the start of a line, or more of them. */
  lemma {:induction false} EatBlanks(r: Req, s: string)
    requires Ok(r) && (r.state.Lws? || (r.state.LineStart? && r.headers != [] && s != ""))
             && forall i :: 0 <= i < |s| ==> BlankChar(s[i])
    ensures Eat(r, s) == Some(r.(state := Lws, raw := r.raw + s))
    decreases |s|
  {
    hide BodyLength, HeaderValue, Stoull;
    if s != "" {
      EatBlanks(Next(r, s[0]).1, s[1..]);
      Regroup(r.raw, s);
    } else {
      assert r.raw + "" == r.raw;
    }
  }

  lemma FoldStarts(r: Req, c: char)
    requires Ok(r) && r.state.Lws? && !BlankChar(c) && !IsCtl(c)
    ensures Next(r, c) == (Indeterminate, r.(state := Value, headers := ValuePush(r.headers, c), raw := r.raw + [c]))
    ensures Ok(Next(r, c).1)
  {
    hide BodyLength, HeaderValue, Stoull;
    NextOk(r, c);
  }

  /** One continued header line. */
  lemma EatFold(r: Req, done: Headers, name: string, value: string, l: Line)
    requires Ok(r) && r.state.LineStart? && r.headers == done + [(name, value)] && l.Fold? && LineOk(l)
    ensures Eat(r, LineEnd(l)) == Some(r.(headers := done + [(name, value + l.text)], raw := r.raw + LineEnd(l)))
  {
    hide BodyLength, HeaderValue, Next, Eat, Plain, Blanks;
    var t := l.blank;
    BlanksOk(l.blank);
    EatBlanks(r, t);
    var q1 := r.(state := Lws, raw := r.raw + t);
    if l.text == "" {
      assert t + "" == t && value + "" == value;
      EatLwsEnd(r, t, q1);
    } else {
      var c, text := l.text[0], l.text[1..];
      PlainParts(l.text);
      FoldStarts(q1, c);
      EatMore(r, t, q1, c);
      var q2 := Next(q1, c).1;
      assert q2.headers == done + [(name, value + [c])];
      EatValue(q2, done, name, value + [c], text);
      Regroup(value, l.text);
      Regroup(t, l.text);
      Regroup(r.raw + t, l.text);
      Joined(r.raw, t, l.text);
      var q3 := q2.(headers := done + [(name, value + l.text)], raw := r.raw + (t + l.text));
      assert [c] + text == l.text;
      EatTwo(r, t + [c], q2, text, q3);
      EatEnd(r, t + l.text, q3);
    }
  }

  lemma BlanksOk(s: string)
    requires Blanks(s)
    ensures s != "" && forall i :: 0 <= i < |s| ==> BlankChar(s[i])
  {
  }

  lemma PlainParts(s: string)
    requires Plain(s) && s != ""
    ensures !IsCtl(s[0]) && Plain(s[1..])
  {
  }

  lemma EatLwsEnd(r: Req, t: string, q: Req)
    requires Ok(r) && Ok(q) && Eat(r, t) == Some(q) && q.state.Lws? && q.raw == r.raw + t
    ensures Eat(r, t + ['\r'] + ['\n']) == Some(q.(state := LineStart, raw := r.raw + (t + ['\r'] + ['\n'])))
  {
    hide Next, Eat, Ok;
    Punctuation(q);
    MovesOk(q, '\r', Newline2);
    Punctuation(q.(state := Newline2, raw := q.raw + ['\r']));
    EatPair(r, t, q, '\r', Newline2, '\n', LineStart);
  }

  lemma LinesFront(lines: seq<Line>)
    requires LinesOk(lines) && lines != []
    ensures LinesOk(lines[..|lines| - 1]) && LineOk(lines[|lines| - 1]) && (lines[|lines| - 1].Fold? ==> |lines| > 1)
  {
  }

  lemma {:induction false} SomeHeader(lines: seq<Line>)
    requires LinesOk(lines) && lines != []
    ensures HeadersOf(lines) != []
    decreases |lines|
  {
    if |lines| > 1 {
      LinesFront(lines);
      SomeHeader(lines[..|lines| - 1]);
    } else {
      assert lines[..0] == [];
    }
  }

  lemma {:induction false} EatLines(r: Req, lines: seq<Line>)
    requires Ok(r) && r.state.LineStart? && r.headers == [] && LinesOk(lines)
    ensures Eat(r, HeaderText(lines)) == Some(r.(headers := HeadersOf(lines), raw := r.raw + HeaderText(lines)))
    decreases |lines|
  {
    hide Next, Eat, LinesOk, LineOk;
    if lines == [] {
      EatNone(r);
      assert r.raw + "" == r.raw;
    } else {
      var n := |lines| - 1;
      var front, l := lines[..n], lines[n];
      LinesFront(lines);
      EatLines(r, front);
      var q := r.(headers := HeadersOf(front), raw := r.raw + HeaderText(front));
      EatHeaderLine(q, front, l);
      Joined(r.raw, HeaderText(front), LineEnd(l));
      EatTwo(r, HeaderText(front), q, LineEnd(l), r.(headers := HeadersOf(lines), raw := r.raw + HeaderText(lines)));
    }
  }

  lemma EatHeaderLine(q: Req, front: seq<Line>, l: Line)
    requires Ok(q) && q.state.LineStart? && q.headers == HeadersOf(front) && LinesOk(front) && LineOk(l)
    requires l.Fold? ==> front != []
    ensures Eat(q, LineEnd(l)) == Some(q.(headers := HeadersOf(front + [l]), raw := q.raw + LineEnd(l)))
  {
    hide Next, Eat, Ok;
    assert (front + [l])[..|front|] == front;
    if l.New? {
      EatHeader(q, (l.name, l.value));
    } else {
      SomeHeader(front);
      var h := HeadersOf(front);
      var n := |h| - 1;
      assert h == h[..n] + [(h[n].0, h[n].1)];
      EatFold(q, h[..n], h[n].0, h[n].1, l);
      assert h[n := (h[n].0, h[n].1 + l.text)] == h[..n] + [(h[n].0, h[n].1 + l.text)];
    }
  }

  lemma EatNone(r: Req)
    requires Ok(r)
    ensures Eat(r, "") == Some(r)
  {
  }

  lemma Joined(a: string, b: string, c: string)
    ensures a + b + c == a + (b + c)
  {
  }

  /** A printed request, read by a parser between two requests, is complete with its last
      character and not before, and has the parts it was printed from. */
  lemma PrintedCompletes(rest: nat, m: Message) returns (done: Req)
    requires WellFormed(m)
    ensures Ok(Start(rest)) && Completes(Start(rest), Print(m), done)
    ensures done.method_ == m.method_ && done.uri == m.uri && done.version == VersionText(m)
    ensures done.headers == HeadersOf(m.lines) && done.body == m.body && done.raw == Print(m)
  {
    hide Eat, HeaderText, LineText, BodyLength, VersionText, Tokens, Plain, Number;
    var s, h := Start(rest), LineText(m) + HeaderText(m.lines);
    EatLine(rest, m);
    var q0 := Read(rest, LineStart, LineText(m), m, [], "");
    EatLines(q0, m.lines);
    var q1 := Read(rest, LineStart, h, m, HeadersOf(m.lines), "");
    EatTwo(s, LineText(m), q0, HeaderText(m.lines), q1);
    EatMore(s, h, q1, '\r');
    var q2 := Read(rest, Newline3, h + ['\r'], m, HeadersOf(m.lines), "");
    done := EndCompletes(s, h + ['\r'], q2, m);
  }

  /** The blank line, and the body if there is one. */
  lemma EndCompletes(s: Req, t: string, q: Req, m: Message) returns (done: Req)
    requires Ok(s) && Ok(q) && Eat(s, t) == Some(q) && q.state.Newline3? && q.headers == HeadersOf(m.lines)
             && q.body == ""
             && q.raw == t
    requires |m.body| == BodyLength(HeadersOf(m.lines))
    ensures Completes(s, t + ['\n'] + m.body, done)
    ensures done == q.(state := done.state, remaining := done.remaining, raw := t + ['\n'] + m.body, body := m.body)
  {
    hide BodyLength, HeaderValue, Stoull, Eat;
    BlankLine(q);
    if m.body == "" {
      done := Next(q, '\n').1;
      CompletesBy(s, t, q, '\n', done);
      assert t + ['\n'] + m.body == t + ['\n'];
    } else {
      EatMore(s, t, q, '\n');
      done := BodyCompletes(s, t + ['\n'], Next(q, '\n').1, m.body);
    }
  }

  lemma BlankLine(q: Req)
    requires Ok(q) && q.state.Newline3?
    ensures var n, r := BodyLength(q.headers), q.raw + ['\n'];
            if n == 0 then Next(q, '\n').0 == Good
              && Next(q, '\n').1 == q.(raw := r, remaining := Next(q, '\n').1.remaining)
            else Next(q, '\n') == (Indeterminate, q.(raw := r, state := Body, remaining := n))
  {
    hide HeaderValue;
  }

  lemma CompletesBy(s: Req, t: string, q: Req, c: char, done: Req)
    requires Ok(s) && Ok(q) && Eat(s, t) == Some(q) && Next(q, c) == (Good, done)
    ensures Completes(s, t + [c], done)
  {
    hide Eat, Next;
    assert (t + [c])[..|t|] == t;
  }

  lemma BodyCompletes(s: Req, u: string, b: Req, body: string) returns (done: Req)
    requires Ok(s) && Ok(b) && Eat(s, u) == Some(b) && b.state.Body? && b.body == "" && b.raw == u
             && b.remaining == |body|
    ensures Completes(s, u + body, done) && done == b.(remaining := 0, raw := u + body, body := body)
  {
    hide BodyLength, HeaderValue, Stoull, Eat;
    var n := |body| - 1;
    var front := body[..n];
    EatBody(b, front);
    assert "" + front == front && front + [body[n]] == body;
    var e := b.(body := front, remaining := 1, raw := u + front);
    EatTwo(s, u, b, front, e);
    done := Next(e, body[n]).1;
    CompletesBy(s, u + front, e, body[n], done);
    Joined(u, front, [body[n]]);
  }

  /** A printed request comes through any split into calls. */
  lemma AnyCalls(rest: nat, m: Message, parts: seq<string>) returns (done: Req)
    requires WellFormed(m) && parts != [] && parts[|parts| - 1] != "" && Concat(parts) == Print(m)
    ensures Ok(Start(rest))
    ensures var o := Session(Start(rest), parts);
            && |o| == |parts| && o[|o| - 1] == (Good, Some(done))
            && forall i :: 0 <= i < |o| - 1 ==> o[i] == (Indeterminate, None)
    ensures done.method_ == m.method_ && done.uri == m.uri && done.version == VersionText(m)
    ensures done.headers == HeadersOf(m.lines) && done.body == m.body && done.raw == Print(m)
  {
    hide WellFormed, Session, Completes, Print;
    done := PrintedCompletes(rest, m);
    AnySplit(Start(rest), parts, done);
  }
}

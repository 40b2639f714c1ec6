/** The nginx-style configuration: tokens, the parser that grows a tree through a stack of
    blocks, and the printer, which the parser undoes. */
module Config {
  import opened Wrappers

  /** A statement: its tokens, and its child block if it has one. */
  datatype Statement = Simple(tokens: seq<string>) | Nested(tokens: seq<string>, block: seq<Statement>)

  datatype Kind = Normal | StartBlock | EndBlock | Comment | End | Eof | Error

  // ---------------------------------------------------------------- tokens

  datatype State = Initial | InSingle | InDouble | InComment | InNormal

  predicate Blank(c: char) { c == ' ' || c == '\t' || c == '\n' || c == '\r' }

  /** Characters that end an unquoted token; a carriage return is not among them. */
  predicate Stop(c: char) { c == ' ' || c == '\t' || c == '\n' || c == ';' || c == '{' || c == '}' }

  datatype Lexed = Lexed(kind: Kind, value: string, rest: string)

  /** Reads one token: the automaton of ParseToken, from a state and the text read so far. */
  function Scan(s: string, state: State, value: string): (r: Lexed)
    ensures |r.rest| <= |s|
    decreases |s|
  {
    if s == "" then Lexed(if state == InSingle || state == InDouble then Error else Eof, value, "")
    else
      var c, t := s[0], s[1..];
      match state
      case Initial =>
        if c == '{' then Lexed(StartBlock, [c], t)
        else if c == '}' then Lexed(EndBlock, [c], t)
        else if c == '#' then Scan(t, InComment, [c])
        else if c == '"' then Scan(t, InDouble, [c])
        else if c == '\'' then Scan(t, InSingle, [c])
        else if c == ';' then Lexed(End, [c], t)
        else if Blank(c) then Scan(t, Initial, value)
        else Scan(t, InNormal, value + [c])
      case InSingle => if c == '\'' then Lexed(Normal, value + [c], t) else Scan(t, InSingle, value + [c])
      case InDouble => if c == '"' then Lexed(Normal, value + [c], t) else Scan(t, InDouble, value + [c])
      case InComment => if c == '\n' || c == '\r' then Lexed(Comment, value, t) else Scan(t, InComment, value + [c])
      case InNormal => if Stop(c) then Lexed(Normal, value, s) else Scan(t, InNormal, value + [c])
  }

  function Lex(s: string): Lexed { Scan(s, Initial, "") }

  /** Tokens that take part in the grammar. */
  datatype Token = Word(text: string) | Open | Close | Semi

  function TokenOf(l: Lexed): Token {
    match l.kind
    case Normal => Word(l.value)
    case StartBlock => Open
    case EndBlock => Close
    case _ => Semi
  }

  /** A text as its tokens without comments; ok when no quote is left open. */
  datatype Tokens = Tokens(list: seq<Token>, ok: bool)

  function TokensOf(s: string): Tokens
    decreases |s|
  {
    LexShorter(s);
    var l := Lex(s);
    match l.kind
    case Eof => Tokens([], true)
    case Error => Tokens([], false)
    case Comment => TokensOf(l.rest)
    case _ => var k := TokensOf(l.rest); Tokens([TokenOf(l)] + k.list, k.ok)
  }

  lemma {:induction false} ScanShorter(s: string, state: State, value: string)
    ensures var l := Scan(s, state, value);
            l.kind != Eof && l.kind != Error ==> |l.rest| < |s| || (state == InNormal && |l.rest| == |s|)
    decreases |s|
  {
    if s != "" {
      var c, t := s[0], s[1..];
      match state
      case Initial =>
        ScanShorter(t, InComment, [c]);
        ScanShorter(t, InDouble, [c]);
        ScanShorter(t, InSingle, [c]);
        ScanShorter(t, Initial, value);
      case InSingle => ScanShorter(t, InSingle, value + [c]);
      case InDouble => ScanShorter(t, InDouble, value + [c]);
      case InComment => ScanShorter(t, InComment, value + [c]);
      case InNormal =>
    }
  }

  lemma LexShorter(s: string)
    ensures Lex(s).kind != Eof && Lex(s).kind != Error ==> |Lex(s).rest| < |s|
  {
    ScanShorter(s, Initial, "");
  }

  // ---------------------------------------------------------------- words

  /** Texts that are read as one token. */
  predicate Quoted(w: string, q: char) {
    |w| >= 2 && w[0] == q && w[|w| - 1] == q && forall k :: 1 <= k < |w| - 1 ==> w[k] != q
  }

  predicate Plain(w: string) {
    && w != "" && !Blank(w[0]) && !Stop(w[0]) && w[0] != '#' && w[0] != '"' && w[0] != '\''
    && forall k :: 1 <= k < |w| ==> !Stop(w[k])
  }

  predicate IsWord(w: string) { Plain(w) || Quoted(w, '"') || Quoted(w, '\'') }

  /** What has been read of a word. */
  predicate Prefix(state: State, value: string) {
    match state
    case Initial => value == ""
    case InSingle => value != "" && value[0] == '\'' && forall k :: 1 <= k < |value| ==> value[k] != '\''
    case InDouble => value != "" && value[0] == '"' && forall k :: 1 <= k < |value| ==> value[k] != '"'
    case InComment => true
    case InNormal => Plain(value)
  }

  /** Every token read is a word. */
  lemma {:induction false} ScanWord(s: string, state: State, value: string)
    requires Prefix(state, value)
    ensures Scan(s, state, value).kind == Normal ==> IsWord(Scan(s, state, value).value)
    decreases |s|
  {
    if s != "" {
      var c, t := s[0], s[1..];
      match state
      case Initial =>
        if c == '{' || c == '}' || c == ';' {
        } else if c == '#' {
          ScanWord(t, InComment, [c]);
        } else if c == '"' {
          ScanWord(t, InDouble, [c]);
        } else if c == '\'' {
          ScanWord(t, InSingle, [c]);
        } else if Blank(c) {
          ScanWord(t, Initial, value);
        } else {
          assert value + [c] == [c];
          ScanWord(t, InNormal, value + [c]);
        }
      case InSingle =>
        if c != '\'' {
          ScanWord(t, InSingle, value + [c]);
        }
      case InDouble =>
        if c != '"' {
          ScanWord(t, InDouble, value + [c]);
        }
      case InComment =>
        if c != '\n' && c != '\r' {
          ScanWord(t, InComment, value + [c]);
        }
      case InNormal =>
        if !Stop(c) {
          ScanWord(t, InNormal, value + [c]);
        }
    }
  }

  predicate AllWords(list: seq<Token>) { forall k :: 0 <= k < |list| ==> list[k].Word? ==> IsWord(list[k].text) }

  lemma {:induction false} TokensWords(s: string)
    ensures AllWords(TokensOf(s).list)
    decreases |s|
  {
    ScanWord(s, Initial, "");
    LexShorter(s);
    var l := Lex(s);
    if l.kind != Eof && l.kind != Error {
      TokensWords(l.rest);
    }
  }

  /** Reading on inside an unquoted word, up to the character that stops it. */
  lemma {:induction false} ScanPlain(w: string, value: string, rest: string)
    requires rest != "" && Stop(rest[0]) && forall k :: 0 <= k < |w| ==> !Stop(w[k])
    ensures Scan(w + rest, InNormal, value) == Lexed(Normal, value + w, rest)
    decreases |w|
  {
    if w == "" {
      assert w + rest == rest && value + w == value;
    } else {
      assert (w + rest)[0] == w[0] && (w + rest)[1..] == w[1..] + rest;
      ScanPlain(w[1..], value + [w[0]], rest);
      assert value + [w[0]] + w[1..] == value + w;
    }
  }

  lemma {:induction false} ScanQuoted(w: string, q: char, value: string, rest: string)
    requires (q == '"' || q == '\'') && w != "" && w[|w| - 1] == q && forall k :: 0 <= k < |w| - 1 ==> w[k] != q
    ensures Scan(w + rest, if q == '"' then InDouble else InSingle, value) == Lexed(Normal, value + w, rest)
    decreases |w|
  {
    assert (w + rest)[0] == w[0] && (w + rest)[1..] == w[1..] + rest;
    if |w| == 1 {
      assert w == [q] && w[1..] + rest == rest;
    } else {
      ScanQuoted(w[1..], q, value + [w[0]], rest);
      assert value + [w[0]] + w[1..] == value + w;
    }
  }

  /** A word followed by a stop is read back. */
  lemma LexWord(w: string, rest: string)
    requires IsWord(w) && rest != "" && Stop(rest[0])
    ensures Lex(w + rest) == Lexed(Normal, w, rest)
  {
    assert (w + rest)[0] == w[0] && (w + rest)[1..] == w[1..] + rest;
    assert [w[0]] + w[1..] == w && "" + [w[0]] == [w[0]];
    if Plain(w) {
      ScanPlain(w[1..], [w[0]], rest);
    } else {
      ScanQuoted(w[1..], w[0], [w[0]], rest);
    }
  }

  lemma TokensWord(w: string, rest: string)
    requires IsWord(w) && rest != "" && Stop(rest[0])
    ensures TokensOf(w + rest) == Tokens([Word(w)] + TokensOf(rest).list, TokensOf(rest).ok)
  {
    LexWord(w, rest);
  }

  lemma TokensBlank(c: char, rest: string)
    requires Blank(c)
    ensures TokensOf([c] + rest) == TokensOf(rest)
  {
    assert ([c] + rest)[1..] == rest;
  }

  lemma TokensMark(c: char, rest: string)
    requires c == ';' || c == '{' || c == '}'
    ensures TokensOf([c] + rest)
         == Tokens([if c == ';' then Semi else if c == '{' then Open else Close] + TokensOf(rest).list,
                   TokensOf(rest).ok)
  {
    assert ([c] + rest)[1..] == rest;
  }

  // ---------------------------------------------------------------- printing

  function Indent(depth: nat): string { if depth == 0 then "" else "  " + Indent(depth - 1) }

  function Joined(tokens: seq<string>): string {
    if tokens == [] then "" else if |tokens| == 1 then tokens[0] else tokens[0] + " " + Joined(tokens[1..])
  }

  /** NginxConfig::ToString */
  function Print(config: seq<Statement>, depth: nat): string
    decreases config, 0
  {
    if config == [] then "" else PrintStatement(config[0], depth) + Print(config[1..], depth)
  }

  /** NginxConfigStatement::ToString */
  function PrintStatement(s: Statement, depth: nat): string
    decreases s, 1
  {
    Indent(depth) + Joined(s.tokens)
    + (match s
       case Simple(_) => ";"
       case Nested(_, block) => " {\n" + Print(block, depth + 1) + Indent(depth) + "}")
    + "\n"
  }

  // ---------------------------------------------------------------- a tree as tokens

  function Words(tokens: seq<string>): seq<Token> {
    if tokens == [] then [] else [Word(tokens[0])] + Words(tokens[1..])
  }

  function Flat(config: seq<Statement>): seq<Token>
    decreases config, 0
  {
    if config == [] then [] else FlatStatement(config[0]) + Flat(config[1..])
  }

  function FlatStatement(s: Statement): seq<Token>
    decreases s, 1
  {
    Words(s.tokens) + (match s case Simple(_) => [Semi] case Nested(_, block) => [Open] + Flat(block) + [Close])
  }

  /** Statements have at least one token, and all tokens are words. */
  predicate Good(config: seq<Statement>)
    decreases config, 0
  {
    config == [] || (GoodStatement(config[0]) && Good(config[1..]))
  }

  predicate GoodStatement(s: Statement)
    decreases s, 1
  {
    && s.tokens != [] && (forall k :: 0 <= k < |s.tokens| ==> IsWord(s.tokens[k]))
    && (s.Nested? ==> Good(s.block))
  }

  // ---------------------------------------------------------------- reading what is printed

  function Before(list: seq<Token>, k: Tokens): Tokens { Tokens(list + k.list, k.ok) }

  lemma {:induction false} IndentTokens(depth: nat, rest: string)
    ensures TokensOf(Indent(depth) + rest) == TokensOf(rest)
  {
    if depth == 0 {
      assert "" + rest == rest;
    } else {
      var more := Indent(depth - 1) + rest;
      assert Indent(depth) + rest == [' '] + ([' '] + more);
      TokensBlank(' ', [' '] + more);
      TokensBlank(' ', more);
      IndentTokens(depth - 1, rest);
    }
  }

  lemma {:induction false} JoinedTokens(tokens: seq<string>, rest: string)
    requires tokens != [] && (forall k :: 0 <= k < |tokens| ==> IsWord(tokens[k])) && rest != "" && Stop(rest[0])
    ensures TokensOf(Joined(tokens) + rest) == Before(Words(tokens), TokensOf(rest))
    decreases |tokens|
  {
    if |tokens| == 1 {
      TokensWord(tokens[0], rest);
      assert Words(tokens) == [Word(tokens[0])];
    } else {
      var more := Joined(tokens[1..]) + rest;
      assert Joined(tokens) + rest == tokens[0] + ([' '] + more);
      TokensWord(tokens[0], [' '] + more);
      TokensBlank(' ', more);
      JoinedTokens(tokens[1..], rest);
      assert [Word(tokens[0])] + (Words(tokens[1..]) + TokensOf(rest).list) == Words(tokens) + TokensOf(rest).list;
    }
  }

  /** The printed tree reads as the tokens of the tree. */
  lemma {:induction false} PrintTokens(config: seq<Statement>, depth: nat, rest: string)
    requires Good(config)
    ensures TokensOf(Print(config, depth) + rest) == Before(Flat(config), TokensOf(rest))
    decreases config, 0
  {
    hide TokensOf, PrintStatement, FlatStatement, GoodStatement;
    if config == [] {
      assert "" + rest == rest;
    } else {
      var more := Print(config[1..], depth) + rest;
      PrintSplit(config, depth, rest, TokensOf(rest).list);
      StatementTokens(config[0], depth, more);
      PrintTokens(config[1..], depth, rest);
    }
  }

  lemma PrintSplit(config: seq<Statement>, depth: nat, rest: string, k: seq<Token>)
    requires config != []
    ensures Print(config, depth) + rest == PrintStatement(config[0], depth) + (Print(config[1..], depth) + rest)
    ensures FlatStatement(config[0]) + (Flat(config[1..]) + k) == Flat(config) + k
  {
    hide PrintStatement, FlatStatement;
  }

  lemma {:induction false} StatementTokens(s: Statement, depth: nat, rest: string)
    requires GoodStatement(s)
    ensures TokensOf(PrintStatement(s, depth) + rest) == Before(FlatStatement(s), TokensOf(rest))
    decreases s, 1
  {
    match s
    case Simple(_) =>
      var end := [';'] + (['\n'] + rest);
      assert PrintStatement(s, depth) + rest == Indent(depth) + (Joined(s.tokens) + end);
      IndentTokens(depth, Joined(s.tokens) + end);
      JoinedTokens(s.tokens, end);
      TokensMark(';', ['\n'] + rest);
      TokensBlank('\n', rest);
      assert Words(s.tokens) + ([Semi] + TokensOf(rest).list) == FlatStatement(s) + TokensOf(rest).list;
    case Nested(_, block) =>
      BlockTokens(s, block, depth, rest);
  }

  lemma {:induction false} BlockTokens(s: Statement, block: seq<Statement>, depth: nat, rest: string)
    requires GoodStatement(s) && s.Nested? && s.block == block
    ensures TokensOf(PrintStatement(s, depth) + rest) == Before(FlatStatement(s), TokensOf(rest))
    decreases s, 0
  {
    hide TokensOf, Good, GoodStatement, IsWord, Words, Flat, FlatStatement;
    var close := ['}'] + (['\n'] + rest);
    var inside := Print(block, depth + 1) + (Indent(depth) + close);
    var open := [' '] + (['{'] + (['\n'] + inside));
    BlockText(s, block, depth, rest);
    BlockGood(s, block);
    IndentTokens(depth, Joined(s.tokens) + open);
    JoinedTokens(s.tokens, open);
    TokensBlank(' ', ['{'] + (['\n'] + inside));
    TokensMark('{', ['\n'] + inside);
    TokensBlank('\n', inside);
    PrintTokens(block, depth + 1, Indent(depth) + close);
    IndentTokens(depth, close);
    TokensMark('}', ['\n'] + rest);
    TokensBlank('\n', rest);
    BlockFlat(s, block, TokensOf(rest).list);
  }

  lemma BlockGood(s: Statement, block: seq<Statement>)
    requires GoodStatement(s) && s.Nested? && s.block == block
    ensures Good(block) && s.tokens != [] && forall k :: 0 <= k < |s.tokens| ==> IsWord(s.tokens[k])
  {
    hide IsWord;
  }

  lemma BlockText(s: Statement, block: seq<Statement>, depth: nat, rest: string)
    requires s.Nested? && s.block == block
    ensures var close := ['}'] + (['\n'] + rest);
            var inside := Print(block, depth + 1) + (Indent(depth) + close);
            PrintStatement(s, depth) + rest
            == Indent(depth) + (Joined(s.tokens) + ([' '] + (['{'] + (['\n'] + inside))))
  {
    hide Indent, Joined, Print;
    assert " {\n" == [' '] + ['{'] + ['\n'];
  }

  lemma BlockFlat(s: Statement, block: seq<Statement>, k: seq<Token>)
    requires s.Nested? && s.block == block
    ensures Words(s.tokens) + ([Open] + (Flat(block) + ([Close] + k))) == FlatStatement(s) + k
  {
    hide Words, Flat;
  }

  // ---------------------------------------------------------------- parsing

  datatype Last = Start | AfterWord | AfterOpen | AfterClose | AfterSemi

  /** The tree so far, and the depth of the innermost open block below it. */
  datatype Parsing = Parsing(tree: seq<Statement>, depth: nat, last: Last)

  /** Each open block is the block of the last statement of the one around it. */
  predicate Chain(tree: seq<Statement>, depth: nat)
    decreases depth
  {
    depth > 0 ==> tree != [] && tree[|tree| - 1].Nested? && Chain(tree[|tree| - 1].block, depth - 1)
  }

  /** The block at the end of the chain. */
  function Top(tree: seq<Statement>, depth: nat): seq<Statement>
    requires Chain(tree, depth)
    decreases depth
  {
    if depth == 0 then tree else Top(tree[|tree| - 1].block, depth - 1)
  }

  /** The tree with another block at the end of the chain. */
  function WithTop(tree: seq<Statement>, depth: nat, top: seq<Statement>): seq<Statement>
    requires Chain(tree, depth)
    decreases depth
  {
    if depth == 0 then top
    else
      var n := |tree| - 1;
      tree[n := Nested(tree[n].tokens, WithTop(tree[n].block, depth - 1, top))]
  }

  /** Adds a token to the last statement of a block, which is a new one unless a word came last. */
  function AddWord(top: seq<Statement>, more: bool, w: string): seq<Statement> {
    if more && top != [] then top[|top| - 1 := Simple(top[|top| - 1].tokens + [w])] else top + [Simple([w])]
  }

  function OpenLast(top: seq<Statement>): seq<Statement> {
    if top == [] then top else top[|top| - 1 := Nested(top[|top| - 1].tokens, [])]
  }

  /** One token of the grammar. */
  function Step(p: Parsing, t: Token): Option<Parsing> {
    if !Chain(p.tree, p.depth) then None
    else
      var top := Top(p.tree, p.depth);
      match t
      case Word(w) => Some(Parsing(WithTop(p.tree, p.depth, AddWord(top, p.last == AfterWord, w)), p.depth, AfterWord))
      case Semi => if p.last == AfterWord then Some(p.(last := AfterSemi)) else None
      case Open =>
        if p.last == AfterWord then Some(Parsing(WithTop(p.tree, p.depth, OpenLast(top)), p.depth + 1, AfterOpen))
          else None
      case Close =>
        if (p.last == AfterSemi || p.last == AfterClose || p.last == AfterOpen) && p.depth > 0
        then Some(Parsing(p.tree, p.depth - 1, AfterClose)) else None
  }

  /** The end of the input. */
  function Finish(p: Parsing): Option<seq<Statement>> {
    if (p.last == AfterSemi || p.last == AfterClose) && p.depth == 0 then Some(p.tree) else None
  }

  /** The tree for a token sequence, from a state of the parser on; None when it is not accepted. */
  function Run(k: Tokens, p: Parsing): Option<seq<Statement>>
    decreases |k.list|
  {
    if k.list == [] then (if k.ok then Finish(p) else None)
    else
      match Step(p, k.list[0])
      case None => None
      case Some(q) => Run(Tokens(k.list[1..], k.ok), q)
  }

  const FIRST: Parsing := Parsing([], 0, Start)

  function ParseText(text: string): Option<seq<Statement>> { Run(TokensOf(text), FIRST) }

  // ---------------------------------------------------------------- what has been read

  /** The tokens read so far, as the tree shows them. */
  function FlatOpen(tree: seq<Statement>, depth: nat, pending: bool): seq<Token>
    decreases depth
  {
    if tree == [] then []
    else
      var n := |tree| - 1;
      if depth > 0 && tree[n].Nested? then
        Flat(tree[..n]) + (Words(tree[n].tokens) + ([Token.Open] + FlatOpen(tree[n].block, depth - 1, pending)))
      else if pending then Flat(tree[..n]) + Words(tree[n].tokens)
      else Flat(tree)
  }

  /** Everything in the tree is good, up to what is still open. */
  predicate GoodOpen(tree: seq<Statement>, depth: nat, pending: bool)
    decreases depth
  {
    if depth > 0 then
      && tree != [] && tree[|tree| - 1].Nested? && Good(tree[..|tree| - 1]) && GoodTokens(tree[|tree| - 1].tokens)
      && GoodOpen(tree[|tree| - 1].block, depth - 1, pending)
    else if pending then tree != [] && tree[|tree| - 1].Simple? && Good(tree)
    else Good(tree)
  }

  predicate GoodTokens(tokens: seq<string>) { tokens != [] && forall k :: 0 <= k < |tokens| ==> IsWord(tokens[k]) }

  lemma {:induction false} FlatJoin(a: seq<Statement>, b: seq<Statement>)
    ensures Flat(a + b) == Flat(a) + Flat(b) && (Good(a + b) <==> Good(a) && Good(b))
    decreases |a|
  {
    if a == [] {
      assert a + b == b;
    } else {
      assert (a + b)[1..] == a[1..] + b;
      FlatJoin(a[1..], b);
    }
  }

  lemma FlatOne(s: Statement)
    ensures Flat([s]) == FlatStatement(s) && (Good([s]) <==> GoodStatement(s))
  {
    assert [s][1..] == [];
  }

  lemma {:induction false} WordsJoin(tokens: seq<string>, w: string)
    ensures Words(tokens + [w]) == Words(tokens) + [Word(w)]
    decreases |tokens|
  {
    if tokens == [] {
      assert tokens + [w] == [w] && [w][1..] == [];
    } else {
      assert (tokens + [w])[1..] == tokens[1..] + [w];
      WordsJoin(tokens[1..], w);
    }
  }

  /** Changing the end of the chain changes the end of what has been read. */
  lemma {:induction false} OpenWith(tree: seq<Statement>, depth: nat, pending: bool, top: seq<Statement>,
                                    pending': bool, add: seq<Token>)
    requires Chain(tree, depth) && GoodOpen(tree, depth, pending)
    requires FlatOpen(top, 0, pending') == FlatOpen(Top(tree, depth), 0, pending) + add
    requires GoodOpen(Top(tree, depth), 0, pending) ==> GoodOpen(top, 0, pending')
    ensures var t := WithTop(tree, depth, top);
            && Chain(t, depth) && Top(t, depth) == top && GoodOpen(t, depth, pending')
            && FlatOpen(t, depth, pending') == FlatOpen(tree, depth, pending) + add
    decreases depth
  {
    if depth > 0 {
      var n := |tree| - 1;
      OpenWith(tree[n].block, depth - 1, pending, top, pending', add);
      var t := WithTop(tree, depth, top);
      assert t[..n] == tree[..n] && |t| == n + 1;
      OpenAdd(Flat(tree[..n]), Words(tree[n].tokens), FlatOpen(tree[n].block, depth - 1, pending), add);
    }
  }

  lemma OpenAdd(a: seq<Token>, b: seq<Token>, c: seq<Token>, add: seq<Token>)
    ensures a + (b + ([Token.Open] + (c + add))) == (a + (b + ([Token.Open] + c))) + add
  {
  }

  /** A word is appended to the statement at the end of the chain. */
  lemma WordTop(top: seq<Statement>, pending: bool, w: string)
    requires GoodOpen(top, 0, pending) && IsWord(w)
    ensures var top' := AddWord(top, pending, w);
            FlatOpen(top', 0, true) == FlatOpen(top, 0, pending) + [Word(w)] && GoodOpen(top', 0, true)
  {
    hide IsWord;
    var top' := AddWord(top, pending, w);
    if pending {
      PendingTop(top, w);
    } else {
      assert top'[..|top|] == top && top' == top + [Simple([w])];
      assert Words([w]) == [Word(w)] by {
        assert [] + [w] == [w];
        WordsJoin([], w);
      }
      FlatJoin(top, [Simple([w])]);
      FlatOne(Simple([w]));
    }
  }

  /** A word is appended to the last statement. */
  lemma PendingTop(top: seq<Statement>, w: string)
    requires GoodOpen(top, 0, true) && IsWord(w)
    ensures var top' := AddWord(top, true, w);
            FlatOpen(top', 0, true) == FlatOpen(top, 0, true) + [Word(w)] && GoodOpen(top', 0, true)
  {
    hide IsWord, Flat, FlatStatement;
    var top', n := AddWord(top, true, w), |top| - 1;
    assert top == top[..n] + [top[n]] && top' == top[..n] + [top'[n]];
    WordsJoin(top[n].tokens, w);
    FlatJoin(top[..n], [top[n]]);
    FlatJoin(top[..n], [top'[n]]);
    FlatOne(top[n]);
    FlatOne(top'[n]);
  }

  lemma SemiTop(top: seq<Statement>)
    requires GoodOpen(top, 0, true)
    ensures FlatOpen(top, 0, false) == FlatOpen(top, 0, true) + [Semi] && GoodOpen(top, 0, false)
  {
    var n := |top| - 1;
    assert top == top[..n] + [top[n]];
    FlatJoin(top[..n], [top[n]]);
    FlatOne(top[n]);
  }

  /** Opening a block makes the chain longer. */
  lemma {:induction false} OpenTop(tree: seq<Statement>, depth: nat)
    requires Chain(tree, depth) && GoodOpen(tree, depth, true)
    ensures var t := WithTop(tree, depth, OpenLast(Top(tree, depth)));
            && Chain(t, depth + 1) && GoodOpen(t, depth + 1, false)
            && FlatOpen(t, depth + 1, false) == FlatOpen(tree, depth, true) + [Token.Open]
    decreases depth
  {
    var n := |tree| - 1;
    var t := WithTop(tree, depth, OpenLast(Top(tree, depth)));
    if depth == 0 {
      assert tree == tree[..n] + [tree[n]];
      FlatJoin(tree[..n], [tree[n]]);
      FlatOne(tree[n]);
      assert t[..n] == tree[..n] && t[n] == Nested(tree[n].tokens, []);
      assert Chain(t[n].block, 0) && FlatOpen(t[n].block, 0, false) == [];
      assert [Token.Open] + [] == [Token.Open];
    } else {
      OpenTop(tree[n].block, depth - 1);
      assert t[..n] == tree[..n];
      OpenAdd(Flat(tree[..n]), Words(tree[n].tokens), FlatOpen(tree[n].block, depth - 1, true), [Token.Open]);
    }
  }

  /** Closing a block makes the chain shorter. */
  lemma {:induction false} CloseTop(tree: seq<Statement>, depth: nat)
    requires depth > 0 && Chain(tree, depth) && GoodOpen(tree, depth, false)
    ensures Chain(tree, depth - 1) && GoodOpen(tree, depth - 1, false)
    ensures FlatOpen(tree, depth - 1, false) == FlatOpen(tree, depth, false) + [Token.Close]
    decreases depth
  {
    var n := |tree| - 1;
    assert tree == tree[..n] + [tree[n]];
    if depth == 1 {
      FlatJoin(tree[..n], [tree[n]]);
      FlatOne(tree[n]);
      var block := tree[n].block;
      assert FlatOpen(block, 0, false) == Flat(block);
      OpenAdd(Flat(tree[..n]), Words(tree[n].tokens), Flat(block), [Token.Close]);
      assert FlatStatement(tree[n]) == Words(tree[n].tokens) + ([Token.Open] + (Flat(block) + [Token.Close]));
    } else {
      CloseTop(tree[n].block, depth - 1);
      OpenAdd(Flat(tree[..n]), Words(tree[n].tokens), FlatOpen(tree[n].block, depth - 1, false), [Token.Close]);
    }
  }

  /** The tokens read are the tokens of the tree. */
  predicate Faithful(p: Parsing, read: seq<Token>) {
    && Chain(p.tree, p.depth) && GoodOpen(p.tree, p.depth, p.last == AfterWord)
    && FlatOpen(p.tree, p.depth, p.last == AfterWord) == read
  }

  lemma {:induction false} GoodTop(tree: seq<Statement>, depth: nat, pending: bool)
    requires Chain(tree, depth) && GoodOpen(tree, depth, pending)
    ensures GoodOpen(Top(tree, depth), 0, pending)
    decreases depth
  {
    if depth > 0 {
      GoodTop(tree[|tree| - 1].block, depth - 1, pending);
    }
  }

  /** Every step of the parser keeps that, and the chain of open blocks. */
  lemma StepFaithful(p: Parsing, read: seq<Token>, t: Token)
    requires Faithful(p, read) && Step(p, t).Some? && (t.Word? ==> IsWord(t.text))
    ensures Faithful(Step(p, t).value, read + [t])
  {
    hide IsWord, Good, Flat, FlatOpen, GoodOpen, AddWord, OpenLast;
    var pending, top := p.last == AfterWord, Top(p.tree, p.depth);
    GoodTop(p.tree, p.depth, pending);
    match t
    case Word(w) =>
      WordTop(top, pending, w);
      OpenWith(p.tree, p.depth, pending, AddWord(top, pending, w), true, [t]);
    case Semi =>
      SemiTop(top);
      OpenWith(p.tree, p.depth, true, top, false, [t]);
      WithSame(p.tree, p.depth);
    case Open => OpenTop(p.tree, p.depth);
    case Close => CloseTop(p.tree, p.depth);
  }

  lemma {:induction false} WithSame(tree: seq<Statement>, depth: nat)
    requires Chain(tree, depth)
    ensures WithTop(tree, depth, Top(tree, depth)) == tree
    decreases depth
  {
    if depth > 0 {
      WithSame(tree[|tree| - 1].block, depth - 1);
    }
  }

  /** The tokens of an accepted tree are the tokens that were read. */
  lemma {:induction false} RunFaithful(k: Tokens, p: Parsing, read: seq<Token>)
    requires Faithful(p, read) && AllWords(k.list) && Run(k, p).Some?
    ensures k.ok && Flat(Run(k, p).value) == read + k.list && Good(Run(k, p).value)
    decreases |k.list|
  {
    hide IsWord, Faithful, Step, Finish;
    if k.list == [] {
      FinishFaithful(p, read);
      assert read + [] == read;
    } else {
      var t := k.list[0];
      assert t.Word? ==> IsWord(t.text);
      StepFaithful(p, read, t);
      var rest := Tokens(k.list[1..], k.ok);
      assert AllWords(rest.list) by {
        forall j | 0 <= j < |rest.list| && rest.list[j].Word? ensures IsWord(rest.list[j].text) {
          assert rest.list[j] == k.list[j + 1];
        }
      }
      RunFaithful(rest, Step(p, t).value, read + [t]);
      assert read + [t] + rest.list == read + k.list;
    }
  }

  lemma FinishFaithful(p: Parsing, read: seq<Token>)
    requires Faithful(p, read) && Finish(p).Some?
    ensures Flat(Finish(p).value) == read && Good(Finish(p).value)
  {
  }

  lemma FirstFaithful()
    ensures Faithful(FIRST, [])
  {
  }

  /** Parsing the printed form of what was parsed gives the same tree. */
  lemma RoundTrip(text: string)
    requires ParseText(text).Some?
    ensures ParseText(Print(ParseText(text).value, 0)) == ParseText(text)
  {
    hide Print, Good, IsWord, Run, Faithful;
    var config := ParseText(text).value;
    TokensWords(text);
    FirstFaithful();
    RunFaithful(TokensOf(text), FIRST, []);
    assert [] + TokensOf(text).list == TokensOf(text).list;
    PrintTokens(config, 0, "");
    assert Print(config, 0) + "" == Print(config, 0);
    assert TokensOf("") == Tokens([], true);
    assert Flat(config) + [] == Flat(config);
  }

  // ---------------------------------------------------------------- what is accepted

  lemma {:induction false} TopWith(tree: seq<Statement>, depth: nat, a: seq<Statement>, b: seq<Statement>)
    requires Chain(tree, depth)
    ensures Chain(WithTop(tree, depth, a), depth) && Top(WithTop(tree, depth, a), depth) == a
    ensures WithTop(WithTop(tree, depth, a), depth, b) == WithTop(tree, depth, b)
    decreases depth
  {
    if depth > 0 {
      var n := |tree| - 1;
      TopWith(tree[n].block, depth - 1, a, b);
      assert WithTop(tree, depth, a)[n := tree[n]] == tree;
    }
  }

  /** The block of the last statement at the end of the chain. */
  lemma {:induction false} WithBlock(tree: seq<Statement>, depth: nat, a: seq<Statement>, tokens: seq<string>,
                                     b: seq<Statement>, c: seq<Statement>)
    requires Chain(tree, depth)
    ensures var t := WithTop(tree, depth, a + [Nested(tokens, b)]);
            && Chain(t, depth + 1) && Top(t, depth + 1) == b
            && WithTop(t, depth + 1, c) == WithTop(tree, depth, a + [Nested(tokens, c)])
    decreases depth
  {
    if depth == 0 {
      var t := a + [Nested(tokens, b)];
      assert Chain(t[|a|].block, 0) && Top(t[|a|].block, 0) == b;
      assert t[|a| := Nested(tokens, c)] == a + [Nested(tokens, c)];
    } else {
      WithBlock(tree[|tree| - 1].block, depth - 1, a, tokens, b, c);
    }
  }

  /** The state after some statements have been read. */
  function Read(tree: seq<Statement>, depth: nat, top: seq<Statement>, last: Last): Parsing
    requires Chain(tree, depth)
  {
    Parsing(WithTop(tree, depth, top), depth, last)
  }

  function LastOf(config: seq<Statement>, last: Last): Last {
    if config == [] then last else if config[|config| - 1].Simple? then AfterSemi else AfterClose
  }

  lemma RunStep(t: Token, rest: seq<Token>, p: Parsing, q: Parsing)
    requires Step(p, t) == Some(q)
    ensures Run(Tokens([t] + rest, true), p) == Run(Tokens(rest, true), q)
  {
    assert ([t] + rest)[1..] == rest;
  }

  /** More words of the last statement. */
  lemma {:induction false} RunTokens(more: seq<string>, rest: seq<Token>, tree: seq<Statement>, depth: nat,
                                     top: seq<Statement>, tokens: seq<string>)
    requires Chain(tree, depth)
    ensures Run(Tokens(Words(more) + rest, true), Read(tree, depth, top + [Simple(tokens)], AfterWord))
         == Run(Tokens(rest, true), Read(tree, depth, top + [Simple(tokens + more)], AfterWord))
    decreases |more|
  {
    hide Run, Chain, Top, WithTop;
    if more == [] {
      assert Words(more) + rest == rest && tokens + more == tokens;
    } else {
      var w := more[0];
      var p := Read(tree, depth, top + [Simple(tokens)], AfterWord);
      var q := Read(tree, depth, top + [Simple(tokens + [w])], AfterWord);
      TopWith(tree, depth, top + [Simple(tokens)], top + [Simple(tokens + [w])]);
      AddedWord(top, tokens, w);
      assert Words(more) + rest == [Word(w)] + (Words(more[1..]) + rest);
      RunStep(Word(w), Words(more[1..]) + rest, p, q);
      RunTokens(more[1..], rest, tree, depth, top, tokens + [w]);
      assert tokens + [w] + more[1..] == tokens + more;
    }
  }

  lemma AddedWord(top: seq<Statement>, tokens: seq<string>, w: string)
    ensures AddWord(top + [Simple(tokens)], true, w) == top + [Simple(tokens + [w])]
  {
  }

  /** The words of a statement. */
  lemma RunWords(tokens: seq<string>, rest: seq<Token>, tree: seq<Statement>, depth: nat, top: seq<Statement>,
                 last: Last)
    requires Chain(tree, depth) && tokens != [] && last != AfterWord
    ensures Run(Tokens(Words(tokens) + rest, true), Read(tree, depth, top, last))
         == Run(Tokens(rest, true), Read(tree, depth, top + [Simple(tokens)], AfterWord))
  {
    hide Run, Chain, Top, WithTop;
    var w, more := tokens[0], tokens[1..];
    TopWith(tree, depth, top, top + [Simple([w])]);
    assert Words(tokens) + rest == [Word(w)] + (Words(more) + rest);
    RunStep(Word(w), Words(more) + rest, Read(tree, depth, top, last),
            Read(tree, depth, top + [Simple([w])], AfterWord));
    RunTokens(more, rest, tree, depth, top, [w]);
    assert [w] + more == tokens;
  }

  /** Statements are read as they are, wherever a statement may stand. */
  lemma {:induction false} RunFlat(config: seq<Statement>, rest: seq<Token>, tree: seq<Statement>, depth: nat,
                                   top: seq<Statement>, last: Last)
    requires Good(config) && Chain(tree, depth) && last != AfterWord
    ensures Run(Tokens(Flat(config) + rest, true), Read(tree, depth, top, last))
         == Run(Tokens(rest, true), Read(tree, depth, top + config, LastOf(config, last)))
    decreases config, 0
  {
    hide Run, Chain, Top, WithTop, GoodStatement, FlatStatement;
    if config == [] {
      assert Flat(config) + rest == rest && top + config == top;
    } else {
      var s, more := config[0], config[1..];
      RunStatement(s, Flat(more) + rest, tree, depth, top, last);
      RunFlat(more, rest, tree, depth, top + [s], LastOf([s], last));
      assert Flat(config) + rest == FlatStatement(s) + (Flat(more) + rest);
      assert top + [s] + more == top + config;
    }
  }

  lemma {:induction false} RunStatement(s: Statement, rest: seq<Token>, tree: seq<Statement>, depth: nat,
                                        top: seq<Statement>, last: Last)
    requires GoodStatement(s) && Chain(tree, depth) && last != AfterWord
    ensures Run(Tokens(FlatStatement(s) + rest, true), Read(tree, depth, top, last))
         == Run(Tokens(rest, true), Read(tree, depth, top + [s], LastOf([s], last)))
    decreases s, 1
  {
    hide Run, Chain, Top, WithTop, IsWord, Words;
    match s
    case Simple(tokens) =>
      assert FlatStatement(s) + rest == Words(tokens) + ([Semi] + rest);
      RunWords(tokens, [Semi] + rest, tree, depth, top, last);
      TopWith(tree, depth, top + [s], []);
      RunStep(Semi, rest, Read(tree, depth, top + [s], AfterWord), Read(tree, depth, top + [s], AfterSemi));
    case Nested(tokens, block) =>
      RunBlock(s, tokens, block, rest, tree, depth, top, last);
  }

  lemma {:induction false} RunBlock(s: Statement, tokens: seq<string>, block: seq<Statement>, rest: seq<Token>,
                                    tree: seq<Statement>, depth: nat, top: seq<Statement>, last: Last)
    requires GoodStatement(s) && s == Nested(tokens, block) && Chain(tree, depth) && last != AfterWord
    ensures Run(Tokens(FlatStatement(s) + rest, true), Read(tree, depth, top, last))
         == Run(Tokens(rest, true), Read(tree, depth, top + [s], AfterClose))
    decreases s, 0
  {
    hide Run, Chain, Top, WithTop, IsWord, Words, Flat, Good;
    BlockGood(s, block);
    var close := [Close] + rest;
    BlockFlat(s, block, rest);
    RunWords(tokens, [Open] + (Flat(block) + close), tree, depth, top, last);
    TopWith(tree, depth, top + [Simple(tokens)], top + [Nested(tokens, [])]);
    WithBlock(tree, depth, top, tokens, [], block);
    var t := WithTop(tree, depth, top + [Nested(tokens, [])]);
    OpenedLast(top, tokens);
    RunStep(Open, Flat(block) + close, Read(tree, depth, top + [Simple(tokens)], AfterWord),
            Parsing(t, depth + 1, AfterOpen));
    WithSame(t, depth + 1);
    RunFlat(block, close, t, depth + 1, [], AfterOpen);
    assert [] + block == block;
    WithBlock(tree, depth, top, tokens, block, []);
    RunStep(Close, rest, Read(t, depth + 1, block, LastOf(block, AfterOpen)),
            Read(tree, depth, top + [s], AfterClose));
  }

  lemma OpenedLast(top: seq<Statement>, tokens: seq<string>)
    ensures OpenLast(top + [Simple(tokens)]) == top + [Nested(tokens, [])]
  {
  }

  /** The grammar: a text is accepted as a configuration if and only if that is a nonempty sequence
      of statements with words, and the tokens of the text are, for every statement, its words
      and a semicolon, or its words and its block in braces. */
  lemma Accepts(text: string, config: seq<Statement>)
    ensures ParseText(text) == Some(config)
            <==> config != [] && Good(config) && TokensOf(text) == Tokens(Flat(config), true)
  {
    hide Good, IsWord, Run, Faithful, Flat, FlatStatement;
    var k := TokensOf(text);
    if ParseText(text) == Some(config) {
      TokensWords(text);
      FirstFaithful();
      RunFaithful(k, FIRST, []);
      assert [] + k.list == k.list;
      RunNonempty(k, FIRST);
    }
    if config != [] && Good(config) && k == Tokens(Flat(config), true) {
      RunFlat(config, [], [], 0, [], Start);
      assert Flat(config) + [] == Flat(config) && [] + config == config;
      assert Run(Tokens([], true), Parsing(config, 0, LastOf(config, Start))) == Some(config) by {
        RunEnd(config, LastOf(config, Start));
      }
    }
  }

  lemma RunEnd(tree: seq<Statement>, last: Last)
    requires last == AfterSemi || last == AfterClose
    ensures Run(Tokens([], true), Parsing(tree, 0, last)) == Some(tree)
  {
  }

  /** Nothing is accepted before a statement has been read. */
  lemma {:induction false} RunNonempty(k: Tokens, p: Parsing)
    requires Run(k, p).Some? && (p.last != Start ==> p.tree != [])
    ensures Run(k, p).value != []
    decreases |k.list|
  {
    hide Chain;
    if k.list != [] {
      StepNonempty(p, k.list[0]);
      RunNonempty(Tokens(k.list[1..], k.ok), Step(p, k.list[0]).value);
    }
  }

  lemma StepNonempty(p: Parsing, t: Token)
    requires Step(p, t).Some? && (p.last != Start ==> p.tree != [])
    ensures Step(p, t).value.tree != []
  {
  }

  /** Every configuration is accepted when it is printed, and read back. */
  lemma PrintAccepted(config: seq<Statement>)
    requires Good(config) && config != []
    ensures ParseText(Print(config, 0)) == Some(config)
  {
    hide Print, Good, Flat, ParseText;
    PrintTokens(config, 0, "");
    assert Print(config, 0) + "" == Print(config, 0);
    LineEnd();
    assert Flat(config) + [] == Flat(config);
    Accepts(Print(config, 0), config);
  }

  /** A comment, up to the end of its line, is passed over. */
  lemma CommentSkipped(comment: string, c: char, rest: string)
    requires (c == '\n' || c == '\r') && forall k :: 0 <= k < |comment| ==> comment[k] != '\n' && comment[k] != '\r'
    ensures TokensOf("#" + comment + [c] + rest) == TokensOf(rest)
  {
    var s := "#" + comment + [c] + rest;
    assert s[1..] == comment + ([c] + rest);
    ScanComment(comment, c, rest, "#");
  }

  lemma {:induction false} ScanComment(comment: string, c: char, rest: string, value: string)
    requires (c == '\n' || c == '\r') && forall k :: 0 <= k < |comment| ==> comment[k] != '\n' && comment[k] != '\r'
    ensures Scan(comment + ([c] + rest), InComment, value) == Lexed(Comment, value + comment, rest)
    decreases |comment|
  {
    var s := comment + ([c] + rest);
    if comment == "" {
      assert s == [c] + rest && s[1..] == rest && value + comment == value;
    } else {
      assert s[1..] == comment[1..] + ([c] + rest);
      ScanComment(comment[1..], c, rest, value + [comment[0]]);
      assert value + [comment[0]] + comment[1..] == value + comment;
    }
  }

  /** What separates tokens: space, tab and line feed, and also carriage return in front of a
      token; semicolon and braces end a word, too. */
  lemma Separators(c: char)
    ensures Blank(c) <==> c in " \t\n\r"
    ensures Stop(c) <==> c in " \t\n;{}"
  {
    assert " \t\n\r"[0] == ' ' && " \t\n\r"[1] == '\t' && " \t\n\r"[2] == '\n' && " \t\n\r"[3] == '\r';
    var s := " \t\n;{}";
    assert s[0] == ' ' && s[1] == '\t' && s[2] == '\n' && s[3] == ';' && s[4] == '{' && s[5] == '}';
  }

  /** Printing is a normal form: what was parsed and printed is printed the same way again. */
  lemma PrintStable(text: string)
    requires ParseText(text).Some?
    ensures var printed := Print(ParseText(text).value, 0);
            ParseText(printed).Some? && Print(ParseText(printed).value, 0) == printed
  {
    RoundTrip(text);
  }

  // ---------------------------------------------------------------- how a text ends

  /** The state of the token automaton after one more character. */
  function After(state: State, c: char): State {
    match state
    case Initial =>
      if c == '#' then InComment else if c == '"' then InDouble else if c == '\'' then InSingle
      else if c == '{' || c == '}' || c == ';' || Blank(c) then Initial else InNormal
    case InSingle => if c == '\'' then Initial else InSingle
    case InDouble => if c == '"' then Initial else InDouble
    case InComment => if c == '\n' || c == '\r' then Initial else InComment
    case InNormal => if Stop(c) then Initial else InNormal
  }

  function Final(s: string, state: State): State { if s == "" then state else Final(s[1..], After(state, s[0])) }

  /** The text ends inside an unquoted word. */
  predicate EndsInWord(text: string) { Final(text, Initial) == InNormal }

  /** How the token l at the start of a text compares with the token e that is there with a line
      end behind the text; `last` is the state at the end of the text. */
  predicate WithLineEnd(l: Lexed, e: Lexed, last: State) {
    match l.kind
    case Error => e.kind == Error && last != InNormal
    case Eof =>
      (match last
       case InNormal => e.kind == Normal && e.rest == "\n"
       case InComment => e.kind == Comment && e.rest == ""
       case Initial => e.kind == Eof
       case _ => false)
    case _ => e == Lexed(l.kind, l.value, l.rest + "\n") && last == Final(l.rest, Initial)
  }

  /** One token with a line end behind the text. */
  lemma {:induction false} ScanEnd(s: string, state: State, value: string)
    ensures WithLineEnd(Scan(s, state, value), Scan(s + "\n", state, value), Final(s, state))
    decreases |s|
  {
    if s == "" {
      assert s + "\n" == "\n" && "\n"[1..] == "";
    } else {
      var c, t := s[0], s[1..];
      assert (s + "\n")[0] == c && (s + "\n")[1..] == t + "\n";
      match state
      case Initial =>
        var quote := c == '#' || c == '"' || c == '\'';
        ScanEnd(t, After(state, c), if quote then [c] else if Blank(c) then value else value + [c]);
      case InSingle => ScanEnd(t, InSingle, value + [c]);
      case InDouble => ScanEnd(t, InDouble, value + [c]);
      case InComment => ScanEnd(t, InComment, value + [c]);
      case InNormal => ScanEnd(t, InNormal, value + [c]);
    }
  }

  /** The tokens of a text with a line end behind it. */
  lemma {:induction false} TokensEnd(s: string) returns (w: string)
    ensures var k, e := TokensOf(s), TokensOf(s + "\n");
            if EndsInWord(s) then e == Tokens(k.list + [Word(w)], k.ok) else e == k
    decreases |s|
  {
    hide Scan, Final;
    ScanEnd(s, Initial, "");
    LexShorter(s);
    LineEnd();
    var l := Lex(s);
    w := Lex(s + "\n").value;
    if l.kind != Eof && l.kind != Error {
      w := TokensEnd(l.rest);
    }
  }

  lemma LineEnd()
    ensures TokensOf("") == Tokens([], true) && TokensOf("\n") == Tokens([], true)
  {
    assert "\n"[1..] == "";
  }

  /** No text is accepted whose last token is a word. */
  lemma {:induction false} RunWord(list: seq<Token>, ok: bool, w: string, p: Parsing)
    ensures Run(Tokens(list + [Word(w)], ok), p) == None
    decreases |list|
  {
    hide Chain, Top, WithTop;
    var k := list + [Word(w)];
    if list == [] {
      assert k[0] == Word(w) && k[1..] == [];
    } else {
      assert k[0] == list[0] && k[1..] == list[1..] + [Word(w)];
      if Step(p, k[0]).Some? {
        RunWord(list[1..], ok, w, Step(p, k[0]).value);
      }
    }
  }

  /** A text that ends in a word is read as if the word were not there: with a line end
      behind it, the same text is not accepted. All other texts mean the same with a line end. */
  lemma TrailingWord(text: string)
    ensures ParseText(text + "\n") == if EndsInWord(text) then None else ParseText(text)
    ensures ParseText(text).Some? ==> (ParseText(text + "\n") == ParseText(text) <==> !EndsInWord(text))
  {
    hide TokensOf, Run, EndsInWord;
    var w := TokensEnd(text);
    RunWord(TokensOf(text).list, TokensOf(text).ok, w, FIRST);
  }

  /** Such texts are accepted: any word behind a printed configuration is dropped. */
  lemma TrailingDropped(config: seq<Statement>, w: string)
    requires Good(config) && Plain(w)
    ensures ParseText(Print(config, 0) + w) == ParseText(Print(config, 0))
  {
    hide Print, Good, Run, Flat;
    PrintTokens(config, 0, w);
    PrintTokens(config, 0, "");
    assert Print(config, 0) + "" == Print(config, 0);
    ScanEnds(w[1..], "" + [w[0]]);
    assert TokensOf(w) == Tokens([], true) && TokensOf("") == Tokens([], true);
  }

  /** The least such text: one statement, a word, and no line end. */
  lemma DroppedWord()
    ensures EndsInWord("a;b") && ParseText("a;b") == Some([Simple(["a"])]) && ParseText("a;b\n") == None
  {
    hide Run;
    var rest, last := ";b", "b";
    assert "a;b" == "a" + rest && rest == [';'] + last;
    TokensWord("a", rest);
    TokensMark(';', last);
    ScanEnds("", "b");
    assert last[1..] == "" && TokensOf(last) == Tokens([], true);
    assert [Semi] + [] == [Semi] && [Word("a")] + [Semi] == [Word("a"), Semi];
    RunFirst("a", [Semi]);
    RunSemi([Simple(["a"])]);
    FinalDropped();
    TrailingWord("a;b");
    assert "a;b" + "\n" == "a;b\n";
  }

  lemma FinalDropped()
    ensures EndsInWord("a;b")
  {
    var s := "a;b";
    assert s[1..] == ";b" && s[1..][1..] == "b" && s[1..][1..][1..] == "";
    assert After(Initial, 'a') == InNormal && After(InNormal, ';') == Initial && After(Initial, 'b') == InNormal;
    assert Final("b", Initial) == InNormal;
    assert Final(";b", InNormal) == InNormal;
  }

  /** The first word of a configuration. */
  lemma RunFirst(w: string, rest: seq<Token>)
    ensures Run(Tokens([Word(w)] + rest, true), FIRST)
         == Run(Tokens(rest, true), Parsing([Simple([w])], 0, AfterWord))
  {
    var k := [Word(w)] + rest;
    assert k[0] == Word(w) && k[1..] == rest;
    assert [] + [Simple([w])] == [Simple([w])];
  }

  lemma RunMore(s: Statement, w: string, rest: seq<Token>)
    ensures Run(Tokens([Word(w)] + rest, true), Parsing([s], 0, AfterWord))
         == Run(Tokens(rest, true), Parsing([Simple(s.tokens + [w])], 0, AfterWord))
  {
    var k := [Word(w)] + rest;
    assert k[0] == Word(w) && k[1..] == rest;
    assert [s][0 := Simple(s.tokens + [w])] == [Simple(s.tokens + [w])];
  }

  lemma RunSemi(tree: seq<Statement>)
    ensures Run(Tokens([Semi], true), Parsing(tree, 0, AfterWord)) == Some(tree)
  {
    assert [Semi][1..] == [];
  }

  lemma {:induction false} ScanEnds(w: string, value: string)
    requires forall k :: 0 <= k < |w| ==> !Stop(w[k])
    ensures Scan(w, InNormal, value).kind == Eof
    decreases |w|
  {
    if w != "" {
      ScanEnds(w[1..], value + [w[0]]);
    }
  }

  // ---------------------------------------------------------------- line ends of two characters

  predicate Stops(s: string) { s != "" && (Stop(s[0]) || Stops(s[1..])) }

  /** A carriage return stands inside an unquoted word that ends somewhere. */
  predicate ReturnInWord(s: string, state: State) {
    s != "" && ((state == InNormal && s[0] == '\r' && Stops(s)) || ReturnInWord(s[1..], After(state, s[0])))
  }

  /** Some unquoted token holds a blank. */
  predicate BlankInWord(list: seq<Token>) {
    exists k :: 0 <= k < |list| && list[k].Word? && BlankIn(list[k].text)
  }

  predicate BlankIn(w: string) { Plain(w) && exists j :: 0 <= j < |w| && Blank(w[j]) }

  lemma ReturnIn(w: string)
    requires Plain(w)
    ensures BlankIn(w) <==> '\r' in w
  {
  }

  lemma {:induction false} WordStops(s: string, value: string)
    ensures Scan(s, InNormal, value).kind == (if Stops(s) then Normal else Eof)
    decreases |s|
  {
    if s != "" {
      WordStops(s[1..], value + [s[0]]);
    }
  }

  lemma {:induction false} NoStops(s: string)
    requires !Stops(s)
    ensures !ReturnInWord(s, InNormal)
  {
    if s != "" {
      NoStops(s[1..]);
    }
  }

  /** The rest of an unquoted word. */
  lemma {:induction false} PlainReturn(s: string, value: string)
    requires Plain(value) && Stops(s)
    ensures var l := Scan(s, InNormal, value);
            l.kind == Normal && Plain(l.value) &&
            (BlankIn(l.value) || ReturnInWord(l.rest, Initial) <==> BlankIn(value) || ReturnInWord(s, InNormal))
    decreases |s|
  {
    hide Plain, BlankIn;
    var c, t := s[0], s[1..];
    if !Stop(c) {
      LongerWord(value, c);
      PlainReturn(t, value + [c]);
    }
  }

  lemma LongerWord(value: string, c: char)
    requires Plain(value) && !Stop(c)
    ensures Plain(value + [c]) && (BlankIn(value + [c]) <==> BlankIn(value) || c == '\r')
  {
    ReturnIn(value);
    ReturnIn(value + [c]);
  }

  /** One token. */
  lemma {:induction false} ScanReturn(s: string, state: State, value: string)
    requires Prefix(state, value) && state != InNormal
    ensures var l := Scan(s, state, value);
            ReturnInWord(s, state) <==>
            ((l.kind == Normal && BlankIn(l.value))
             || (l.kind != Eof && l.kind != Error && ReturnInWord(l.rest, Initial)))
    decreases |s|
  {
    if s != "" {
      var c, t := s[0], s[1..];
      match state
      case Initial =>
        if c == '#' {
          ScanReturn(t, InComment, [c]);
        } else if c == '"' {
          ScanReturn(t, InDouble, [c]);
        } else if c == '\'' {
          ScanReturn(t, InSingle, [c]);
        } else if Blank(c) {
          ScanReturn(t, Initial, value);
        } else if c != '{' && c != '}' && c != ';' {
          assert value + [c] == [c] && !BlankIn([c]);
          WordStops(t, [c]);
          if Stops(t) {
            PlainReturn(t, [c]);
          } else {
            NoStops(t);
          }
        }
      case InSingle =>
        if c != '\'' {
          ScanReturn(t, InSingle, value + [c]);
        }
      case InDouble =>
        if c != '"' {
          ScanReturn(t, InDouble, value + [c]);
        }
      case InComment =>
        if c != '\n' && c != '\r' {
          ScanReturn(t, InComment, value + [c]);
        }
    }
  }

  lemma {:induction false} TokensReturn(s: string)
    ensures BlankInWord(TokensOf(s).list) <==> ReturnInWord(s, Initial)
    decreases |s|
  {
    hide Scan, ReturnInWord, BlankIn;
    ScanReturn(s, Initial, "");
    LexShorter(s);
    var l := Lex(s);
    if l.kind != Eof && l.kind != Error {
      TokensReturn(l.rest);
      BlankFirst(TokenOf(l), TokensOf(l.rest).list);
    }
  }

  lemma BlankFirst(t: Token, list: seq<Token>)
    ensures BlankInWord([t] + list) <==> (t.Word? && BlankIn(t.text)) || BlankInWord(list)
  {
    hide BlankIn;
    if t.Word? && BlankIn(t.text) {
      assert ([t] + list)[0] == t;
    }
    if BlankInWord(list) {
      var k :| 0 <= k < |list| && list[k].Word? && BlankIn(list[k].text);
      assert ([t] + list)[k + 1] == list[k];
    }
  }

  /** When an unquoted token of the tree holds a blank: exactly when the text has a carriage
      return inside a word. */
  lemma CarriageReturns(text: string)
    requires ParseText(text).Some?
    ensures BlankInWord(Flat(ParseText(text).value)) <==> ReturnInWord(text, Initial)
  {
    hide IsWord, Run, Faithful, BlankInWord, ReturnInWord, TokensOf, Good;
    TokensWords(text);
    FirstFaithful();
    RunFaithful(TokensOf(text), FIRST, []);
    assert [] + TokensOf(text).list == TokensOf(text).list;
    TokensReturn(text);
  }

  /** A line that ends in carriage return and line feed. */
  lemma CarriageReturn()
    ensures ReturnInWord("a\r\nb;", Initial) && ParseText("a\r\nb;") == Some([Simple(["a\r", "b"])])
  {
    hide Run;
    var s, rest, more := "a\r\nb;", "\nb;", "b;";
    assert s == "a\r" + rest && rest == ['\n'] + more && more == "b" + ";" && ";" == [';'] + "";
    assert IsWord("a\r") && IsWord("b") && Plain("a\r");
    TokensWord("a\r", rest);
    TokensBlank('\n', more);
    TokensWord("b", ";");
    TokensMark(';', "");
    LineEnd();
    assert [Semi] + [] == [Semi] && TokensOf(s) == Tokens([Word("a\r")] + ([Word("b")] + [Semi]), true);
    RunFirst("a\r", [Word("b")] + [Semi]);
    RunMore(Simple(["a\r"]), "b", [Semi]);
    assert ["a\r"] + ["b"] == ["a\r", "b"];
    RunSemi([Simple(["a\r", "b"])]);
    assert Blank("a\r"[1]) && TokensOf(s).list[0] == Word("a\r");
    assert BlankInWord(TokensOf(s).list);
    TokensReturn(s);
  }

  class NginxConfigParser {
    const text: string
    var pos: nat
    var config: seq<Statement>
    var depth: nat

    constructor (text: string)
      ensures this.text == text && pos == 0 && config == [] && depth == 0
    {
      this.text := text;
      pos, config, depth := 0, [], 0;
    }

    predicate Valid()
      reads this
    {
      pos <= |text|
    }

    /** ParseToken */
    method ParseToken() returns (kind: Kind, value: string)
      requires Valid()
      modifies this`pos
      ensures Valid() && Lex(old(text[pos..])) == Lexed(kind, value, text[pos..])
    {
      var state := Initial;
      value := "";
      while pos < |text|
        invariant Valid() && Scan(text[pos..], state, value) == Lex(old(text[pos..]))
        decreases |text| - pos
      {
        var c := text[pos];
        assert text[pos..][0] == c && text[pos..][1..] == text[pos + 1..];
        pos := pos + 1;
        match state
        case Initial =>
          if c == '{' {
            return StartBlock, [c];
          } else if c == '}' {
            return EndBlock, [c];
          } else if c == '#' {
            value, state := [c], InComment;
          } else if c == '"' {
            value, state := [c], InDouble;
          } else if c == '\'' {
            value, state := [c], InSingle;
          } else if c == ';' {
            return End, [c];
          } else if !Blank(c) {
            value, state := value + [c], InNormal;
          }
        case InSingle =>
          value := value + [c];
          if c == '\'' {
            return Normal, value;
          }
        case InDouble =>
          value := value + [c];
          if c == '"' {
            return Normal, value;
          }
        case InComment =>
          if c == '\n' || c == '\r' {
            return Comment, value;
          }
          value := value + [c];
        case InNormal =>
          if Stop(c) {
            pos := pos - 1;
            return Normal, value;
          }
          value := value + [c];
      }
      assert text[pos..] == "";
      kind := if state == InSingle || state == InDouble then Error else Eof;
    }

    /** Parse: accepts exactly the texts of the grammar and leaves their tree in config; the
        open blocks are always the chain of last blocks. */
    method Parse() returns (ok: bool)
      requires Valid() && config == [] && depth == 0
      modifies this
      ensures Valid() && Chain(config, depth)
      ensures ok <==> ParseText(old(text[pos..])).Some?
      ensures ok ==> depth == 0 && ParseText(old(text[pos..])) == Some(config)
    {
      hide TokensOf, Lex, WithTop, Top, AddWord, OpenLast, Chain;
      var last := Start;
      ChainStart();
      while true
        invariant Valid() && Chain(config, depth)
        invariant last == AfterWord ==> Top(config, depth) != []
        invariant Run(TokensOf(text[pos..]), Parsing(config, depth, last)) == ParseText(old(text[pos..]))
        decreases |text| - pos
      {
        ghost var s, p := text[pos..], Parsing(config, depth, last);
        LexShorter(s);
        var kind, value := ParseToken();
        NextToken(s, p);
        match kind
        case Error => return false;
        case Comment =>
        case Normal =>
          WithChain(config, depth, AddWord(Top(config, depth), last == AfterWord, value));
          WordAdded(Top(config, depth), last == AfterWord, value);
          config := WithTop(config, depth, AddWord(Top(config, depth), last == AfterWord, value));
          last := AfterWord;
        case End =>
          if last != AfterWord {
            return false;
          }
          last := AfterSemi;
        case StartBlock =>
          if last != AfterWord {
            return false;
          }
          OpenChain(config, depth);
          config := WithTop(config, depth, OpenLast(Top(config, depth)));
          depth := depth + 1;
          last := AfterOpen;
        case EndBlock =>
          if last != AfterSemi && last != AfterClose && last != AfterOpen {
            return false;
          } else if depth == 0 {
            return false;
          }
          CloseChain(config, depth);
          depth := depth - 1;
          last := AfterClose;
        case Eof => return (last == AfterSemi || last == AfterClose) && depth == 0;
      }
    }
  }

  lemma ChainStart()
    ensures Chain([], 0)
  {
  }

  lemma {:induction false} WithChain(tree: seq<Statement>, depth: nat, top: seq<Statement>)
    requires Chain(tree, depth)
    ensures Chain(WithTop(tree, depth, top), depth) && Top(WithTop(tree, depth, top), depth) == top
    decreases depth
  {
    if depth > 0 {
      WithChain(tree[|tree| - 1].block, depth - 1, top);
    }
  }

  lemma WordAdded(top: seq<Statement>, more: bool, w: string)
    ensures AddWord(top, more, w) != []
  {
  }

  lemma {:induction false} OpenChain(tree: seq<Statement>, depth: nat)
    requires Chain(tree, depth) && Top(tree, depth) != []
    ensures Chain(WithTop(tree, depth, OpenLast(Top(tree, depth))), depth + 1)
    decreases depth
  {
    if depth > 0 {
      OpenChain(tree[|tree| - 1].block, depth - 1);
    } else {
      assert Chain([], 0);
    }
  }

  lemma {:induction false} CloseChain(tree: seq<Statement>, depth: nat)
    requires Chain(tree, depth) && depth > 0
    ensures Chain(tree, depth - 1)
    decreases depth
  {
    if depth > 1 {
      CloseChain(tree[|tree| - 1].block, depth - 1);
    }
  }

  /** What the parser does with the next token of a text. */
  lemma NextToken(s: string, p: Parsing)
    ensures var l := Lex(s);
            match l.kind
            case Error => Run(TokensOf(s), p) == None
            case Comment => TokensOf(s) == TokensOf(l.rest)
            case Eof => Run(TokensOf(s), p) == Finish(p)
            case _ =>
              Run(TokensOf(s), p) ==
                match Step(p, TokenOf(l))
                case None => None
                case Some(q) => Run(TokensOf(l.rest), q)
  {
    hide Lex, Step;
    LexShorter(s);
    var l := Lex(s);
    if l.kind != Error && l.kind != Eof && l.kind != Comment {
      var k := TokensOf(l.rest);
      assert ([TokenOf(l)] + k.list)[1..] == k.list;
      assert TokensOf(s) == Tokens([TokenOf(l)] + k.list, k.ok);
    }
  }
}

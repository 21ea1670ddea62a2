/** Filled queries read as a whole: each literal is one token in the place of its placeholder. */
module SqlLex {
  import opened Bytes
  import opened SqlLiterals
  import opened SqlTemplates
  import SqlInterpolate

  // A text is a row of quoted texts and of bytes outside them.
  datatype Token = Plain(c: byte) | Quoted(quote: byte, value: bytes)

  datatype Lexed = Tokens(tokens: seq<Token>) | Open

  predicate IsQuote(c: byte) {
    c == QUOTE || c == DOUBLE_QUOTE || c == BACKTICK
  }

  // Backslashes never escape in identifiers.
  function ModeIn(quote: byte, mode: Mode): Mode {
    if quote == BACKTICK then Quotes else mode
  }

  function Before(tokens: seq<Token>, l: Lexed): Lexed {
    if l.Tokens? then Tokens(tokens + l.tokens) else Open
  }

  function Lex(text: bytes, mode: Mode): Lexed
    decreases |text|
  {
    if text == [] then Tokens([])
    else if IsQuote(text[0]) then
      match Scan(text[1..], text[0], ModeIn(text[0], mode))
      case Unterminated => Open
      case Scanned(value, rest) => Before([Quoted(text[0], value)], Lex(rest, mode))
    else Before([Plain(text[0])], Lex(text[1..], mode))
  }

  function Plains(text: bytes): (r: seq<Token>)
    ensures |r| == |text|
  {
    seq(|text|, k requires 0 <= k < |text| => Plain(text[k]))
  }

  // The tokens of a literal.
  function ArgTokens(arg: Arg): seq<Token> {
    match arg
    case Null => Plains(NULL_TEXT)
    case Number(text) => Plains(text)
    case Boolean(b) => [Plain(if b then 49 else 48)]
    case Time(text) => [Quoted(QUOTE, text)]
    case NilData => Plains(NULL_TEXT)
    case Data(v) => Plains(BINARY_PREFIX) + [Quoted(QUOTE, v)]
    case Text(v) => [Quoted(QUOTE, v)]
    case Other => []
  }

  predicate NoQuotes(text: bytes) {
    forall k :: 0 <= k < |text| ==> !IsQuote(text[k])
  }

  // The bytes of formatted numbers: digits, signs, points, the letters of e, NaN and Inf.
  predicate NumberByte(c: byte) {
    48 <= c <= 57 || c == 43 || c == 45 || c == 46 || c == 101 || c == 78 || c == 97 || c == 73 || c == 110 || c == 102
  }

  // Formatted numbers hold nothing else, formatted times no apostrophes and no backslashes.
  predicate Formatted(arg: Arg) {
    match arg
    case Number(text) => text != [] && forall k :: 0 <= k < |text| ==> NumberByte(text[k])
    case Time(text) => forall k :: 0 <= k < |text| ==> text[k] != QUOTE && text[k] != BACKSLASH
    case Other => false
    case _ => true
  }

  predicate AllFormatted(args: seq<Arg>) {
    forall k :: 0 <= k < |args| ==> Formatted(args[k])
  }

  predicate IsMark(t: Token) {
    t == Plain(MARK)
  }

  function MarkTokens(tokens: seq<Token>): nat {
    if tokens == [] then 0 else (if IsMark(tokens[0]) then 1 else 0) + MarkTokens(tokens[1..])
  }

  function Substituted(tokens: seq<Token>, args: seq<Arg>): seq<Token>
    requires MarkTokens(tokens) == |args|
  {
    if tokens == [] then []
    else if IsMark(tokens[0]) then ArgTokens(args[0]) + Substituted(tokens[1..], args[1..])
    else [tokens[0]] + Substituted(tokens[1..], args)
  }

  // No placeholder inside quotes.
  predicate Outside(tokens: seq<Token>) {
    forall k :: 0 <= k < |tokens| && tokens[k].Quoted? ==> MARK !in tokens[k].value
  }

  // The literal ends with an apostrophe.
  predicate Closes(arg: Arg) {
    arg.Time? || arg.Data? || arg.Text?
  }

  // The first token begins with an apostrophe once placeholders are replaced.
  predicate Opens(tokens: seq<Token>, args: seq<Arg>) {
    tokens != [] &&
    if IsMark(tokens[0]) then args != [] && (args[0].Time? || args[0].Text?)
    else tokens[0].Quoted? && tokens[0].quote == QUOTE
  }

  // Nothing that ends with an apostrophe comes next to anything that begins with one.
  predicate Apart(tokens: seq<Token>, args: seq<Arg>)
    requires MarkTokens(tokens) == |args|
  {
    if tokens == [] then true
    else if IsMark(tokens[0]) then !(Closes(args[0]) && Opens(tokens[1..], args[1..])) && Apart(tokens[1..], args[1..])
    else !(Opens(tokens, args) && Opens(tokens[1..], args)) && Apart(tokens[1..], args)
  }

  lemma BeforeTwice(a: seq<Token>, b: seq<Token>, l: Lexed)
    ensures Before(a, Before(b, l)) == Before(a + b, l)
  {
    assert l.Tokens? ==> a + (b + l.tokens) == a + b + l.tokens;
  }

  lemma {:induction false} LexPlains(text: bytes, rest: bytes, mode: Mode)
    requires NoQuotes(text)
    ensures Lex(text + rest, mode) == Before(Plains(text), Lex(rest, mode))
  {
    if text == [] {
      assert text + rest == rest;
      BeforeNothing(Lex(rest, mode));
    } else {
      LexPlains(text[1..], rest, mode);
      assert (text + rest)[1..] == text[1..] + rest;
      BeforeTwice([Plain(text[0])], Plains(text[1..]), Lex(rest, mode));
      assert [Plain(text[0])] + Plains(text[1..]) == Plains(text);
    }
  }

  lemma BeforeNothing(l: Lexed)
    ensures Before([], l) == l
  {
    assert l.Tokens? ==> [] + l.tokens == l.tokens;
  }

  lemma LexQuoted(inner: bytes, value: bytes, quote: byte, rest: bytes, mode: Mode)
    requires IsQuote(quote) && !([quote] <= rest)
    requires var more := [quote] + rest;
      Scan(inner + more, quote, ModeIn(quote, mode)) == Prepend(value, Scan(more, quote, ModeIn(quote, mode)))
    ensures Lex([quote] + inner + [quote] + rest, mode) == Before([Quoted(quote, value)], Lex(rest, mode))
  {
    var text, more := [quote] + inner + [quote] + rest, [quote] + rest;
    assert text[1..] == inner + more && more[1..] == rest && value + [] == value;
    LexStep(text, mode);
    ScanStops(more, quote, ModeIn(quote, mode));
    hide Scan, Lex;
  }

  // A quote that follows the closing one at once is taken for a part of the value.
  lemma LexStuck(inner: bytes, value: bytes, quote: byte, rest: bytes, mode: Mode)
    requires IsQuote(quote) && [quote] <= rest
    requires var more := [quote] + rest;
      Scan(inner + more, quote, ModeIn(quote, mode)) == Prepend(value, Scan(more, quote, ModeIn(quote, mode)))
    ensures LongerFirst(Lex([quote] + inner + [quote] + rest, mode), value)
  {
    var text, more := [quote] + inner + [quote] + rest, [quote] + rest;
    assert text[1..] == inner + more;
    LexStep(text, mode);
    ScanDoubled(more, quote, ModeIn(quote, mode));
    hide Scan, Lex;
  }

  lemma LexStep(text: bytes, mode: Mode)
    requires text != [] && IsQuote(text[0])
    ensures var s := Scan(text[1..], text[0], ModeIn(text[0], mode));
      Lex(text, mode) == if s.Scanned? then Before([Quoted(text[0], s.value)], Lex(s.rest, mode)) else Open
  {
    hide Scan;
  }

  lemma ScanDoubled(text: bytes, quote: byte, mode: Mode)
    requires |text| > 1 && text[0] == text[1] == quote
    ensures var s := Scan(text, quote, mode); s.Scanned? ==> s.value != []
  {
  }

  predicate LongerFirst(l: Lexed, value: bytes) {
    l.Tokens? ==> l.tokens != [] && l.tokens[0].Quoted? && |l.tokens[0].value| > |value|
  }

  lemma {:induction false} ScanTime(text: bytes, more: bytes, mode: Mode)
    requires forall k :: 0 <= k < |text| ==> text[k] != QUOTE && text[k] != BACKSLASH
    ensures Scan(text + more, QUOTE, mode) == Prepend(text, Scan(more, QUOTE, mode))
  {
    var all := text + more;
    if text == [] {
      assert all == more;
      PrependNothing(Scan(more, QUOTE, mode));
    } else {
      ScanTime(text[1..], more, mode);
      assert all[1..] == text[1..] + more;
      PrependTwice([text[0]], text[1..], Scan(more, QUOTE, mode));
      assert [text[0]] + text[1..] == text;
    }
  }

  lemma PrependNothing(s: Scanned)
    ensures Prepend([], s) == s
  {
    assert s.Scanned? ==> [] + s.value == s.value;
  }

  // A literal is read as its tokens unless it ends with an apostrophe and another one follows
  // at once.
  lemma LexLiteral(arg: Arg, rest: bytes, mode: Mode)
    requires Formatted(arg) && !(Closes(arg) && [QUOTE] <= rest)
    ensures Lex(Literal(arg, mode) + rest, mode) == Before(ArgTokens(arg), Lex(rest, mode))
  {
    hide Lex, Scan, Escape;
    match arg
    case Null => LexPlains(NULL_TEXT, rest, mode);
    case NilData => LexPlains(NULL_TEXT, rest, mode);
    case Number(text) => LexPlains(text, rest, mode);
    case Boolean(b) =>
      LexPlains(Literal(arg, mode), rest, mode);
      assert Plains(Literal(arg, mode)) == ArgTokens(arg);
    case Time(text) =>
      ScanTime(text, [QUOTE] + rest, mode);
      LexQuoted(text, text, QUOTE, rest, mode);
    case Text(v) => LexString(v, rest, mode);
    case Data(v) =>
      var quoted := SqlTemplates.Quoted(v, mode);
      LexString(v, rest, mode);
      assert BINARY_PREFIX + quoted + rest == BINARY_PREFIX + (quoted + rest);
      LexPlains(BINARY_PREFIX, quoted + rest, mode);
      BeforeTwice(Plains(BINARY_PREFIX), [Quoted(QUOTE, v)], Lex(rest, mode));
  }

  // If one does, it is not read as its tokens.
  lemma LiteralStuck(arg: Arg, rest: bytes, mode: Mode)
    requires Formatted(arg) && Closes(arg) && [QUOTE] <= rest
    ensures var l := Lex(Literal(arg, mode) + rest, mode); l.Tokens? ==> !(ArgTokens(arg) <= l.tokens)
  {
    hide Lex, Scan, Escape;
    match arg
    case Time(text) =>
      ScanTime(text, [QUOTE] + rest, mode);
      LexStuck(text, text, QUOTE, rest, mode);
    case Text(v) => StringStuck(v, rest, mode);
    case Data(v) =>
      var quoted := SqlTemplates.Quoted(v, mode);
      StringStuck(v, rest, mode);
      assert BINARY_PREFIX + quoted + rest == BINARY_PREFIX + (quoted + rest);
      LexPlains(BINARY_PREFIX, quoted + rest, mode);
      BehindPlains(Plains(BINARY_PREFIX), Lex(quoted + rest, mode), v);
  }

  lemma BehindPlains(front: seq<Token>, l: Lexed, value: bytes)
    requires LongerFirst(l, value)
    ensures l.Tokens? ==> !(front + [Quoted(QUOTE, value)] <= front + l.tokens)
  {
    if l.Tokens? {
      var n := |front|;
      assert (front + [Quoted(QUOTE, value)])[n] != (front + l.tokens)[n];
    }
  }

  lemma StringStuck(v: bytes, rest: bytes, mode: Mode)
    requires [QUOTE] <= rest
    ensures LongerFirst(Lex(SqlTemplates.Quoted(v, mode) + rest, mode), v)
  {
    hide Lex, Scan, Escape;
    ScanEscaped(v, [QUOTE] + rest, mode);
    LexStuck(Escape(v, mode), v, QUOTE, rest, mode);
    assert SqlTemplates.Quoted(v, mode) + rest == [QUOTE] + Escape(v, mode) + [QUOTE] + rest;
  }

  lemma LexString(v: bytes, rest: bytes, mode: Mode)
    requires !([QUOTE] <= rest)
    ensures Lex(SqlTemplates.Quoted(v, mode) + rest, mode) == Before([Quoted(QUOTE, v)], Lex(rest, mode))
  {
    hide Lex, Scan, Escape;
    ScanEscaped(v, [QUOTE] + rest, mode);
    LexQuoted(Escape(v, mode), v, QUOTE, rest, mode);
    assert SqlTemplates.Quoted(v, mode) + rest == [QUOTE] + Escape(v, mode) + [QUOTE] + rest;
  }

  // What lies between the quotes of a quoted text is read to the same value before anything
  // else, and reading goes on with that.
  lemma {:induction false} Rescan(text: bytes, quote: byte, mode: Mode, more: bytes) returns (raw: bytes)
    requires quote != BACKSLASH && quote != MARK && Scan(text, quote, mode).Scanned?
    ensures var s := Scan(text, quote, mode);
      && text == raw + [quote] + s.rest && !([quote] <= s.rest)
      && (MARK !in s.value ==> Marks(raw) == 0)
      && Scan(raw + more, quote, mode) == Prepend(s.value, Scan(more, quote, mode))
  {
    hide Scan, Marks, Unescape;
    SomeText(quote, mode);
    var s := Scan(text, quote, mode);
    if text[0] == quote && !(|text| > 1 && text[1] == quote) {
      raw := [];
      NoMarks();
      ScanStops(text, quote, mode);
      assert text == [] + [quote] + text[1..] && raw + more == more;
      PrependNothing(Scan(more, quote, mode));
    } else {
      var n, value := FirstUnit(text, quote, mode);
      var inner := Rescan(text[n..], quote, mode, more);
      raw := text[..n] + inner;
      UnitScanned(text[..n], value, inner + more, quote, mode, text);
      PrependTwice(value, Scan(text[n..], quote, mode).value, Scan(more, quote, mode));
      Joined(text, n, inner, [quote], s.rest, more);
      MarksConcat(text[..n], inner);
      NoneInBoth(value, Scan(text[n..], quote, mode).value, MARK);
    }
  }

  lemma Joined(text: bytes, n: nat, inner: bytes, quote: bytes, rest: bytes, more: bytes)
    requires n <= |text| && text[n..] == inner + quote + rest
    ensures text == text[..n] + inner + quote + rest
    ensures text[..n] + inner + more == text[..n] + (inner + more)
  {
  }

  lemma NoneInBoth(a: bytes, b: bytes, c: byte)
    ensures c !in a + b ==> c !in a && c !in b
  {
  }

  lemma SomeText(quote: byte, mode: Mode)
    ensures Scan([], quote, mode) == Unterminated
  {
  }

  lemma NoMarks()
    ensures Marks([]) == 0
  {
  }

  lemma ScanStops(text: bytes, quote: byte, mode: Mode)
    requires text != [] && text[0] == quote && !(|text| > 1 && text[1] == quote)
    ensures Scan(text, quote, mode) == Scanned([], text[1..]) && !([quote] <= text[1..])
  {
  }

  // The first byte of a quoted text, or a pair that stands for one or two bytes.
  lemma FirstUnit(text: bytes, quote: byte, mode: Mode) returns (n: nat, value: bytes)
    requires quote != BACKSLASH && quote != MARK && Scan(text, quote, mode).Scanned?
    requires !(text[0] == quote && !(|text| > 1 && text[1] == quote))
    ensures 0 < n <= |text| && Scan(text[n..], quote, mode).Scanned?
    ensures Scan(text, quote, mode) == Prepend(value, Scan(text[n..], quote, mode))
    ensures MARK !in value ==> Marks(text[..n]) == 0
    ensures n <= 2 && (n == 2 <==> text[0] == quote || (text[0] == BACKSLASH && mode.Backslashes?))
    ensures value == if n == 1 then [text[0]] else if text[0] == quote then [quote] else Unescape(text[1])
  {
    if text[0] == quote {
      n, value := 2, [quote];
      MarksTwo(text[0], text[1]);
      assert text[..2] == [quote, quote];
    } else if text[0] == BACKSLASH && mode.Backslashes? {
      n, value := 2, Unescape(text[1]);
      MarksTwo(text[0], text[1]);
      assert text[..2] == [text[0], text[1]];
      assert text[1] == MARK ==> value[0] == MARK;
    } else {
      n, value := 1, [text[0]];
      MarksTwo(text[0], text[0]);
      assert text[..1] == [text[0]] && value[0] == text[0];
    }
  }

  lemma MarksTwo(a: byte, b: byte)
    ensures a != MARK ==> Marks([a]) == 0
    ensures a != MARK && b != MARK ==> Marks([a, b]) == 0
  {
    assert [a, b][1..] == [b] && [a][1..] == [] && [b][1..] == [];
  }

  lemma UnitScanned(unit: bytes, value: bytes, more: bytes, quote: byte, mode: Mode, text: bytes)
    requires unit != [] && |unit| <= 2 && unit <= text
    requires |unit| == 2 <==> text[0] == quote || (text[0] == BACKSLASH && mode.Backslashes?)
    requires |unit| == 2 && text[0] == quote ==> unit[1] == quote
    requires value == if |unit| == 1 then [unit[0]] else if unit[0] == quote then [quote] else Unescape(unit[1])
    ensures Scan(unit + more, quote, mode) == Prepend(value, Scan(more, quote, mode))
  {
    var all := unit + more;
    assert all[|unit|..] == more;
  }

  // The filled query begins with an apostrophe if its first token does, and with another quote
  // only if the query does.
  lemma FillStart(query: bytes, args: seq<Arg>, mode: Mode)
    requires Marks(query) == |args| && AllFormatted(args) && Lex(query, mode).Tokens?
    ensures [QUOTE] <= Fill(query, Literals(args, mode)) <==> Opens(Lex(query, mode).tokens, args)
    ensures forall quote :: IsQuote(quote) && quote != QUOTE && !([quote] <= query) ==>
      !([quote] <= Fill(query, Literals(args, mode)))
  {
    var filled, tokens := Fill(query, Literals(args, mode)), Lex(query, mode).tokens;
    if query != [] {
      FirstToken(query, mode);
      hide Scan, Lex, Literal;
      if query[0] == MARK {
        assert Formatted(args[0]);
        LiteralStart(args[0], mode);
        assert filled[0] == Literal(args[0], mode)[0];
      } else {
        assert filled[0] == query[0];
      }
    }
  }

  lemma FirstToken(query: bytes, mode: Mode)
    requires query != [] && Lex(query, mode).Tokens?
    ensures var tokens := Lex(query, mode).tokens;
      && tokens != []
      && if IsQuote(query[0]) then tokens[0].Quoted? && tokens[0].quote == query[0] else tokens[0] == Plain(query[0])
  {
    hide Scan;
  }

  lemma LiteralStart(arg: Arg, mode: Mode)
    requires Formatted(arg)
    ensures Literal(arg, mode) != [] && Literal(arg, mode)[0] != DOUBLE_QUOTE && Literal(arg, mode)[0] != BACKTICK
    ensures Literal(arg, mode)[0] == QUOTE <==> arg.Time? || arg.Text?
  {
    hide Escape;
  }

  lemma BeforeCancel(a: seq<Token>, l: Lexed, tokens: seq<Token>)
    ensures Before(a, l) == Tokens(a + tokens) <==> l == Tokens(tokens)
  {
    assert l.Tokens? ==> (a + l.tokens)[|a|..] == l.tokens && (a + tokens)[|a|..] == tokens;
  }

  // If every placeholder stands outside quotes, the filled query is read as the query with each
  // placeholder replaced by the tokens of its literal if and only if no literal or quoted text
  // that ends with an apostrophe is next to one that begins with one.
  lemma {:induction false} FilledTokens(query: bytes, args: seq<Arg>, mode: Mode)
    requires Marks(query) == |args| && AllFormatted(args)
    requires Lex(query, mode).Tokens? && Outside(Lex(query, mode).tokens)
    ensures var tokens := Lex(query, mode).tokens;
      && MarkTokens(tokens) == |args|
      && (Lex(Fill(query, Literals(args, mode)), mode) == Tokens(Substituted(tokens, args)) <==> Apart(tokens, args))
    decreases |query|
  {
    if query != [] {
      if IsQuote(query[0]) {
        QuotedTokens(query, args, mode);
      } else if query[0] == MARK {
        MarkTokensFilled(query, args, mode);
      } else {
        PlainTokens(query, args, mode);
      }
    }
  }

  lemma OutsideTail(tokens: seq<Token>)
    requires tokens != [] && Outside(tokens)
    ensures Outside(tokens[1..])
  {
    assert forall k :: 0 <= k < |tokens[1..]| ==> tokens[1..][k] == tokens[k + 1];
  }

  lemma {:induction false} PlainTokens(query: bytes, args: seq<Arg>, mode: Mode)
    requires Marks(query) == |args| && AllFormatted(args)
    requires Lex(query, mode).Tokens? && Outside(Lex(query, mode).tokens)
    requires query != [] && !IsQuote(query[0]) && query[0] != MARK
    ensures var tokens := Lex(query, mode).tokens;
      && MarkTokens(tokens) == |args|
      && (Lex(Fill(query, Literals(args, mode)), mode) == Tokens(Substituted(tokens, args)) <==> Apart(tokens, args))
    decreases |query|, 0
  {
    hide Scan, Outside, AllFormatted, Literal;
    var tokens, rest := Lex(query, mode).tokens, query[1..];
    assert tokens[1..] == Lex(rest, mode).tokens;
    OutsideTail(tokens);
    FilledTokens(rest, args, mode);
    var filled := Fill(rest, Literals(args, mode));
    assert ([query[0]] + filled)[1..] == filled;
    BeforeCancel([Plain(query[0])], Lex(filled, mode), Substituted(tokens[1..], args));
  }

  lemma {:induction false} MarkTokensFilled(query: bytes, args: seq<Arg>, mode: Mode)
    requires Marks(query) == |args| && AllFormatted(args)
    requires Lex(query, mode).Tokens? && Outside(Lex(query, mode).tokens)
    requires query != [] && query[0] == MARK
    ensures var tokens := Lex(query, mode).tokens;
      && MarkTokens(tokens) == |args|
      && (Lex(Fill(query, Literals(args, mode)), mode) == Tokens(Substituted(tokens, args)) <==> Apart(tokens, args))
    decreases |query|, 0
  {
    assert Formatted(args[0]) && AllFormatted(args[1..]);
    hide Scan, Outside, AllFormatted, Literal, Formatted, ArgTokens, Closes, Opens;
    var tokens, rest := Lex(query, mode).tokens, query[1..];
    assert tokens[1..] == Lex(rest, mode).tokens && tokens[0] == Plain(MARK);
    OutsideTail(tokens);
    FilledTokens(rest, args[1..], mode);
    FillStart(rest, args[1..], mode);
    assert Literals(args, mode)[1..] == Literals(args[1..], mode);
    var filled := Fill(rest, Literals(args[1..], mode));
    if Closes(args[0]) && [QUOTE] <= filled {
      LiteralStuck(args[0], filled, mode);
    } else {
      LexLiteral(args[0], filled, mode);
      BeforeCancel(ArgTokens(args[0]), Lex(filled, mode), Substituted(tokens[1..], args[1..]));
    }
  }

  lemma {:induction false} QuotedTokens(query: bytes, args: seq<Arg>, mode: Mode)
    requires Marks(query) == |args| && AllFormatted(args)
    requires Lex(query, mode).Tokens? && Outside(Lex(query, mode).tokens)
    requires query != [] && IsQuote(query[0])
    ensures var tokens := Lex(query, mode).tokens;
      && MarkTokens(tokens) == |args|
      && (Lex(Fill(query, Literals(args, mode)), mode) == Tokens(Substituted(tokens, args)) <==> Apart(tokens, args))
    decreases |query|, 0
  {
    var q := query[0];
    var s := Scan(query[1..], q, ModeIn(q, mode));
    var tokens, rest, lits := Lex(query, mode).tokens, s.rest, Literals(args, mode);
    assert tokens[0] == Quoted(q, s.value) && tokens[1..] == Lex(rest, mode).tokens;
    assert MARK !in s.value;
    hide Scan, Lex, Outside, AllFormatted, Literal, Fill;
    OutsideTail(tokens);
    var none := Rescan(query[1..], q, ModeIn(q, mode), []);
    QuotedMarks(query, q, none, rest);
    FilledTokens(rest, args, mode);
    FillStart(rest, args, mode);
    var filled := Fill(rest, lits);
    var raw := Rescan(query[1..], q, ModeIn(q, mode), [q] + filled);
    SameRaw(raw, none, q, rest);
    QuotedFill(query, q, raw, rest, lits);
    if [q] <= filled {
      LexStuck(raw, s.value, q, filled, mode);
    } else {
      LexQuoted(raw, s.value, q, filled, mode);
      BeforeCancel([tokens[0]], Lex(filled, mode), Substituted(tokens[1..], args));
    }
  }

  lemma SameRaw(a: bytes, b: bytes, quote: byte, rest: bytes)
    requires a + [quote] + rest == b + [quote] + rest
    ensures a == b
  {
    assert |a + [quote] + rest| == |a| + 1 + |rest| && |b + [quote] + rest| == |b| + 1 + |rest|;
    assert a == (a + [quote] + rest)[..|a|] && b == (b + [quote] + rest)[..|b|];
  }

  lemma QuotedMarks(query: bytes, quote: byte, raw: bytes, rest: bytes)
    requires IsQuote(quote) && query != [] && query[0] == quote && query[1..] == raw + [quote] + rest && Marks(raw) == 0
    ensures Marks(query) == Marks(rest) && Marks([quote] + raw + [quote]) == 0
    ensures query == [quote] + raw + [quote] + rest
  {
    assert [quote][1..] == [];
    MarksConcat([quote], raw);
    MarksConcat([quote] + raw, [quote]);
    assert query == [quote] + raw + [quote] + rest;
    MarksConcat([quote] + raw + [quote], rest);
  }

  lemma QuotedFill(query: bytes, quote: byte, raw: bytes, rest: bytes, lits: seq<bytes>)
    requires IsQuote(quote) && query != [] && query[0] == quote && query[1..] == raw + [quote] + rest && Marks(raw) == 0
    requires Marks(query) == |lits|
    ensures Marks(rest) == |lits| && Fill(query, lits) == [quote] + raw + [quote] + Fill(rest, lits)
  {
    hide Fill;
    QuotedMarks(query, quote, raw, rest);
    var quoted := [quote] + raw + [quote];
    FillConcat(quoted, rest, lits);
    FillPlain(quoted);
    assert lits[..0] == [] && lits[0..] == lits;
  }

  // The same of what the connection answers.
  lemma InterpolatedTokens(query: bytes, args: seq<Arg>, mode: Mode, limit: int)
    requires Marks(query) == |args| && AllFormatted(args)
    requires Lex(query, mode).Tokens? && Outside(Lex(query, mode).tokens)
    ensures var tokens, a := Lex(query, mode).tokens, SqlInterpolate.Run(query, args, [], mode, limit);
      && MarkTokens(tokens) == |args|
      && (a.Text? ==> (Lex(a.text, mode) == Tokens(Substituted(tokens, args)) <==> Apart(tokens, args)))
  {
    hide Lex, Fill, SqlInterpolate.Run, Outside, Apart, Substituted;
    SqlInterpolate.RunFills(query, args, [], mode, limit);
    FilledTokens(query, args, mode);
    var filled := Fill(query, Literals(args, mode));
    assert [] + filled == filled;
  }
}

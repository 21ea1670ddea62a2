/** What the literals of a filled query mean, by the bytes that MySQL reads. */
module SqlValues {
  import opened Bytes
  import opened SqlLiterals
  import opened SqlTemplates
  import opened SqlLex
  import SqlInterpolate

  datatype SqlValue = NullValue | NumberValue(text: bytes) | BinaryValue(data: bytes) | TextValue(data: bytes)
    | Nonsense

  // The bytes of tokens outside quotes.
  predicate Bare(tokens: seq<Token>, text: bytes) {
    |tokens| == |text| && forall k :: 0 <= k < |text| ==> tokens[k] == Token.Plain(text[k])
  }

  // The words NULL and _binary, by their bytes (sections 9.1.7 and 10.3.8 of the MySQL
  // Reference Manual); other bare text is a number.
  ghost predicate Means(tokens: seq<Token>, value: SqlValue) {
    match value
    case NullValue => Bare(tokens, [78, 85, 76, 76])
    case NumberValue(text) => text != [] && text != [78, 85, 76, 76] && Bare(tokens, text)
    case BinaryValue(data) =>
      |tokens| == 8 && Bare(tokens[..7], [95, 98, 105, 110, 97, 114, 121]) && tokens[7] == Token.Quoted(39, data)
    case TextValue(data) => tokens == [Token.Quoted(39, data)]
    case Nonsense => false
  }

  function ValueOf(arg: Arg): SqlValue {
    match arg
    case Null => NullValue
    case Number(text) => NumberValue(text)
    case Boolean(b) => NumberValue(if b then [49] else [48])
    case Time(text) => TextValue(text)
    case NilData => NullValue
    case Data(v) => BinaryValue(v)
    case Text(v) => TextValue(v)
    case Other => Nonsense
  }

  // The tokens of a literal mean the argument, and nothing else.
  lemma LiteralMeans(arg: Arg, value: SqlValue)
    requires Formatted(arg)
    ensures Means(ArgTokens(arg), value) <==> value == ValueOf(arg)
  {
    MeansRight(arg);
    if Means(ArgTokens(arg), value) {
      MeansOne(ArgTokens(arg), value, ValueOf(arg));
    }
  }

  lemma MeansRight(arg: Arg)
    requires Formatted(arg)
    ensures Means(ArgTokens(arg), ValueOf(arg))
  {
    match arg
    case Number(text) =>
      assert text == [78, 85, 76, 76] ==> NumberByte(text[1]);
    case Data(v) => assert ArgTokens(arg)[..7] == Plains(BINARY_PREFIX);
    case _ =>
  }

  // No tokens mean two things.
  lemma MeansOne(tokens: seq<Token>, a: SqlValue, b: SqlValue)
    requires Means(tokens, a) && Means(tokens, b)
    ensures a == b
  {
    hide Bare;
    BareOrNot(tokens, a);
    BareOrNot(tokens, b);
    if a.NullValue? || a.NumberValue? {
      BareOne(tokens, BareText(a), BareText(b));
    }
  }

  function BareText(value: SqlValue): bytes {
    match value
    case NullValue => [78, 85, 76, 76]
    case NumberValue(text) => text
    case _ => []
  }

  predicate AllPlain(tokens: seq<Token>) {
    forall k :: 0 <= k < |tokens| ==> tokens[k].Plain?
  }

  lemma BareOrNot(tokens: seq<Token>, value: SqlValue)
    requires Means(tokens, value)
    ensures value.NullValue? || value.NumberValue? <==> AllPlain(tokens)
    ensures AllPlain(tokens) ==> Bare(tokens, BareText(value))
  {
    if value.BinaryValue? {
      assert !tokens[7].Plain?;
    } else if value.TextValue? {
      assert !tokens[0].Plain?;
    }
  }

  lemma BareOne(tokens: seq<Token>, a: bytes, b: bytes)
    requires Bare(tokens, a) && Bare(tokens, b)
    ensures a == b
  {
    forall k | 0 <= k < |a| ensures a[k] == b[k] {
      assert tokens[k] == Token.Plain(a[k]);
    }
  }

  // Only nil arguments are read as NULL.
  lemma NullOnly(arg: Arg)
    requires Formatted(arg)
    ensures Means(ArgTokens(arg), NullValue) <==> arg.Null? || arg.NilData?
  {
    LiteralMeans(arg, NullValue);
  }

  // What a query of one placeholder becomes.
  lemma OneArgument(mode: Mode)
    ensures SqlInterpolate.Run([63], [Null], [], mode, 100) == SqlInterpolate.Text([78, 85, 76, 76])
    ensures SqlInterpolate.Run([63], [NilData], [], mode, 100) == SqlInterpolate.Text([78, 85, 76, 76])
    ensures SqlInterpolate.Run([63], [Boolean(true)], [], mode, 100) == SqlInterpolate.Text([49])
    ensures SqlInterpolate.Run([63], [Boolean(false)], [], mode, 100) == SqlInterpolate.Text([48])
    ensures SqlInterpolate.Run([63], [Data([])], [], mode, 100) ==
      SqlInterpolate.Text([95, 98, 105, 110, 97, 114, 121, 39, 39])
    ensures SqlInterpolate.Run([63], [Text([97, 39])], [], Quotes, 100) == SqlInterpolate.Text([39, 97, 39, 39, 39])
    ensures SqlInterpolate.Run([63], [Text([97, 39])], [], Backslashes, 100) ==
      SqlInterpolate.Text([39, 97, 92, 39, 39])
  {
    hide Escape;
    EscapeTwo(97, 39, mode);
    EscapeTwo(97, 39, Quotes);
    EscapeTwo(97, 39, Backslashes);
    EscapeNothing(mode);
  }

  lemma EscapeTwo(a: byte, b: byte, mode: Mode)
    ensures Escape([a, b], mode) == EscapeByte(a, mode) + EscapeByte(b, mode)
  {
    assert [a, b][..1] == [a] && [a][..0] == [];
    assert Escape([a], mode) == [] + EscapeByte(a, mode) == EscapeByte(a, mode);
  }

  lemma EscapeNothing(mode: Mode)
    ensures Escape([], mode) == []
  {
  }

  // ---- Escapes

  // How each byte is escaped, by the table of section 9.1.1.
  lemma EscapeTable(c: byte)
    ensures EscapeByte(c, Quotes) == if c == 39 then [39, 39] else [c]
    ensures EscapeByte(c, Backslashes) ==
      if c == 0 then [92, 48] else if c == 10 then [92, 110] else if c == 13 then [92, 114]
      else if c == 26 then [92, 90] else if c == 34 || c == 39 || c == 92 then [92, c] else [c]
  {
  }

  // How an escaped byte is read, by the same table.
  lemma UnescapeTable(c: byte)
    ensures Unescape(c) ==
      if c == 48 then [0] else if c == 98 then [8] else if c == 110 then [10] else if c == 114 then [13]
      else if c == 116 then [9] else if c == 90 then [26] else if c == 37 || c == 95 then [92, c] else [c]
  {
  }

  // Escaped with backslashes, a text holds none of the bytes that end a line, a text or a
  // console session.
  lemma {:induction false} EscapedIsTame(v: bytes)
    ensures forall k :: 0 <= k < |Escape(v, Backslashes)| ==>
      Escape(v, Backslashes)[k] != 0 && Escape(v, Backslashes)[k] != 10 && Escape(v, Backslashes)[k] != 13 &&
      Escape(v, Backslashes)[k] != 26
  {
    if v != [] {
      EscapedIsTame(v[..|v| - 1]);
      EscapeTable(v[|v| - 1]);
    }
  }
}

/** String literals: how they are escaped, and how MySQL reads them (section 9.1.1 of its manual). */
module SqlLiterals {
  import opened Bytes

  const NUL: byte := 0
  const BACKSPACE: byte := 8
  const TAB: byte := 9
  const NEWLINE: byte := 10
  const RETURN: byte := 13
  const SUBSTITUTE: byte := 26
  const DOUBLE_QUOTE: byte := 34
  const PERCENT: byte := 37
  const QUOTE: byte := 39
  const DIGIT_0: byte := 48
  const UPPER_Z: byte := 90
  const BACKSLASH: byte := 92
  const UNDERSCORE: byte := 95
  const BACKTICK: byte := 96
  const LOWER_B: byte := 98
  const LOWER_N: byte := 110
  const LOWER_R: byte := 114
  const LOWER_T: byte := 116

  // Whether backslashes escape, or apostrophes are only doubled.
  datatype Mode = Backslashes | Quotes

  function EscapeByte(c: byte, mode: Mode): bytes {
    match mode
    case Backslashes =>
      if c == NUL then [BACKSLASH, DIGIT_0]
      else if c == NEWLINE then [BACKSLASH, LOWER_N]
      else if c == RETURN then [BACKSLASH, LOWER_R]
      else if c == SUBSTITUTE then [BACKSLASH, UPPER_Z]
      else if c == QUOTE || c == DOUBLE_QUOTE || c == BACKSLASH then [BACKSLASH, c]
      else [c]
    case Quotes =>
      if c == QUOTE then [QUOTE, QUOTE] else [c]
  }

  function Escape(v: bytes, mode: Mode): bytes {
    if v == [] then [] else Escape(v[..|v| - 1], mode) + EscapeByte(v[|v| - 1], mode)
  }

  lemma {:induction false} EscapeFits(v: bytes, mode: Mode)
    ensures |v| <= |Escape(v, mode)| <= 2 * |v|
  {
    if v != [] {
      EscapeFits(v[..|v| - 1], mode);
    }
  }

  // A quoted text as it is read from after its opening quote: its value and what follows it.
  datatype Scanned = Scanned(value: bytes, rest: bytes) | Unterminated

  function Unescape(c: byte): bytes {
    if c == DIGIT_0 then [NUL]
    else if c == LOWER_B then [BACKSPACE]
    else if c == LOWER_N then [NEWLINE]
    else if c == LOWER_R then [RETURN]
    else if c == LOWER_T then [TAB]
    else if c == UPPER_Z then [SUBSTITUTE]
    else if c == PERCENT || c == UNDERSCORE then [BACKSLASH, c]
    else [c]
  }

  function Prepend(value: bytes, s: Scanned): Scanned {
    if s.Scanned? then Scanned(value + s.value, s.rest) else Unterminated
  }

  function Scan(text: bytes, quote: byte, mode: Mode): (s: Scanned)
    ensures s.Scanned? ==> |s.rest| < |text|
  {
    if text == [] then Unterminated
    else if text[0] == quote then
      if |text| > 1 && text[1] == quote then Prepend([quote], Scan(text[2..], quote, mode))
      else Scanned([], text[1..])
    else if text[0] == BACKSLASH && mode.Backslashes? then
      if |text| > 1 then Prepend(Unescape(text[1]), Scan(text[2..], quote, mode)) else Unterminated
    else Prepend([text[0]], Scan(text[1..], quote, mode))
  }

  lemma ScanByte(c: byte, text: bytes, mode: Mode)
    ensures Scan(EscapeByte(c, mode) + text, QUOTE, mode) == Prepend([c], Scan(text, QUOTE, mode))
  {
    var all := EscapeByte(c, mode) + text;
    assert all[|EscapeByte(c, mode)|..] == text;
  }

  // Escaped bytes are read as themselves, whatever follows.
  lemma {:induction false} ScanEscaped(v: bytes, text: bytes, mode: Mode)
    ensures Scan(Escape(v, mode) + text, QUOTE, mode) == Prepend(v, Scan(text, QUOTE, mode))
  {
    hide Scan, EscapeByte;
    if v == [] {
      assert Escape(v, mode) + text == text;
    } else {
      var init, c := v[..|v| - 1], v[|v| - 1];
      assert Escape(v, mode) + text == Escape(init, mode) + (EscapeByte(c, mode) + text);
      ScanEscaped(init, EscapeByte(c, mode) + text, mode);
      ScanByte(c, text, mode);
      PrependTwice(init, [c], Scan(text, QUOTE, mode));
      assert init + [c] == v;
    }
  }

  lemma PrependTwice(a: bytes, b: bytes, s: Scanned)
    ensures Prepend(a, Prepend(b, s)) == Prepend(a + b, s)
  {
    assert s.Scanned? ==> a + (b + s.value) == a + b + s.value;
  }

  // A literal is read back, and reading stops at its closing quote, exactly when no other
  // quote follows at once.
  lemma ReadBack(v: bytes, rest: bytes, mode: Mode)
    ensures Scan(Escape(v, mode) + [QUOTE] + rest, QUOTE, mode) == Scanned(v, rest) <==> !([QUOTE] <= rest)
  {
    hide Scan;
    assert Escape(v, mode) + [QUOTE] + rest == Escape(v, mode) + ([QUOTE] + rest);
    ScanEscaped(v, [QUOTE] + rest, mode);
    ScanClosing(rest, mode);
  }

  lemma ScanClosing(rest: bytes, mode: Mode)
    ensures !([QUOTE] <= rest) ==> Scan([QUOTE] + rest, QUOTE, mode) == Scanned([], rest)
    ensures [QUOTE] <= rest && Scan([QUOTE] + rest, QUOTE, mode).Scanned? ==>
      Scan([QUOTE] + rest, QUOTE, mode).value != []
  {
    var text := [QUOTE] + rest;
    assert text[1..] == rest;
  }

  // Escaping never confuses two values.
  lemma EscapeInjective(v: bytes, w: bytes, mode: Mode)
    requires Escape(v, mode) == Escape(w, mode)
    ensures v == w
  {
    ReadBack(v, [], mode);
    ReadBack(w, [], mode);
  }
}

/** Decimal128.String: the digit loop over a fixed buffer, and the text it produces. */
module DecimalString {
  import opened DecimalArith
  import opened DecimalFormat

  const TWO_47: int := 0x8000_0000_0000
  const TWO_49: int := 0x2_0000_0000_0000
  const TWO_58: int := 0x400_0000_0000_0000
  const TWO_61: int := 0x2000_0000_0000_0000
  const TWO_63: int := 0x8000_0000_0000_0000

  datatype Decimal128 = Decimal128(h: U64, l: U64)
  {
    predicate Negative() {
      h / TWO_63 % 2 == 1
    }

    // The five bits that mark infinities and NaN.
    function Kind(): nat {
      h / TWO_58 % 32
    }

    // The encoding whose significands are all out of range and read as zero.
    predicate LargeForm() {
      h / TWO_61 % 4 == 3
    }

    function Exponent(): int {
      if LargeForm() then h / TWO_47 % 0x4000 - 6176 else h / TWO_49 % 0x4000 - 6176
    }

    function Significand(): nat {
      if LargeForm() then 0 else h % TWO_49 * B2 + l
    }
  }

  function Text(d: Decimal128): string {
    if d.Kind() == 0x1F then "NaN"
    else if d.Kind() == 0x1E then (if d.Negative() then "-Inf" else "Inf")
    else Format(d.Negative(), d.Significand(), d.Exponent())
  }

  // The number of digits in the text.
  function Total(x: nat, e: int): nat {
    if Scientific(x, e) || e == 0 then Width(x) else PlainWidth(x, e)
  }

  // After k digits the plain form has its point.
  predicate Dotted(x: nat, e: int, k: nat) {
    !Scientific(x, e) && e < 0 && k > -e
  }

  // What the end of the buffer holds after k digits.
  function Tail(x: nat, e: int, k: nat): string {
    var ds := LowDigits(x, k);
    if Dotted(x, e, k) then ds[..k + e] + "." + ds[k + e..] else ds
  }

  // The text without sign and exponent.
  function Mantissa(x: nat, e: int): string {
    if Scientific(x, e) then
      var ds := LowDigits(x, Width(x));
      ds[..1] + (if Width(x) > 1 then "." + ds[1..] else "")
    else Tail(x, e, Total(x, e))
  }

  // The exponent left to print.
  function ShownExponent(x: nat, e: int): int {
    if Scientific(x, e) then e + Width(x) - 1 else 0
  }

  lemma MagnitudeParts(x: nat, e: int)
    ensures Magnitude(x, e) == Mantissa(x, e) + ExponentSuffix(ShownExponent(x, e))
  {
    var t := Mantissa(x, e);
    assert t + "" == t;
    if !Scientific(x, e) && e < 0 {
      assert Dotted(x, e, PlainWidth(x, e));
    }
  }

  lemma TotalBound(x: nat, e: int)
    requires x < Pow10(35)
    ensures Total(x, e) <= 41
  {
    SigBound(x, 35);
  }

  // Before digit k + 1 the point is due exactly in these two places.
  predicate PointDue(x: nat, e: int, k: nat) {
    if Scientific(x, e) then k > 0 && k + 1 == Width(x) else e < 0 && k == -e
  }

  // State of the loop before digit k + 1: the values of i, dot and e, and of the buffer's end.
  ghost predicate AtDigit(x: nat, e0: int, k: nat, i: int, dot: int, e: int, tail: string) {
    && k < Total(x, e0) && tail == Tail(x, e0, k)
    && (if Dotted(x, e0, k) then i == 47 - k && dot == 48 && e == 0 else i == 48 - k && dot == 48 + e0 && e == e0)
  }

  // State after digit k + 1 was written, with or without the point before it.
  ghost predicate AfterDigit(x: nat, e0: int, k: nat, i: int, dot: int, e: int, tail: string) {
    && k < Total(x, e0)
    && (if PointDue(x, e0, k) then
          i == 46 - k && dot == 48 && e == e0 + k && tail == LowDigits(x, k + 1)[..1] + "." + LowDigits(x, k)
        else if Dotted(x, e0, k) then
          i == 46 - k && dot == 48 && e == 0 && tail == LowDigits(x, k + 1)[..1] + Tail(x, e0, k)
        else i == 47 - k && dot == 48 + e0 && e == e0 && tail == LowDigits(x, k + 1))
  }

  // The source's test for the point, with r the number without its last k digits.
  lemma PointTest(x: nat, e0: int, k: nat, i: int, dot: int, e: int, tail: string)
    requires AtDigit(x, e0, k, i, dot, e, tail)
    ensures i < 48 && (dot == i || (0 < Shift(x, k) < 10 && (dot < i - 6 || e > 0))) <==> PointDue(x, e0, k)
  {
    LeadingDigit(x, k + 1);
  }

  // The first early exit: a single digit in scientific form.
  lemma SingleTest(x: nat, e0: int, k: nat, i: int, dot: int, e: int, tail: string)
    requires AfterDigit(x, e0, k, i, dot, e, tail)
    ensures Shift(x, k + 1) == 0 && i == 47 && (dot < i - 5 || e > 0) <==> k == 0 && Width(x) == 1 && Scientific(x, e0)
    ensures k == 0 && Width(x) == 1 && Scientific(x, e0) ==> k + 1 == Total(x, e0)
  {
    LeadingDigit(x, k + 1);
  }

  // The second exit is taken exactly when the text is complete.
  lemma EndTest(x: nat, e0: int, k: nat, i: int, dot: int, e: int, tail: string)
    requires AfterDigit(x, e0, k, i, dot, e, tail)
    requires !(k == 0 && Width(x) == 1 && Scientific(x, e0))
    ensures dot > i && Shift(x, k + 1) == 0 <==> k + 1 == Total(x, e0)
  {
    LeadingDigit(x, k + 1);
  }

  lemma DoneText(x: nat, e0: int, k: nat, i: int, dot: int, e: int, tail: string)
    requires AfterDigit(x, e0, k, i, dot, e, tail) && k + 1 == Total(x, e0)
    ensures tail == Mantissa(x, e0) && e == ShownExponent(x, e0)
  {
    NextTail(x, e0, k);
  }

  lemma NextTail(x: nat, e0: int, k: nat)
    ensures !Scientific(x, e0) && PointDue(x, e0, k) ==>
      Tail(x, e0, k + 1) == LowDigits(x, k + 1)[..1] + "." + LowDigits(x, k)
    ensures Dotted(x, e0, k) ==> Tail(x, e0, k + 1) == LowDigits(x, k + 1)[..1] + Tail(x, e0, k)
    ensures LowDigits(x, k + 1)[1..] == LowDigits(x, k)
    ensures !PointDue(x, e0, k) && !Dotted(x, e0, k) ==> Tail(x, e0, k + 1) == LowDigits(x, k + 1)
  {
    var ds, more := LowDigits(x, k), LowDigits(x, k + 1);
    assert more == more[..1] + ds;
    if Dotted(x, e0, k) {
      assert more[..k + 1 + e0] == more[..1] + ds[..k + e0];
      assert more[k + 1 + e0..] == ds[k + e0..];
    }
  }

  lemma GoesOn(x: nat, e0: int, k: nat, i: int, dot: int, e: int, tail: string)
    requires AfterDigit(x, e0, k, i, dot, e, tail) && k + 1 != Total(x, e0)
    requires !(k == 0 && Width(x) == 1 && Scientific(x, e0))
    ensures AtDigit(x, e0, k + 1, i, dot, e, tail)
  {
    NextTail(x, e0, k);
  }

  // The last digit of a text that does not end in "0." is not zero.
  lemma FinalDigit(x: nat, e0: int, k: nat)
    requires k + 1 == Total(x, e0) && !PointDue(x, e0, k) && !(k == 0 && Width(x) == 1 && Scientific(x, e0))
    requires x != 0 || e0 != 0
    ensures Shift(x, k) % 10 != 0
  {
    LeadingDigit(x, k + 1);
  }

  // The digits still in the limbs: the number h:l above, and rem, the rest of the block.
  ghost predicate Holding(x: nat, k: nat, h: int, l: int, rem: int, left: nat) {
    h >= 0 && l >= 0 && 0 <= rem < Pow10(left) && (h * B2 + l) * Pow10(left) + rem == Shift(x, k)
  }

  lemma StartBlock(x: nat, k: nat, h: int, l: int, h': int, l': int, rem: int)
    requires h >= 0 && l >= 0 && h * B2 + l == Shift(x, k)
    requires h' >= 0 && l' >= 0 && 0 <= rem < 1000000000 && h * B2 + l == (h' * B2 + l') * 1000000000 + rem
    ensures Holding(x, k, h', l', rem, 9)
  {
    assert Pow10(9) == 1000000000;
  }

  lemma HoldingFacts(x: nat, k: nat, h: int, l: int, rem: int, left: nat)
    requires Holding(x, k, h, l, rem, left) && left >= 1
    ensures rem % 10 == Shift(x, k) % 10
    ensures l == 0 && h == 0 && rem > 0 && rem < 10 <==> 0 < Shift(x, k) < 10
    ensures Holding(x, k + 1, h, l, rem / 10, left - 1)
    ensures l == 0 && h == 0 && rem / 10 == 0 <==> Shift(x, k + 1) == 0
  {
    var v, p := h * B2 + l, Pow10(left - 1);
    assert v * Pow10(left) == 10 * (v * p);
    assert Shift(x, k) == 10 * (v * p) + rem;
    assert Shift(x, k + 1) == v * p + rem / 10;
    assert v > 0 ==> v * p >= p by { MulGrows(1, v, p); }
    assert v == 0 <==> h == 0 && l == 0;
  }

  lemma BlockDone(x: nat, k: nat, h: int, l: int, rem: int)
    requires Holding(x, k, h, l, rem, 0)
    ensures h * B2 + l == Shift(x, k)
  {
  }

  // A significand has at most 35 digits, so the text has at most 41.
  lemma SmallSignificand(x: nat, h: int, l: int, e: int)
    requires x == h * B2 + l && 0 <= h < TWO_49 && 0 <= l < B2
    ensures Total(x, e) <= 41
  {
    assert Pow10(12) == 1_000_000_000_000;
    assert Pow10(24) == 1_000_000_000_000_000_000_000_000;
    assert Pow10(35) == 100000 * 1_000_000_000_000_000_000_000_000_000_000;
    TotalBound(x, e);
  }

  lemma StartText(x: nat, e0: int)
    ensures AtDigit(x, e0, 0, 48, 48 + e0, e0, "") && Shift(x, 0) == x
  {
  }

  lemma InsideLoop(x: nat, e0: int, k: nat, i: int, dot: int, e: int, tail: string)
    requires AtDigit(x, e0, k, i, dot, e, tail)
    ensures k < Total(x, e0)
  {
  }

  // There is room for a point, a digit and the sign.
  lemma DigitRoom(x: nat, e0: int, k: nat, i: int, dot: int, e: int, tail: string)
    requires AtDigit(x, e0, k, i, dot, e, tail) && Total(x, e0) <= 41
    ensures i >= 7
  {
  }

  lemma DigitWritten(x: nat, e0: int, k: nat, i: int, dot: int, e: int, tail: string, c: char)
    requires AtDigit(x, e0, k, i, dot, e, tail) && c == DigitChar(Shift(x, k) % 10)
    ensures if PointDue(x, e0, k) then AfterDigit(x, e0, k, i - 2, 48, e + 48 - i, [c] + (['.'] + tail))
            else AfterDigit(x, e0, k, i - 1, dot, e, [c] + tail)
  {
    hide LowDigits, Scientific, Width, PlainWidth, Shift;
    OneMoreDigit(x, k);
    assert [c] + (['.'] + tail) == [c] + "." + tail;
  }

  lemma OneMoreDigit(x: nat, k: nat)
    ensures LowDigits(x, k + 1) == [DigitChar(Shift(x, k) % 10)] + LowDigits(x, k)
    ensures LowDigits(x, k + 1)[..1] == [DigitChar(Shift(x, k) % 10)]
  {
  }

  method String(d: Decimal128) returns (s: string)
    ensures s == Text(d)
  {
    hide Magnitude, Mantissa, Width, ShownExponent, Itoa;
    var pos := if d.h / TWO_63 % 2 == 0 then 1 else 0;
    if d.h / TWO_58 % 32 == 0x1F {
      return "NaN";
    } else if d.h / TWO_58 % 32 == 0x1E {
      return "-Inf"[pos..];
    }
    var h: U64, e := 0, 0;
    var l: U64 := d.l;
    if d.h / TWO_61 % 4 == 3 {
      e := d.h / TWO_47 % 0x4000 - 6176;
      h, l := 0, 0;
    } else {
      e := d.h / TWO_49 % 0x4000 - 6176;
      h := d.h % TWO_49;
    }
    ghost var x, e0 := d.Significand(), d.Exponent();
    assert e == e0 && x == h * B2 + l;
    if h == 0 && l == 0 && e == 0 {
      ZeroText();
      return "-0"[pos..];
    }
    var repr, last;
    repr, last, e := FillDigits(h, l, e, x);
    repr[last - 1] := '-';
    last := last - 1;
    assert repr[last + 1..] == Mantissa(x, e0);
    assert repr[last..] == ['-'] + repr[last + 1..];
    TextParts(d, repr[last + pos..], e);
    if e > 0 {
      return repr[last + pos..] + "E+" + Itoa(e);
    }
    if e < 0 {
      return repr[last + pos..] + "E" + Itoa(e);
    }
    return repr[last + pos..];
  }

  lemma TextParts(d: Decimal128, signed: string, e: int)
    requires d.Kind() != 0x1F && d.Kind() != 0x1E && e == ShownExponent(d.Significand(), d.Exponent())
    requires signed == (if d.Negative() then ['-'] else []) + Mantissa(d.Significand(), d.Exponent())
    ensures Text(d) == if e > 0 then signed + "E+" + Itoa(e) else if e < 0 then signed + "E" + Itoa(e) else signed
  {
    hide Magnitude, Mantissa, ShownExponent, Itoa;
    MagnitudeParts(d.Significand(), d.Exponent());
    var m, suffix := Mantissa(d.Significand(), d.Exponent()), ExponentSuffix(e);
    assert Text(d) == (if d.Negative() then "-" else "") + (m + suffix);
    assert Text(d) == signed + suffix;
  }

  lemma ZeroText()
    ensures Format(true, 0, 0) == "-0" && Format(false, 0, 0) == "0"
  {
  }

  // Writes one more character in front of the others.
  method PutChar(repr: array<char>, i0: nat, c: char) returns (i: nat)
    requires 0 < i0 <= repr.Length
    modifies repr
    ensures i == i0 - 1 && repr[i..] == [c] + old(repr[i0..])
  {
    i := i0 - 1;
    repr[i] := c;
  }

  // The digit loops: writes the text without sign and exponent to the end of the buffer.
  method FillDigits(h0: U64, l0: U64, e0: int, ghost x: nat) returns (repr: array<char>, last: nat, e: int)
    requires x == h0 * B2 + l0 && h0 < TWO_49 && (x != 0 || e0 != 0)
    ensures fresh(repr) && 1 <= last < repr.Length == 48
    ensures repr[last..] == Mantissa(x, e0) && e == ShownExponent(x, e0)
  {
    hide Mantissa, Tail, Dotted, PointDue, Total, Scientific, AtDigit, AfterDigit, Holding, Pow10, LowDigits, Shift,
      Width, ShownExponent;
    var h: U64, l: U64 := h0, l0;
    e := e0;
    repr := new char[48];
    last := 48;
    var i, dot := 48, 48 + e;
    ghost var k := 0;
    SmallSignificand(x, h0, l0, e0);
    StartText(x, e0);
    assert repr[i..] == "";
    var d9 := 0;
    while d9 < 5
      invariant d9 <= 5 && k == 9 * d9 && repr.Length == 48
      invariant 0 <= i <= 48 && AtDigit(x, e0, k, i, dot, e, repr[i..])
      invariant h * B2 + l == Shift(x, k)
    {
      var rem;
      ghost var h', l' := h, l;
      h, l, rem := DivMod(h, l, 1000000000);
      StartBlock(x, k, h', l', h, l, rem);
      var d1 := 0;
      while d1 < 9
        invariant d1 <= 9 && k == 9 * d9 + d1 && repr.Length == 48
        invariant 0 <= i <= 48 && AtDigit(x, e0, k, i, dot, e, repr[i..])
        invariant Holding(x, k, h, l, rem, 9 - d1)
      {
        HoldingFacts(x, k, h, l, rem, 9 - d1);
        PointTest(x, e0, k, i, dot, e, repr[i..]);
        DigitRoom(x, e0, k, i, dot, e, repr[i..]);
        ghost var tail, i0, dot0, ei := repr[i..], i, dot, e;
        if i < 48 && (dot == i || (l == 0 && h == 0 && rem > 0 && rem < 10 && (dot < i - 6 || e > 0))) {
          e := e + (48 - i);
          i := PutChar(repr, i, '.');
          last := i - 1;
          dot := 48;
        }
        var c := '0' + (rem % 10) as char;
        rem := rem / 10;
        i := PutChar(repr, i, c);
        DigitWritten(x, e0, k, i0, dot0, ei, tail, c);
        SingleTest(x, e0, k, i, dot, e, repr[i..]);
        if l == 0 && h == 0 && rem == 0 && i == 47 && (dot < i - 5 || e > 0) {
          last := i;
          DoneText(x, e0, k, i, dot, e, repr[i..]);
          return;
        }
        if c != '0' {
          last := i;
        }
        EndTest(x, e0, k, i, dot, e, repr[i..]);
        if dot > i && l == 0 && h == 0 && rem == 0 {
          DoneText(x, e0, k, i, dot, e, repr[i..]);
          if !PointDue(x, e0, k) {
            FinalDigit(x, e0, k);
          }
          return;
        }
        GoesOn(x, e0, k, i, dot, e, repr[i..]);
        k := k + 1;
        d1 := d1 + 1;
      }
      BlockDone(x, k, h, l, rem);
      d9 := d9 + 1;
    }
    InsideLoop(x, e0, k, i, dot, e, repr[i..]);
    assert false;
  }
}

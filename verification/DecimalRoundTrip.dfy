/** Parsing the text of a finite decimal128 value gives the value back, bit for bit. */
module DecimalRoundTrip {
  import opened DecimalArith
  import opened DecimalFormat
  import opened DecimalString
  import opened DecimalParse

  // Finite, in the normal encoding, with a significand of at most 34 digits.
  predicate Normal(d: Decimal128) {
    d.Kind() != 0x1E && d.Kind() != 0x1F && !d.LargeForm() && d.Significand() < Pow10(34)
  }

  // A significand beyond the precision that the clamping loop builds up again.
  predicate BuiltUp(d: Decimal128) {
    !d.LargeForm() && d.Exponent() == MAX_EXPONENT && d.Significand() >= Pow10(34) && d.Significand() % 10 == 0
  }

  // What an exponent makes of the number read.
  function Landed(neg: bool, v: nat, e: int): Parsed
    requires v < TWO_113
  {
    RescaleFits(v, e);
    match Rescale(v, e)
    case OutOfRange => Malformed
    case Scaled(v', e') => Valid(Pack(neg, v', e'))
  }

  // The scan after all but the last j digits of x.
  function Reading(x: nat, j: nat, dot: int, i: nat): Scan {
    At(Shift(x, j), 0, Sig(Shift(x, j)), dot, i)
  }

  // One digit of x is read.
  lemma ScanDigit(s: string, x: nat, j: nat, dot: int, i: nat)
    requires j > 0 && Shift(x, j - 1) < Pow10(34) && i < |s| && s[i] == DigitChar(Shift(x, j - 1) % 10)
    ensures ScanFrom(s, Reading(x, j, dot, i)) == ScanFrom(s, Reading(x, j - 1, dot, i + 1))
  {
    hide Pow10, ScanFrom;
    SigBound(Shift(x, j - 1), 34);
    ScanStep(s, Reading(x, j, dot, i));
    assert Shift(x, j - 1) == 10 * Shift(x, j) + Shift(x, j - 1) % 10;
  }

  lemma {:induction false} ScanRun(s: string, x: nat, j: nat, j': nat, dot: int, i: nat)
    requires j' <= j && Shift(x, j') < Pow10(34) && i + (j - j') <= |s|
    requires s[i..i + (j - j')] == LowDigits(x, j)[..j - j']
    ensures ScanFrom(s, Reading(x, j, dot, i)) == ScanFrom(s, Reading(x, j', dot, i + (j - j')))
    decreases j
  {
    hide Pow10, ScanFrom, Shift, Sig, Reading;
    if j' < j {
      var part := s[i..i + (j - j')];
      assert s[i] == part[0] == DigitChar(Shift(x, j - 1) % 10);
      ShiftSum(x, j', j - 1 - j');
      ShiftAtMost(Shift(x, j'), j - 1 - j');
      ScanDigit(s, x, j, dot, i);
      assert s[i + 1..i + 1 + (j - 1 - j')] == part[1..] == LowDigits(x, j - 1)[..j - 1 - j'];
      ScanRun(s, x, j - 1, j', dot, i + 1);
    }
  }

  lemma {:induction false} ExponentRun(s: string, n: nat, j: nat, i: nat)
    requires n < 10000 && i + j == |s| && s[i..] == LowDigits(n, j)
    ensures ExponentFrom(s, Shift(n, j), i) == Exponent(n, |s|)
    decreases j
  {
    ShiftAtMost(n, j);
    if j > 0 {
      var d := Shift(n, j - 1) % 10;
      assert s[i] == s[i..][0] == DigitChar(d);
      assert Shift(n, j - 1) == 10 * Shift(n, j) + d;
      assert s[i + 1..] == s[i..][1..];
      ExponentRun(s, n, j - 1, i + 1);
    }
  }

  // Five digits are read to the end too.
  lemma LongExponent(s: string, n: nat, j: nat, i: nat)
    requires 10000 <= n < 100000 && j == Width(n) && i + j == |s| && s[i..] == LowDigits(n, j)
    ensures ExponentFrom(s, 0, i) == Exponent(n, |s|)
  {
    LeadingDigit(n, j);
    LeadingDigit(n, j - 1);
    var d := n % 10;
    assert Shift(n, 1) == n / 10;
    LongRun(s, n, j, 1, i);
    assert s[|s| - 1] == s[i..][j - 1] == LowDigits(n, j)[j - 1];
    LowDigitsTail(n, j, 1);
    assert LowDigits(n, j)[j - 1..][0] == DigitChar(d) by { assert Shift(n, 0) == n; }
    assert ExponentFrom(s, n / 10, |s| - 1) == ExponentFrom(s, n, |s|);
  }

  lemma {:induction false} LongRun(s: string, n: nat, j: nat, m: nat, i: nat)
    requires 1 <= m <= j && n < 100000 && i + j == |s| && s[i..] == LowDigits(n, j)
    ensures ExponentFrom(s, Shift(n, j), i) == ExponentFrom(s, Shift(n, m), |s| - m)
    decreases j - m
  {
    if m < j {
      ShiftSum(n, 1, j - 1);
      ShiftAtMost(Shift(n, 1), j - 1);
      var d := Shift(n, j - 1) % 10;
      assert s[i] == s[i..][0] == DigitChar(d);
      assert Shift(n, j - 1) == 10 * Shift(n, j) + d;
      assert s[i + 1..] == s[i..][1..];
      LongRun(s, n, j - 1, m, i + 1);
    }
  }

  lemma {:induction false} ShiftAtMost(n: nat, j: nat)
    ensures Shift(n, j) <= n
  {
    if j > 0 {
      ShiftAtMost(n, j - 1);
    }
  }

  // Nothing of x is left above its own width.
  lemma StartReading(x: nat, k: nat)
    requires k >= Width(x)
    ensures Reading(x, k, -1, 0) == Start()
  {
    LeadingDigit(x, k);
  }

  // A text that begins with digits, read but for the last j of them.
  lemma IntegerDigits(x: nat, j: nat, suffix: string)
    requires j <= Width(x) && Shift(x, j) < Pow10(34)
    ensures var n := Width(x);
      ScanFrom(LowDigits(x, n) + suffix, Start()) == ScanFrom(LowDigits(x, n) + suffix, Reading(x, j, -1, n - j))
  {
    hide Pow10, ScanFrom, Shift, Sig, Reading, Width;
    var n := Width(x);
    var s := LowDigits(x, n) + suffix;
    StartReading(x, n);
    assert s[0..n - j] == LowDigits(x, n)[..n - j];
    ScanRun(s, x, n, j, -1, 0);
  }

  // Digits, and then the end or a letter.
  lemma IntegerText(x: nat, suffix: string)
    requires x < Pow10(34) && (suffix == "" || suffix[0] == 'E')
    ensures var s := LowDigits(x, Width(x)) + suffix; ScanFrom(s, Start()) == Reading(x, 0, -1, Width(x))
  {
    hide Pow10, ScanFrom, Shift, Sig, Width;
    var n := Width(x);
    var s := LowDigits(x, n) + suffix;
    ShiftAtMost(x, 0);
    IntegerDigits(x, 0, suffix);
    assert s[n..] == suffix;
    StopsAt(s, Reading(x, 0, -1, n), suffix);
  }

  function Pointed(ds: string, m: nat, suffix: string): string
    requires m <= |ds|
  {
    ds[..m] + "." + ds[m..] + suffix
  }

  lemma PointedEnd(ds: string, m: nat, suffix: string)
    requires m < |ds|
    ensures var s := Pointed(ds, m, suffix);
      |s| == |ds| + 1 + |suffix| && s[|ds|] == ds[|ds| - 1] && s[|ds| + 1..] == suffix
  {
  }

  // Digits, a point and digits, read but for the last j of them.
  lemma PointDigits(x: nat, k: nat, m: nat, j: nat, suffix: string)
    requires Shift(x, j) < Pow10(34) && Width(x) <= k && 0 < m < k && j <= k - m
    ensures var s := Pointed(LowDigits(x, k), m, suffix);
      |s| == k + 1 + |suffix| && ScanFrom(s, Start()) == ScanFrom(s, Reading(x, j, m + 1, k + 1 - j))
  {
    hide Pow10, ScanFrom, Shift, Sig, Reading, Width;
    var ds := LowDigits(x, k);
    var s := ds[..m] + "." + ds[m..] + suffix;
    StartReading(x, k);
    assert s[0..m] == ds[..m];
    ShiftSum(x, j, k - m - j);
    ShiftAtMost(Shift(x, j), k - m - j);
    ScanRun(s, x, k, k - m, -1, 0);
    LowDigitsTail(x, k, k - m);
    assert s[m] == '.' && s[m + 1..k + 1] == LowDigits(x, k - m);
    PointRead(s, x, k - m, m);
    assert s[m + 1..m + 1 + (k - m - j)] == LowDigits(x, k - m)[..k - m - j];
    ScanRun(s, x, k - m, j, m + 1, m + 1);
  }

  // Digits, a point, digits, and then the end or a letter.
  lemma PointText(x: nat, k: nat, m: nat, suffix: string)
    requires x < Pow10(34) && Width(x) <= k && 0 < m < k
    requires suffix == "" || suffix[0] == 'E'
    ensures var s := Pointed(LowDigits(x, k), m, suffix);
      ScanFrom(s, Start()) == Reading(x, 0, m + 1, k + 1) && |s| == k + 1 + |suffix| && s[k + 1..] == suffix
  {
    hide Pow10, ScanFrom, Shift, Sig, Reading, Width, Pointed;
    var s := Pointed(LowDigits(x, k), m, suffix);
    ShiftAtMost(x, 0);
    PointDigits(x, k, m, 0, suffix);
    PointedEnd(LowDigits(x, k), m, suffix);
    StopsAt(s, Reading(x, 0, m + 1, k + 1), suffix) by { ReadingAt(x, 0, m + 1, k + 1); }
  }

  lemma ReadingAt(x: nat, j: nat, dot: int, i: nat)
    ensures Reading(x, j, dot, i).At? && Reading(x, j, dot, i).i == i && Reading(x, j, dot, i).dot == dot
  {
  }

  // The point before the last j digits.
  lemma PointRead(s: string, x: nat, j: nat, i: nat)
    requires j > 0 && i + 1 + j <= |s| && s[i] == '.' && s[i + 1..i + 1 + j] == LowDigits(x, j)
    ensures ScanFrom(s, Reading(x, j, -1, i)) == ScanFrom(s, Reading(x, j, i + 1, i + 1))
  {
    hide ScanFrom, Shift, Sig;
    assert s[i + 1] == s[i + 1..i + 1 + j][0] == DigitChar(Shift(x, j - 1) % 10);
    ScanStep(s, Reading(x, j, -1, i));
  }

  lemma {:induction false} LowDigitsTail(x: nat, k: nat, j: nat)
    requires j <= k
    ensures LowDigits(x, k)[k - j..] == LowDigits(x, j)
  {
    if j < k {
      LowDigitsTail(x, k - 1, j);
      assert LowDigits(x, k)[k - j..] == LowDigits(x, k - 1)[k - 1 - j..];
    }
  }

  lemma StopsAt(s: string, st: Scan, suffix: string)
    requires st.At? && st.i + |suffix| == |s| && s[st.i..] == suffix && (suffix == "" || suffix[0] == 'E')
    ensures ScanFrom(s, st) == st
  {
    if suffix != "" {
      assert s[st.i] == s[st.i..][0] == 'E';
      ScanStep(s, st);
    }
  }

  // The exponent behind the digits is read back.
  lemma ExponentText(s: string, neg: bool, st: Scan, shown: int)
    requires st.At? && st.v < Pow10(34) && shown != 0 && -10000 < shown < 100000
    requires st.i + |ExponentSuffix(shown)| == |s| && s[st.i..] == ExponentSuffix(shown)
    ensures Pow10(34) <= TWO_113
    ensures ParseTail(s, neg, st) == Landed(neg, st.v, (if st.dot >= 0 then st.e + st.dot - st.i else st.e) + shown)
  {
    Room();
    hide Pow10, ExponentFrom, LowDigits, Shift, Sig, Width, Rescale, Pack;
    var n := if shown < 0 then -shown else shown;
    var w := Width(n);
    SuffixParts(shown);
    var t := s[st.i..];
    assert s[st.i] == t[0] && s[st.i + 1] == t[1] && s[st.i + 2..] == t[2..];
    LeadingDigit(n, w);
    if n < 10000 {
      ExponentRun(s, n, w, st.i + 2);
    } else {
      LongExponent(s, n, w, st.i + 2);
    }
  }

  lemma LandedInRange(neg: bool, v: nat, e: int)
    requires v < TWO_113 && MIN_EXPONENT <= e <= MAX_EXPONENT
    ensures Landed(neg, v, e) == Valid(Pack(neg, v, e))
  {
  }

  lemma SuffixParts(shown: int)
    requires shown != 0
    ensures var t, n := ExponentSuffix(shown), if shown < 0 then -shown else shown;
      |t| > 2 && t[0] == 'E' && t[1] == (if shown < 0 then '-' else '+') && t[2..] == LowDigits(n, Width(n))
  {
    hide LowDigits;
  }

  // The unsigned text is not taken for a named value.
  lemma StartsWithDigit(x: nat, e: int)
    ensures Magnitude(x, e) != "" && IsDigit(Magnitude(x, e)[0])
  {
    var n := Width(x);
    if !Scientific(x, e) && e != 0 {
      assert LowDigits(x, PlainWidth(x, e))[0] == DigitChar(Shift(x, PlainWidth(x, e) - 1) % 10);
    } else {
      assert LowDigits(x, n)[0] == DigitChar(Shift(x, n - 1) % 10);
    }
  }

  lemma MagnitudeRead(neg: bool, x: nat, e: int)
    requires x < Pow10(34) && -6176 <= e <= 10207 && (e <= 6111 || x == 0)
    ensures Pow10(34) <= TWO_113
    ensures ParseUnsigned(Magnitude(x, e), neg) == Landed(neg, x, e)
  {
    Room();
    hide Pow10, LowDigits, ScanFrom, Shift, Sig, ExponentSuffix, ParseTail, Width, Landed;
    StartsWithDigit(x, e);
    var s, n := Magnitude(x, e), Width(x);
    var ds := LowDigits(x, n);
    ScanBounds(s, Start()) by { StartCounted(); }
    WidthBound(x);
    assert Shift(x, 0) == x by { ShiftNone(x); }
    if Scientific(x, e) {
      var shown := e + n - 1;
      SuffixStarts(shown);
      ZeroWidth();
      if n == 1 {
        IntegerText(x, ExponentSuffix(shown));
        assert s == ds + ExponentSuffix(shown) && s[1..] == ExponentSuffix(shown);
        ExponentText(s, neg, Reading(x, 0, -1, 1), shown);
      } else {
        PointText(x, n, 1, ExponentSuffix(shown));
        assert s == Pointed(ds, 1, ExponentSuffix(shown));
        ExponentText(s, neg, Reading(x, 0, 2, n + 1), shown);
      }
    } else {
      LandedInRange(neg, x, e);
      if e == 0 {
        IntegerText(x, "");
        assert ds + "" == ds;
        EndText(s, neg, Reading(x, 0, -1, n));
      } else {
        var k := PlainWidth(x, e);
        PointText(x, k, k + e, "");
        assert s == Pointed(LowDigits(x, k), k + e, "");
        EndText(s, neg, Reading(x, 0, k + e + 1, k + 1));
      }
    }
  }

  lemma ShiftNone(x: nat)
    ensures Shift(x, 0) == x
  {
  }

  lemma WidthBound(x: nat)
    requires x < Pow10(34)
    ensures Width(x) <= 34
  {
    SigBound(x, 34);
  }

  lemma SuffixStarts(shown: int)
    requires shown != 0
    ensures ExponentSuffix(shown) != "" && ExponentSuffix(shown)[0] == 'E'
  {
  }

  lemma ZeroWidth()
    ensures Width(0) == 1
  {
  }

  // ---- Significands of 35 digits

  // At the last of 35 digits: a zero only raises the exponent, any other digit is refused.
  lemma LastDropped(s: string, y: nat, d: nat, dot: int, i: nat, suffix: string)
    requires d < 10 && i + 1 + |suffix| == |s| && s[i] == DigitChar(d)
    requires s[i + 1..] == suffix && (suffix == "" || suffix[0] == 'E')
    ensures ScanFrom(s, At(y, 0, 34, dot, i)) == if d == 0 then At(y, 1, 35, dot, i + 1) else Failed
  {
    hide ScanFrom;
    ScanStep(s, At(y, 0, 34, dot, i));
    if d == 0 {
      StopsAt(s, At(y, 1, 35, dot, i + 1), suffix);
    }
  }

  predicate Wide(x: nat) {
    Pow10(34) <= x < Pow10(35)
  }

  lemma WideDigits(x: nat)
    requires Wide(x)
    ensures Width(x) == 35 && Shift(x, 1) == x / 10 < Pow10(34) <= TWO_113
  {
    Room();
    SigBound(x, 35);
    PowSig(x);
    if Sig(x) <= 34 {
      PowGrows(Sig(x), 34);
    }
    assert Shift(x, 0) == x;
  }

  lemma WideReading(x: nat, dot: int, i: nat)
    requires Wide(x)
    ensures Reading(x, 1, dot, i) == At(x / 10, 0, 34, dot, i)
  {
    WideDigits(x);
    assert Width(x) == Sig(x);
    hide Pow10, Wide, Width;
    SigShift(x, 1);
  }

  // What the scan makes of the text of a wide significand.
  function WideScan(x: nat, dot: int, i: nat): Scan {
    if x % 10 == 0 then At(x / 10, 1, 35, dot, i) else Failed
  }

  lemma WideRead(neg: bool, x: nat, e: int)
    requires Wide(x) && -6176 <= e <= 6111
    ensures x / 10 < TWO_113
    ensures ParseUnsigned(Magnitude(x, e), neg) == if x % 10 != 0 then Malformed else Landed(neg, x / 10, e + 1)
  {
    hide Pow10, Wide, LowDigits, ScanFrom, Shift, Sig, ParseTail, Width, Landed, Magnitude, Pack;
    WideDigits(x);
    StartsWithDigit(x, e);
    var s := Magnitude(x, e);
    ScanBounds(s, Start()) by { StartCounted(); }
    if Scientific(x, e) {
      WideScientific(neg, x, e);
    } else if e == 0 {
      WideInteger(neg, x);
    } else {
      WidePlain(neg, x, e);
    }
  }

  // The text of 35 digits in its three forms.
  lemma WideScientificShape(x: nat, e: int)
    requires Width(x) == 35 && Scientific(x, e)
    ensures e + 34 != 0 && Magnitude(x, e) == Pointed(LowDigits(x, 35), 1, ExponentSuffix(e + 34))
  {
    hide Width, LowDigits, ExponentSuffix;
    var ds, suffix := LowDigits(x, 35), ExponentSuffix(e + 34);
    assert ds[..1] + ("." + ds[1..]) + suffix == Pointed(ds, 1, suffix);
  }

  lemma WideIntegerShape(x: nat)
    requires Width(x) == 35
    ensures Magnitude(x, 0) == LowDigits(x, 35)
  {
  }

  lemma WidePlainShape(x: nat, e: int)
    requires Width(x) == 35 && e < 0 && !Scientific(x, e)
    ensures var k := PlainWidth(x, e);
      35 <= k && 0 < k + e < k && Magnitude(x, e) == Pointed(LowDigits(x, k), k + e, "")
  {
    hide Width, LowDigits;
    var k := PlainWidth(x, e);
    var ds := LowDigits(x, k);
    assert Pointed(ds, k + e, "") == ds[..k + e] + "." + ds[k + e..];
  }

  lemma WideInteger(neg: bool, x: nat)
    requires Wide(x)
    ensures x / 10 < Pow10(34) <= TWO_113
    ensures var s := Magnitude(x, 0);
      ScanFrom(s, Start()) == WideScan(x, -1, 35) && |s| == 35 &&
      (x % 10 == 0 ==> ParseTail(s, neg, WideScan(x, -1, 35)) == Landed(neg, x / 10, 1))
  {
    hide Pow10, Wide, ScanFrom, Shift, Sig, Width, Reading, Magnitude, Landed, ParseTail, Pack, DigitChar, LowDigits,
      Scientific;
    var s := Magnitude(x, 0);
    WideDigits(x);
    WideIntegerShape(x);
    IntegerDigits(x, 1, "");
    assert s + "" == s;
    LastDigit(x, 35);
    WideReading(x, -1, 34);
    LastDropped(s, x / 10, x % 10, -1, 34, "");
    if x % 10 == 0 {
      EndText(s, neg, WideScan(x, -1, 35));
      LandedInRange(neg, x / 10, 1);
    }
  }

  lemma WidePoint(x: nat, k: nat, m: nat, suffix: string)
    requires Wide(x) && 35 <= k && 0 < m < k && (suffix == "" || suffix[0] == 'E')
    ensures var s := Pointed(LowDigits(x, k), m, suffix);
      |s| == k + 1 + |suffix| && s[k + 1..] == suffix && ScanFrom(s, Start()) == WideScan(x, m + 1, k + 1)
  {
    hide Pow10, Wide, ScanFrom, Shift, Sig, Width, Reading, DigitChar, LowDigits, Pointed;
    WideDigits(x);
    var s := Pointed(LowDigits(x, k), m, suffix);
    PointDigits(x, k, m, 1, suffix);
    LastDigit(x, k);
    PointedEnd(LowDigits(x, k), m, suffix);
    WideReading(x, m + 1, k);
    LastDropped(s, x / 10, x % 10, m + 1, k, suffix);
  }

  lemma LastDigit(x: nat, k: nat)
    requires k > 0
    ensures LowDigits(x, k)[k - 1] == DigitChar(x % 10)
  {
    LowDigitsTail(x, k, 1);
    assert LowDigits(x, k)[k - 1..][0] == DigitChar(Shift(x, 0) % 10);
    ShiftNone(x);
  }

  lemma WidePlain(neg: bool, x: nat, e: int)
    requires Wide(x) && -6176 <= e < 0 && !Scientific(x, e)
    ensures x / 10 < Pow10(34) <= TWO_113
    ensures var s, k := Magnitude(x, e), PlainWidth(x, e);
      ScanFrom(s, Start()) == WideScan(x, k + e + 1, k + 1) && |s| == k + 1 &&
      (x % 10 == 0 ==> ParseTail(s, neg, WideScan(x, k + e + 1, k + 1)) == Landed(neg, x / 10, e + 1))
  {
    hide Pow10, Wide, ScanFrom, Shift, Sig, Width, Magnitude, Landed, ParseTail, Pointed, LowDigits, Scientific, Pack;
    var s, k := Magnitude(x, e), PlainWidth(x, e);
    WideDigits(x);
    WidePlainShape(x, e);
    WidePoint(x, k, k + e, "");
    if x % 10 == 0 {
      EndText(s, neg, WideScan(x, k + e + 1, k + 1));
      LandedInRange(neg, x / 10, e + 1);
    }
  }

  lemma WideScientific(neg: bool, x: nat, e: int)
    requires Wide(x) && -6176 <= e <= 6111 && Scientific(x, e)
    ensures x / 10 < Pow10(34) <= TWO_113
    ensures var s := Magnitude(x, e);
      ScanFrom(s, Start()) == WideScan(x, 2, 36) && |s| > 36 &&
      (x % 10 == 0 ==> ParseTail(s, neg, WideScan(x, 2, 36)) == Landed(neg, x / 10, e + 1))
  {
    hide Pow10, Wide, ScanFrom, Shift, Sig, Width, Magnitude, Landed, ParseTail, Pointed, LowDigits, ExponentSuffix,
      Scientific, Pack;
    var s, shown := Magnitude(x, e), e + 34;
    WideDigits(x);
    WideScientificShape(x, e);
    SuffixStarts(shown);
    WidePoint(x, 35, 1, ExponentSuffix(shown));
    if x % 10 == 0 {
      ExponentText(s, neg, WideScan(x, 2, 36), shown);
    }
  }

  lemma EndText(s: string, neg: bool, st: Scan)
    requires st.At? && st.v < Pow10(34) && st.i == |s|
    ensures Pow10(34) <= TWO_113
    ensures ParseTail(s, neg, st) == Valid(Pack(neg, st.v, if st.dot >= 0 then st.e + st.dot - st.i else st.e))
  {
    Room();
  }

  // The fields of a value in the normal encoding put together give its bits.
  lemma PackFields(d: Decimal128)
    requires !d.LargeForm()
    ensures -6176 <= d.Exponent() <= 6111 && d.Significand() < TWO_113
    ensures Pack(d.Negative(), d.Significand(), d.Exponent()) == d
  {
    var field := d.h / TWO_49 % 0x4000;
    assert d.h == d.h / TWO_49 * TWO_49 + d.h % TWO_49;
    assert d.h / TWO_61 == d.h / TWO_49 / 0x1000;
    assert d.h / TWO_63 == d.h / TWO_49 / 0x4000;
    assert d.Significand() <= (TWO_49 - 1) * B2 + (B2 - 1);
  }

  lemma PackedFields(neg: bool, v: nat, e: int)
    requires v < TWO_113 && -6176 <= e <= 6111
    ensures var d := Pack(neg, v, e); !d.LargeForm() && d.Significand() == v && d.Exponent() == e
  {
    var h, field := Pack(neg, v, e).h, e + 6176;
    assert h % TWO_49 == v / B2;
    assert h / TWO_49 == field + if neg then 0x4000 else 0;
    assert h / TWO_61 == h / TWO_49 / 0x1000;
  }

  // The sign and the digits of a text.
  lemma SignedText(d: Decimal128)
    requires d.Kind() != 0x1E && d.Kind() != 0x1F
    ensures Parse(Text(d)) == ParseUnsigned(Magnitude(d.Significand(), d.Exponent()), d.Negative())
  {
    hide Magnitude, ParseUnsigned;
    var m := Magnitude(d.Significand(), d.Exponent());
    StartsWithDigit(d.Significand(), d.Exponent());
    if d.Negative() {
      assert Text(d) == "-" + m && Text(d)[1..] == m;
    } else {
      assert Text(d) == "" + m && "" + m == m;
    }
  }

  lemma RoundTrip(d: Decimal128)
    requires Normal(d)
    ensures Parse(Text(d)) == Valid(d)
  {
    hide Pow10, ParseUnsigned, Pack, Landed, Magnitude;
    PackFields(d);
    SignedText(d);
    MagnitudeRead(d.Negative(), d.Significand(), d.Exponent());
    LandedInRange(d.Negative(), d.Significand(), d.Exponent());
  }

  // A significand beyond the precision: built up again only at the largest exponent.
  lemma WideRoundTrip(d: Decimal128)
    requires !d.LargeForm() && d.Significand() >= Pow10(34)
    ensures Parse(Text(d)) == Valid(d) <==> BuiltUp(d)
  {
    PackFields(d);
    assert Wide(d.Significand()) by { Room(); }
    LargeKinds(d);
    hide Pow10, Wide, Parse, Text, Pack, Landed, Decimal128.LargeForm, Decimal128.Significand, Decimal128.Exponent,
      Decimal128.Kind;
    var neg, x, e := d.Negative(), d.Significand(), d.Exponent();
    SignedText(d);
    WideRead(neg, x, e);
    WideLanded(neg, x, e);
  }

  // Whether a wide significand is put together again.
  lemma WideLanded(neg: bool, x: nat, e: int)
    requires Wide(x) && x < TWO_113 && -6176 <= e <= 6111
    ensures x / 10 < TWO_113
    ensures x % 10 == 0 ==> (Landed(neg, x / 10, e + 1) == Valid(Pack(neg, x, e)) <==> e == MAX_EXPONENT)
  {
    hide Pow10, Landed, Pack;
    if x % 10 == 0 {
      if e == MAX_EXPONENT {
        OneZero(neg, x);
      } else {
        LandedInRange(neg, x / 10, e + 1);
        PackedFields(neg, x / 10, e + 1);
        PackedFields(neg, x, e);
      }
    }
  }

  lemma OneZero(neg: bool, x: nat)
    requires x < TWO_113 && x % 10 == 0
    ensures Landed(neg, x / 10, MAX_EXPONENT + 1) == Valid(Pack(neg, x, MAX_EXPONENT))
  {
    PowerOfOne();
    hide Pow10, Clamped;
    var y := x / 10;
    assert y * 10 == x;
    ClampedStep(y, 1);
    ClampedNone(x);
  }

  lemma PowerOfOne()
    ensures Pow10(1) == 10
  {
  }

  // Infinities and NaN are marked within the second form of the encoding.
  lemma LargeKinds(d: Decimal128)
    ensures d.Kind() == 0x1E || d.Kind() == 0x1F ==> d.LargeForm()
  {
    assert d.h / TWO_61 == d.h / TWO_58 / 8;
  }

  // The second form is printed as a zero and comes back in the first form.
  lemma LargeFormRead(d: Decimal128)
    requires d.LargeForm() && d.Kind() != 0x1E && d.Kind() != 0x1F
    ensures Parse(Text(d)) ==
      Valid(Pack(d.Negative(), 0, if d.Exponent() < MAX_EXPONENT then d.Exponent() else MAX_EXPONENT))
    ensures Parse(Text(d)) != Valid(d)
  {
    hide ParseUnsigned, Landed, Magnitude, Pack;
    var neg, e := d.Negative(), d.Exponent();
    PowerPositive();
    SignedText(d);
    MagnitudeRead(neg, 0, e);
    if e <= MAX_EXPONENT {
      LandedInRange(neg, 0, e);
      PackedFields(neg, 0, e);
    } else {
      ClampedZero(e - MAX_EXPONENT);
      LandedZero(neg, e);
      PackedFields(neg, 0, MAX_EXPONENT);
    }
  }

  lemma {:induction false} ClampedZero(k: nat)
    ensures Clamped(0, k) == Scaled(0, MAX_EXPONENT)
    decreases k
  {
    if k > 0 {
      assert 0 * Pow10(Min(k, 9)) % B4 == 0;
      ClampedZero(k - Min(k, 9));
    }
  }

  lemma LandedZero(neg: bool, e: int)
    requires e > MAX_EXPONENT && Clamped(0, e - MAX_EXPONENT) == Scaled(0, MAX_EXPONENT)
    ensures Landed(neg, 0, e) == Valid(Pack(neg, 0, MAX_EXPONENT))
  {
  }

  lemma PowerPositive()
    ensures 0 < Pow10(34)
  {
  }

  lemma NamedRead(d: Decimal128)
    requires d.Kind() == 0x1E || d.Kind() == 0x1F
    ensures Parse(Text(d)) ==
      Valid(if d.Kind() == 0x1F then NAN else if d.Negative() then NEGATIVE_INFINITY else POSITIVE_INFINITY)
  {
    assert "-Inf"[1..] == "Inf";
    assert EqualFold("NaN", "nan") && EqualFold("Inf", "inf") && !EqualFold("Inf", "nan") by {
      assert Lower("Inf"[0]) != Lower("nan"[0]);
    }
  }

  // Exactly these values come back bit for bit: the normal ones, those whose significand is
  // built up again, and the three that the parser has for NaN and infinity.
  lemma RoundTripExactly(d: Decimal128)
    ensures Parse(Text(d)) == Valid(d) <==>
      Normal(d) || BuiltUp(d) || d == NAN || d == POSITIVE_INFINITY || d == NEGATIVE_INFINITY
  {
    NamedKinds();
    LargeKinds(d);
    hide Pow10, Parse, Text, Decimal128.LargeForm, Decimal128.Kind;
    if d.Kind() == 0x1E || d.Kind() == 0x1F {
      NamedRead(d);
    } else if d.LargeForm() {
      LargeFormRead(d);
    } else if Normal(d) {
      RoundTrip(d);
    } else {
      WideRoundTrip(d);
    }
  }

  lemma NamedKinds()
    ensures NAN.Kind() == 0x1F && POSITIVE_INFINITY.Kind() == 0x1E && NEGATIVE_INFINITY.Kind() == 0x1E
    ensures NEGATIVE_INFINITY.Negative() && !POSITIVE_INFINITY.Negative()
  {
  }

  // ---- Clamping

  // The zeros put behind a number are exact if and only if the whole result fits.
  lemma {:induction false} ClampExactly(v: nat, k: nat)
    requires v < TWO_113
    ensures Clamped(v, k) == Scaled(v * Pow10(k), MAX_EXPONENT) <==> v * Pow10(k) < TWO_113
    decreases k
  {
    ClampedFits(v, k);
    if v * Pow10(k) < TWO_113 {
      ClampFits(v, k);
    }
  }

  lemma {:induction false} ClampFits(v: nat, k: nat)
    requires v * Pow10(k) < TWO_113
    ensures Clamped(v, k) == Scaled(v * Pow10(k), MAX_EXPONENT)
    decreases k
  {
    if k == 0 {
      assert Pow10(0) == 1;
    } else {
      hide Pow10, Clamped;
      var m := Min(k, 9);
      var w := v * Pow10(m);
      ClampGrows(v, m, k - m);
      KeptLow(w);
      ClampedStep(v, k);
      assert Clamped(v, k) == Clamped(w, k - m);
      ClampFits(w, k - m);
    }
  }

  lemma KeptLow(w: nat)
    requires w < TWO_113
    ensures w % B4 == w
  {
  }

  lemma ClampGrows(v: nat, m: nat, n: nat)
    ensures 0 <= v * Pow10(m) <= v * Pow10(m) * Pow10(n) == v * Pow10(m + n)
  {
    hide Pow10;
    Pow10Sum(m, n);
    Regroup(v, Pow10(m), Pow10(n));
    MulGrows(0, v, Pow10(m));
    MulGrows(1, Pow10(n), v * Pow10(m));
  }

  lemma Regroup(v: int, p: int, q: int)
    ensures v * p * q == v * (p * q)
  {
  }

  // The text of a number with an exponent beyond the range.
  function ClampedText(y: nat, k: nat): string {
    LowDigits(y, Width(y)) + ExponentSuffix(MAX_EXPONENT + k)
  }

  // The parsed value is the number times the power of ten that clamping takes off the exponent.
  predicate KeepsValue(r: Parsed, y: nat, k: nat) {
    r.Valid? && r.d.Exponent() == MAX_EXPONENT && r.d.Significand() == y * Pow10(k)
  }

  lemma ClampedTextRead(y: nat, k: nat)
    requires y < Pow10(34) && 0 < k < 10000
    ensures Pow10(34) <= TWO_113 && Parse(ClampedText(y, k)) == Landed(false, y, MAX_EXPONENT + k)
  {
    Room();
    hide Pow10, LowDigits, ScanFrom, Shift, Sig, ExponentSuffix, ParseTail, Width, Landed;
    var n, suffix := Width(y), ExponentSuffix(MAX_EXPONENT + k);
    var s := ClampedText(y, k);
    SuffixStarts(MAX_EXPONENT + k);
    IntegerText(y, suffix);
    ShiftNone(y);
    FirstDigit(y, n);
    assert s[0] == LowDigits(y, n)[0] && s[n..] == suffix;
    ScanBounds(s, Start()) by { StartCounted(); }
    ExponentText(s, false, Reading(y, 0, -1, n), MAX_EXPONENT + k);
  }

  lemma FirstDigit(x: nat, n: nat)
    requires n > 0
    ensures IsDigit(LowDigits(x, n)[0])
  {
  }

  // A text with too large an exponent keeps its value if and only if the significand it
  // needs fits. If it does not, the text is refused or, where the part of a product that is
  // dropped hides it, taken for another value.
  lemma ClampedValue(y: nat, k: nat)
    requires y < Pow10(34) && 0 < k < 10000
    ensures KeepsValue(Parse(ClampedText(y, k)), y, k) <==> y * Pow10(k) < TWO_113
  {
    ClampedTextRead(y, k);
    hide Pow10, Parse, ClampedText, Clamped;
    ClampExactly(y, k);
    ClampedFits(y, k);
    var c := Clamped(y, k);
    if c.Scaled? {
      PackedFields(false, c.v, MAX_EXPONENT);
    }
  }

  // The low 128 bits after so many zeros are appended.
  function LowBits(v: nat, j: nat): nat {
    v * Pow10(j) % B4
  }

  // After every nine zeros and after the last, the low 128 bits are below 2^113.
  predicate Passes(v: nat, k: nat) {
    forall j: nat :: 0 < j <= k && (j % 9 == 0 || j == k) ==> LowBits(v, j) < TWO_113
  }

  // So a text is accepted exactly if it passes; its value is then what is left of the
  // significand it needs, and another value exactly if that significand does not fit.
  lemma AcceptedExactly(y: nat, k: nat)
    requires y < Pow10(34) && 0 < k < 10000
    ensures var r := Parse(ClampedText(y, k));
      && (r.Valid? <==> Passes(y, k))
      && (r.Valid? ==> r.d.Exponent() == MAX_EXPONENT && r.d.Significand() == LowBits(y, k))
      && (r.Valid? && !KeepsValue(r, y, k) <==> Passes(y, k) && y * Pow10(k) >= TWO_113)
  {
    ClampedTextRead(y, k);
    ClampedValue(y, k);
    hide Pow10, Parse, ClampedText, Clamped, Passes;
    ClampedFits(y, k);
    ClampedClosed(y, k);
    var c := Clamped(y, k);
    if c.Scaled? {
      PackedFields(false, c.v, MAX_EXPONENT);
    }
  }

  lemma {:induction false} ClampedClosed(v: nat, k: nat)
    requires k > 0
    ensures Clamped(v, k) == if Passes(v, k) then Scaled(LowBits(v, k), MAX_EXPONENT) else OutOfRange
    decreases k
  {
    hide Pow10, Clamped;
    ClampedStep(v, k);
    if k <= 9 {
      ClampedNone(LowBits(v, k));
    } else {
      var w := LowBits(v, 9);
      assert Passes(v, k) ==> w < TWO_113;
      ClampedClosed(w, k - 9);
      PowersOn(v, k - 9);
      PassesOn(v, k);
    }
  }

  lemma PassesOn(v: nat, k: nat)
    requires k > 9
    ensures Passes(v, k) <==> LowBits(v, 9) < TWO_113 && Passes(LowBits(v, 9), k - 9)
  {
    hide LowBits;
    var w := LowBits(v, 9);
    if Passes(v, k) {
      forall j: nat | 0 < j <= k - 9 && (j % 9 == 0 || j == k - 9) ensures LowBits(w, j) < TWO_113 {
        PowersOn(v, j);
      }
    }
    if w < TWO_113 && Passes(w, k - 9) {
      forall j: nat | 0 < j <= k && (j % 9 == 0 || j == k) ensures LowBits(v, j) < TWO_113 {
        if j > 9 {
          PowersOn(v, j - 9);
        }
      }
    }
  }

  lemma PowersOn(v: nat, j: nat)
    ensures LowBits(LowBits(v, 9), j) == LowBits(v, j + 9)
  {
    hide Pow10;
    Pow10Sum(9, j);
    LowProduct(v * Pow10(9), Pow10(j));
    assert v * Pow10(9) * Pow10(j) == v * (Pow10(9) * Pow10(j));
  }

  lemma LowProduct(a: nat, b: nat)
    ensures a % B4 * b % B4 == a * b % B4
  {
    var q, r := a / B4, a % B4;
    assert a * b == r * b + q * b * B4 by {
      assert a == q * B4 + r;
      assert (q * B4) * b == q * b * B4;
      assert (q * B4 + r) * b == (q * B4) * b + r * b;
    }
    LowSum(r * b, q * b);
  }

  lemma LowSum(a: nat, q: nat)
    ensures (a + q * B4) % B4 == a % B4
  {
  }

  const HIDDEN: nat := 14632141779343373504238923546624

  // Such a text: 14632141779343373504238923546624E+6120 is read as
  // 1743019575313815427057966907392E+6111.
  lemma WrongValue()
    ensures var r := Parse(ClampedText(HIDDEN, 9));
      r.Valid? && r.d.Exponent() == 6111 && r.d.Significand() == 1743019575313815427057966907392
  {
    hide Pow10, Parse, ClampedText, Clamped, Pack;
    HiddenFits();
    ClampedTextRead(HIDDEN, 9);
    HiddenClamped();
    PackedFields(false, 1743019575313815427057966907392, MAX_EXPONENT);
  }

  lemma HiddenClamped()
    ensures Clamped(HIDDEN, 9) == Scaled(1743019575313815427057966907392, MAX_EXPONENT)
  {
    assert Pow10(9) == 1000000000;
    hide Pow10, Clamped;
    assert HIDDEN * 1000000000 % B4 == 1743019575313815427057966907392;
    ClampedStep(HIDDEN, 9);
    ClampedNone(1743019575313815427057966907392);
  }

  lemma HiddenFits()
    ensures HIDDEN < Pow10(34)
  {
    assert Pow10(12) == 1_000_000_000_000;
    assert Pow10(24) == 1_000_000_000_000_000_000_000_000;
    assert Pow10(34) == 10_000_000_000_000_000_000_000_000_000_000_000;
  }

  // The two methods together.
  method PrintAndParse(d: Decimal128) returns (r: Parsed)
    ensures r == Valid(d) <==>
      Normal(d) || BuiltUp(d) || d == NAN || d == POSITIVE_INFINITY || d == NEGATIVE_INFINITY
  {
    hide Parse, Text;
    RoundTripExactly(d);
    var s := String(d);
    r := ParseDecimal128(s);
  }
}

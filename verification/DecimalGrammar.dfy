/** Which texts are decimal numbers, and which number each of them spells. */
module DecimalGrammar {
  import opened DecimalArith
  import opened DecimalFormat
  import opened DecimalString
  import opened DecimalParse
  import DecimalRoundTrip

  datatype Sign = NoSign | Plus | Minus
  datatype Fraction = NoPoint | Point(digits: string)
  datatype Power = NoPower | Power(letter: char, sign: Sign, digits: string)

  // An optional sign, digits with an optional point, and an optional exponent.
  datatype Spelling = Spelling(sign: Sign, whole: string, fraction: Fraction, power: Power)

  predicate Digits(s: string) {
    forall k :: 0 <= k < |s| ==> '0' <= s[k] <= '9'
  }

  function SignText(sign: Sign): string {
    match sign
    case NoSign => ""
    case Plus => "+"
    case Minus => "-"
  }

  function Behind(fraction: Fraction): string {
    if fraction.NoPoint? then "" else fraction.digits
  }

  function FractionText(fraction: Fraction): string {
    if fraction.NoPoint? then "" else "." + fraction.digits
  }

  function PowerText(power: Power): string {
    if power.NoPower? then "" else [power.letter] + SignText(power.sign) + power.digits
  }

  function Unsigned(sp: Spelling): string {
    sp.whole + FractionText(sp.fraction) + PowerText(sp.power)
  }

  function Spelled(sp: Spelling): string {
    SignText(sp.sign) + Unsigned(sp)
  }

  // There is a digit; a point may come last, but not right before an exponent.
  predicate WellFormed(sp: Spelling) {
    && Digits(sp.whole) && Digits(Behind(sp.fraction)) && sp.whole + Behind(sp.fraction) != ""
    && (sp.power.Power? ==>
          (sp.power.letter == 'E' || sp.power.letter == 'e') && Digits(sp.power.digits) && sp.power.digits != "" &&
          sp.fraction != Point(""))
  }

  function Digit(c: char): nat
    requires '0' <= c <= '9'
  {
    c as int - 48
  }

  // The number with more digits behind it.
  function Extend(n: nat, s: string): nat
    requires Digits(s)
  {
    if s == "" then n else 10 * Extend(n, s[..|s| - 1]) + Digit(s[|s| - 1])
  }

  function Number(s: string): nat
    requires Digits(s)
  {
    Extend(0, s)
  }

  // The number spelled is the first of these times ten to the second.
  function Numeral(sp: Spelling): nat
    requires WellFormed(sp)
  {
    Number(sp.whole + Behind(sp.fraction))
  }

  function Scale(sp: Spelling): int
    requires WellFormed(sp)
  {
    (if sp.power.NoPower? then 0
     else if sp.power.sign.Minus? then 0 - Number(sp.power.digits)
     else Number(sp.power.digits)) - |Behind(sp.fraction)|
  }

  lemma {:induction false} ExtendFront(n: nat, s: string)
    requires Digits(s) && s != ""
    ensures Extend(n, s) == Extend(10 * n + Digit(s[0]), s[1..])
  {
    if |s| > 1 {
      ExtendFront(n, s[..|s| - 1]);
      assert s[..|s| - 1][1..] == s[1..][..|s| - 2];
    } else {
      assert s[..0] == "" && s[1..] == "";
    }
  }

  lemma {:induction false} ExtendTwice(n: nat, s: string, t: string)
    requires Digits(s) && Digits(t)
    ensures Digits(s + t) && Extend(n, s + t) == Extend(Extend(n, s), t)
  {
    if t == "" {
      assert s + t == s;
    } else {
      var u := s + t;
      assert u[..|u| - 1] == s + t[..|t| - 1];
      ExtendTwice(n, s, t[..|t| - 1]);
    }
  }

  lemma {:induction false} ExtendGrows(n: nat, s: string)
    requires Digits(s)
    ensures Extend(n, s) >= n
  {
    if s != "" {
      ExtendGrows(n, s[..|s| - 1]);
    }
  }

  // ---- What the scan keeps of the digits

  function Over(n: nat): nat {
    if Sig(n) <= 34 then 0 else Sig(n) - 34
  }

  // All digits behind the first 34 are zeros.
  predicate Fits(n: nat) {
    n % Pow10(Over(n)) == 0
  }

  function Kept(n: nat): nat {
    Shrinks(n, Pow10(Over(n)));
    n / Pow10(Over(n))
  }

  function After(n: nat, dot: int, i: nat): Scan {
    At(Kept(n), Over(n), Sig(n), dot, i)
  }

  lemma SigStep(n: nat, d: nat)
    requires d < 10
    ensures Sig(10 * n + d) == if n == 0 && d == 0 then 0 else Sig(n) + 1
  {
    assert (10 * n + d) / 10 == n;
    if n == 0 && d > 0 {
      assert Sig(d) == 1 + Sig(d / 10);
    }
  }

  lemma TenTimes(n: nat, d: nat, p: nat)
    requires p > 0 && d < 10
    ensures (10 * n + d) / (10 * p) == n / p && (10 * n + d) % (10 * p) == 10 * (n % p) + d
  {
    assert n == p * (n / p) + n % p;
    assert 10 * (p * (n / p)) == (10 * p) * (n / p);
    QuotientIs(10 * n + d, 10 * p, n / p, 10 * (n % p) + d);
  }

  // One more digit.
  lemma FitsStep(n: nat, d: nat)
    requires d < 10
    ensures var m := 10 * n + d;
      && (Fits(m) <==> Fits(n) && (Sig(m) > 34 ==> d == 0))
      && (Fits(n) && Sig(m) <= 34 ==> Kept(m) == 10 * Kept(n) + d && Over(m) == 0 == Over(n))
      && (Fits(m) && Sig(m) > 34 ==> Kept(m) == Kept(n) && Over(m) == Over(n) + 1)
  {
    var m := 10 * n + d;
    SigStep(n, d);
    if Sig(m) > 34 {
      TenTimes(n, d, Pow10(Over(n)));
    }
  }

  lemma {:induction false} NoFitStays(n: nat, s: string)
    requires Digits(s) && !Fits(n)
    ensures !Fits(Extend(n, s))
  {
    if s != "" {
      NoFitStays(n, s[..|s| - 1]);
      FitsStep(Extend(n, s[..|s| - 1]), Digit(s[|s| - 1]));
    }
  }

  lemma {:induction false} OverStays(n: nat, s: string)
    requires Digits(s)
    ensures Over(n) <= Over(Extend(n, s)) && Sig(n) <= Sig(Extend(n, s))
  {
    if s != "" {
      OverStays(n, s[..|s| - 1]);
      SigStep(Extend(n, s[..|s| - 1]), Digit(s[|s| - 1]));
    }
  }

  // A run of digits.
  lemma {:induction false} ScanRun(s: string, n: nat, dot: int, i: nat, j: nat)
    requires i <= j <= |s| && Digits(s[i..j]) && Fits(n)
    ensures var m := Extend(n, s[i..j]);
      ScanFrom(s, After(n, dot, i)) == if Fits(m) then ScanFrom(s, After(m, dot, j)) else Failed
    decreases j - i
  {
    hide Pow10, ScanFrom, Fits, Kept, Over, Sig;
    if i < j {
      var run, d := s[i..j], Digit(s[i]);
      var m := 10 * n + d;
      assert run[0] == s[i] && run[1..] == s[i + 1..j];
      ExtendFront(n, run);
      SigStep(n, d);
      FitsStep(n, d);
      ScanStep(s, After(n, dot, i));
      assert DigitValue(s[i]) == d;
      if Fits(m) {
        ScanRun(s, m, dot, i + 1, j);
        CountsDigits(n, s[i]);
      } else {
        NoFitStays(m, run[1..]);
        CountsDigits(n, s[i]);
      }
    } else {
      assert s[i..j] == "";
    }
  }

  lemma CountsDigits(n: nat, c: char)
    requires '0' <= c <= '9'
    ensures CountDigit(c, Sig(n)) == Sig(10 * n + Digit(c))
    ensures Digit(c) == 0 <==> c == '0'
  {
    SigStep(n, Digit(c));
  }

  lemma NothingKept(dot: int, i: nat)
    ensures After(0, dot, i) == At(0, 0, 0, dot, i) && Fits(0)
  {
    assert Pow10(0) == 1;
  }

  // ---- What the parser does with a spelling

  // The parser accepts the digits: zeros in the place of all digits behind the first 34, and
  // none of those before a point with digits behind it.
  predicate DigitsFit(sp: Spelling)
    requires WellFormed(sp)
  {
    Fits(Numeral(sp)) && (Behind(sp.fraction) != "" ==> Over(Number(sp.whole)) == 0)
  }

  // The exponent is below 100000 or has leading zeros: its last digit decides nothing more.
  predicate PowerFits(power: Power)
    requires power.Power? ==> Digits(power.digits) && power.digits != ""
  {
    power.Power? ==> Number(power.digits[..|power.digits| - 1]) < 10000
  }

  // The answer for a spelling.
  function Answer(sp: Spelling): Parsed
    requires WellFormed(sp)
  {
    var n, neg := Numeral(sp), sp.sign == Minus;
    KeptFits(n);
    if !DigitsFit(sp) || !PowerFits(sp.power) then Malformed
    else if sp.power.NoPower? then Valid(Pack(neg, Kept(n), Scale(sp) + Over(n)))
    else RescaledAnswer(neg, Kept(n), Scale(sp) + Over(n))
  }

  function RescaledAnswer(neg: bool, v: nat, e: int): Parsed
    requires v < TWO_113
  {
    RescaleFits(v, e);
    match Rescale(v, e)
    case OutOfRange => Malformed
    case Scaled(v', e') => Valid(Pack(neg, v', e'))
  }

  lemma {:induction false} PowLowerBound(n: nat)
    requires n > 0
    ensures n >= Pow10(Sig(n) - 1)
  {
    if n >= 10 {
      PowLowerBound(n / 10);
      assert n >= 10 * (n / 10);
    } else {
      assert Sig(n) == 1 + Sig(n / 10) == 1 && Pow10(0) == 1;
    }
  }

  lemma KeptFits(n: nat)
    ensures Kept(n) < Pow10(34) <= TWO_113
  {
    Room();
    PowSig(n);
    PowerOfNone();
    hide Pow10, Sig;
    if Sig(n) > 34 {
      Pow10Sum(34, Over(n));
      QuotientBelow(n, Pow10(Over(n)), Pow10(34));
    } else {
      PowGrows(Sig(n), 34);
    }
  }

  lemma QuotientBelow(n: nat, p: nat, q: nat)
    requires p > 0 && n < q * p
    ensures n / p < q
  {
    assert n == p * (n / p) + n % p;
    if n / p >= q {
      MulGrows(q, n / p, p);
    }
  }

  function DotOf(sp: Spelling): int {
    if Behind(sp.fraction) == "" then -1 else |sp.whole| + 1
  }

  // The digits of a spelling, with whatever follows.
  lemma ScanSpelled(sp: Spelling, s: string)
    requires WellFormed(sp) && s == Unsigned(sp)
    ensures var i := |sp.whole| + |FractionText(sp.fraction)|;
      && i <= |s| && i > 0
      && ScanFrom(s, Start()) == if DigitsFit(sp) then After(Numeral(sp), DotOf(sp), i) else Failed
  {
    hide Pow10, ScanFrom, Fits, Kept, Over, Sig;
    var w, f := |sp.whole|, Behind(sp.fraction);
    NothingKept(-1, 0);
    PlacesOf(sp);
    hide Unsigned, FractionText;
    ScanRun(s, 0, -1, 0, w);
    ExtendTwice(0, sp.whole, f);
    var n := Number(sp.whole);
    if !Fits(n) {
      NoFitStays(n, f);
    } else if sp.fraction.NoPoint? {
      StopsBehind(s, After(n, -1, w));
    } else {
      ScanStep(s, After(n, -1, w));
      if f != "" {
        var i := w + 1 + |f|;
        ScanRun(s, n, w + 1, w + 1, i);
        StopsBehind(s, After(Numeral(sp), w + 1, i));
      }
    }
  }

  lemma PlacesOf(sp: Spelling)
    requires WellFormed(sp)
    ensures var s, w, f := Unsigned(sp), |sp.whole|, Behind(sp.fraction);
      var i := w + |FractionText(sp.fraction)|;
      && 0 < i <= |s| && s[0..w] == sp.whole
      && (i == w || i == w + 1 + |f|) && (i == w <==> sp.fraction.NoPoint?)
      && (i < |s| ==> s[i] == 'E' || s[i] == 'e') && (i == |s| <==> sp.power.NoPower?)
      && (sp.fraction.Point? ==> s[w] == '.' && s[w + 1..i] == f)
      && (f != "" ==> s[w + 1] == f[0]) && (f == "" ==> sp.whole + f == sp.whole)
  {
    var s, w, t := Unsigned(sp), |sp.whole|, FractionText(sp.fraction);
    var i := w + |t|;
    assert s[w..i] == t;
    PowerAt(sp, s, i);
    if sp.fraction.Point? {
      assert s[w + 1..i] == s[w..i][1..];
      assert sp.fraction.digits != "" ==> s[w + 1] == t[1];
    }
    if sp.power.Power? {
      PowerParts(sp.power);
      assert s[i] == s[i..][0];
    }
  }

  lemma StopsBehind(s: string, st: Scan)
    requires st.At? && st.i <= |s| && (st.i < |s| ==> s[st.i] == 'E' || s[st.i] == 'e')
    ensures ScanFrom(s, st) == st
  {
  }

  lemma {:induction false} ExponentRun(s: string, n: nat, i: nat)
    requires i <= |s| && Digits(s[i..])
    ensures var r := ExponentFrom(s, n, i);
      && r.Exponent? && r.i <= |s|
      && (i == |s| || Extend(n, s[i..|s| - 1]) < 10000 ==> r == Exponent(Extend(n, s[i..]), |s|))
      && (i < |s| && Extend(n, s[i..|s| - 1]) >= 10000 ==> r.i < |s|)
    decreases |s| - i
  {
    if i < |s| {
      var t := s[i..|s| - 1];
      ExtendGrows(n, t);
      if n < 10000 {
        var m := 10 * n + Digit(s[i]);
        assert s[i..][0] == s[i] && s[i..][1..] == s[i + 1..];
        ExponentRun(s, m, i + 1);
        ExtendFront(n, s[i..]);
        if t != "" {
          assert t[1..] == s[i + 1..|s| - 1] && t[0] == s[i];
          ExtendFront(n, t);
        }
      }
    }
  }

  // The parser's answer for every spelling, with and without signs, points and exponents.
  lemma ParseSpelled(sp: Spelling)
    requires WellFormed(sp)
    ensures Parse(Spelled(sp)) == Answer(sp)
  {
    hide ScanFrom, ParseTail, Pow10, Answer, Fits, Kept, Over, Sig;
    var u := Unsigned(sp);
    FirstChar(sp);
    ScanSpelled(sp, u);
    ScanBounds(u, Start()) by { StartCounted(); }
    if DigitsFit(sp) {
      TailSpelled(sp);
    } else {
      Unfit(sp);
    }
    var s := Spelled(sp);
    if sp.sign == NoSign {
      assert s == u;
    } else {
      assert s[1..] == u;
    }
  }

  lemma FirstChar(sp: Spelling)
    requires WellFormed(sp)
    ensures var u := Unsigned(sp); u != "" && ('0' <= u[0] <= '9' || u[0] == '.')
  {
  }

  lemma TailSpelled(sp: Spelling)
    requires WellFormed(sp) && DigitsFit(sp)
    ensures var st := After(Numeral(sp), DotOf(sp), |sp.whole| + |FractionText(sp.fraction)|);
      && st.i <= |Unsigned(sp)| && st.v < Pow10(34)
      && ParseTail(Unsigned(sp), sp.sign == Minus, st) == Answer(sp)
  {
    hide Pow10, Fits, Kept, Over, Sig, Rescale, Pack, ExponentFrom, ParseTail, Answer;
    KeptFits(Numeral(sp));
    if sp.power.Power? {
      TailWithPower(sp);
    } else {
      TailWithout(sp);
    }
  }

  lemma TailWithout(sp: Spelling)
    requires WellFormed(sp) && DigitsFit(sp) && sp.power.NoPower?
    ensures var st := After(Numeral(sp), DotOf(sp), |sp.whole| + |FractionText(sp.fraction)|);
      && st.i <= |Unsigned(sp)| && st.v < Pow10(34)
      && ParseTail(Unsigned(sp), sp.sign == Minus, st) == Answer(sp)
  {
    hide Pow10, Fits, Kept, Over, Sig, Rescale, Pack, ExponentFrom, Numeral;
    KeptFits(Numeral(sp));
    assert |sp.whole| + |FractionText(sp.fraction)| == |Unsigned(sp)|;
  }

  lemma TailWithPower(sp: Spelling)
    requires WellFormed(sp) && DigitsFit(sp) && sp.power.Power?
    ensures var st := After(Numeral(sp), DotOf(sp), |sp.whole| + |FractionText(sp.fraction)|);
      && st.i <= |Unsigned(sp)| && st.v < Pow10(34)
      && ParseTail(Unsigned(sp), sp.sign == Minus, st) == Answer(sp)
  {
    hide Pow10, Fits, Kept, Over, Sig, Rescale, Pack, ExponentFrom, Unsigned, PowerFits, Numeral;
    KeptFits(Numeral(sp));
    PowerRead(sp, Unsigned(sp), |sp.whole| + |FractionText(sp.fraction)|);
  }

  // What the parser finds of an exponent behind the digits.
  lemma PowerRead(sp: Spelling, u: string, i: nat)
    requires WellFormed(sp) && sp.power.Power? && u == Unsigned(sp) && i == |sp.whole| + |FractionText(sp.fraction)|
    ensures i + 1 < |u| && (u[i] == 'E' || u[i] == 'e')
    ensures u[i + 1] == '-' <==> sp.power.sign == Minus
    ensures u[i + 1] == '+' <==> sp.power.sign == Plus
    ensures var k := i + 1 + |SignText(sp.power.sign)|;
      && k < |u|
      && var r := ExponentFrom(u, 0, k);
      && r.Exponent? && r.i <= |u|
      && (PowerFits(sp.power) ==> r == Exponent(Number(sp.power.digits), |u|))
      && (!PowerFits(sp.power) ==> r.i < |u|)
  {
    hide ExponentFrom, Extend, PowerFits, PowerText, SignText, Unsigned, FractionText;
    var m, k := |SignText(sp.power.sign)|, i + 1 + |SignText(sp.power.sign)|;
    PowerAt(sp, u, i);
    var t := PowerText(sp.power);
    PowerParts(sp.power);
    assert u[i] == t[0] && u[i + 1] == t[1];
    assert u[k..] == u[i..][1 + m..] == sp.power.digits;
    DigitsRead(sp.power, u, k);
  }

  lemma DigitsRead(power: Power, u: string, k: nat)
    requires power.Power? && Digits(power.digits) && power.digits != "" && k <= |u| && u[k..] == power.digits
    ensures var r := ExponentFrom(u, 0, k);
      && r.Exponent? && r.i <= |u|
      && (PowerFits(power) ==> r == Exponent(Number(power.digits), |u|))
      && (!PowerFits(power) ==> r.i < |u|)
  {
    hide ExponentFrom, Extend;
    assert u[k..|u| - 1] == power.digits[..|power.digits| - 1];
    ExponentRun(u, 0, k);
  }

  lemma PowerAt(sp: Spelling, u: string, i: nat)
    requires u == Unsigned(sp) && i == |sp.whole| + |FractionText(sp.fraction)|
    ensures i <= |u| && u[i..] == PowerText(sp.power)
  {
  }

  lemma PowerParts(power: Power)
    requires power.Power? && Digits(power.digits) && power.digits != ""
    ensures var t, m := PowerText(power), |SignText(power.sign)|;
      && |t| == 1 + m + |power.digits| >= 2 && t[0] == power.letter && t[1 + m..] == power.digits
      && (t[1] == '-' <==> power.sign == Minus) && (t[1] == '+' <==> power.sign == Plus)
  {
    if power.sign == NoSign {
      assert PowerText(power)[1] == power.digits[0];
    }
  }

  lemma Unfit(sp: Spelling)
    requires WellFormed(sp) && !DigitsFit(sp)
    ensures Answer(sp) == Malformed
  {
  }

  // ---- Which number is read

  // v times ten to the e is n times ten to the x.
  predicate SameNumber(v: nat, e: int, n: nat, x: int) {
    if e >= x then v * Pow10(e - x) == n else v == n * Pow10(x - e)
  }

  predicate Names(d: Decimal128, neg: bool, n: nat, x: int) {
    !d.LargeForm() && d.Negative() == neg && SameNumber(d.Significand(), d.Exponent(), n, x)
  }

  // The range of a spelling without an exponent is not looked at: outside of it only zeros come
  // out right, and not all of them. With one the number has to fit, if need be with zeros taken
  // off or put behind.
  predicate InRange(sp: Spelling)
    requires WellFormed(sp)
  {
    var n, e := Numeral(sp), Scale(sp) + Over(Numeral(sp));
    if sp.power.NoPower? then -6176 <= e <= 6111 || (n == 0 && (e + 6176) % 16384 < 12288)
    else
      && (e < -6176 ==> Kept(n) % Pow10(-6176 - e) == 0)
      && (e > 6111 ==> Kept(n) * Pow10(e - 6111) < TWO_113)
  }

  lemma Cancel(a: nat, b: nat, p: nat)
    requires p > 0
    ensures a * p == b * p <==> a == b
  {
    if a < b {
      MulGrows(a + 1, b, p);
    } else if b < a {
      MulGrows(b + 1, a, p);
    }
  }

  lemma MovePowers(v: nat, e: int, w: nat, o: nat, x: int)
    ensures SameNumber(v, e, w * Pow10(o), x) <==> SameNumber(v, e, w, x + o)
  {
    hide Pow10;
    if e >= x + o {
      SplitPower(v, e - x - o, o);
      Cancel(v * Pow10(e - x - o), w, Pow10(o));
    } else if e >= x {
      SplitPower(w, x + o - e, e - x);
      Cancel(v, w * Pow10(x + o - e), Pow10(e - x));
    } else {
      SplitPower(w, o, x - e);
    }
  }

  lemma SplitPower(w: nat, m: nat, n: nat)
    ensures w * Pow10(m + n) == w * Pow10(m) * Pow10(n) && w * Pow10(m) >= 0
  {
    hide Pow10;
    Pow10Sum(m, n);
    DecimalRoundTrip.Regroup(w, Pow10(m), Pow10(n));
  }

  lemma SameDigits(v: nat, e: int, x: int)
    ensures SameNumber(v, e, v, x) <==> v == 0 || e == x
  {
    if e != x {
      PowGrows(1, if e > x then e - x else x - e);
      assert Pow10(0) == 1 && Pow10(1) == 10;
      MulGrows(10, Pow10(if e > x then e - x else x - e), v);
    } else {
      assert Pow10(0) == 1;
    }
  }

  lemma KeptWhole(n: nat)
    requires Fits(n)
    ensures n == Kept(n) * Pow10(Over(n)) && (Kept(n) == 0 <==> n == 0)
  {
    var p := Pow10(Over(n));
    assert n == p * (n / p) + n % p;
  }

  lemma PackedAny(neg: bool, v: nat, e: int)
    requires v < TWO_113
    ensures var d, field := Pack(neg, v, e), (e + 6176) % 16384;
      && (d.LargeForm() <==> field >= 12288) && d.Negative() == neg
      && (field < 12288 ==> d.Significand() == v && d.Exponent() == field - 6176)
  {
    var h, field := Pack(neg, v, e).h, (e + 6176) % 16384;
    assert h % TWO_49 == v / B2;
    assert h / TWO_49 == field + if neg then 0x4000 else 0;
    assert h / TWO_61 == h / TWO_49 / 0x1000;
    assert h / TWO_63 == h / TWO_49 / 0x4000;
  }

  // A spelling is read as the number it spells, with its sign, exactly if its digits fit, its
  // exponent is not too long, and the number is in range.
  lemma SpelledRight(sp: Spelling)
    requires WellFormed(sp)
    ensures var r := Parse(Spelled(sp));
      r.Valid? && Names(r.d, sp.sign == Minus, Numeral(sp), Scale(sp)) <==>
        DigitsFit(sp) && PowerFits(sp.power) && InRange(sp)
  {
    hide Parse, Pow10, Fits, Kept, Over, Sig, Pack, Names, Rescale;
    ParseSpelled(sp);
    var n := Numeral(sp);
    KeptFits(n);
    if DigitsFit(sp) && PowerFits(sp.power) {
      if sp.power.NoPower? {
        PlainRight(sp);
      } else {
        PowerRight(sp);
      }
    }
  }

  lemma PlainRight(sp: Spelling)
    requires WellFormed(sp) && DigitsFit(sp) && sp.power.NoPower?
    ensures Kept(Numeral(sp)) < TWO_113
    ensures var d := Pack(sp.sign == Minus, Kept(Numeral(sp)), Scale(sp) + Over(Numeral(sp)));
      Names(d, sp.sign == Minus, Numeral(sp), Scale(sp)) <==> InRange(sp)
  {
    hide Pow10, Kept, Over, Sig, Pack, Numeral, Scale, Names;
    KeptFits(Numeral(sp));
    KeptWhole(Numeral(sp));
    PlainNumber(sp.sign == Minus, Kept(Numeral(sp)), Over(Numeral(sp)), Scale(sp));
  }

  lemma PlainNumber(neg: bool, v: nat, o: nat, x: int)
    requires v < TWO_113
    ensures v * Pow10(o) >= 0
    ensures Names(Pack(neg, v, x + o), neg, v * Pow10(o), x) <==>
      -6176 <= x + o <= 6111 || (v == 0 && (x + o + 6176) % 16384 < 12288)
  {
    hide Pow10, Pack, SameNumber, Names;
    SplitPower(v, o, 0);
    var n, e, field := v * Pow10(o), x + o, (x + o + 6176) % 16384;
    PackedNames(neg, v, e, n, x);
    MovePowers(v, field - 6176, v, o, x);
    SameDigits(v, field - 6176, e);
    WrapsOnce(e);
  }

  lemma PackedNames(neg: bool, v: nat, e: int, n: nat, x: int)
    requires v < TWO_113
    ensures Names(Pack(neg, v, e), neg, n, x) <==>
      (e + 6176) % 16384 < 12288 && SameNumber(v, (e + 6176) % 16384 - 6176, n, x)
  {
    hide Pack, SameNumber;
    PackedAny(neg, v, e);
  }

  lemma WrapsOnce(e: int)
    ensures (e + 6176) % 16384 < 12288 && (e + 6176) % 16384 - 6176 == e <==> -6176 <= e <= 6111
  {
  }

  lemma PowerRight(sp: Spelling)
    requires WellFormed(sp) && DigitsFit(sp) && sp.power.Power? && Kept(Numeral(sp)) < TWO_113
    ensures var r := Rescale(Kept(Numeral(sp)), Scale(sp) + Over(Numeral(sp)));
      && (r.OutOfRange? ==> !InRange(sp))
      && (r.Scaled? ==> r.v < TWO_113)
      && (r.Scaled? ==>
            (Names(Pack(sp.sign == Minus, r.v, r.e), sp.sign == Minus, Numeral(sp), Scale(sp)) <==> InRange(sp)))
  {
    hide Pow10, Kept, Over, Sig, Pack, Numeral, Scale, Names, Rescale;
    KeptWhole(Numeral(sp));
    PowerNumber(sp.sign == Minus, Kept(Numeral(sp)), Over(Numeral(sp)), Scale(sp));
  }

  lemma PowerNumber(neg: bool, v: nat, o: nat, x: int)
    requires v < TWO_113
    ensures v * Pow10(o) >= 0
    ensures var e, r := x + o, Rescale(v, x + o);
      && (r.Scaled? ==> r.v < TWO_113)
      && (r.Scaled? && Names(Pack(neg, r.v, r.e), neg, v * Pow10(o), x) <==>
            (e < -6176 ==> v % Pow10(-6176 - e) == 0) && (e > 6111 ==> v * Pow10(e - 6111) < TWO_113))
  {
    hide Pow10, Pack, Rescale, SameNumber;
    SplitPower(v, o, 0);
    RescaleFits(v, x + o);
    RescaleRight(v, x + o);
    var r := Rescale(v, x + o);
    if r.Scaled? {
      PackedAny(neg, r.v, r.e);
      MovePowers(r.v, r.e, v, o, x);
    }
  }

  // Bringing a number into range keeps it, or refuses it, or spoils it.
  lemma RescaleRight(v: nat, e: int)
    requires v < TWO_113
    ensures var r := Rescale(v, e);
      r.Scaled? && SameNumber(r.v, r.e, v, e) <==>
        (e < -6176 ==> v % Pow10(-6176 - e) == 0) && (e > 6111 ==> v * Pow10(e - 6111) < TWO_113)
  {
    hide Pow10, Clamped;
    if e < -6176 {
      var p := Pow10(-6176 - e);
      assert v == p * (v / p) + v % p;
    } else if e > 6111 {
      ClampedFits(v, e - 6111);
      DecimalRoundTrip.ClampExactly(v, e - 6111);
    } else {
      SameDigits(v, e, e);
    }
  }

  // ---- No other text is accepted

  function RunEnd(s: string, i: nat): (j: nat)
    requires i <= |s|
    ensures i <= j <= |s| && Digits(s[i..j]) && (j < |s| ==> !IsDigit(s[j]))
    decreases |s| - i
  {
    if i == |s| || !IsDigit(s[i]) then i
    else
      var j := RunEnd(s, i + 1);
      assert s[i..j] == [s[i]] + s[i + 1..j];
      j
  }

  lemma {:induction false} ExponentAll(s: string, n: nat, i: nat)
    requires i <= |s| && ExponentFrom(s, n, i).Exponent? && ExponentFrom(s, n, i).i == |s|
    ensures Digits(s[i..])
    decreases |s| - i
  {
    if i < |s| {
      ExponentAll(s, 10 * n + DigitValue(s[i]), i + 1);
      assert s[i..] == [s[i]] + s[i + 1..];
    }
  }

  lemma {:induction false} ExponentInside(s: string, n: nat, i: nat)
    requires i <= |s|
    ensures ExponentFrom(s, n, i).Exponent? ==> ExponentFrom(s, n, i).i <= |s|
    decreases |s| - i
  {
    if i < |s| && IsDigit(s[i]) {
      ExponentInside(s, 10 * n + DigitValue(s[i]), i + 1);
    }
  }

  // What an accepted text holds behind its digits.
  lemma PowerOf(s: string, neg: bool, st: Scan) returns (power: Power)
    requires st.At? && st.i <= |s| && st.v < Pow10(34) && ParseTail(s, neg, st).Valid?
    ensures s[st.i..] == PowerText(power)
    ensures power.Power? ==>
      (power.letter == 'E' || power.letter == 'e') && Digits(power.digits) && power.digits != ""
  {
    hide Pow10, Rescale, ExponentFrom;
    var i := st.i;
    if i == |s| {
      power := NoPower;
    } else {
      var sign := if s[i + 1] == '-' then Minus else if s[i + 1] == '+' then Plus else NoSign;
      var k := i + 1 + |SignText(sign)|;
      ExponentInside(s, 0, k);
      ExponentAll(s, 0, k);
      power := Power(s[i], sign, s[k..]);
      assert s[i..] == [s[i]] + s[i + 1..k] + s[k..];
    }
  }

  lemma ScannedUnsigned(s: string, neg: bool)
    requires !NamedStart(s) && ParseUnsigned(s, neg).Valid?
    ensures var st := ScanFrom(s, Start());
      st.At? && 0 < st.i <= |s| && st.v < Pow10(34) && ParseTail(s, neg, st).Valid?
  {
    ScanBounds(s, Start()) by { StartCounted(); }
    hide ScanFrom, ParseTail, Pow10;
  }

  lemma SpellingOfUnsigned(s: string, neg: bool, sign: Sign) returns (sp: Spelling)
    requires !NamedStart(s) && ParseUnsigned(s, neg).Valid?
    ensures WellFormed(sp) && Unsigned(sp) == s && sp.sign == sign
  {
    ScannedUnsigned(s, neg);
    NothingKept(-1, 0);
    hide ScanFrom, ParseTail, ParseUnsigned, Pow10, Fits, Kept, Over, Sig, WellFormed, Unsigned, PowerText, NamedStart;
    var w := RunEnd(s, 0);
    assert s[0..w] == s[..w];
    ScanRun(s, 0, -1, 0, w);
    var st := ScanFrom(s, Start());
    RunStops(s, Number(s[..w]), -1, w);
    if w < |s| && s[w] == '.' {
      sp := PointedSpelling(s, neg, sign, w);
    } else {
      var power := PowerOf(s, neg, st);
      sp := Spelling(sign, s[..w], NoPoint, power);
      Assembled(sp, s, w, w);
    }
  }

  lemma NoPowerText()
    ensures PowerText(NoPower) == ""
  {
  }

  lemma Assembled(sp: Spelling, s: string, w: nat, j: nat)
    requires w <= j <= |s| && sp.whole == s[..w] && Digits(s[..w]) && Digits(Behind(sp.fraction))
    requires if sp.fraction.NoPoint? then w == j else w < j && s[w] == '.' && sp.fraction.digits == s[w + 1..j]
    requires s[j..] == PowerText(sp.power) && (w == 0 ==> j > 1)
    requires sp.power.Power? ==>
      (sp.power.letter == 'E' || sp.power.letter == 'e') && Digits(sp.power.digits) && sp.power.digits != "" &&
      sp.fraction != Point("")
    ensures WellFormed(sp) && Unsigned(sp) == s
  {
    assert s[w..j] == FractionText(sp.fraction);
    assert s == s[..w] + s[w..j] + s[j..];
  }

  // The scan stops behind a run of digits, but for a point.
  lemma RunStops(s: string, n: nat, dot: int, i: nat)
    requires i <= |s| && (i < |s| ==> !IsDigit(s[i]))
    ensures i == |s| || s[i] != '.' ==> ScanFrom(s, After(n, dot, i)) == After(n, dot, i)
    ensures i < |s| && s[i] == '.' && (dot >= 0 || |s| == 1) ==> ScanFrom(s, After(n, dot, i)) == Failed
    ensures i < |s| && s[i] == '.' && dot < 0 && i + 1 < |s| && !IsDigit(s[i + 1]) ==>
      ScanFrom(s, After(n, dot, i)) == Failed
    ensures i < |s| && s[i] == '.' && dot < 0 && i + 1 < |s| && IsDigit(s[i + 1]) ==>
      ScanFrom(s, After(n, dot, i)) == if Over(n) > 0 then Failed else ScanFrom(s, After(n, i + 1, i + 1))
  {
    hide ScanFrom, Kept, Over, Sig;
    if i < |s| {
      ScanStep(s, After(n, dot, i));
    } else {
      ScanEnd(s, After(n, dot, i));
    }
  }

  lemma PointedSpelling(s: string, neg: bool, sign: Sign, w: nat) returns (sp: Spelling)
    requires w < |s| && s[w] == '.' && Digits(s[..w])
    requires var n := Number(s[..w]);
      Fits(n) && ScanFrom(s, Start()) == ScanFrom(s, After(n, -1, w))
    requires ScanFrom(s, Start()).At? && ScanFrom(s, Start()).i <= |s| && ScanFrom(s, Start()).v < Pow10(34)
    requires ParseTail(s, neg, ScanFrom(s, Start())).Valid?
    ensures WellFormed(sp) && Unsigned(sp) == s && sp.sign == sign
  {
    hide ScanFrom, ParseTail, Pow10, Fits, Kept, Over, Sig, WellFormed, Unsigned, PowerText;
    NoPowerText();
    var n := Number(s[..w]);
    RunStops(s, n, -1, w);
    if w + 1 == |s| {
      sp := Spelling(sign, s[..w], Point(""), NoPower);
      Assembled(sp, s, w, |s|);
    } else {
      var j := RunEnd(s, w + 1);
      var f := s[w + 1..j];
      ScanRun(s, n, w + 1, w + 1, j);
      RunStops(s, Extend(n, f), w + 1, j);
      var power := PowerOf(s, neg, ScanFrom(s, Start()));
      sp := Spelling(sign, s[..w], Point(f), power);
      Assembled(sp, s, w, j);
    }
  }

  // ---- Names

  // The letters in either case.
  predicate SpellsName(s: string, small: string, capital: string)
    requires |small| == |capital|
  {
    |s| == |small| && forall k :: 0 <= k < |s| ==> s[k] == small[k] || s[k] == capital[k]
  }

  predicate IsName(s: string) {
    SpellsName(s, "nan", "NAN") || SpellsName(s, "inf", "INF") || SpellsName(s, "infinity", "INFINITY")
  }

  lemma FoldExactly(s: string)
    ensures EqualFold(s, "nan") <==> SpellsName(s, "nan", "NAN")
    ensures EqualFold(s, "inf") <==> SpellsName(s, "inf", "INF")
    ensures EqualFold(s, "infinity") <==> SpellsName(s, "infinity", "INFINITY")
  {
    FoldIs(s, "nan", "NAN");
    FoldIs(s, "inf", "INF");
    FoldIs(s, "infinity", "INFINITY");
  }

  lemma FoldIs(s: string, small: string, capital: string)
    requires |small| == |capital|
    requires forall k :: 0 <= k < |small| ==> 'a' <= small[k] <= 'z' && capital[k] as int == small[k] as int - 32
    ensures EqualFold(s, small) <==> SpellsName(s, small, capital)
  {
    if |s| == |small| {
      forall k | 0 <= k < |s| ensures Lower(s[k]) == Lower(small[k]) <==> s[k] == small[k] || s[k] == capital[k] {
      }
    }
  }

  lemma NameStarts(s: string)
    requires IsName(s)
    ensures s != "" && s[0] != '-' && s[0] != '+'
  {
  }

  lemma UnsignedName(s: string, neg: bool)
    requires IsName(s)
    ensures ParseUnsigned(s, neg) == Valid(
      if SpellsName(s, "nan", "NAN") then Decimal128(0x7C00_0000_0000_0000, 0)
      else if neg then Decimal128(0xF800_0000_0000_0000, 0)
      else Decimal128(0x7800_0000_0000_0000, 0))
  {
    hide EqualFold;
    FoldExactly(s);
  }

  // A name, with or without a sign, is read as its value whatever the case of its letters.
  lemma NameRead(s: string, sign: Sign)
    requires IsName(s)
    ensures Parse(SignText(sign) + s) == Valid(
      if SpellsName(s, "nan", "NAN") then Decimal128(0x7C00_0000_0000_0000, 0)
      else if sign == Minus then Decimal128(0xF800_0000_0000_0000, 0)
      else Decimal128(0x7800_0000_0000_0000, 0))
  {
    hide SpellsName, EqualFold, ScanFrom, ParseTail;
    UnsignedName(s, sign == Minus);
    NameStarts(s);
    if sign == NoSign {
      assert SignText(sign) + s == s;
    } else {
      assert (SignText(sign) + s)[1..] == s;
    }
  }

  // A text is accepted only if it is a name or a spelling.
  lemma OnlySpellings(s: string) returns (sign: Sign, rest: string, sp: Spelling)
    requires Parse(s).Valid?
    ensures s == SignText(sign) + rest && (IsName(rest) || (WellFormed(sp) && Spelled(sp) == s))
  {
    hide ParseNamed, ParseTail, ScanFrom;
    sign := if s[0] == '-' then Minus else if s[0] == '+' then Plus else NoSign;
    rest := if sign == NoSign then s else s[1..];
    assert s == SignText(sign) + rest;
    if NamedStart(rest) {
      NamedOnly(rest, sign == Minus);
      sp := Spelling(NoSign, "0", NoPoint, NoPower);
    } else {
      sp := SpellingOfUnsigned(rest, sign == Minus, sign);
    }
  }

  lemma NamedOnly(s: string, neg: bool)
    requires ParseNamed(s, neg).Valid?
    ensures IsName(s)
  {
    FoldExactly(s);
  }

  // A zero with 6177 decimals is read as NaN, for lack of a range check.
  lemma ManyZeros()
    ensures var sp := Spelling(NoSign, "0", Point(seq(6177, _ => '0')), NoPower);
      && WellFormed(sp) && Numeral(sp) == 0
      && Parse(Spelled(sp)).Valid? && Parse(Spelled(sp)).d.Kind() == 0x1F
  {
    var sp := Spelling(NoSign, "0", Point(seq(6177, _ => '0')), NoPower);
    ZerosAreNothing(sp.whole + sp.fraction.digits);
    hide Extend, Spelled, Parse, Answer, Decimal128.Kind;
    ParseSpelled(sp);
    ZeroAnswer(sp);
  }

  lemma ZeroAnswer(sp: Spelling)
    requires WellFormed(sp) && sp.whole == "0" && sp.power == NoPower && Numeral(sp) == 0 && sp.sign == NoSign
    requires |Behind(sp.fraction)| == 6177
    ensures Answer(sp).Valid? && Answer(sp).d.Kind() == 0x1F
  {
    hide Extend;
    NothingKept(-1, 0);
    FirstZero();
  }

  lemma FirstZero()
    ensures Number("0") == 0 && Over(0) == 0
  {
    assert "0"[..0] == "";
  }

  lemma {:induction false} ZerosAreNothing(s: string)
    requires forall k :: 0 <= k < |s| ==> s[k] == '0'
    ensures Extend(0, s) == 0
  {
    if s != "" {
      ZerosAreNothing(s[..|s| - 1]);
    }
  }

  // ---- What the printer writes

  lemma {:induction false} LowDigitsSpell(x: nat, k: nat)
    ensures Digits(LowDigits(x, k)) && Extend(Shift(x, k), LowDigits(x, k)) == x
  {
    if k > 0 {
      LowDigitsSpell(x, k - 1);
      var d := Shift(x, k - 1) % 10;
      var s := LowDigits(x, k);
      assert s[0] == DigitChar(d) && s[1..] == LowDigits(x, k - 1);
      ExtendFront(Shift(x, k), s);
      assert 10 * Shift(x, k) + d == Shift(x, k - 1);
    }
  }

  lemma AllDigitsSpell(x: nat, k: nat)
    requires k >= Width(x)
    ensures Digits(LowDigits(x, k)) && Number(LowDigits(x, k)) == x
    ensures k == Width(x) && x > 0 ==> LowDigits(x, k)[0] != '0'
  {
    LeadingDigit(x, k);
    LowDigitsSpell(x, k);
  }

  // The canonical form: scientific with one digit before the point and a signed exponent if the
  // exponent is positive or the first digit stands behind the sixth decimal, and plain with a
  // digit before the point otherwise.
  ghost predicate Canonical(sp: Spelling, x: nat, e: int)
    requires WellFormed(sp)
  {
    var f := Behind(sp.fraction);
    && sp.sign != Plus && sp.fraction != Point("") && Numeral(sp) == x && Scale(sp) == e
    && if e > 0 || e + Width(x) - 1 < -6 then
         && |sp.whole| == 1 && |f| + 1 == Width(x) && sp.power.Power?
         && sp.power.letter == 'E' && sp.power.sign != NoSign && sp.power.digits[0] != '0'
       else
         && sp.power.NoPower? && |f| == -e && sp.whole != "" && (|sp.whole| > 1 ==> sp.whole[0] != '0')
  }

  lemma MagnitudeSpelled(neg: bool, x: nat, e: int) returns (sp: Spelling)
    ensures WellFormed(sp) && Unsigned(sp) == Magnitude(x, e) && sp.sign == (if neg then Minus else NoSign)
    ensures Canonical(sp, x, e)
  {
    var sign := if neg then Minus else NoSign;
    if Scientific(x, e) {
      sp := ScientificSpelled(sign, x, e);
    } else if e == 0 {
      hide LowDigits, Extend;
      AllDigitsSpell(x, Width(x));
      sp := Spelling(sign, LowDigits(x, Width(x)), NoPoint, NoPower);
      assert LowDigits(x, Width(x)) + "" == LowDigits(x, Width(x));
    } else {
      sp := PlainSpelled(sign, x, e);
    }
  }

  lemma ScientificSpelled(sign: Sign, x: nat, e: int) returns (sp: Spelling)
    requires Scientific(x, e) && sign != Plus
    ensures WellFormed(sp) && Unsigned(sp) == Magnitude(x, e) && sp.sign == sign && Canonical(sp, x, e)
  {
    hide LowDigits, Extend, ExponentSuffix, Width;
    var n := Width(x);
    var ds, p := LowDigits(x, n), e + n - 1;
    var m: nat := if p > 0 then p else -p;
    AllDigitsSpell(x, n);
    AllDigitsSpell(m, Width(m));
    var power := Power('E', if p > 0 then Plus else Minus, LowDigits(m, Width(m)));
    sp := Spelling(sign, ds[..1], if n > 1 then Point(ds[1..]) else NoPoint, power);
    assert ds[..1] + ds[1..] == ds && (n == 1 ==> ds[..1] + "" == ds);
    SuffixIs(p);
  }

  lemma PlainSpelled(sign: Sign, x: nat, e: int) returns (sp: Spelling)
    requires !Scientific(x, e) && e < 0 && sign != Plus
    ensures WellFormed(sp) && Unsigned(sp) == Magnitude(x, e) && sp.sign == sign && Canonical(sp, x, e)
  {
    hide LowDigits, Extend, Sig;
    var k := PlainWidth(x, e);
    var ds := LowDigits(x, k);
    AllDigitsSpell(x, k);
    sp := Spelling(sign, ds[..k + e], Point(ds[k + e..]), NoPower);
    assert ds[..k + e] + ds[k + e..] == ds;
    assert ds[..k + e] + ("." + ds[k + e..]) + "" == ds[..k + e] + "." + ds[k + e..];
  }

  lemma SuffixIs(p: int)
    requires p != 0
    ensures var m: nat := if p > 0 then p else -p;
      ExponentSuffix(p) == "E" + (if p > 0 then "+" else "-") + LowDigits(m, Width(m))
  {
    hide LowDigits;
  }

  // Every finite value is printed as the canonical spelling of its number.
  lemma PrintedSpelling(d: Decimal128) returns (sp: Spelling)
    requires d.Kind() != 0x1E && d.Kind() != 0x1F
    ensures WellFormed(sp) && Text(d) == Spelled(sp) && (sp.sign == Minus <==> d.Negative())
    ensures Canonical(sp, d.Significand(), d.Exponent())
  {
    hide Magnitude, Canonical;
    sp := MagnitudeSpelled(d.Negative(), d.Significand(), d.Exponent());
  }

  lemma PrintedNames(l: U64)
    ensures Text(Decimal128(0x7C00_0000_0000_0000, l)) == "NaN"
    ensures Text(Decimal128(0x7800_0000_0000_0000, l)) == "Inf"
    ensures Text(Decimal128(0xF800_0000_0000_0000, l)) == "-Inf"
  {
    hide Format, Decimal128.Significand, Decimal128.Exponent;
  }
}

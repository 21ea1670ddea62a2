/** ParseDecimal128: its loops over limbs refine a reading on plain numbers. */
module DecimalParse {
  import opened DecimalArith
  import opened DecimalFormat
  import opened DecimalString

  datatype Parsed = Valid(d: Decimal128) | Malformed

  const NAN: Decimal128 := Decimal128(0x1F * TWO_58, 0)
  const POSITIVE_INFINITY: Decimal128 := Decimal128(0x1E * TWO_58, 0)
  const NEGATIVE_INFINITY: Decimal128 := Decimal128(0x3E * TWO_58, 0)

  // The significands that the parser may put into the normal encoding.
  const TWO_113: int := 0x2_0000_0000_0000_0000_0000_0000_0000

  const MIN_EXPONENT := -6176
  const MAX_EXPONENT := 6111

  // Where the scan of digits stands: the number kept, the zeros dropped, the digits counted
  // from the first that is not zero, the position after the point, and the next position.
  datatype Scan = At(v: nat, e: nat, digits: nat, dot: int, i: nat) | Failed

  const MAX_DIGITS := 34

  function Start(): Scan {
    At(0, 0, 0, -1, 0)
  }

  function CountDigit(c: char, digits: nat): nat {
    if c > '0' || digits > 0 then digits + 1 else digits
  }

  function ScanFrom(s: string, st: Scan): Scan
    requires st.At? ==> st.i <= |s|
    decreases if st.At? then |s| - st.i + 1 else 0
  {
    if st.Failed? || st.i == |s| then st else
      var c := s[st.i];
      if IsDigit(c) then
        var digits := CountDigit(c, st.digits);
        if digits > MAX_DIGITS then
          // Zeros past the precision only raise the exponent.
          if c == '0' then ScanFrom(s, st.(e := st.e + 1, digits := digits, i := st.i + 1)) else Failed
        else ScanFrom(s, st.(v := 10 * st.v + DigitValue(c), digits := digits, i := st.i + 1))
      else if c == '.' then
        var i := st.i + 1;
        if st.dot >= 0 || (i == 1 && |s| == 1) then Failed
        else if i == |s| then st.(i := i)
        else if !IsDigit(s[i]) || st.e > 0 then Failed
        else ScanFrom(s, st.(dot := i, i := i))
      else st
  }

  // Reads exponent digits until the end or until the number has five; none if one is no digit.
  datatype Exponent = Exponent(n: nat, i: nat) | BadExponent

  function ExponentFrom(s: string, n: nat, i: nat): Exponent
    requires i <= |s|
    decreases |s| - i
  {
    if i == |s| || n >= 10000 then Exponent(n, i)
    else if !IsDigit(s[i]) then BadExponent
    else ExponentFrom(s, 10 * n + DigitValue(s[i]), i + 1)
  }

  // The bits of sign, exponent and significand do not overlap while the number is below
  // 2^113, so the source's bit operations are sums.
  function Pack(neg: bool, v: nat, e: int): Decimal128
    requires v < TWO_113
  {
    PackFits(v, e);
    Decimal128(v / B2 + (e + 6176) % 0x4000 * TWO_49 + (if neg then TWO_63 else 0), v % B2)
  }

  lemma PackFits(v: nat, e: int)
    requires v < TWO_113
    ensures 0 <= v / B2 + (e + 6176) % 0x4000 * TWO_49 < TWO_63
  {
  }

  lemma Room()
    ensures Pow10(34) <= TWO_113 < Pow10(35) && TWO_113 == TWO_49 * B2
  {
    assert Pow10(12) == 1_000_000_000_000;
    assert Pow10(24) == 1_000_000_000_000_000_000_000_000;
    assert Pow10(34) == 10_000_000_000_000_000_000_000_000_000_000_000;
  }

  // A number with its exponent brought into range.
  datatype Scaled = Scaled(v: nat, e: int) | OutOfRange

  function Min(a: nat, b: nat): nat {
    if a < b then a else b
  }

  // Raises the number by k powers of ten, up to nine at a time, modulo 2^128; only the low
  // 128 bits of each product are held against 2^113.
  function Clamped(v: nat, k: nat): Scaled
    decreases k
  {
    if k == 0 then Scaled(v, MAX_EXPONENT)
    else
      var w := v * Pow10(Min(k, 9)) % B4;
      if w >= TWO_113 then OutOfRange else Clamped(w, k - Min(k, 9))
  }

  function Rescale(v: nat, e: int): Scaled {
    if e < MIN_EXPONENT then
      var k := MIN_EXPONENT - e;
      if v % Pow10(k) != 0 then OutOfRange else Scaled(v / Pow10(k), MIN_EXPONENT)
    else if e > MAX_EXPONENT then Clamped(v, e - MAX_EXPONENT)
    else Scaled(v, e)
  }

  lemma {:induction false} RescaleFits(v: nat, e: int)
    requires v < TWO_113
    ensures var r := Rescale(v, e); r.Scaled? ==> r.v < TWO_113 && MIN_EXPONENT <= r.e <= MAX_EXPONENT
  {
    if e > MAX_EXPONENT {
      ClampedFits(v, e - MAX_EXPONENT);
    } else if e < MIN_EXPONENT {
      Shrinks(v, Pow10(MIN_EXPONENT - e));
    }
  }

  lemma Shrinks(v: nat, p: nat)
    requires p > 0
    ensures 0 <= v / p <= v
  {
    assert v == p * (v / p) + v % p;
    if v / p > v {
      MulGrows(1, p, v / p);
    }
  }

  lemma {:induction false} ClampedFits(v: nat, k: nat)
    requires v < TWO_113
    ensures Clamped(v, k).Scaled? ==> Clamped(v, k).v < TWO_113 && Clamped(v, k).e == MAX_EXPONENT
    decreases k
  {
    if k > 0 {
      var w := v * Pow10(Min(k, 9)) % B4;
      if w < TWO_113 {
        ClampedFits(w, k - Min(k, 9));
      }
    }
  }

  function Finish(s: string, neg: bool, v: nat, e: int, i: nat): Parsed
    requires v < TWO_113
  {
    if i < |s| then Malformed else Valid(Pack(neg, v, e))
  }

  // The part after the digits.
  function ParseTail(s: string, neg: bool, st: Scan): Parsed
    requires st.At? && st.i <= |s| && st.v < Pow10(34)
  {
    Room();
    var e := if st.dot >= 0 then st.e + st.dot - st.i else st.e;
    if st.i + 1 < |s| && (s[st.i] == 'E' || s[st.i] == 'e') then
      var j := st.i + 1;
      var eneg := s[j] == '-';
      var k := if eneg || s[j] == '+' then j + 1 else j;
      if k > j && k == |s| then Malformed
      else match ExponentFrom(s, 0, k)
        case BadExponent => Malformed
        case Exponent(n, i) =>
          var e': int := if eneg then e - n else e + n;
          RescaleFits(st.v, e');
          match Rescale(st.v, e')
          case OutOfRange => Malformed
          case Scaled(v, e'') => Finish(s, neg, v, e'', i)
    else Finish(s, neg, st.v, e, st.i)
  }

  function Lower(c: char): char {
    if 'A' <= c <= 'Z' then c + 32 as char else c
  }

  // Equality of texts up to the case of their letters.
  predicate EqualFold(s: string, t: string) {
    |s| == |t| && forall k :: 0 <= k < |s| ==> Lower(s[k]) == Lower(t[k])
  }

  function ParseNamed(s: string, neg: bool): Parsed {
    if EqualFold(s, "nan") then Valid(NAN)
    else if EqualFold(s, "inf") || EqualFold(s, "infinity") then
      Valid(if neg then NEGATIVE_INFINITY else POSITIVE_INFINITY)
    else Malformed
  }

  predicate NamedStart(s: string) {
    (|s| == 3 || |s| == 8) && (s[0] == 'N' || s[0] == 'n' || s[0] == 'I' || s[0] == 'i')
  }

  function ParseUnsigned(s: string, neg: bool): Parsed {
    if NamedStart(s) then ParseNamed(s, neg) else
      ScanBounds(s, Start());
      var st := ScanFrom(s, Start());
      if st.Failed? || st.i == 0 then Malformed else ParseTail(s, neg, st)
  }

  function Parse(s: string): Parsed {
    if s == "" then Malformed
    else if s[0] == '-' then ParseUnsigned(s[1..], true)
    else if s[0] == '+' then ParseUnsigned(s[1..], false)
    else ParseUnsigned(s, false)
  }

  // The digits counted are those of the number kept, up to the precision.
  ghost predicate Counted(st: Scan) {
    st.At? ==> Sig(st.v) == if st.digits > MAX_DIGITS then MAX_DIGITS else st.digits
  }

  lemma {:induction false} PowSig(v: nat)
    ensures v < Pow10(Sig(v))
  {
    if v > 0 {
      PowSig(v / 10);
    }
  }

  lemma {:induction false} PowGrows(m: nat, n: nat)
    requires m <= n
    ensures Pow10(m) <= Pow10(n)
  {
    if m < n {
      PowGrows(m, n - 1);
    }
  }

  lemma CountedSmall(st: Scan)
    requires Counted(st) && st.At?
    ensures st.v < Pow10(34)
  {
    PowSig(st.v);
    PowGrows(Sig(st.v), 34);
  }

  lemma CountedDigit(st: Scan, c: char)
    requires Counted(st) && st.At? && IsDigit(c) && CountDigit(c, st.digits) <= MAX_DIGITS
    ensures Counted(st.(v := 10 * st.v + DigitValue(c), digits := CountDigit(c, st.digits)))
  {
    assert (10 * st.v + DigitValue(c)) / 10 == st.v;
  }

  // However long the text, the number kept stays within the precision and 128 bits.
  lemma {:induction false} ScanCounted(s: string, st: Scan)
    requires st.At? ==> st.i <= |s|
    requires Counted(st)
    ensures Counted(ScanFrom(s, st)) && (ScanFrom(s, st).At? ==> st.At? && st.i <= ScanFrom(s, st).i <= |s|)
    decreases if st.At? then |s| - st.i + 1 else 0
  {
    hide Sig;
    if st.At? && st.i < |s| {
      var c := s[st.i];
      if IsDigit(c) {
        var digits := CountDigit(c, st.digits);
        if digits > MAX_DIGITS {
          ScanCounted(s, st.(e := st.e + 1, digits := digits, i := st.i + 1));
        } else {
          CountedDigit(st, c);
          ScanCounted(s, st.(v := 10 * st.v + DigitValue(c), digits := digits, i := st.i + 1));
        }
      } else if c == '.' && st.i + 1 < |s| {
        ScanCounted(s, st.(dot := st.i + 1, i := st.i + 1));
      }
    }
  }

  lemma ScanBounds(s: string, st: Scan)
    requires (st.At? ==> st.i <= |s|) && Counted(st)
    ensures var r := ScanFrom(s, st); r.At? ==> r.i <= |s| && r.v < Pow10(34)
  {
    ScanCounted(s, st);
    if ScanFrom(s, st).At? {
      CountedSmall(ScanFrom(s, st));
    }
  }

  // ---- The parser

  // The limbs and the pending factor hold the number kept: (h:l) * mul + add.
  ghost predicate Limbs(v: nat, h: int, l: int, mul: int, add: int) {
    && h >= 0 && l >= 0 && (h * B2 + l) * mul + add == v
    && 0 <= add < mul && mul in {1, 10, 100, 1000, 10000, 100000, 1000000, 10000000, 100000000, 1000000000}
  }

  lemma LimbsDigit(v: nat, h: int, l: int, mul: int, add: int, d: nat)
    requires Limbs(v, h, l, mul, add) && mul != 1000000000 && d < 10
    ensures Limbs(10 * v + d, h, l, 10 * mul, 10 * add + d) && 10 * mul <= 1000000000
  {
    assert (h * B2 + l) * (10 * mul) == 10 * ((h * B2 + l) * mul);
  }

  // A flush is exact, and leaves the upper bits of h free.
  lemma LimbsFlushed(v: nat, h: int, l: int)
    requires h >= 0 && 0 <= l < B2 && h * B2 + l == v && v < Pow10(34)
    ensures Limbs(v, h, l, 1, 0) && h < TWO_49 && h == v / B2 && l == v % B2
  {
    Room();
  }

  lemma FitsLimbs(v: nat)
    requires v < Pow10(34)
    ensures v < B4
  {
    Room();
  }

  method ParseDecimal128(text: string) returns (r: Parsed)
    ensures r == Parse(text)
  {
    hide ScanFrom, Limbs, Counted, Pow10, ParseTail;
    if text == "" {
      return Malformed;
    }
    var s := text;
    var neg := s[0] == '-';
    if neg || s[0] == '+' {
      s := s[1..];
    }
    if (|s| == 3 || |s| == 8) && (s[0] == 'N' || s[0] == 'n' || s[0] == 'I' || s[0] == 'i') {
      return ParseNamed(s, neg);
    }
    ScanBounds(s, Start()) by { StartCounted(); }
    var h, l, e, dot, i, ok, v := ScanDigits(s);
    if !ok || i == 0 {
      return Malformed;
    }
    ghost var digits :| ScanFrom(s, Start()) == At(v, e, digits, dot, i);
    r := ParseRest(s, neg, h, l, e, dot, i, At(v, e, digits, dot, i));
  }

  // The digits of the exponent, no further than needed to see that it is too large.
  method ScanExponent(s: string, start: nat) returns (n: nat, i: nat, ok: bool)
    requires start <= |s|
    ensures ExponentFrom(s, 0, start) == if ok then Exponent(n, i) else BadExponent
    ensures i <= |s|
  {
    n, i := 0, start;
    while i < |s| && n < 10000
      invariant i <= |s| && ExponentFrom(s, 0, start) == ExponentFrom(s, n, i)
      decreases |s| - i
    {
      var c := s[i];
      i := i + 1;
      if c < '0' || c > '9' {
        return n, i, false;
      }
      n := 10 * n + DigitValue(c);
    }
    ok := true;
  }

  // The exponent and the assembly of the bits.
  method ParseRest(s: string, neg: bool, h: U64, l: U64, e0: int, dot: int, i0: nat, ghost st: Scan) returns (r: Parsed)
    requires st.At? && st.e == e0 && st.dot == dot && st.i == i0 <= |s| && st.v < Pow10(34)
    requires h == st.v / B2 && l == st.v % B2
    ensures r == ParseTail(s, neg, st)
  {
    hide Pow10, Rescale, ExponentFrom;
    Room();
    var e, i := e0, i0;
    var h': U64, l': U64 := h, l;
    if dot >= 0 {
      e := e + (dot - i);
    }
    if i + 1 < |s| && (s[i] == 'E' || s[i] == 'e') {
      i := i + 1;
      var eneg := s[i] == '-';
      if eneg || s[i] == '+' {
        i := i + 1;
        if i == |s| {
          return Malformed;
        }
      }
      var n: int, digitsOk;
      n, i, digitsOk := ScanExponent(s, i);
      if !digitsOk {
        return Malformed;
      }
      if eneg {
        n := -n;
      }
      e := e + n;
      RescaleFits(st.v, e);
      var ok;
      h', l', e, ok := BringIntoRange(h, l, e);
      if !ok {
        return Malformed;
      }
    }
    if i < |s| {
      return Malformed;
    }
    PackFits(h' * B2 + l', e);
    r := Valid(Decimal128(h' + (e + 6176) % 0x4000 * TWO_49 + (if neg then TWO_63 else 0), l'));
  }

  lemma Pow10Sum(m: nat, n: nat)
    ensures Pow10(m + n) == Pow10(m) * Pow10(n)
  {
    if m > 0 {
      Pow10Sum(m - 1, n);
      assert 10 * Pow10(m - 1) * Pow10(n) == 10 * (Pow10(m - 1) * Pow10(n));
    }
  }

  // Dividing by a power of ten in two steps.
  lemma DivideTwice(v: nat, m: nat, k: nat)
    requires m <= k
    ensures v % Pow10(k) == 0 <==> v % Pow10(m) == 0 && v / Pow10(m) % Pow10(k - m) == 0
    ensures v % Pow10(k) == 0 ==> v / Pow10(k) == v / Pow10(m) / Pow10(k - m)
  {
    Pow10Sum(m, k - m);
    DivideProduct(v, Pow10(m), Pow10(k - m));
  }

  lemma DivideProduct(v: nat, p: nat, q: nat)
    requires p > 0 && q > 0
    ensures p * q > 0
    ensures v % (p * q) == 0 <==> v % p == 0 && v / p % q == 0
    ensures v % (p * q) == 0 ==> v / (p * q) == v / p / q
  {
    MulGrows(1, p, q);
    var a, r := v / p, v % p;
    var b, t := a / q, a % q;
    var rest := p * t + r;
    QuotientRest(v, p, q, a, r, b, t);
    MulGrows(t, q - 1, p);
    assert p * (q - 1) == p * q - p;
    QuotientIs(v, p * q, b, rest);
    if t > 0 {
      MulGrows(1, t, p);
    }
  }

  lemma QuotientRest(v: int, p: int, q: int, a: int, r: int, b: int, t: int)
    requires v == p * a + r && a == q * b + t
    ensures v == p * q * b + (p * t + r)
  {
    assert p * (q * b + t) == p * q * b + p * t;
  }

  lemma QuotientIs(v: int, m: int, q: int, r: int)
    requires v == m * q + r && 0 <= r < m
    ensures v / m == q && v % m == r
  {
    var d := v / m - q;
    assert v == m * (v / m) + v % m;
    assert m * d == r - v % m;
    if d >= 1 {
      MulGrows(1, d, m);
    } else if d <= -1 {
      MulGrows(d, -1, m);
    }
  }

  // The subnormal and the clamping loop.
  method BringIntoRange(h0: U64, l0: U64, e0: int) returns (h: U64, l: U64, e: int, ok: bool)
    requires h0 * B2 + l0 < TWO_113
    ensures Rescale(h0 * B2 + l0, e0) == if ok then Scaled(h * B2 + l, e) else OutOfRange
  {
    hide Pow10, Clamped;
    h, l, e := h0, l0, e0;
    if e < MIN_EXPONENT {
      h, l, ok := Descale(h, l, MIN_EXPONENT - e);
      e := MIN_EXPONENT;
      if !ok {
        return;
      }
    }
    ok := true;
    if e > MAX_EXPONENT {
      h, l, ok := Clamp(h, l, e - MAX_EXPONENT);
      e := MAX_EXPONENT;
    }
  }

  // A power of ten of at most nine zeros, built up by the inner loops.
  method SmallPower(k: nat) returns (p: U32, m: nat)
    ensures m == Min(k, 9) && p == Pow10(m) > 0
  {
    p, m := 1, 0;
    while p < 1000000000 && m < k
      invariant m <= Min(k, 9) && p == Pow10(m)
      decreases k - m
    {
      PowerBelow(m);
      p := p * 10;
      m := m + 1;
    }
    PowerBelow(m);
  }

  lemma PowerBelow(m: nat)
    requires m <= 9
    ensures Pow10(m) < 1000000000 <==> m < 9
    ensures Pow10(m) <= 1000000000 && Pow10(m + 1) == 10 * Pow10(m)
    ensures m < 9 ==> Pow10(m + 1) <= 1000000000
  {
    assert Pow10(9) == 1000000000;
    PowGrows(m, 9);
    if m < 9 {
      PowGrows(m + 1, 9);
    }
  }

  // Takes k zeros off the number, if it has them.
  method Descale(h0: U64, l0: U64, k0: nat) returns (h: U64, l: U64, ok: bool)
    ensures ok <==> (h0 * B2 + l0) % Pow10(k0) == 0
    ensures ok ==> h * B2 + l == (h0 * B2 + l0) / Pow10(k0)
  {
    hide Pow10;
    h, l := h0, l0;
    ghost var v := h0 * B2 + l0;
    var k := k0;
    while k > 0
      invariant v % Pow10(k0) == 0 <==> (h * B2 + l) % Pow10(k) == 0
      invariant v % Pow10(k0) == 0 ==> v / Pow10(k0) == (h * B2 + l) / Pow10(k)
    {
      var div, m := SmallPower(k);
      DivideTwice(h * B2 + l, m, k);
      var rem;
      ghost var w := h * B2 + l;
      h, l, rem := DivMod(h, l, div);
      QuotientIs(w, div, h * B2 + l, rem);
      if rem > 0 {
        return h, l, false;
      }
      k := k - m;
    }
    PowerOfNone();
    ok := true;
  }

  lemma PowerOfNone()
    ensures Pow10(0) == 1
  {
  }

  // Puts k zeros behind the number. The source's overflow flag is never set here.
  method Clamp(h0: U64, l0: U64, k0: nat) returns (h: U64, l: U64, ok: bool)
    requires h0 * B2 + l0 < TWO_113
    ensures Clamped(h0 * B2 + l0, k0) == if ok then Scaled(h * B2 + l, MAX_EXPONENT) else OutOfRange
  {
    hide Pow10, Clamped;
    h, l := h0, l0;
    var k := k0;
    while k > 0
      invariant h * B2 + l < TWO_113 && Clamped(h0 * B2 + l0, k0) == Clamped(h * B2 + l, k)
    {
      var mul, m := SmallPower(k);
      ClampedStep(h * B2 + l, k);
      var ovr;
      h, l, ovr := MulAdd(h, l, mul, 0);
      if ovr > 0 || h / TWO_49 > 0 {
        return h, l, false;
      }
      k := k - m;
    }
    ClampedNone(h * B2 + l);
    ok := true;
  }

  lemma ClampedStep(v: nat, k: nat)
    requires k > 0
    ensures var w := v * Pow10(Min(k, 9)) % B4;
      Clamped(v, k) == if w >= TWO_113 then OutOfRange else Clamped(w, k - Min(k, 9))
  {
  }

  lemma ClampedNone(v: nat)
    ensures Clamped(v, 0) == Scaled(v, MAX_EXPONENT)
  {
  }

  lemma StartCounted()
    ensures Counted(Start())
  {
  }

  lemma LimbsStart()
    ensures Limbs(0, 0, 0, 1, 0)
  {
  }

  // One turn of the digit loop.
  lemma ScanStep(s: string, st: Scan)
    requires st.At? && st.i < |s|
    ensures IsDigit(s[st.i]) && CountDigit(s[st.i], st.digits) > MAX_DIGITS ==>
      ScanFrom(s, st) ==
        if s[st.i] == '0' then ScanFrom(s, At(st.v, st.e + 1, CountDigit('0', st.digits), st.dot, st.i + 1)) else Failed
    ensures IsDigit(s[st.i]) && CountDigit(s[st.i], st.digits) <= MAX_DIGITS ==>
      ScanFrom(s, st) == ScanFrom(s,
        At(10 * st.v + DigitValue(s[st.i]), st.e, CountDigit(s[st.i], st.digits), st.dot, st.i + 1))
    ensures s[st.i] == '.' && (st.dot >= 0 || |s| == 1) ==> ScanFrom(s, st) == Failed
    ensures s[st.i] == '.' && st.dot < 0 && |s| != 1 && st.i + 1 == |s| ==> ScanFrom(s, st) == st.(i := st.i + 1)
    ensures s[st.i] == '.' && st.dot < 0 && st.i + 1 < |s| ==>
      ScanFrom(s, st) ==
        if !IsDigit(s[st.i + 1]) || st.e > 0 then Failed else ScanFrom(s, st.(dot := st.i + 1, i := st.i + 1))
    ensures !IsDigit(s[st.i]) && s[st.i] != '.' ==> ScanFrom(s, st) == st
  {
  }

  lemma CountedZero(st: Scan, digits: nat, e: nat, i: nat)
    requires Counted(st) && st.At? && digits == CountDigit('0', st.digits) > MAX_DIGITS
    ensures Counted(st.(e := e, digits := digits, i := i))
  {
  }

  lemma CountedMove(st: Scan, dot: int, i: nat)
    requires Counted(st) && st.At?
    ensures Counted(st.(dot := dot, i := i))
  {
  }

  // Folds the pending digits into the limbs. The source's overflow branch is never taken.
  method Flush(h: U64, l: U64, mul: U32, add: U32, ghost v: nat) returns (h': U64, l': U64)
    requires Limbs(v, h, l, mul, add) && v < Pow10(34)
    ensures Limbs(v, h', l', 1, 0) && h' == v / B2 && l' == v % B2
  {
    FitsLimbs(v);
    hide Pow10;
    var ovr;
    h', l', ovr := MulAdd(h, l, mul, add);
    LimbsFlushed(v, h', l');
    if ovr > 0 || h' / TWO_49 > 0 {
      assert false;
    }
  }

  // The digit loop and the flush after it.
  method ScanDigits(s: string) returns (h: U64, l: U64, e: nat, dot: int, i: nat, ok: bool, ghost v: nat)
    ensures !ok <==> ScanFrom(s, Start()).Failed?
    ensures ok ==> exists digits :: ScanFrom(s, Start()) == At(v, e, digits, dot, i)
    ensures ok ==> i <= |s| && v < Pow10(34) && h == v / B2 && l == v % B2
  {
    hide ScanFrom, Limbs, Counted, Pow10, CountDigit;
    h, l, e, dot, i, v := 0, 0, 0, -1, 0, 0;
    var add: U32, mul: U32, digits: nat := 0, 1, 0;
    StartCounted();
    LimbsStart();
    while i < |s|
      invariant 0 <= i <= |s|
      invariant ScanFrom(s, Start()) == ScanFrom(s, At(v, e, digits, dot, i)) && Counted(At(v, e, digits, dot, i))
      invariant Limbs(v, h, l, mul, add)
      decreases |s| - i
    {
      var c := s[i];
      ghost var st := At(v, e, digits, dot, i);
      ScanStep(s, st);
      CountedSmall(st);
      if mul == 1000000000 {
        h, l := Flush(h, l, mul, add, v);
        mul, add := 1, 0;
      }
      if '0' <= c <= '9' {
        i := i + 1;
        digits := CountDigit(c, digits);
        if digits > 34 {
          if c == '0' {
            e := e + 1;
            CountedZero(st, digits, e, i);
            continue;
          }
          ok := false;
          return;
        }
        LimbsDigit(v, h, l, mul, add, DigitValue(c));
        CountedDigit(st, c);
        CountedMove(st.(v := 10 * v + DigitValue(c), digits := digits), dot, i);
        mul, add := mul * 10, add * 10 + DigitValue(c);
        v := 10 * v + DigitValue(c);
        continue;
      }
      if c == '.' {
        i := i + 1;
        CountedMove(st, dot, i);
        if dot >= 0 || (i == 1 && |s| == 1) {
          ok := false;
          return;
        }
        if i == |s| {
          break;
        }
        if s[i] < '0' || s[i] > '9' || e > 0 {
          ok := false;
          return;
        }
        CountedMove(st, i, i);
        dot := i;
        continue;
      }
      break;
    }
    if i == |s| {
      ScanEnd(s, At(v, e, digits, dot, i));
    }
    CountedSmall(At(v, e, digits, dot, i));
    if mul > 1 {
      h, l := Flush(h, l, mul, add, v);
    } else {
      FlushedAlready(v, h, l, mul, add);
    }
    ok := true;
  }

  lemma FlushedAlready(v: nat, h: int, l: int, mul: int, add: int)
    requires Limbs(v, h, l, mul, add) && mul <= 1 && 0 <= l < B2
    ensures h == v / B2 && l == v % B2
  {
  }

  lemma ScanEnd(s: string, st: Scan)
    requires st.At? && st.i == |s|
    ensures ScanFrom(s, st) == st
  {
  }
}

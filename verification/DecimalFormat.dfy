/** Decimal digits, and the string form of a decimal128 value in closed form. */
module DecimalFormat {

  function DigitChar(n: nat): char
    requires n < 10
  {
    '0' + n as char
  }

  predicate IsDigit(c: char) {
    '0' <= c <= '9'
  }

  function DigitValue(c: char): (n: nat)
    requires IsDigit(c)
    ensures n < 10
  {
    (c - '0') as int
  }

  // The number without its last k digits.
  function Shift(x: nat, k: nat): nat {
    if k == 0 then x else Shift(x, k - 1) / 10
  }

  // The last k digits.
  function LowDigits(x: nat, k: nat): (s: string)
    ensures |s| == k
  {
    if k == 0 then "" else [DigitChar(Shift(x, k - 1) % 10)] + LowDigits(x, k - 1)
  }

  // The number of digits, none for zero.
  function Sig(x: nat): nat {
    if x == 0 then 0 else 1 + Sig(x / 10)
  }

  // The number of digits written for the number on its own.
  function Width(x: nat): (n: nat)
    ensures n >= 1
  {
    if x == 0 then 1 else Sig(x)
  }

  // strconv.Itoa.
  function Itoa(e: int): string {
    if e < 0 then "-" + LowDigits(-e, Width(-e)) else LowDigits(e, Width(e))
  }

  function ExponentSuffix(e: int): string {
    if e > 0 then "E+" + Itoa(e) else if e < 0 then "E" + Itoa(e) else ""
  }

  // Whether the value takes the scientific form.
  predicate Scientific(x: nat, e: int) {
    e > 0 || e + Width(x) - 1 < -6
  }

  // The digits written in the plain form, with leading zeros up to one before the point.
  function PlainWidth(x: nat, e: int): (n: nat)
    requires e <= 0
    ensures n >= Width(x) && n >= 1 - e
  {
    if Width(x) >= 1 - e then Width(x) else 1 - e
  }

  // The unsigned text of x times ten to the power e.
  function Magnitude(x: nat, e: int): string {
    var n := Width(x);
    if Scientific(x, e) then
      var ds := LowDigits(x, n);
      ds[..1] + (if n > 1 then "." + ds[1..] else "") + ExponentSuffix(e + n - 1)
    else if e == 0 then LowDigits(x, n)
    else
      var k := PlainWidth(x, e);
      var ds := LowDigits(x, k);
      ds[..k + e] + "." + ds[k + e..]
  }

  function Format(neg: bool, x: nat, e: int): string {
    (if neg then "-" else "") + Magnitude(x, e)
  }

  function Pow10(n: nat): (p: nat)
    ensures p >= 1
  {
    if n == 0 then 1 else 10 * Pow10(n - 1)
  }

  lemma {:induction false} ShiftBound(x: nat, n: nat, k: nat)
    requires x < Pow10(n) && k <= n
    ensures Shift(x, k) < Pow10(n - k)
  {
    if k > 0 {
      ShiftBound(x, n, k - 1);
    }
  }

  lemma {:induction false} ShiftSum(x: nat, j: nat, k: nat)
    ensures Shift(Shift(x, j), k) == Shift(x, j + k)
  {
    if k > 0 {
      ShiftSum(x, j, k - 1);
    }
  }

  lemma {:induction false} ShiftZero(x: nat, j: nat, k: nat)
    requires j <= k && Shift(x, j) == 0
    ensures Shift(x, k) == 0
  {
    if j < k {
      ShiftZero(x, j, k - 1);
    }
  }

  // Digits remain exactly below the number's own width.
  lemma {:induction false} SigShift(x: nat, k: nat)
    ensures Shift(x, k) == 0 <==> k >= Sig(x)
    ensures Sig(Shift(x, k)) == if k >= Sig(x) then 0 else Sig(x) - k
  {
    if k > 0 {
      SigShift(x, k - 1);
    }
  }

  lemma {:induction false} SigBound(x: nat, n: nat)
    requires x < Pow10(n)
    ensures Sig(x) <= n
  {
    ShiftBound(x, n, n);
    SigShift(x, n);
  }

  // The leading digit is the last one left.
  lemma LeadingDigit(x: nat, k: nat)
    requires k >= 1
    ensures 0 < Shift(x, k - 1) < 10 <==> k == Sig(x)
    ensures Shift(x, k) == 0 <==> k >= Width(x)
  {
    SigShift(x, k - 1);
    SigShift(x, k);
    assert Shift(x, k) == Shift(x, k - 1) / 10;
  }
}

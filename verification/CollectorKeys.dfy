/** The key under which a worker keeps the unfinished request of a client. */
module CollectorKeys {
  import opened Bytes
  import opened DecimalFormat

  const TWO_64: nat := 0x1_0000_0000_0000_0000
  const BUFFER: nat := 32

  // The decimal text of a 64 bit number, filled in from the end of a buffer.
  method Uitoa(val0: nat) returns (text: string)
    requires val0 < TWO_64
    ensures text == Itoa(val0)
  {
    hide Shift, LowDigits, Width, Sig;
    var buf := new char[BUFFER];
    var val, i := val0, BUFFER - 1;
    DigitsStart(val0);
    assert buf[BUFFER..] == "";
    while val >= 10
      invariant 0 <= i < BUFFER && val == Shift(val0, BUFFER - 1 - i) && (val > 0 || i == BUFFER - 1)
      invariant buf[i + 1..] == LowDigits(val0, BUFFER - 1 - i)
    {
      DigitsStep(val0, BUFFER - 1 - i);
      buf[i] := DigitChar(val % 10);
      assert buf[i..] == [buf[i]] + buf[i + 1..];
      i := i - 1;
      val := val / 10;
    }
    buf[i] := DigitChar(val);
    DigitsEnd(val0, BUFFER - 1 - i);
    assert buf[i..] == [buf[i]] + buf[i + 1..];
    text := buf[i..];
  }

  lemma DigitsStart(x: nat)
    ensures Shift(x, 0) == x && LowDigits(x, 0) == ""
  {
  }

  lemma DigitsStep(x: nat, k: nat)
    requires x < TWO_64 && Shift(x, k) >= 10
    ensures k < 20 && Shift(x, k + 1) == Shift(x, k) / 10
    ensures LowDigits(x, k + 1) == [DigitChar(Shift(x, k) % 10)] + LowDigits(x, k)
  {
    assert Pow10(4) == 10000;
    assert Pow10(8) == 10000 * Pow10(4);
    assert Pow10(12) == 10000 * Pow10(8);
    assert Pow10(16) == 10000 * Pow10(12);
    assert Pow10(20) == 10000 * Pow10(16);
    SigBound(x, 20);
    SigShift(x, k);
  }

  lemma DigitsEnd(x: nat, k: nat)
    requires Shift(x, k) < 10 && (Shift(x, k) > 0 || k == 0)
    ensures Itoa(x) == [DigitChar(Shift(x, k))] + LowDigits(x, k)
  {
    LeadingDigit(x, k + 1);
    DigitsStart(x);
  }

  function IpText(ip: bytes): string
    requires |ip| == 4
  {
    Itoa(ip[0] as int) + "." + (Itoa(ip[1] as int) + "." + (Itoa(ip[2] as int) + "." + Itoa(ip[3] as int)))
  }

  method IpToString(ip: bytes) returns (text: string)
    ensures text == if |ip| == 4 then IpText(ip) else if |ip| < 4 then "" else IpText(ip[..4])
  {
    if |ip| < 4 {
      return "";
    }
    var a := Uitoa(ip[0] as nat);
    var b := Uitoa(ip[1] as nat);
    var c := Uitoa(ip[2] as nat);
    var d := Uitoa(ip[3] as nat);
    text := a + "." + b + "." + c + "." + d;
    assert text == a + "." + (b + "." + (c + "." + d));
  }

  function Key(ip: bytes, port: nat): string
    requires |ip| == 4
  {
    IpText(ip) + ":" + Itoa(port)
  }

  // The text of a number is that of all digits but the last, and the last.
  lemma LastDigit(x: nat)
    ensures Itoa(x) == (if x < 10 then "" else Itoa(x / 10)) + [DigitChar(x % 10)]
  {
    var n := Sig(x);
    if x < 10 {
      assert Width(x) == 1 && LowDigits(x, 1) == [DigitChar(Shift(x, 0) % 10)] + LowDigits(x, 0);
    } else {
      assert Width(x) == n == 1 + Width(x / 10);
      LowDigitsLast(x, n - 1);
    }
  }

  lemma {:induction false} LowDigitsLast(x: nat, k: nat)
    ensures LowDigits(x, k + 1) == LowDigits(x / 10, k) + [DigitChar(x % 10)]
  {
    if k > 0 {
      LowDigitsLast(x, k - 1);
      assert Shift(x, 1) == x / 10;
      ShiftSum(x, 1, k - 1);
    } else {
      DigitsStart(x);
      assert LowDigits(x, 1) == [DigitChar(x % 10)] + LowDigits(x, 0);
    }
  }

  lemma LocalKey()
    ensures Key([192, 168, 0, 1], 3306) == "192.168.0.1:3306"
  {
    hide Itoa;
    ShortText(192);
    ShortText(168);
    ShortText(0);
    ShortText(1);
    ShortText(330);
    LastDigit(3306);
    assert Itoa(3306) == "3306";
  }

  lemma ShortText(x: nat)
    requires x < 1000
    ensures Itoa(x) ==
      if x < 10 then [DigitChar(x)] else if x < 100 then [DigitChar(x / 10), DigitChar(x % 10)]
      else [DigitChar(x / 100), DigitChar(x / 10 % 10), DigitChar(x % 10)]
  {
    hide Itoa;
    LastDigit(x);
    LastDigit(x / 10);
    LastDigit(x / 100);
  }

  predicate Without(s: string, c: char) {
    forall k :: 0 <= k < |s| ==> s[k] != c
  }

  lemma {:induction false} SameDigits(x: nat, y: nat, k: nat)
    requires LowDigits(x, k) == LowDigits(y, k) && Shift(x, k) == Shift(y, k)
    ensures x == y
  {
    if k == 0 {
      DigitsStart(x);
      DigitsStart(y);
    } else {
      var a, b := LowDigits(x, k), LowDigits(y, k);
      assert a[1..] == LowDigits(x, k - 1) && b[1..] == LowDigits(y, k - 1);
      assert a[0] == DigitChar(Shift(x, k - 1) % 10) && b[0] == DigitChar(Shift(y, k - 1) % 10);
      assert Shift(x, k - 1) == 10 * Shift(x, k) + Shift(x, k - 1) % 10;
      assert Shift(y, k - 1) == 10 * Shift(y, k) + Shift(y, k - 1) % 10;
      SameDigits(x, y, k - 1);
    }
  }

  lemma ItoaInjective(x: nat, y: nat)
    requires Itoa(x) == Itoa(y)
    ensures x == y
  {
    hide Shift, LowDigits, Width, Sig;
    var k := Width(x);
    assert |Itoa(x)| == k == Width(y);
    LeadingDigit(x, k);
    LeadingDigit(y, k);
    SameDigits(x, y, k);
  }

  lemma {:induction false} DigitsWithout(x: nat, k: nat, c: char)
    requires !IsDigit(c)
    ensures Without(LowDigits(x, k), c)
  {
    if k > 0 {
      DigitsWithout(x, k - 1, c);
    }
  }

  // A text is split in one way only at the first occurrence of a character.
  lemma SplitUnique(a: string, b: string, c: char, r: string, s: string)
    requires Without(a, c) && Without(b, c) && a + [c] + r == b + [c] + s
    ensures a == b && r == s
  {
    var t := a + [c] + r;
    assert t == b + [c] + s;
    assert t[|a|] == c && t[|b|] == c;
    assert forall k :: 0 <= k < |a| ==> t[k] == a[k];
    assert forall k :: 0 <= k < |b| ==> t[k] == b[k];
    assert t[..|a|] == a && t[..|b|] == b && t[|a| + 1..] == r && t[|b| + 1..] == s;
  }

  lemma ItoaWithout(x: nat, c: char)
    requires !IsDigit(c)
    ensures Without(Itoa(x), c)
  {
    DigitsWithout(x, Width(x), c);
  }

  lemma IpTextInjective(p: bytes, q: bytes)
    requires |p| == 4 && |q| == 4 && IpText(p) == IpText(q)
    ensures p == q
  {
    hide Itoa;
    for n := 0 to 4
      invariant forall k :: 0 <= k < n ==> Without(Itoa(p[k] as int), '.') && Without(Itoa(q[k] as int), '.')
    {
      ItoaWithout(p[n] as nat, '.');
      ItoaWithout(q[n] as nat, '.');
    }
    var p3, q3 := Itoa(p[3] as int), Itoa(q[3] as int);
    var p2, q2 := Itoa(p[2] as int) + "." + p3, Itoa(q[2] as int) + "." + q3;
    var p1, q1 := Itoa(p[1] as int) + "." + p2, Itoa(q[1] as int) + "." + q2;
    SplitUnique(Itoa(p[0] as int), Itoa(q[0] as int), '.', p1, q1);
    SplitUnique(Itoa(p[1] as int), Itoa(q[1] as int), '.', p2, q2);
    SplitUnique(Itoa(p[2] as int), Itoa(q[2] as int), '.', p3, q3);
    ItoaInjective(p[0] as nat, q[0] as nat);
    ItoaInjective(p[1] as nat, q[1] as nat);
    ItoaInjective(p[2] as nat, q[2] as nat);
    ItoaInjective(p[3] as nat, q[3] as nat);
  }

  lemma IpTextWithout(p: bytes)
    requires |p| == 4
    ensures Without(IpText(p), ':')
  {
    hide Itoa;
    ItoaWithout(p[0] as nat, ':');
    ItoaWithout(p[1] as nat, ':');
    ItoaWithout(p[2] as nat, ':');
    ItoaWithout(p[3] as nat, ':');
  }

  // Different clients never share a key.
  lemma KeyInjective(p: bytes, port: nat, q: bytes, port': nat)
    requires |p| == 4 && |q| == 4 && Key(p, port) == Key(q, port')
    ensures p == q && port == port'
  {
    hide Itoa, IpText;
    IpTextWithout(p);
    IpTextWithout(q);
    SplitUnique(IpText(p), IpText(q), ':', Itoa(port), Itoa(port'));
    IpTextInjective(p, q);
    ItoaInjective(port, port');
  }
}

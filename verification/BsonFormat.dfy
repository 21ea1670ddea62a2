/** The bytes of BSON (bsonspec.org), spelled out: what is written, and what is accepted. */
module BsonFormat {
  import opened Bytes
  import opened BsonValue
  import opened BsonRoundTrip
  import DecimalFormat
  import DecimalGrammar
  import BsonSkip

  // Four and eight bytes of a two's complement number, least first.
  function Bytes4(x: int): (s: bytes)
    ensures |s| == 4
  {
    [(x % 256) as byte, (x / 256 % 256) as byte, (x / 65536 % 256) as byte, (x / 16777216 % 256) as byte]
  }

  function Bytes8(x: int): (s: bytes)
    ensures |s| == 8
  {
    Bytes4(x) + Bytes4(x / 0x1_0000_0000)
  }

  predicate Int32s(x: int) {
    -0x8000_0000 <= x < 0x8000_0000
  }

  predicate Int64s(x: int) {
    -0x8000_0000_0000_0000 <= x < 0x8000_0000_0000_0000
  }

  // A text with its length before it and a zero behind.
  predicate IsText(s: bytes, text: bytes) {
    |text| < 0x8000_0000 && s == Bytes4(|text| + 1) + text + [0]
  }

  // Plain data: the generic subtype, or the old one with its length doubled unless that is at
  // most four.
  predicate IsData(s: bytes, data: bytes) {
    || (|data| < 0x8000_0000 && s == Bytes4(|data|) + [0x00] + data)
    || (0 < |data| < 0x7FFF_FFFC && s == Bytes4(|data| + 4) + [0x02] + Bytes4(|data|) + data)
    || (|data| <= 4 && s == Bytes4(|data|) + [0x02] + data)
  }

  // The bytes s are a value of the type with this code, and mean v.
  ghost predicate Means(code: byte, s: bytes, v: Value)
    decreases v, 1
  {
    match v
    case Float(bits) => code == 0x01 && Int64s(bits) && s == Bytes8(bits)
    case Str(text) => code == 0x02 && IsText(s, text)
    case Document(elems) => code == 0x03 && MeansDocument(s, elems)
    case Array(vals) =>
      && code == 0x04 && 5 <= |s| < 0x8000_0000 && s[..4] == Bytes4(|s|) && s[|s| - 1] == 0
      && MeansVals(s[4..|s| - 1], vals)
    case Slice(data) => code == 0x05 && IsData(s, data)
    case Binary(kind, data) =>
      code == 0x05 && kind != 0x00 && kind != 0x02 && |data| < 0x8000_0000 && s == Bytes4(|data|) + [kind] + data
    case Undefined => code == 0x06 && s == []
    case ObjectId(id) => code == 0x07 && |id| == 12 && s == id
    case Bool(b) => code == 0x08 && s == [if b then 0x01 else 0x00]
    case Date(ms) => code == 0x09 && Int64s(ms) && s == Bytes8(ms)
    case Null => code == 0x0A && s == []
    case RegEx(pattern, options) =>
      code == 0x0B && NoZero(pattern) && NoZero(options) && s == pattern + [0] + options + [0]
    case DBPointer(ns, id) =>
      code == 0x0C && |id| == 12 && |s| >= 12 && IsText(s[..|s| - 12], ns) && s[|s| - 12..] == id
    case Code(text) => code == 0x0D && IsText(s, text)
    case Symbol(text) => code == 0x0E && IsText(s, text)
    case CodeWithScope(text, scope) =>
      var n := |text| + 9;
      && code == 0x0F && n <= |s| < 0x8000_0000 && s[..4] == Bytes4(|s|) && IsText(s[4..n], text)
      && MeansDocument(s[n..], scope)
    case Int32(n) => code == 0x10 && Int32s(n) && s == Bytes4(n)
    case Timestamp(t) => code == 0x11 && Int64s(t) && s == Bytes8(t)
    case Int64(n) => code == 0x12 && Int64s(n) && s == Bytes8(n)
    case Decimal(l, h) => code == 0x13 && Int64s(l) && Int64s(h) && s == Bytes8(l) + Bytes8(h)
    case MinKey => code == 0xFF && s == []
    case MaxKey => code == 0x7F && s == []
  }

  // The length of the whole, the elements, and a zero.
  ghost predicate MeansDocument(s: bytes, elems: seq<Elem>)
    decreases elems, 1
  {
    && 5 <= |s| < 0x8000_0000 && s[..4] == Bytes4(|s|) && s[|s| - 1] == 0
    && MeansElems(s[4..|s| - 1], elems)
  }

  // Elements one behind the other: the code, the name, a zero and the value.
  ghost predicate MeansElems(s: bytes, elems: seq<Elem>)
    decreases elems, 0
  {
    if elems == [] then s == []
    else exists n: nat :: n <= |s| && MeansElem(s[..n], elems[0].name, elems[0].value) && MeansElems(s[n..], elems[1..])
  }

  ghost predicate MeansElem(s: bytes, name: bytes, v: Value)
    decreases v, 2
  {
    var k := |name| + 2;
    NoZero(name) && k <= |s| && s[0] != 0 && s[1..k - 1] == name && s[k - 1] == 0 && Means(s[0], s[k..], v)
  }

  // The elements of an array, whose names are not looked at.
  ghost predicate MeansVals(s: bytes, vals: seq<Value>)
    decreases vals, 0
  {
    if vals == [] then s == []
    else exists n: nat, name :: n <= |s| && MeansElem(s[..n], name, vals[0]) && MeansVals(s[n..], vals[1..])
  }

  // ---- Numbers

  lemma EncIsBytes(x: int)
    ensures EncInt32(x) == Bytes4(x) && EncInt64(x) == Bytes8(x)
  {
    FourBytes(x);
    EightBytes(x);
  }

  lemma FourBytes(x: int)
    ensures LittleEndian(x, 4) == Bytes4(x)
  {
    FourMore(x, 0);
    assert LittleEndian(x / 0x1_0000_0000, 0) == [];
  }

  lemma FourMore(x: int, n: nat)
    ensures LittleEndian(x, n + 4) == Bytes4(x) + LittleEndian(x / 0x1_0000_0000, n)
  {
    hide LittleEndian;
    OneMore(x, n + 3);
    OneMore(x / 256, n + 2);
    OneMore(x / 65536, n + 1);
    OneMore(x / 16777216, n);
    Quarters(x);
  }

  lemma OneMore(x: int, n: nat)
    ensures LittleEndian(x, n + 1) == [(x % 256) as byte] + LittleEndian(x / 256, n)
  {
  }

  lemma Quarters(x: int)
    ensures x / 256 / 256 == x / 65536 && x / 65536 / 256 == x / 16777216 && x / 16777216 / 256 == x / 0x1_0000_0000
  {
  }

  lemma EightBytes(x: int)
    ensures LittleEndian(x, 8) == Bytes8(x)
  {
    FourMore(x, 4);
    FourBytes(x / 0x1_0000_0000);
  }

  lemma Int32Exactly(b: bytes, i: nat, x: int)
    ensures ReadInt32(b, i) == Ok(x, i + 4) <==> i + 4 <= |b| && Int32s(x) && b[i..i + 4] == Bytes4(x)
  {
    if i + 4 <= |b| {
      FourUnsigned(b, i);
      UnsignedBound(b, i, 4);
      var r := ReadInt32(b, i).value;
      BytesOfFour(b, i);
      assert Bytes4(r) == b[i..i + 4];
      if Int32s(x) && b[i..i + 4] == Bytes4(x) {
        EncIsBytes(x);
        Int32Back(b, i, x);
      }
    }
  }

  lemma BytesOfFour(b: bytes, i: nat)
    requires i + 4 <= |b|
    ensures var u := Unsigned(b, i, 4);
      Bytes4(u) == b[i..i + 4] && Bytes4(u - 0x1_0000_0000) == b[i..i + 4]
  {
    FourUnsigned(b, i);
    var u: int := Unsigned(b, i, 4);
    LowByte(u, b[i] as int, b[i + 1] as int, b[i + 2] as int, b[i + 3] as int);
    LowByte(u - 0x1_0000_0000, b[i] as int, b[i + 1] as int, b[i + 2] as int, b[i + 3] as int - 256);
  }

  lemma LowByte(u: int, a: int, b: int, c: int, d: int)
    requires u == a + 256 * b + 65536 * c + 16777216 * d && 0 <= a < 256 && 0 <= b < 256 && 0 <= c < 256
    ensures u % 256 == a && u / 256 % 256 == b && u / 65536 % 256 == c && u / 16777216 % 256 == d % 256
  {
    assert u / 256 == b + 256 * c + 65536 * d;
    assert u / 65536 == c + 256 * d;
    assert u / 16777216 == d;
  }

  lemma EightFromFours(b: bytes, i: nat)
    requires i + 8 <= |b|
    ensures Unsigned(b, i, 8) == Unsigned(b, i, 4) + 0x1_0000_0000 * Unsigned(b, i + 4, 4)
    ensures Unsigned(b, i, 4) < 0x1_0000_0000 && Unsigned(b, i + 4, 4) < 0x1_0000_0000
  {
    UnsignedBound(b, i, 4);
    UnsignedBound(b, i + 4, 4);
    FourUnsigned(b, i);
    assert Unsigned(b, i + 2, 6) == b[i + 2] as int + 256 * (b[i + 3] as int) + 65536 * Unsigned(b, i + 4, 4);
    assert Unsigned(b, i, 8) == b[i] as int + 256 * (b[i + 1] as int) + 65536 * Unsigned(b, i + 2, 6);
  }

  lemma Int64Exactly(b: bytes, i: nat, x: int)
    ensures ReadInt64(b, i) == Ok(x, i + 8) <==> i + 8 <= |b| && Int64s(x) && b[i..i + 8] == Bytes8(x)
  {
    if i + 8 <= |b| {
      hide Unsigned, LittleEndian;
      EightFromFours(b, i);
      var r := ReadInt64(b, i).value;
      BytesOfEight(b, i, r);
      if Int64s(x) && b[i..i + 8] == Bytes8(x) {
        EncIsBytes(x);
        Int64Back(b, i, x);
      }
    }
  }

  lemma BytesOfEight(b: bytes, i: nat, r: int)
    requires i + 8 <= |b| && ReadInt64(b, i) == Ok(r, i + 8)
    ensures Int64s(r) && Bytes8(r) == b[i..i + 8]
  {
    hide Unsigned, Bytes4;
    EightFromFours(b, i);
    BytesOfFour(b, i);
    BytesOfFour(b, i + 4);
    var low: int, high: int := Unsigned(b, i, 4), Unsigned(b, i + 4, 4);
    var h := if r < 0 then high - 0x1_0000_0000 else high;
    assert r == low + 0x1_0000_0000 * h;
    assert r / 0x1_0000_0000 == h;
    LowFour(low, h);
    assert b[i..i + 8] == b[i..i + 4] + b[i + 4..i + 8];
  }

  // The low four bytes do not see what lies above.
  lemma LowFour(low: int, h: int)
    ensures Bytes4(low + 0x1_0000_0000 * h) == Bytes4(low)
  {
    var x := low + 0x1_0000_0000 * h;
    Multiple(low, 0x100_0000 * h);
    AddAbove(low, 256, 0x100_0000 * h);
    Multiple(low / 256, 0x1_0000 * h);
    AddAbove(low, 65536, 0x1_0000 * h);
    Multiple(low / 65536, 256 * h);
    AddAbove(low, 16777216, 256 * h);
    Multiple(low / 16777216, h);
  }

  lemma Multiple(a: int, q: int)
    ensures (a + 256 * q) % 256 == a % 256
  {
  }

  lemma AddAbove(a: int, m: int, q: int)
    requires m > 0
    ensures (a + m * q) / m == a / m + q
  {
    assert a == m * (a / m) + a % m;
    Quotient(a + m * q, m, a / m + q, a % m);
  }

  lemma Quotient(v: int, m: int, q: int, r: int)
    requires 0 <= r < m && v == m * q + r
    ensures v / m == q
  {
    var d := v / m - q;
    assert v == m * (v / m) + v % m;
    assert m * d == r - v % m;
    Outgrows(m, d);
  }

  lemma Outgrows(m: int, d: int)
    requires m > 0
    ensures d >= 1 ==> m * d >= m
    ensures d <= -1 ==> m * d <= -m
  {
  }

  // ---- Texts and binaries

  // Three parts of a text of bytes and where they lie.
  lemma Parts(s: bytes, a: bytes, t: bytes, c: bytes)
    ensures s == a + t + c <==>
      |s| == |a| + |t| + |c| && s[..|a|] == a && s[|a|..|a| + |t|] == t && s[|a| + |t|..] == c
  {
    if |s| == |a| + |t| + |c| && s[..|a|] == a && s[|a|..|a| + |t|] == t && s[|a| + |t|..] == c {
      assert s == s[..|a|] + s[|a|..|a| + |t|] + s[|a| + |t|..];
    }
  }

  lemma Within(b: bytes, i: nat, j: nat, m: nat, n: nat)
    requires i <= j <= |b| && m <= n <= j - i
    ensures b[i..j][m..n] == b[i + m..i + n]
  {
    forall k | 0 <= k < n - m ensures b[i..j][m..n][k] == b[i + m..i + n][k] {
    }
  }

  lemma TextExactly(b: bytes, i: nat, text: bytes, j: nat)
    requires i <= j <= |b|
    ensures ReadStr(b, i) == Ok(text, j) <==> IsText(b[i..j], text)
  {
    hide Bytes4, ReadInt32;
    var s, r := b[i..j], ReadInt32(b, i);
    Parts(s, Bytes4(|text| + 1), text, [0]);
    LongestText();
    Int32Exactly(b, i, |text| + 1);
    Int32Exactly(b, i, -0x8000_0000);
    if r.Ok? {
      Int32Exactly(b, i, r.value);
    }
    if |s| == |text| + 5 {
      Within(b, i, j, 0, 4);
      Within(b, i, j, 4, 4 + |text|);
      assert s[4 + |text|..] == [b[j - 1]];
    }
  }

  lemma LongestText()
    ensures Bytes4(0x8000_0000) == Bytes4(-0x8000_0000)
  {
  }

  // A length, a subtype and data, by their places.
  lemma PlainAt(b: bytes, i: nat, j: nat, kind: byte, data: bytes)
    requires i <= j <= |b|
    ensures b[i..j] == Bytes4(|data|) + [kind] + data <==>
      j == i + 5 + |data| && b[i..i + 4] == Bytes4(|data|) && b[i + 4] == kind && b[i + 5..j] == data
  {
    hide Bytes4;
    Parts(b[i..j], Bytes4(|data|), [kind], data);
    if j == i + 5 + |data| {
      Within(b, i, j, 0, 4);
      Within(b, i, j, 4, 5);
      assert b[i + 4..i + 5] == [b[i + 4]];
      Within(b, i, j, 5, j - i);
      assert b[i..j][5..] == b[i..j][5..j - i];
    }
  }

  lemma DoubledAt(b: bytes, i: nat, j: nat, data: bytes)
    requires i <= j <= |b|
    ensures b[i..j] == Bytes4(|data| + 4) + [0x02] + Bytes4(|data|) + data <==>
      j == i + 9 + |data| && b[i..i + 4] == Bytes4(|data| + 4) && b[i + 4] == 0x02 &&
      b[i + 5..i + 9] == Bytes4(|data|) && b[i + 9..j] == data
  {
    hide Bytes4;
    var head := Bytes4(|data| + 4) + [0x02];
    Parts(b[i..j], head, Bytes4(|data|), data);
    if j == i + 9 + |data| {
      Within(b, i, j, 0, 5);
      Within(b, i, j, 5, 9);
      Within(b, i, j, 9, j - i);
      assert b[i..j][9..] == b[i..j][9..j - i];
      assert b[i..i + 5] == b[i..i + 4] + [b[i + 4]];
      assert head[..4] == Bytes4(|data| + 4) && head[4] == 0x02;
    }
  }

  lemma LengthRead(b: bytes, i: nat, n: int)
    requires i + 4 <= |b|
    ensures var r := ReadInt32(b, i);
      && r.Ok? && r.i == i + 4 && Int32s(r.value) && Bytes4(r.value) == b[i..i + 4]
      && (b[i..i + 4] == Bytes4(n) && Int32s(n) ==> r.value == n)
  {
    Int32Exactly(b, i, ReadInt32(b, i).value);
    Int32Exactly(b, i, n);
  }

  // The two forms of a binary by their length and subtype.
  lemma BinaryForms(b: bytes, i: nat)
    ensures i + 5 > |b| ==> ReadBinary(b, i) == Panic
    ensures i + 5 <= |b| ==>
      ReadInt32(b, i).Ok? &&
      var l, kind := ReadInt32(b, i).value, b[i + 4];
      ReadBinary(b, i) ==
        if kind == 0x02 && l > 4 then
          if i + 9 > |b| || ReadInt32(b, i + 5) != Ok(l - 4, i + 9) || i + 5 + l > |b| then Panic
          else Ok(Slice(b[i + 9..i + 5 + l]), i + 5 + l)
        else if l < 0 || i + 5 + l > |b| then Panic
        else if kind == 0x00 || kind == 0x02 then Ok(Slice(b[i + 5..i + 5 + l]), i + 5 + l)
        else Ok(Binary(kind, b[i + 5..i + 5 + l]), i + 5 + l)
  {
    hide Unsigned, Signed;
  }

  lemma BinaryExactly(b: bytes, i: nat, v: Value, j: nat)
    requires i <= j <= |b|
    ensures ReadBinary(b, i) == Ok(v, j) <==> (v.Slice? || v.Binary?) && Means(0x05, b[i..j], v)
  {
    hide Bytes4, ReadInt32, ReadBinary;
    BinaryForms(b, i);
    if i + 4 <= |b| {
      LengthRead(b, i, 0);
    }
    if v.Slice? {
      SliceExactly(b, i, v.data, j);
    } else if v.Binary? {
      PlainAt(b, i, j, v.kind, v.data);
      if i + 4 <= |b| {
        LengthRead(b, i, |v.data|);
      }
    }
  }

  lemma SliceExactly(b: bytes, i: nat, data: bytes, j: nat)
    requires i <= j <= |b|
    ensures ReadBinary(b, i) == Ok(Slice(data), j) <==> IsData(b[i..j], data)
  {
    hide Bytes4, ReadInt32, ReadBinary;
    BinaryForms(b, i);
    PlainAt(b, i, j, 0x00, data);
    PlainAt(b, i, j, 0x02, data);
    DoubledAt(b, i, j, data);
    if i + 4 <= |b| {
      LengthRead(b, i, |data|);
      LengthRead(b, i, |data| + 4);
    }
    if i + 9 <= |b| {
      LengthRead(b, i + 5, |data|);
    }
  }

  // ---- Values, elements and documents

  lemma NameExactly(b: bytes, i: nat, name: bytes, j: nat)
    requires i <= j <= |b|
    ensures ReadCStr(b, i) == Ok(name, j) <==>
      j == i + |name| + 1 && NoZero(name) && b[i..j - 1] == name && b[j - 1] == 0
  {
    ZeroFree(b, i);
    var k := FindZero(b, i);
    if j == i + |name| + 1 && NoZero(name) && b[i..j - 1] == name && b[j - 1] == 0 {
      FirstZero(b, i, j - 1);
    }
  }

  lemma {:induction false} ZeroFree(b: bytes, i: nat)
    requires i <= |b|
    ensures NoZero(b[i..FindZero(b, i)])
    decreases |b| - i
  {
    if i < |b| && b[i] != 0 {
      ZeroFree(b, i + 1);
      var k := FindZero(b, i);
      assert b[i..k] == [b[i]] + b[i + 1..k];
    }
  }

  lemma {:induction false} FirstZero(b: bytes, i: nat, k: nat)
    requires i <= k < |b| && NoZero(b[i..k]) && b[k] == 0
    ensures FindZero(b, i) == k
    decreases k - i
  {
    if i < k {
      assert b[i..k][0] == b[i];
      assert b[i + 1..k] == b[i..k][1..];
      FirstZero(b, i + 1, k);
    }
  }

  lemma TwoNamesAt(b: bytes, i: nat, j: nat, p: bytes, o: bytes)
    requires i <= j <= |b|
    ensures b[i..j] == p + [0] + o + [0] <==>
      j == i + |p| + |o| + 2 && b[i..i + |p|] == p && b[i + |p|] == 0 && b[i + |p| + 1..j - 1] == o && b[j - 1] == 0
  {
    var m, s := |p| + 1, b[i..j];
    Parts(s, p + [0], o, [0]);
    if j == i + |p| + |o| + 2 {
      Within(b, i, j, 0, m);
      Within(b, i, j, m, m + |o|);
      assert s[m + |o|..] == [b[j - 1]];
      assert b[i..i + m] == b[i..i + |p|] + [b[i + |p|]];
      assert (p + [0])[..|p|] == p && (p + [0])[|p|] == 0;
    }
  }

  lemma RegExExactly(b: bytes, i: nat, pattern: bytes, options: bytes, j: nat)
    requires i <= j <= |b|
    ensures ReadValue(0x0B, b, i) == Ok(RegEx(pattern, options), j) <==> Means(0x0B, b[i..j], RegEx(pattern, options))
  {
    var k := i + |pattern| + 1;
    TwoNamesAt(b, i, j, pattern, options);
    RegExRead(b, i);
    hide ReadCStr, ReadValue;
    if k <= j {
      NameExactly(b, i, pattern, k);
      NameExactly(b, k, options, j);
    }
    var p := ReadCStr(b, i);
    if p.Ok? && p.value == pattern {
      NameExactly(b, i, p.value, p.i);
      if ReadCStr(b, p.i).Ok? {
        NameExactly(b, p.i, ReadCStr(b, p.i).value, ReadCStr(b, p.i).i);
      }
    }
  }

  lemma RegExRead(b: bytes, i: nat)
    ensures ReadValue(0x0B, b, i) ==
      var p := ReadCStr(b, i);
      if p.Panic? then Panic else
        var o := ReadCStr(b, p.i);
        if o.Panic? then Panic else Ok(RegEx(p.value, o.value), o.i)
  {
    hide ReadCStr;
  }

  predicate Wide(code: byte) {
    code == 0x01 || code == 0x09 || code == 0x11 || code == 0x12
  }

  lemma WideExactly(code: byte, b: bytes, i: nat, v: Value, j: nat)
    requires i <= j <= |b| && Wide(code)
    ensures ReadValue(code, b, i) == Ok(v, j) <==> Means(code, b[i..j], v)
  {
    hide ReadInt64, Bytes8, MeansDocument, MeansVals, IsText, IsData, ReadDoc, ReadArray;
    var r := ReadInt64(b, i);
    if r.Ok? {
      WideEnd(b, i);
      Int64Exactly(b, i, r.value);
    }
    match v {
      case Float(x) => Int64Exactly(b, i, x);
      case Date(x) => Int64Exactly(b, i, x);
      case Timestamp(x) => Int64Exactly(b, i, x);
      case Int64(x) => Int64Exactly(b, i, x);
      case _ =>
    }
  }

  lemma WideEnd(b: bytes, i: nat)
    requires ReadInt64(b, i).Ok?
    ensures ReadInt64(b, i).i == i + 8 <= |b|
  {
  }

  lemma NarrowExactly(code: byte, b: bytes, i: nat, v: Value, j: nat)
    requires i <= j <= |b| && (code == 0x08 || code == 0x10)
    ensures ReadValue(code, b, i) == Ok(v, j) <==> Means(code, b[i..j], v)
  {
    hide ReadInt32, Bytes4, MeansDocument, MeansVals, IsText, IsData, ReadDoc, ReadArray;
    var r := ReadInt32(b, i);
    if r.Ok? {
      Int32Exactly(b, i, r.value);
    }
    match v {
      case Int32(x) => Int32Exactly(b, i, x);
      case Bool(x) => assert j == i + 1 ==> b[i..j] == [b[i]];
      case _ =>
    }
  }

  lemma DecimalExactly(b: bytes, i: nat, v: Value, j: nat)
    requires i <= j <= |b|
    ensures ReadValue(0x13, b, i) == Ok(v, j) <==> Means(0x13, b[i..j], v)
  {
    hide ReadInt64, Bytes8, MeansDocument, MeansVals, IsText, IsData, ReadDoc, ReadArray;
    var l := ReadInt64(b, i);
    if l.Ok? {
      WideEnd(b, i);
      Int64Exactly(b, i, l.value);
      if ReadInt64(b, i + 8).Ok? {
        WideEnd(b, i + 8);
        Int64Exactly(b, i + 8, ReadInt64(b, i + 8).value);
      }
    }
    if v.Decimal? {
      Int64Exactly(b, i, v.l);
      Int64Exactly(b, i + 8, v.h);
      if j == i + 16 {
        Parts(b[i..j], Bytes8(v.l), Bytes8(v.h), []);
        assert Bytes8(v.l) + Bytes8(v.h) + [] == Bytes8(v.l) + Bytes8(v.h);
        Within(b, i, j, 0, 8);
        Within(b, i, j, 8, 16);
      }
    }
  }

  predicate Fixed(code: byte) {
    code == 0x06 || code == 0x07 || code == 0x0A || code == 0x7F || code == 0xFF
  }

  lemma FixedExactly(code: byte, b: bytes, i: nat, v: Value, j: nat)
    requires i <= j <= |b| && Fixed(code)
    ensures ReadValue(code, b, i) == Ok(v, j) <==> Means(code, b[i..j], v)
  {
    hide Bytes4, Bytes8, MeansDocument, MeansVals, IsText, IsData, ReadDoc, ReadArray;
    assert j == i <==> b[i..j] == [];
  }

  predicate Textual(code: byte) {
    code == 0x02 || code == 0x0D || code == 0x0E
  }

  lemma TextualExactly(code: byte, b: bytes, i: nat, v: Value, j: nat)
    requires i <= j <= |b| && Textual(code)
    ensures ReadValue(code, b, i) == Ok(v, j) <==> Means(code, b[i..j], v)
  {
    hide Bytes4, Bytes8, MeansDocument, MeansVals, IsText, IsData, ReadDoc, ReadArray, ReadStr;
    match v {
      case Str(text) => TextExactly(b, i, text, j);
      case Code(text) => TextExactly(b, i, text, j);
      case Symbol(text) => TextExactly(b, i, text, j);
      case _ =>
    }
  }

  lemma PointerExactly(b: bytes, i: nat, v: Value, j: nat)
    requires i <= j <= |b|
    ensures ReadValue(0x0C, b, i) == Ok(v, j) <==> Means(0x0C, b[i..j], v)
  {
    hide Bytes4, Bytes8, MeansDocument, MeansVals, IsText, IsData, ReadDoc, ReadArray, ReadStr;
    if v.DBPointer? && i + 12 <= j {
      TextExactly(b, i, v.ns, j - 12);
      Within(b, i, j, 0, j - 12 - i);
      Within(b, i, j, j - 12 - i, j - i);
      assert b[i..j][j - 12 - i..] == b[i..j][j - 12 - i..j - i];
    }
  }

  // The frame around a document or an array.
  predicate IsFrame(s: bytes) {
    5 <= |s| < 0x8000_0000 && s[..4] == Bytes4(|s|) && s[|s| - 1] == 0
  }

  lemma FrameExactly(b: bytes, i: nat, j: nat)
    requires i <= j <= |b|
    ensures FrameEnd(b, i) == Ok((), j) <==> IsFrame(b[i..j])
    ensures IsFrame(b[i..j]) ==> b[i..j][4..j - i - 1] == b[i + 4..j - 1] && b[j - 1] == 0
  {
    hide Bytes4, ReadInt32;
    if i + 4 <= |b| {
      LengthRead(b, i, j - i);
    }
    if j >= i + 5 {
      Within(b, i, j, 0, 4);
      Within(b, i, j, 4, j - i - 1);
    }
  }

  // One element, at the place where the loops read it.
  lemma {:induction false} ElemExactly(b: bytes, i: nat, name: bytes, v: Value, j: nat)
    requires i <= j <= |b|
    ensures MeansElem(b[i..j], name, v) <==>
      i + |name| + 2 <= j && b[i] != 0 && ReadCStr(b, i + 1) == Ok(name, i + |name| + 2) &&
      ReadValue(b[i], b, i + |name| + 2) == Ok(v, j)
    decreases |b| - i, 4
  {
    hide Means, ReadValue, ReadCStr;
    var k := |name| + 2;
    if i + k <= j {
      NameExactly(b, i + 1, name, i + k);
      Within(b, i, j, 1, k - 1);
      Within(b, i, j, k, j - i);
      assert b[i..j][k..] == b[i..j][k..j - i];
      ValueExactly(b[i], b, i + k, v, j);
    }
  }

  // One turn of the document loop that reads an element.
  lemma ElemsTurn(b: bytes, i: nat, end: nat)
    requires i < end <= |b| && b[i] != 0
    ensures ReadElems(b, i, end) ==
      var name := ReadCStr(b, i + 1);
      if name.Panic? || name.i >= end then Panic else
        var v := ReadValue(b[i], b, name.i);
        if v.Panic? || v.i >= end then Panic else
          var rest := ReadElems(b, v.i, end);
          if rest.Panic? then Panic else Ok([Elem(name.value, v.value)] + rest.value, rest.i)
  {
    hide ReadValue, ReadCStr;
  }

  lemma {:induction false} ElemsForth(b: bytes, i: nat, end: nat, elems: seq<Elem>)
    requires i + 1 < end <= |b| && b[end - 1] == 0 && b[i] != 0 && ReadElems(b, i, end) == Ok(elems, end)
    ensures MeansElems(b[i..end - 1], elems)
    decreases |b| - i, 5
  {
    hide MeansElem, MeansElems, ReadValue, ReadCStr, ReadElems;
    ElemsTurn(b, i, end);
    var s, name := b[i..end - 1], ReadCStr(b, i + 1);
    NameExactly(b, i + 1, name.value, name.i);
    var v := ReadValue(b[i], b, name.i);
    ElemExactly(b, i, name.value, v.value, v.i);
    ElemsExactly(b, v.i, end, elems[1..]);
    Cut(b, i, end - 1, v.i - i);
    ElemFirst(s, elems, v.i - i);
  }

  lemma {:induction false} ElemsBack(b: bytes, i: nat, end: nat, elems: seq<Elem>)
    requires i + 1 < end <= |b| && b[end - 1] == 0 && b[i] != 0 && MeansElems(b[i..end - 1], elems)
    ensures ReadElems(b, i, end) == Ok(elems, end)
    decreases |b| - i, 5
  {
    hide MeansElem, MeansElems, ReadValue, ReadCStr, ReadElems;
    ElemsTurn(b, i, end);
    var n := FirstElem(b[i..end - 1], elems);
    Cut(b, i, end - 1, n);
    ElemExactly(b, i, elems[0].name, elems[0].value, i + n);
    ElemsExactly(b, i + n, end, elems[1..]);
    assert [elems[0]] + elems[1..] == elems;
  }

  lemma FirstElem(s: bytes, elems: seq<Elem>) returns (n: nat)
    requires s != [] && MeansElems(s, elems)
    ensures elems != [] && n <= |s| && MeansElem(s[..n], elems[0].name, elems[0].value) &&
      MeansElems(s[n..], elems[1..])
  {
    hide MeansElem;
    n :| n <= |s| && MeansElem(s[..n], elems[0].name, elems[0].value) && MeansElems(s[n..], elems[1..]);
  }

  lemma ElemFirst(s: bytes, elems: seq<Elem>, n: nat)
    requires elems != [] && n <= |s|
    requires MeansElem(s[..n], elems[0].name, elems[0].value) && MeansElems(s[n..], elems[1..])
    ensures MeansElems(s, elems)
  {
    hide MeansElem;
  }

  lemma FirstVal(s: bytes, vals: seq<Value>) returns (n: nat, name: bytes)
    requires s != [] && MeansVals(s, vals)
    ensures vals != [] && n <= |s| && MeansElem(s[..n], name, vals[0]) && MeansVals(s[n..], vals[1..])
  {
    hide MeansElem;
    n, name :| n <= |s| && MeansElem(s[..n], name, vals[0]) && MeansVals(s[n..], vals[1..]);
  }

  lemma ValFirst(s: bytes, vals: seq<Value>, n: nat, name: bytes)
    requires vals != [] && n <= |s| && MeansElem(s[..n], name, vals[0]) && MeansVals(s[n..], vals[1..])
    ensures MeansVals(s, vals)
  {
    hide MeansElem;
  }

  lemma Cut(b: bytes, i: nat, j: nat, n: nat)
    requires i <= j <= |b| && n <= j - i
    ensures b[i..j][..n] == b[i..i + n] && b[i..j][n..] == b[i + n..j]
  {
  }

  lemma {:induction false} ElemsExactly(b: bytes, i: nat, end: nat, elems: seq<Elem>)
    requires i < end <= |b| && b[end - 1] == 0
    ensures ReadElems(b, i, end) == Ok(elems, end) <==> MeansElems(b[i..end - 1], elems)
    decreases |b| - i, 6
  {
    if i + 1 == end {
      assert b[i..end - 1] == [];
      NoElems(elems);
    } else if b[i] == 0 {
      assert b[i..end - 1][0] == 0;
      ZeroFirst(b[i..end - 1], elems);
    } else {
      if ReadElems(b, i, end) == Ok(elems, end) {
        ElemsForth(b, i, end, elems);
      }
      if MeansElems(b[i..end - 1], elems) {
        ElemsBack(b, i, end, elems);
      }
    }
  }

  lemma NoElems(elems: seq<Elem>)
    ensures MeansElems([], elems) <==> elems == []
  {
    hide Means;
  }

  lemma ZeroFirst(s: bytes, elems: seq<Elem>)
    requires s != [] && s[0] == 0
    ensures !MeansElems(s, elems)
  {
    hide Means;
  }

  lemma NoVals(vals: seq<Value>)
    ensures MeansVals([], vals) <==> vals == []
  {
    hide Means;
  }

  lemma ZeroFirstVals(s: bytes, vals: seq<Value>)
    requires s != [] && s[0] == 0
    ensures !MeansVals(s, vals)
  {
    hide Means;
  }

  // One turn of the array loop that reads an element.
  lemma ValsTurn(b: bytes, i: nat, end: nat)
    requires i < end <= |b| && b[i] != 0
    ensures ReadVals(b, i, end) ==
      var k := FindZero(b, i + 1);
      if k >= end then Panic else
        var v := ReadValue(b[i], b, k + 1);
        if v.Panic? || v.i >= end then Panic else
          var rest := ReadVals(b, v.i, end);
          if rest.Panic? then Panic else Ok([v.value] + rest.value, rest.i)
  {
    hide ReadValue;
  }

  lemma {:induction false} ValsForth(b: bytes, i: nat, end: nat, vals: seq<Value>)
    requires i + 1 < end <= |b| && b[end - 1] == 0 && b[i] != 0 && ReadVals(b, i, end) == Ok(vals, end)
    ensures MeansVals(b[i..end - 1], vals)
    decreases |b| - i, 5
  {
    hide MeansElem, MeansVals, ReadValue, ReadVals;
    ValsTurn(b, i, end);
    var s, k := b[i..end - 1], FindZero(b, i + 1);
    var name := b[i + 1..k];
    NameExactly(b, i + 1, name, k + 1);
    var v := ReadValue(b[i], b, k + 1);
    ElemExactly(b, i, name, v.value, v.i);
    ValsExactly(b, v.i, end, vals[1..]);
    Cut(b, i, end - 1, v.i - i);
    ValFirst(s, vals, v.i - i, name);
  }

  lemma {:induction false} ValsBack(b: bytes, i: nat, end: nat, vals: seq<Value>)
    requires i + 1 < end <= |b| && b[end - 1] == 0 && b[i] != 0 && MeansVals(b[i..end - 1], vals)
    ensures ReadVals(b, i, end) == Ok(vals, end)
    decreases |b| - i, 5
  {
    hide MeansElem, MeansVals, ReadValue, ReadVals;
    ValsTurn(b, i, end);
    var n, name := FirstVal(b[i..end - 1], vals);
    Cut(b, i, end - 1, n);
    ElemExactly(b, i, name, vals[0], i + n);
    ValsExactly(b, i + n, end, vals[1..]);
    assert [vals[0]] + vals[1..] == vals;
  }

  lemma {:induction false} ValsExactly(b: bytes, i: nat, end: nat, vals: seq<Value>)
    requires i < end <= |b| && b[end - 1] == 0
    ensures ReadVals(b, i, end) == Ok(vals, end) <==> MeansVals(b[i..end - 1], vals)
    decreases |b| - i, 6
  {
    if i + 1 == end {
      assert b[i..end - 1] == [];
      NoVals(vals);
    } else if b[i] == 0 {
      assert b[i..end - 1][0] == 0;
      ZeroFirstVals(b[i..end - 1], vals);
    } else {
      if ReadVals(b, i, end) == Ok(vals, end) {
        ValsForth(b, i, end, vals);
      }
      if MeansVals(b[i..end - 1], vals) {
        ValsBack(b, i, end, vals);
      }
    }
  }

  lemma {:induction false} DocumentExactly(b: bytes, i: nat, elems: seq<Elem>, j: nat)
    requires i <= j <= |b|
    ensures ReadDoc(b, i) == Ok(elems, j) <==> MeansDocument(b[i..j], elems)
    decreases |b| - i, 1
  {
    hide ReadElems, ReadDoc, MeansElems, MeansDocument, FrameEnd, IsFrame;
    FrameExactly(b, i, j);
    if FrameEnd(b, i) == Ok((), j) {
      ElemsExactly(b, i + 4, j, elems);
    }
    DocRead(b, i);
    DocumentIs(b[i..j], elems);
  }

  lemma {:induction false} ArrayExactly(b: bytes, i: nat, vals: seq<Value>, j: nat)
    requires i <= j <= |b|
    ensures ReadArray(b, i) == Ok(vals, j) <==> Means(0x04, b[i..j], Array(vals))
    decreases |b| - i, 1
  {
    hide ReadVals, ReadArray, MeansVals, Means, FrameEnd, IsFrame;
    FrameExactly(b, i, j);
    if FrameEnd(b, i) == Ok((), j) {
      ValsExactly(b, i + 4, j, vals);
    }
    ArrayRead(b, i);
    ArrayIs(b[i..j], vals);
  }

  lemma DocRead(b: bytes, i: nat)
    ensures var end := FrameEnd(b, i);
      if end.Panic? then ReadDoc(b, i) == Panic
      else
        && end == Ok((), end.i) && ReadDoc(b, i) == ReadElems(b, i + 4, end.i)
        && (ReadDoc(b, i).Ok? ==> ReadDoc(b, i).i == end.i)
  {
    hide ReadElems;
  }

  lemma ArrayRead(b: bytes, i: nat)
    ensures var end := FrameEnd(b, i);
      if end.Panic? then ReadArray(b, i) == Panic
      else
        && end == Ok((), end.i) && ReadArray(b, i) == ReadVals(b, i + 4, end.i)
        && (ReadArray(b, i).Ok? ==> ReadArray(b, i).i == end.i)
  {
    hide ReadVals;
  }

  lemma DocumentIs(s: bytes, elems: seq<Elem>)
    ensures MeansDocument(s, elems) <==> IsFrame(s) && MeansElems(s[4..|s| - 1], elems)
  {
    hide MeansElems, Bytes4;
  }

  lemma ArrayIs(s: bytes, vals: seq<Value>)
    ensures Means(0x04, s, Array(vals)) <==> IsFrame(s) && MeansVals(s[4..|s| - 1], vals)
  {
    hide MeansVals, Bytes4;
  }

  lemma {:induction false} ScopedExactly(b: bytes, i: nat, text: bytes, scope: seq<Elem>, j: nat)
    requires i <= j <= |b|
    ensures ReadScoped(b, i) == Ok(CodeWithScope(text, scope), j) <==> Means(0x0F, b[i..j], CodeWithScope(text, scope))
    decreases |b| - i, 1
  {
    hide ReadDoc, MeansDocument, ReadStr, IsText, Bytes4, ReadInt32;
    var n := |text| + 9;
    if i + 4 <= |b| {
      LengthRead(b, i, j - i);
      var code := ReadStr(b, i + 4);
      if code.Ok? {
        TextExactly(b, i + 4, code.value, code.i);
        TextLength(b[i + 4..code.i], code.value);
      }
    }
    if i + n <= j {
      TextExactly(b, i + 4, text, i + n);
      DocumentExactly(b, i + n, scope, j);
      Within(b, i, j, 0, 4);
      Within(b, i, j, 4, n);
      Within(b, i, j, n, j - i);
      assert b[i..j][n..] == b[i..j][n..j - i];
    }
  }

  lemma TextLength(s: bytes, text: bytes)
    requires IsText(s, text)
    ensures |s| == |text| + 5
  {
  }

  // Reading a value is exact: it succeeds with v and stops at j if and only if the bytes up to
  // there are a value of that type that means v.
  lemma {:induction false} ValueExactly(code: byte, b: bytes, i: nat, v: Value, j: nat)
    requires i <= j <= |b|
    ensures ReadValue(code, b, i) == Ok(v, j) <==> Means(code, b[i..j], v)
    decreases |b| - i, 3
  {
    if Wide(code) {
      WideExactly(code, b, i, v, j);
    } else if code == 0x08 || code == 0x10 {
      NarrowExactly(code, b, i, v, j);
    } else if Fixed(code) {
      FixedExactly(code, b, i, v, j);
    } else if Textual(code) {
      TextualExactly(code, b, i, v, j);
    } else if code == 0x0C {
      PointerExactly(b, i, v, j);
    } else if code == 0x13 {
      DecimalExactly(b, i, v, j);
    } else {
      NestedExactly(code, b, i, v, j);
    }
  }

  lemma {:induction false} NestedExactly(code: byte, b: bytes, i: nat, v: Value, j: nat)
    requires i <= j <= |b| && !Wide(code) && code != 0x08 && code != 0x10 && !Fixed(code) && !Textual(code)
    requires code != 0x0C && code != 0x13
    ensures ReadValue(code, b, i) == Ok(v, j) <==> Means(code, b[i..j], v)
    decreases |b| - i, 2, 1
  {
    BinaryExactly(b, i, v, j);
    RegExRead(b, i);
    hide ReadDoc, ReadArray, ReadScoped, ReadBinary, ReadCStr, MeansDocument, MeansVals, IsText, IsData, Bytes4, Bytes8;
    match v {
      case Document(elems) => DocumentExactly(b, i, elems, j);
      case Array(vals) => ArrayExactly(b, i, vals, j);
      case CodeWithScope(text, scope) => ScopedExactly(b, i, text, scope, j);
      case RegEx(pattern, options) => RegExExactly(b, i, pattern, options, j);
      case _ =>
    }
  }

  // ---- What is skipped

  // The bytes that are skipped for an element: as many as the type or the length says, two
  // texts for a regular expression, and a zero at the end of a string.
  predicate Spans(code: byte, s: bytes) {
    if code == 0x01 || code == 0x09 || code == 0x11 || code == 0x12 then |s| == 8
    else if code == 0x02 || code == 0x0D || code == 0x0E then
      5 <= |s| < 0x1_0000_0004 && s[..4] == Bytes4(|s| - 4) && s[|s| - 1] == 0
    else if code == 0x03 || code == 0x04 then 5 <= |s| < 0x1_0000_0000 && s[..4] == Bytes4(|s|)
    else if code == 0x05 then 5 <= |s| < 0x1_0000_0005 && s[..4] == Bytes4(|s| - 5)
    else if code == 0x06 || code == 0x0A || code == 0x7F || code == 0xFF then s == []
    else if code == 0x07 then |s| == 12
    else if code == 0x08 then |s| == 1
    else if code == 0x0B then exists n: nat :: n < |s| && IsName(s[..n]) && IsName(s[n..])
    else if code == 0x0C then 17 <= |s| < 0x1_0000_0010 && s[..4] == Bytes4(|s| - 16)
    else if code == 0x0F then 14 <= |s| < 0x1_0000_0000 && s[..4] == Bytes4(|s|)
    else if code == 0x10 then |s| == 4
    else if code == 0x13 then |s| == 16
    else false
  }

  // A text without zeros and a zero.
  predicate IsName(s: bytes) {
    s != [] && NoZero(s[..|s| - 1]) && s[|s| - 1] == 0
  }

  // Skipping is exact for every input, whether reading would succeed or not.
  lemma SkipExactly(code: byte, b: bytes, i: nat, j: nat)
    requires i <= j <= |b|
    ensures BsonSkip.DropElem(code, b, i) == Ok((), j) <==> Spans(code, b[i..j])
  {
    hide Bytes4, BsonSkip.GetSize, BsonSkip.AfterZero, IsName;
    var s := b[i..j];
    if j >= i + 4 {
      Within(b, i, j, 0, 4);
    }
    if code == 0x0B {
      SkipTwoNames(b, i, j);
    } else if i + 4 <= |b| {
      SizeExactly(b, i, j - i);
      SizeExactly(b, i, j - i - 4);
      SizeExactly(b, i, j - i - 5);
      SizeExactly(b, i, j - i - 16);
    } else {
      NoSize(b, i);
    }
  }

  lemma NoSize(b: bytes, i: nat)
    requires i + 4 > |b|
    ensures BsonSkip.GetSize(b, i) == BsonSkip.SizeError
  {
  }

  lemma SizeExactly(b: bytes, i: nat, n: int)
    requires i + 4 <= |b|
    ensures BsonSkip.GetSize(b, i).Size? && BsonSkip.GetSize(b, i).n < 0x1_0000_0000
    ensures 0 <= n < 0x1_0000_0000 ==> (BsonSkip.GetSize(b, i).n == n <==> b[i..i + 4] == Bytes4(n))
  {
    UnsignedBound(b, i, 4);
    BytesOfFour(b, i);
    var u := Unsigned(b, i, 4);
    if 0 <= n < 0x1_0000_0000 && Bytes4(n) == Bytes4(u) {
      SameFour(n, u);
    }
  }

  lemma SameFour(a: nat, b: nat)
    requires a < 0x1_0000_0000 && b < 0x1_0000_0000 && Bytes4(a) == Bytes4(b)
    ensures a == b
  {
    FromBytes(a);
    FromBytes(b);
  }

  lemma FromBytes(a: nat)
    requires a < 0x1_0000_0000
    ensures var s := Bytes4(a);
      a == s[0] as int + 256 * (s[1] as int) + 65536 * (s[2] as int) + 16777216 * (s[3] as int)
  {
    assert a == a % 256 + 256 * (a / 256);
    assert a / 256 == a / 256 % 256 + 256 * (a / 65536);
    assert a / 65536 == a / 65536 % 256 + 256 * (a / 16777216);
    assert a / 16777216 % 256 == a / 16777216;
  }

  lemma AfterZeroExactly(b: bytes, i: nat, j: nat)
    requires i <= j <= |b|
    ensures BsonSkip.AfterZero(b, i) == j <==> IsName(b[i..j])
  {
    ZeroFree(b, i);
    if i < j && IsName(b[i..j]) {
      assert b[i..j][..j - i - 1] == b[i..j - 1];
      FirstZero(b, i, j - 1);
    }
    var k := FindZero(b, i);
    if k < |b| {
      assert b[i..k + 1][..k - i] == b[i..k];
    }
  }

  lemma SkipTwoNames(b: bytes, i: nat, j: nat)
    requires i <= j <= |b|
    ensures BsonSkip.DropElem(0x0B, b, i) == Ok((), j) <==> Spans(0x0B, b[i..j])
  {
    hide IsName;
    var s, k := b[i..j], BsonSkip.AfterZero(b, i);
    if k <= j {
      AfterZeroExactly(b, i, k);
      AfterZeroExactly(b, k, j);
      Cut(b, i, j, k - i);
    }
    if BsonSkip.DropElem(0x0B, b, i) == Ok((), j) {
      assert k <= j;
      NameNotEmpty(b[k..j]);
    }
    forall n: nat | n < |s| && IsName(s[..n]) && IsName(s[n..])
      ensures BsonSkip.DropElem(0x0B, b, i) == Ok((), j)
    {
      Cut(b, i, j, n);
      AfterZeroExactly(b, i, i + n);
      AfterZeroExactly(b, i + n, j);
    }
  }

  lemma NameNotEmpty(s: bytes)
    ensures IsName(s) ==> s != []
  {
  }

  // ---- What is written

  // The bytes written for a document are a document that means what is read back, for every
  // kind of value at any depth.
  lemma WrittenDocument(elems: seq<Elem>)
    requires AllEncodable(elems) && |EncDoc(elems)| < 0x8000_0000
    ensures MeansDocument(EncDoc(elems), NormalElems(elems))
  {
    hide EncDoc, ReadDoc, MeansDocument, NormalElems, AllEncodable;
    var b := EncDoc(elems);
    RoundTrip([], elems, []);
    assert [] + b + [] == b && b[0..|b|] == b;
    DocumentExactly(b, 0, NormalElems(elems), |b|);
  }

  // And so are the bytes of each value.
  lemma WrittenValue(v: Value)
    requires Encodable(v) && |EncValue(v)| < 0x8000_0000
    ensures Means(KindOf(v), EncValue(v), Normal(v))
  {
    hide EncValue, ReadValue, KindOf, Normal, Encodable, Means;
    var b := EncValue(v);
    assert b[0..|b|] == b;
    ValueBack(b, 0, v);
    ValueExactly(KindOf(v), b, 0, Normal(v), |b|);
  }

  // Of the ways to write data this one is taken.
  lemma WrittenBinary(kind: byte, data: bytes)
    ensures EncValue(Slice(data)) == Bytes4(|data|) + [0x00] + data
    ensures EncValue(Binary(kind, data)) ==
      if kind == 0x02 then Bytes4(|data| + 4) + [0x02] + Bytes4(|data|) + data else Bytes4(|data|) + [kind] + data
  {
    EncIsBytes(|data|);
    EncIsBytes(|data| + 4);
  }

  // The names that turn byte slices into arrays: $in, $nin and $all.
  lemma OperatorNames(name: bytes, v: Value)
    ensures AsArray(name, v) <==>
      v.Slice? && (name == [0x24, 0x69, 0x6E] || name == [0x24, 0x6E, 0x69, 0x6E] || name == [0x24, 0x61, 0x6C, 0x6C])
  {
  }

  // The number that decimal digits spell.
  function DecimalNumber(s: bytes): int {
    if s == [] then 0 else 10 * DecimalNumber(s[..|s| - 1]) + s[|s| - 1] as int - 0x30
  }

  // The elements of an array are named by their positions in decimal digits, without leading
  // zeros.
  lemma PositionNames(n: nat)
    ensures var s := ItoaBytes(n);
      && s != [] && (forall k :: 0 <= k < |s| ==> 0x30 <= s[k] <= 0x39)
      && DecimalNumber(s) == n && (n > 0 ==> s[0] != 0x30) && (n == 0 ==> s == [0x30])
  {
    var w := DecimalFormat.Width(n);
    var t, s := DecimalFormat.LowDigits(n, w), ItoaBytes(n);
    DecimalGrammar.AllDigitsSpell(n, w);
    forall k | 0 <= k < |s| ensures s[k] as int == t[k] as int && 0x30 <= s[k] <= 0x39 {
    }
    SameNumber(t, s);
    if n == 0 {
      ZeroName();
    }
  }

  lemma ZeroName()
    ensures ItoaBytes(0) == [0x30]
  {
    assert DecimalFormat.LowDigits(0, 1) == "0" + DecimalFormat.LowDigits(0, 0);
  }

  lemma {:induction false} SameNumber(t: string, s: bytes)
    requires DecimalGrammar.Digits(t) && |s| == |t| && forall k :: 0 <= k < |s| ==> s[k] as int == t[k] as int
    ensures DecimalGrammar.Number(t) == DecimalNumber(s)
  {
    if t != "" {
      SameNumber(t[..|t| - 1], s[..|s| - 1]);
    }
  }

  // A document of one element, by its bytes.
  lemma SingleDocument(name: bytes, v: Value)
    requires !v.Slice?
    ensures var body := [KindOf(v)] + (name + [0]) + EncValue(v);
      EncDoc([Elem(name, v)]) == Bytes4(|body| + 5) + body + [0]
  {
    hide EncValue, EncDoc, EncInt32, Bytes4;
    var doc, body := [Elem(name, v)], [KindOf(v)] + (name + [0]) + EncValue(v);
    assert doc[1..] == [] && EncElems([]) == [];
    assert EncElem(name, v) == body;
    assert EncElems(doc) == body + [] == body;
    Framed(doc);
  }

  lemma Framed(doc: seq<Elem>)
    ensures EncDoc(doc) == Bytes4(|EncElems(doc)| + 5) + EncElems(doc) + [0]
  {
    hide EncElems, EncInt32, Bytes4;
    EncIsBytes(|EncElems(doc)| + 5);
  }

  lemma TextBytes(s: bytes)
    ensures EncValue(Str(s)) == Bytes4(|s| + 1) + s + [0]
  {
    EncIsBytes(|s| + 1);
    assert EncInt32(|s| + 1) + (s + [0]) == EncInt32(|s| + 1) + s + [0];
  }

  const HELLO: bytes := [0x68, 0x65, 0x6C, 0x6C, 0x6F]
  const WORLD: bytes := [0x77, 0x6F, 0x72, 0x6C, 0x64]

  // The two documents that the specification spells out.
  lemma HelloWorld()
    ensures EncDoc([Elem(HELLO, Str(WORLD))]) ==
      [0x16, 0x00, 0x00, 0x00, 0x02, 0x68, 0x65, 0x6C, 0x6C, 0x6F, 0x00, 0x06, 0x00, 0x00, 0x00, 0x77, 0x6F, 0x72, 0x6C,
       0x64, 0x00, 0x00]
  {
    hide EncValue, EncDoc;
    SingleDocument(HELLO, Str(WORLD));
    TextBytes(WORLD);
  }

  const BSON_NAME: bytes := [0x42, 0x53, 0x4F, 0x4E]
  const AWESOME: seq<Value> :=
    [Str([0x61, 0x77, 0x65, 0x73, 0x6F, 0x6D, 0x65]), Float(0x4014_3333_3333_3333), Int32(1986)]

  const AWESOME_BODY: bytes :=
    [0x02, 0x30, 0x00, 0x08, 0x00, 0x00, 0x00, 0x61, 0x77, 0x65, 0x73, 0x6F, 0x6D, 0x65, 0x00, 0x01, 0x31, 0x00,
     0x33, 0x33, 0x33, 0x33, 0x33, 0x33, 0x14, 0x40, 0x10, 0x32, 0x00, 0xC2, 0x07, 0x00, 0x00]

  lemma AwesomeArray()
    ensures EncDoc([Elem(BSON_NAME, Array(AWESOME))]) ==
      [0x31, 0x00, 0x00, 0x00, 0x04, 0x42, 0x53, 0x4F, 0x4E, 0x00, 0x26, 0x00, 0x00, 0x00] + AWESOME_BODY + [0x00, 0x00]
  {
    hide EncValue, EncDoc, EncVals, Bytes4;
    FrameLengths();
    SingleDocument(BSON_NAME, Array(AWESOME));
    ArrayBytes(AWESOME);
    ArrayBody();
    var inner := EncVals(AWESOME, 0);
    assert |inner| == 33;
    assert EncValue(Array(AWESOME)) == [0x26, 0x00, 0x00, 0x00] + inner + [0x00];
    AroundArray(inner);
  }

  lemma AroundArray(inner: bytes)
    requires |inner| == 33
    ensures var body := [0x04] + (BSON_NAME + [0]) + ([0x26, 0x00, 0x00, 0x00] + inner + [0x00]);
      && |body| == 0x2C
      && [0x31, 0x00, 0x00, 0x00] + body + [0] ==
        [0x31, 0x00, 0x00, 0x00, 0x04, 0x42, 0x53, 0x4F, 0x4E, 0x00, 0x26, 0x00, 0x00, 0x00] + inner + [0x00, 0x00]
  {
  }

  lemma FrameLengths()
    ensures Bytes4(0x31) == [0x31, 0, 0, 0] && Bytes4(0x26) == [0x26, 0, 0, 0]
  {
  }

  lemma ArrayBytes(vals: seq<Value>)
    ensures EncValue(Array(vals)) == Bytes4(|EncVals(vals, 0)| + 5) + EncVals(vals, 0) + [0]
  {
    hide EncVals, EncInt32, Bytes4;
    EncIsBytes(|EncVals(vals, 0)| + 5);
  }

  lemma ValBytes(vals: seq<Value>, i: nat)
    requires vals != [] && !vals[0].Slice? && i < 10
    ensures EncVals(vals, i) == [KindOf(vals[0]), 0x30 + i as byte, 0] + EncValue(vals[0]) + EncVals(vals[1..], i + 1)
  {
    hide EncValue, ItoaBytes;
    OneDigit(i);
  }

  lemma ArrayBody()
    ensures EncVals(AWESOME, 0) == AWESOME_BODY
  {
    hide EncValue, EncVals, Bytes4;
    TextBytes(AWESOME[0].s);
    EightIs();
    ValBytes(AWESOME, 0);
    AfterText();
    assert EncVals(AWESOME, 0) == [0x02, 0x30, 0x00] + EncValue(AWESOME[0]) + EncVals(AWESOME[1..], 1);
  }

  lemma EightIs()
    ensures Bytes4(8) == [8, 0, 0, 0] && Bytes4(1986) == [0xC2, 0x07, 0x00, 0x00]
    ensures Bytes8(0x4014_3333_3333_3333) == [0x33, 0x33, 0x33, 0x33, 0x33, 0x33, 0x14, 0x40]
  {
    assert 0x4014_3333_3333_3333 / 0x1_0000_0000 == 0x4014_3333;
    LowFour(0x3333_3333, 0x4014_3333);
    LowIs();
  }

  lemma LowIs()
    ensures Bytes4(0x3333_3333) == [0x33, 0x33, 0x33, 0x33] && Bytes4(0x4014_3333) == [0x33, 0x33, 0x14, 0x40]
  {
  }

  lemma AfterText()
    ensures EncVals(AWESOME[1..], 1) ==
      [0x01, 0x31, 0x00, 0x33, 0x33, 0x33, 0x33, 0x33, 0x33, 0x14, 0x40, 0x10, 0x32, 0x00, 0xC2, 0x07, 0x00, 0x00]
  {
    hide EncValue, EncVals, Bytes4, Bytes8;
    NumberBytes(0x4014_3333_3333_3333, 1986);
    EightIs();
    var one, two := AWESOME[1..], AWESOME[1..][1..];
    NothingWritten(two[1..], 3);
    ValBytes(one, 1);
    ValBytes(two, 2);
    assert EncVals(two, 2) == [0x10, 0x32, 0x00] + [0xC2, 0x07, 0x00, 0x00] + [];
  }

  lemma NothingWritten(vals: seq<Value>, i: nat)
    requires vals == []
    ensures EncVals(vals, i) == []
  {
  }

  lemma NumberBytes(bits: int, n: int)
    ensures EncValue(Float(bits)) == Bytes8(bits) && EncValue(Int32(n)) == Bytes4(n)
  {
    EncIsBytes(bits);
    EncIsBytes(n);
  }

  lemma OneDigit(n: nat)
    requires n < 10
    ensures ItoaBytes(n) == [0x30 + n as byte]
  {
    assert n / 10 == 0;
    assert DecimalFormat.Sig(0) == 0;
    assert DecimalFormat.Width(n) == 1;
    assert DecimalFormat.LowDigits(n, 1) == [DecimalFormat.DigitChar(n)] + DecimalFormat.LowDigits(n, 0);
  }
}

/** Decoding the encoding of a document gives the document back, wherever it lies. */
module BsonRoundTrip {
  import opened Bytes
  import opened BsonValue
  import DecimalFormat

  predicate NoZero(s: bytes) {
    forall k :: 0 <= k < |s| ==> s[k] != 0
  }

  predicate Fits(x: int, half: int) {
    -half <= x < half
  }

  // What the encoder's callers must provide: numbers in range, ids of twelve bytes, and
  // names and patterns without zero bytes.
  predicate Encodable(v: Value)
    decreases v
  {
    match v
    case Float(bits) => Fits(bits, TWO_63)
    case Document(elems) => AllEncodable(elems)
    case Array(vals) => ValsEncodable(vals)
    case ObjectId(id) => |id| == 12
    case Date(ms) => Fits(ms, TWO_63)
    case RegEx(pattern, options) => NoZero(pattern) && NoZero(options)
    case DBPointer(_, id) => |id| == 12
    case CodeWithScope(_, scope) => AllEncodable(scope)
    case Int32(n) => Fits(n, TWO_31)
    case Timestamp(t) => Fits(t, TWO_63)
    case Int64(n) => Fits(n, TWO_63)
    case Decimal(l, h) => Fits(l, TWO_63) && Fits(h, TWO_63)
    case _ => true
  }

  predicate AllEncodable(elems: seq<Elem>)
    decreases elems
  {
    forall e :: e in elems ==> NoZero(e.name) && Encodable(e.value)
  }

  predicate ValsEncodable(vals: seq<Value>)
    decreases vals
  {
    forall x :: x in vals ==> Encodable(x)
  }

  // What comes back: binaries of the generic and the obsolete kind are decoded as plain byte
  // slices, and if an obsolete one is empty its redundant length is taken for its data.
  function Normal(v: Value): Value
    decreases v, 1
  {
    match v
    case Document(elems) => Document(NormalElems(elems))
    case Array(vals) => Array(NormalVals(vals))
    case CodeWithScope(code, scope) => CodeWithScope(code, NormalElems(scope))
    case Binary(kind, data) =>
      if kind == BINARY_GENERIC then Slice(data)
      else if kind == BINARY_OLD then Slice(if data == [] then [0, 0, 0, 0] else data)
      else v
    case _ => v
  }

  function NormalElems(elems: seq<Elem>): (r: seq<Elem>)
    ensures |r| == |elems|
    decreases elems, 0
  {
    if elems == [] then [] else [Elem(elems[0].name, NormalAt(elems[0].name, elems[0].value))] + NormalElems(elems[1..])
  }

  // A byte slice under the name of an array operator comes back as an array of numbers.
  function NormalAt(name: bytes, v: Value): Value
    decreases v, 2
  {
    if AsArray(name, v) then Array(Ints(v.data)) else Normal(v)
  }

  function Ints(data: bytes): seq<Value> {
    if data == [] then [] else [Int32(data[0] as int)] + Ints(data[1..])
  }

  function NormalVals(vals: seq<Value>): (r: seq<Value>)
    ensures |r| == |vals|
    decreases vals, 0
  {
    if vals == [] then [] else [Normal(vals[0])] + NormalVals(vals[1..])
  }

  // s lies in b at position i.
  predicate Holds(b: bytes, i: nat, s: bytes) {
    i + |s| <= |b| && b[i..i + |s|] == s
  }

  lemma HoldsParts(b: bytes, i: nat, s: bytes, t: bytes)
    requires Holds(b, i, s + t)
    ensures Holds(b, i, s) && Holds(b, i + |s|, t)
  {
    var st := b[i..i + |s + t|];
    assert b[i..i + |s|] == st[..|s|] == s;
    assert b[i + |s|..i + |s| + |t|] == st[|s|..] == t;
  }

  lemma HoldsByte(b: bytes, i: nat, s: bytes, k: nat)
    requires Holds(b, i, s) && k < |s|
    ensures b[i + k] == s[k]
  {
    assert b[i..i + |s|][k] == b[i + k];
  }

  // ---- Numbers

  lemma {:induction false} UnsignedBack(b: bytes, i: nat, x: int, n: nat)
    requires Holds(b, i, LittleEndian(x, n))
    ensures Power256(n) > 0 && Unsigned(b, i, n) == x % Power256(n)
    decreases n
  {
    if n > 0 {
      HoldsParts(b, i, [(x % 256) as byte], LittleEndian(x / 256, n - 1));
      HoldsByte(b, i, [(x % 256) as byte], 0);
      UnsignedBack(b, i + 1, x / 256, n - 1);
      ModSplit(x, Power256(n - 1));
    }
  }

  lemma ModSplit(x: int, p: int)
    requires p > 0
    ensures x % (256 * p) == x % 256 + 256 * (x / 256 % p)
  {
    var q, r := x / 256 / p, x / 256 % p;
    assert x / 256 == p * q + r;
    assert x == 256 * p * q + (256 * r + x % 256);
    var m, t := 256 * p, 256 * r + x % 256;
    assert 0 <= t < m;
    ModUnique(x, m, q, t);
  }

  lemma ModUnique(x: int, m: int, q: int, t: int)
    requires m > 0 && 0 <= t < m && x == m * q + t
    ensures x % m == t
  {
    var d := x / m - q;
    assert x == m * (x / m) + x % m;
    assert m * d == t - x % m;
    Scaled(m, d);
  }

  lemma Scaled(m: int, d: int)
    requires m > 0
    ensures d >= 1 ==> m * d >= m
    ensures d <= -1 ==> m * d <= -m
  {
    assert d >= 1 ==> m * (d - 1) >= 0;
    assert d <= -1 ==> m * (-1 - d) >= 0;
  }

  lemma Int32Back(b: bytes, i: nat, x: int)
    requires Fits(x, TWO_31) && Holds(b, i, EncInt32(x))
    ensures ReadInt32(b, i) == Ok(x, i + 4)
  {
    assert Power256(4) == TWO_32;
    hide LittleEndian, Unsigned, Power256;
    UnsignedBack(b, i, x, 4);
  }

  lemma Int64Back(b: bytes, i: nat, x: int)
    requires Fits(x, TWO_63) && Holds(b, i, EncInt64(x))
    ensures ReadInt64(b, i) == Ok(x, i + 8)
  {
    PowerEight();
    hide LittleEndian, Unsigned, Power256;
    UnsignedBack(b, i, x, 8);
  }

  lemma PowerEight()
    ensures Power256(8) == TWO_64
  {
    assert Power256(4) == TWO_32;
  }

  // ---- Strings and binaries

  lemma {:induction false} FindZeroAt(b: bytes, i: nat, k: nat)
    requires i <= k < |b| && b[k] == 0 && forall j :: i <= j < k ==> b[j] != 0
    ensures FindZero(b, i) == k
    decreases k - i
  {
    if i < k {
      FindZeroAt(b, i + 1, k);
    }
  }

  lemma ZeroBack(b: bytes, i: nat, s: bytes)
    requires NoZero(s) && Holds(b, i, EncCStr(s))
    ensures FindZero(b, i) == i + |s| && b[i..i + |s|] == s
  {
    HoldsParts(b, i, s, [0]);
    HoldsByte(b, i + |s|, [0], 0);
    forall j | i <= j < i + |s| ensures b[j] != 0 {
      HoldsByte(b, i, s, j - i);
    }
    FindZeroAt(b, i, i + |s|);
  }

  lemma CStrBack(b: bytes, i: nat, s: bytes)
    requires NoZero(s) && Holds(b, i, EncCStr(s))
    ensures ReadCStr(b, i) == Ok(s, i + |s| + 1)
  {
    ZeroBack(b, i, s);
  }

  lemma StrBack(b: bytes, i: nat, s: bytes)
    requires Holds(b, i, EncStr(s)) && |s| + 5 < TWO_31
    ensures ReadStr(b, i) == Ok(s, i + |EncStr(s)|)
  {
    hide ReadInt32, LittleEndian;
    HoldsParts(b, i, EncInt32(|s| + 1), EncCStr(s));
    HoldsParts(b, i + 4, s, [0]);
    HoldsByte(b, i + 4 + |s|, [0], 0);
    Int32Back(b, i, |s| + 1);
  }

  lemma BinaryBack(b: bytes, i: nat, kind: byte, data: bytes)
    requires Holds(b, i, EncBinary(kind, data)) && |EncBinary(kind, data)| < TWO_31
    ensures ReadBinary(b, i) == Ok(Normal(Binary(kind, data)), i + |EncBinary(kind, data)|)
  {
    BinaryLength(kind, data);
    hide ReadBinary, Holds, EncBinary, Normal;
    if kind == BINARY_OLD {
      OldBinaryBack(b, i, data);
    } else {
      NewBinaryBack(b, i, kind, data);
    }
  }

  lemma NewBinaryBack(b: bytes, i: nat, kind: byte, data: bytes)
    requires kind != BINARY_OLD && Holds(b, i, EncBinary(kind, data)) && |data| + 5 < TWO_31
    ensures ReadBinary(b, i) == Ok(Normal(Binary(kind, data)), i + |EncBinary(kind, data)|)
  {
    hide ReadInt32, EncInt32, ReadBytes, ReadByte, Holds, EncBinary, ReadBinary;
    var length := EncInt32(|data|);
    NewBinaryParts(kind, data);
    HoldsParts(b, i, length, [kind] + data);
    HoldsParts(b, i + 4, [kind], data);
    ByteBack(b, i + 4, kind);
    BytesBack(b, i + 5, data);
    Int32Back(b, i, |data|);
    NewBinary(b, i, kind, data);
  }

  lemma NewBinary(b: bytes, i: nat, kind: byte, data: bytes)
    requires kind != BINARY_OLD && ReadInt32(b, i) == Ok(|data|, i + 4)
    requires ReadByte(b, i + 4) == Ok(kind, i + 5) && ReadBytes(b, i + 5, |data|) == Ok(data, i + 5 + |data|)
    ensures ReadBinary(b, i) == Ok(if kind == BINARY_GENERIC then Slice(data) else Binary(kind, data), i + 5 + |data|)
  {
    hide ReadInt32, ReadBytes, ReadByte;
  }

  lemma NewBinaryParts(kind: byte, data: bytes)
    requires kind != BINARY_OLD
    ensures EncBinary(kind, data) == EncInt32(|data|) + ([kind] + data)
  {
    hide EncInt32;
  }

  lemma ByteBack(b: bytes, i: nat, x: byte)
    requires Holds(b, i, [x])
    ensures ReadByte(b, i) == Ok(x, i + 1)
  {
    HoldsByte(b, i, [x], 0);
  }

  lemma BytesBack(b: bytes, i: nat, data: bytes)
    requires Holds(b, i, data)
    ensures ReadBytes(b, i, |data|) == Ok(data, i + |data|)
  {
  }

  lemma OldBinaryBack(b: bytes, i: nat, data: bytes)
    requires Holds(b, i, EncBinary(BINARY_OLD, data)) && |data| + 9 < TWO_31
    ensures ReadBinary(b, i) == Ok(Normal(Binary(BINARY_OLD, data)), i + |EncBinary(BINARY_OLD, data)|)
  {
    hide ReadInt32, LittleEndian;
    var kind, length := [BINARY_OLD], EncInt32(|data|);
    assert EncBinary(BINARY_OLD, data) == EncInt32(|data| + 4) + (kind + (length + data));
    HoldsParts(b, i, EncInt32(|data| + 4), kind + (length + data));
    HoldsParts(b, i + 4, kind, length + data);
    HoldsParts(b, i + 5, length, data);
    HoldsByte(b, i + 4, kind, 0);
    Int32Back(b, i, |data| + 4);
    Int32Back(b, i + 5, |data|);
    if data == [] {
      assert length == [0, 0, 0, 0] by { ZeroLength(); }
      assert b[i + 5..i + 9] == length;
    }
  }

  lemma ZeroLength()
    ensures EncInt32(0) == [0, 0, 0, 0]
  {
    assert LittleEndian(0, 2) == [0, 0];
  }

  // ---- Documents

  lemma FrameBack(b: bytes, i: nat, body: bytes)
    requires Holds(b, i, Framed(body)) && |body| + 5 < TWO_31
    ensures FrameEnd(b, i) == Ok((), i + |Framed(body)|) && Holds(b, i + 4, body + [0])
  {
    hide ReadInt32, LittleEndian;
    assert Framed(body) == EncInt32(|body| + 5) + (body + [0]);
    HoldsParts(b, i, EncInt32(|body| + 5), body + [0]);
    HoldsParts(b, i + 4, body, [0]);
    HoldsByte(b, i + 4 + |body|, [0], 0);
    Int32Back(b, i, |body| + 5);
  }

  lemma KindNotZero(v: Value)
    ensures KindOf(v) != 0
  {
  }

  lemma {:induction false} DocBack(b: bytes, i: nat, elems: seq<Elem>)
    requires AllEncodable(elems) && Holds(b, i, EncDoc(elems)) && |EncDoc(elems)| < TWO_31
    ensures ReadDoc(b, i) == Ok(NormalElems(elems), i + |EncDoc(elems)|)
    decreases elems, 2
  {
    hide ReadElems, FrameEnd, EncElems, ReadInt32, LittleEndian, AllEncodable;
    FrameBack(b, i, EncElems(elems));
    ElemsBack(b, i + 4, elems, i + |EncDoc(elems)|);
  }

  lemma {:induction false} ElemsBack(b: bytes, i: nat, elems: seq<Elem>, end: nat)
    requires AllEncodable(elems) && Holds(b, i, EncElems(elems) + [0]) && |EncElems(elems)| < TWO_31
    requires end == i + |EncElems(elems)| + 1
    ensures ReadElems(b, i, end) == Ok(NormalElems(elems), end)
    decreases elems, 1
  {
    hide ReadElems, ReadValue, ReadCStr, EncElem, Payload, SentKind, NormalAt, Encodable;
    if elems == [] {
      HoldsByte(b, i, [0], 0);
      ElemsEnd(b, i);
    } else {
      var e, rest := elems[0], elems[1..];
      var name, kind, v := EncCStr(e.name), SentKind(e.name, e.value), Payload(e.name, e.value);
      assert NoZero(e.name) && Encodable(e.value) && AllEncodable(rest);
      ElemIs(e.name, e.value);
      ElementParts(b, i, e.name, kind, v, EncElems(rest));
      SentKindNotZero(e.name, e.value);
      CStrBack(b, i + 1, e.name);
      ElemBack(b, i + 1 + |name|, e.name, e.value);
      ElemsBack(b, i + 1 + |name| + |v|, rest, end);
      ElemsStep(b, i, end, e.name, i + 1 + |name|, NormalAt(e.name, e.value), i + 1 + |name| + |v|, NormalElems(rest));
    }
  }

  // Kind and bytes of the value under a name.
  function SentKind(name: bytes, v: Value): byte {
    if AsArray(name, v) then ARRAY else KindOf(v)
  }

  function Payload(name: bytes, v: Value): bytes {
    if AsArray(name, v) then EncInts(v.data) else EncValue(v)
  }

  lemma SentKindNotZero(name: bytes, v: Value)
    ensures SentKind(name, v) != 0
  {
  }

  lemma ElemsStep(b: bytes, i: nat, end: nat, name: bytes, k: nat, x: Value, j: nat, rest: seq<Elem>)
    requires i < end <= |b| && b[i] != 0 && ReadCStr(b, i + 1) == Ok(name, k) && k < end
    requires ReadValue(b[i], b, k) == Ok(x, j) && j < end && ReadElems(b, j, end) == Ok(rest, end)
    ensures ReadElems(b, i, end) == Ok([Elem(name, x)] + rest, end)
  {
    hide ReadValue, ReadCStr;
  }

  lemma ElemsEnd(b: bytes, i: nat)
    requires i < |b| && b[i] == 0
    ensures ReadElems(b, i, i + 1) == Ok([], i + 1)
  {
  }

  lemma ElemIs(name: bytes, v: Value)
    ensures EncElem(name, v) == [SentKind(name, v)] + EncCStr(name) + Payload(name, v)
  {
  }

  lemma {:induction false} ElemBack(b: bytes, i: nat, name: bytes, v: Value)
    requires Encodable(v) && Holds(b, i, Payload(name, v)) && |Payload(name, v)| < TWO_31
    ensures ReadValue(SentKind(name, v), b, i) == Ok(NormalAt(name, v), i + |Payload(name, v)|)
    decreases v, 1
  {
    hide EncInts, EncValue, ReadArray, Ints;
    if AsArray(name, v) {
      IntsBack(b, i, v.data);
    } else {
      ValueBack(b, i, v);
    }
  }

  lemma IntsBack(b: bytes, i: nat, data: bytes)
    requires Holds(b, i, EncInts(data)) && |EncInts(data)| < TWO_31
    ensures ReadArray(b, i) == Ok(Ints(data), i + |EncInts(data)|)
  {
    hide ReadVals, FrameEnd, EncIntElems, ReadInt32, LittleEndian, Ints;
    FrameBack(b, i, EncIntElems(data, 0));
    IntElemsBack(b, i + 4, data, 0, i + |EncInts(data)|);
  }

  lemma {:induction false} IntElemsBack(b: bytes, i: nat, data: bytes, n: nat, end: nat)
    requires Holds(b, i, EncIntElems(data, n) + [0]) && end == i + |EncIntElems(data, n)| + 1
    ensures ReadVals(b, i, end) == Ok(Ints(data), end)
    decreases |data|
  {
    hide ReadValue, ReadVals, ItoaBytes, FindZero, NoZero, LittleEndian;
    if data == [] {
      HoldsByte(b, i, [0], 0);
      ValsEnd(b, i);
    } else {
      var name, v, rest := EncCStr(ItoaBytes(n)), EncInt32(data[0] as int), EncIntElems(data[1..], n + 1);
      assert EncIntElems(data, n) == [INT32] + name + v + rest;
      ElementParts(b, i, ItoaBytes(n), INT32, v, rest);
      ItoaNoZero(n);
      ZeroBack(b, i + 1, ItoaBytes(n));
      Int32Read(b, i + 1 + |name|, data[0] as int);
      IntElemsBack(b, i + 1 + |name| + 4, data[1..], n + 1, end);
      ValsStep(b, i, end, i + |name|, Int32(data[0] as int), i + 1 + |name| + 4, Ints(data[1..]));
    }
  }

  lemma Int32Read(b: bytes, i: nat, x: int)
    requires Holds(b, i, EncInt32(x)) && Fits(x, TWO_31)
    ensures ReadValue(INT32, b, i) == Ok(Int32(x), i + 4)
  {
    hide ReadInt32, LittleEndian;
    Int32Back(b, i, x);
  }

  lemma {:induction false} ArrayBack(b: bytes, i: nat, vals: seq<Value>)
    requires ValsEncodable(vals) && Holds(b, i, EncArray(vals)) && |EncArray(vals)| < TWO_31
    ensures ReadArray(b, i) == Ok(NormalVals(vals), i + |EncArray(vals)|)
    decreases vals, 2
  {
    hide ReadVals, FrameEnd, EncVals, ReadInt32, LittleEndian, ValsEncodable;
    FrameBack(b, i, EncVals(vals, 0));
    ValsBack(b, i + 4, vals, 0, i + |EncArray(vals)|);
  }

  lemma {:induction false} ValsBack(b: bytes, i: nat, vals: seq<Value>, n: nat, end: nat)
    requires ValsEncodable(vals) && Holds(b, i, EncVals(vals, n) + [0]) && |EncVals(vals, n)| < TWO_31
    requires end == i + |EncVals(vals, n)| + 1
    ensures ReadVals(b, i, end) == Ok(NormalVals(vals), end)
    decreases vals, 1
  {
    hide ReadValue, ReadVals, EncValue, EncElem, KindOf, Normal, Encodable, ItoaBytes, FindZero, NoZero;
    if vals == [] {
      HoldsByte(b, i, [0], 0);
      ValsEnd(b, i);
    } else {
      var x, rest := vals[0], vals[1..];
      var name, v := EncCStr(ItoaBytes(n)), EncValue(x);
      assert Encodable(x) && ValsEncodable(rest);
      NumberedElem(n, x);
      ElementParts(b, i, ItoaBytes(n), KindOf(x), v, EncVals(rest, n + 1));
      KindNotZero(x);
      ItoaNoZero(n);
      ZeroBack(b, i + 1, ItoaBytes(n));
      ValueBack(b, i + 1 + |name|, x);
      ValsBack(b, i + 1 + |name| + |v|, rest, n + 1, end);
      ValsStep(b, i, end, i + |name|, Normal(x), i + 1 + |name| + |v|, NormalVals(rest));
    }
  }

  lemma ValsStep(b: bytes, i: nat, end: nat, k: nat, x: Value, j: nat, rest: seq<Value>)
    requires i < end <= |b| && b[i] != 0 && FindZero(b, i + 1) == k < end
    requires ReadValue(b[i], b, k + 1) == Ok(x, j) && j < end && ReadVals(b, j, end) == Ok(rest, end)
    ensures ReadVals(b, i, end) == Ok([x] + rest, end)
  {
    hide ReadValue, FindZero;
  }

  lemma ValsEnd(b: bytes, i: nat)
    requires i < |b| && b[i] == 0
    ensures ReadVals(b, i, i + 1) == Ok([], i + 1)
  {
  }

  // An element, the elements after it, and the final zero.
  lemma ElementParts(b: bytes, i: nat, name: bytes, kind: byte, v: bytes, more: bytes)
    requires Holds(b, i, [kind] + EncCStr(name) + v + more + [0])
    ensures Holds(b, i + 1, EncCStr(name)) && Holds(b, i + 2 + |name|, v) && b[i] == kind
    ensures Holds(b, i + 2 + |name| + |v|, more + [0])
    ensures |[kind] + EncCStr(name) + v + more| == 2 + |name| + |v| + |more|
  {
    var s := EncCStr(name);
    assert [kind] + s + v + more + [0] == [kind] + (s + (v + (more + [0])));
    HoldsParts(b, i, [kind], s + (v + (more + [0])));
    HoldsParts(b, i + 1, s, v + (more + [0]));
    HoldsParts(b, i + 1 + |s|, v, more + [0]);
    HoldsByte(b, i, [kind], 0);
  }

  // The elements of an array are not named like operators.
  lemma NumberedElem(n: nat, v: Value)
    ensures EncElem(ItoaBytes(n), v) == [KindOf(v)] + EncCStr(ItoaBytes(n)) + EncValue(v)
  {
    hide EncValue;
    var k := DecimalFormat.Width(n);
    assert DecimalFormat.LowDigits(n, k)[0] == DecimalFormat.DigitChar(DecimalFormat.Shift(n, k - 1) % 10);
    assert ItoaBytes(n)[0] >= 48;
  }

  lemma ItoaNoZero(n: nat)
    ensures NoZero(ItoaBytes(n))
  {
    DigitsNotZero(n, DecimalFormat.Width(n));
  }

  lemma {:induction false} DigitsNotZero(n: nat, k: nat)
    ensures forall j :: 0 <= j < k ==> 0 < DecimalFormat.LowDigits(n, k)[j] as int < 256
  {
    if k > 0 {
      DigitsNotZero(n, k - 1);
    }
  }

  lemma {:induction false} ScopedBack(b: bytes, i: nat, code: bytes, scope: seq<Elem>)
    requires AllEncodable(scope) && Holds(b, i, EncValue(CodeWithScope(code, scope))) &&
      |EncValue(CodeWithScope(code, scope))| < TWO_31
    ensures ReadScoped(b, i) == Ok(CodeWithScope(code, NormalElems(scope)), i + |EncValue(CodeWithScope(code, scope))|)
    decreases scope, 3
  {
    hide ReadStr, ReadDoc, EncDoc, EncStr, LittleEndian, ReadInt32, AllEncodable;
    var s, d := EncStr(code), EncDoc(scope);
    HoldsParts(b, i, EncInt32(|s + d| + 4), s + d);
    HoldsParts(b, i + 4, s, d);
    Int32Back(b, i, |s + d| + 4);
    assert |s| == |code| + 5 by { StrLength(code); }
    StrBack(b, i + 4, code);
    DocBack(b, i + 4 + |s|, scope);
  }

  lemma StrLength(s: bytes)
    ensures |EncStr(s)| == |s| + 5
  {
  }

  // Reading what was encoded gives the normal form and stops exactly at its end.
  lemma {:induction false} ValueBack(b: bytes, i: nat, v: Value)
    requires Encodable(v) && Holds(b, i, EncValue(v)) && |EncValue(v)| < TWO_31
    ensures ReadValue(KindOf(v), b, i) == Ok(Normal(v), i + |EncValue(v)|)
    decreases v, 0
  {
    hide ReadScoped, ReadDoc, ReadArray, EncDoc, EncArray, NormalElems, NormalVals;
    match v
    case Document(elems) => DocBack(b, i, elems);
    case Array(vals) => ArrayBack(b, i, vals);
    case CodeWithScope(code, scope) => ScopedBack(b, i, code, scope);
    case _ =>
      hide ReadValue, EncValue, KindOf, Normal, Encodable;
      if Number(v) {
        NumberBack(b, i, v);
      } else {
        ScalarBack(b, i, v);
      }
  }

  // Values that hold no others.
  lemma ScalarBack(b: bytes, i: nat, v: Value)
    requires !v.Document? && !v.Array? && !v.CodeWithScope? && !Number(v)
    requires Encodable(v) && Holds(b, i, EncValue(v)) && |EncValue(v)| < TWO_31
    ensures ReadValue(KindOf(v), b, i) == Ok(Normal(v), i + |EncValue(v)|)
  {
    hide ReadStr, ReadBinary, ReadScoped, ReadCStr, ReadDoc, ReadArray, ReadInt32, ReadInt64, LittleEndian, EncDoc,
      EncArray, EncBinary;
    match v
    case Str(s) => StrBack(b, i, s);
    case Slice(data) => BinaryBack(b, i, BINARY_GENERIC, data);
    case Binary(kind, data) => BinaryBack(b, i, kind, data);
    case Bool(x) => HoldsByte(b, i, [if x then 1 else 0], 0);
    case RegEx(pattern, options) =>
      HoldsParts(b, i, EncCStr(pattern), EncCStr(options));
      CStrBack(b, i, pattern);
      CStrBack(b, i + |pattern| + 1, options);
    case DBPointer(ns, id) =>
      HoldsParts(b, i, EncStr(ns), id);
      StrBack(b, i, ns);
    case Code(code) => StrBack(b, i, code);
    case Symbol(s) => StrBack(b, i, s);
    case _ =>
  }

  predicate Number(v: Value) {
    v.Float? || v.Date? || v.Int32? || v.Timestamp? || v.Int64? || v.Decimal?
  }

  lemma NumberBack(b: bytes, i: nat, v: Value)
    requires Number(v) && Encodable(v) && Holds(b, i, EncValue(v))
    ensures ReadValue(KindOf(v), b, i) == Ok(Normal(v), i + |EncValue(v)|)
  {
    hide ReadInt32, ReadInt64, LittleEndian;
    match v
    case Float(bits) => Int64Back(b, i, bits);
    case Date(ms) => Int64Back(b, i, ms);
    case Int32(n) => Int32Back(b, i, n);
    case Timestamp(t) => Int64Back(b, i, t);
    case Int64(n) => Int64Back(b, i, n);
    case Decimal(l, h) =>
      HoldsParts(b, i, EncInt64(l), EncInt64(h));
      Int64Back(b, i, l);
      Int64Back(b, i + 8, h);
  }

  lemma BinaryLength(kind: byte, data: bytes)
    ensures |EncBinary(kind, data)| == |data| + if kind == BINARY_OLD then 9 else 5
  {
  }

  // ---- Whole documents

  // A value survives if it holds no binary of the generic or the obsolete kind and no byte
  // slice under the name of an array operator.
  predicate Survives(v: Value)
    decreases v, 1
  {
    match v
    case Document(elems) => ElemsSurvive(elems)
    case Array(vals) => ValsSurvive(vals)
    case CodeWithScope(_, scope) => ElemsSurvive(scope)
    case Binary(kind, _) => kind != BINARY_GENERIC && kind != BINARY_OLD
    case _ => true
  }

  predicate ElemsSurvive(elems: seq<Elem>)
    decreases elems, 0
  {
    elems == [] ||
    (!AsArray(elems[0].name, elems[0].value) && Survives(elems[0].value) && ElemsSurvive(elems[1..]))
  }

  predicate ValsSurvive(vals: seq<Value>)
    decreases vals, 0
  {
    vals == [] || (Survives(vals[0]) && ValsSurvive(vals[1..]))
  }

  lemma {:induction false} NormalExactly(v: Value)
    ensures Normal(v) == v <==> Survives(v)
    decreases v, 1
  {
    match v
    case Document(elems) => NormalElemsExactly(elems);
    case Array(vals) => NormalValsExactly(vals);
    case CodeWithScope(_, scope) => NormalElemsExactly(scope);
    case _ =>
  }

  lemma {:induction false} NormalElemsExactly(elems: seq<Elem>)
    ensures NormalElems(elems) == elems <==> ElemsSurvive(elems)
    decreases elems, 0
  {
    if elems != [] {
      NormalExactly(elems[0].value);
      NormalElemsExactly(elems[1..]);
      var r := NormalElems(elems);
      assert r[1..] == NormalElems(elems[1..]);
      assert elems == [elems[0]] + elems[1..];
      assert r == elems ==> r[0] == elems[0] && r[1..] == elems[1..];
    }
  }

  lemma {:induction false} NormalValsExactly(vals: seq<Value>)
    ensures NormalVals(vals) == vals <==> ValsSurvive(vals)
    decreases vals, 0
  {
    if vals != [] {
      NormalExactly(vals[0]);
      NormalValsExactly(vals[1..]);
      var r := NormalVals(vals);
      assert r[1..] == NormalVals(vals[1..]);
      assert vals == [vals[0]] + vals[1..];
      assert r == vals ==> r[0] == vals[0] && r[1..] == vals[1..];
    }
  }

  // Exactly the bytes of a document are consumed, and it is decoded as it was encoded if and
  // only if all of it survives.
  lemma RoundTrip(before: bytes, elems: seq<Elem>, after: bytes)
    requires AllEncodable(elems) && |EncDoc(elems)| < TWO_31
    ensures var r := ReadDoc(before + EncDoc(elems) + after, |before|);
      r == Ok(NormalElems(elems), |before| + |EncDoc(elems)|) && (r.value == elems <==> ElemsSurvive(elems))
  {
    hide ReadDoc, EncDoc, NormalElems, ElemsSurvive, AllEncodable;
    var b := before + EncDoc(elems) + after;
    assert b[|before|..|before| + |EncDoc(elems)|] == EncDoc(elems);
    DocBack(b, |before|, elems);
    NormalElemsExactly(elems);
  }

  // The obsolete kind loses its subtype, and an empty one comes back as four zero bytes.
  lemma OldBinaryIsLost()
    ensures var doc := [Elem([97], Binary(BINARY_OLD, []))];
      ReadDoc(EncDoc(doc), 0) == Ok([Elem([97], Slice([0, 0, 0, 0]))], |EncDoc(doc)|)
  {
    hide ReadDoc, EncBinary, LittleEndian;
    var v := Binary(BINARY_OLD, []);
    var doc := [Elem([97], v)];
    BinaryLength(BINARY_OLD, []);
    OneElement([97], v);
    RoundTrip([], doc, []);
    assert [] + EncDoc(doc) + [] == EncDoc(doc);
  }

  // A byte slice under $in comes back as an array of one number.
  lemma OperatorSliceIsArray()
    ensures var doc := [Elem(IN, Slice([1]))];
      ReadDoc(EncDoc(doc), 0) == Ok([Elem(IN, Array([Int32(1)]))], |EncDoc(doc)|)
  {
    hide ReadDoc, LittleEndian, ItoaBytes, EncCStr;
    var v := Slice([1]);
    var doc := [Elem(IN, v)];
    OneByteArray();
    OneElement(IN, v);
    RoundTrip([], doc, []);
    assert Ints([1]) == [Int32(1)] by { assert [1][1..] == []; }
    assert [] + EncDoc(doc) + [] == EncDoc(doc);
  }

  lemma OneByteArray()
    ensures |EncInts([1])| == 12
  {
    hide LittleEndian;
    assert [1][1..] == [];
    assert EncIntElems([1], 0) == [INT32] + EncCStr(ItoaBytes(0)) + EncInt32(1) + [];
  }

  lemma OneElement(name: bytes, v: Value)
    ensures |EncDoc([Elem(name, v)])| == |name| + |Payload(name, v)| + 7
    ensures NormalElems([Elem(name, v)]) == [Elem(name, NormalAt(name, v))]
  {
    hide EncValue, NormalAt, EncInts;
    var doc := [Elem(name, v)];
    assert doc[1..] == [];
    ElemIs(name, v);
    assert EncElems(doc) == EncElem(name, v) + [];
  }
}

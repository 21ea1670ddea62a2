/** BSON values, their encoding as bytes, and reading bytes back. */
module BsonValue {
  import opened Bytes
  import DecimalFormat

  // Times are milliseconds, floats their 64 bits. A plain byte slice is a value of its own
  // beside the binary that carries its kind.
  datatype Value =
    | Float(bits: int) | Str(s: bytes) | Document(elems: seq<Elem>) | Array(vals: seq<Value>)
    | Slice(data: bytes) | Binary(kind: byte, data: bytes) | Undefined | ObjectId(id: bytes) | Bool(b: bool)
    | Date(ms: int) | Null
    | RegEx(pattern: bytes, options: bytes) | DBPointer(ns: bytes, id: bytes) | Code(code: bytes) | Symbol(s: bytes)
    | CodeWithScope(code: bytes, scope: seq<Elem>) | Int32(n: int) | Timestamp(t: int) | Int64(n: int)
    | Decimal(l: int, h: int) | MinKey | MaxKey

  datatype Elem = Elem(name: bytes, value: Value)

  const FLOAT64: byte := 0x01
  const STRING: byte := 0x02
  const DOCUMENT: byte := 0x03
  const ARRAY: byte := 0x04
  const BINARY: byte := 0x05
  const UNDEFINED: byte := 0x06
  const OBJECT_ID: byte := 0x07
  const BOOL: byte := 0x08
  const DATETIME: byte := 0x09
  const NIL: byte := 0x0A
  const REGEX: byte := 0x0B
  const DB_POINTER: byte := 0x0C
  const JAVASCRIPT: byte := 0x0D
  const SYMBOL: byte := 0x0E
  const JAVASCRIPT_WITH_SCOPE: byte := 0x0F
  const INT32: byte := 0x10
  const TIMESTAMP: byte := 0x11
  const INT64: byte := 0x12
  const DECIMAL128: byte := 0x13
  const MAX_KEY: byte := 0x7F
  const MIN_KEY: byte := 0xFF

  const BINARY_GENERIC: byte := 0x00
  const BINARY_OLD: byte := 0x02

  const TWO_31: int := 0x8000_0000
  const TWO_32: int := 0x1_0000_0000
  const TWO_63: int := 0x8000_0000_0000_0000
  const TWO_64: int := 0x1_0000_0000_0000_0000

  function KindOf(v: Value): byte {
    match v
    case Float(_) => FLOAT64
    case Str(_) => STRING
    case Document(_) => DOCUMENT
    case Array(_) => ARRAY
    case Slice(_) => BINARY
    case Binary(_, _) => BINARY
    case Undefined => UNDEFINED
    case ObjectId(_) => OBJECT_ID
    case Bool(_) => BOOL
    case Date(_) => DATETIME
    case Null => NIL
    case RegEx(_, _) => REGEX
    case DBPointer(_, _) => DB_POINTER
    case Code(_) => JAVASCRIPT
    case Symbol(_) => SYMBOL
    case CodeWithScope(_, _) => JAVASCRIPT_WITH_SCOPE
    case Int32(_) => INT32
    case Timestamp(_) => TIMESTAMP
    case Int64(_) => INT64
    case Decimal(_, _) => DECIMAL128
    case MinKey => MIN_KEY
    case MaxKey => MAX_KEY
  }

  // ---- Encoding

  // The low n bytes of a two's complement number, least first.
  function LittleEndian(x: int, n: nat): (s: bytes)
    ensures |s| == n
    decreases n
  {
    if n == 0 then [] else [(x % 256) as byte] + LittleEndian(x / 256, n - 1)
  }

  function EncInt32(x: int): (s: bytes)
    ensures |s| == 4
  {
    LittleEndian(x, 4)
  }

  function EncInt64(x: int): (s: bytes)
    ensures |s| == 8
  {
    LittleEndian(x, 8)
  }

  function EncCStr(s: bytes): bytes {
    s + [0]
  }

  function EncStr(s: bytes): bytes {
    EncInt32(|s| + 1) + EncCStr(s)
  }

  function EncBinary(kind: byte, data: bytes): bytes {
    if kind == BINARY_OLD then EncInt32(|data| + 4) + [kind] + EncInt32(|data|) + data
    else EncInt32(|data|) + [kind] + data
  }

  // A length slot, the body and a final zero; the length counts all of them.
  function Framed(body: bytes): bytes {
    EncInt32(|body| + 5) + body + [0]
  }

  function EncDoc(elems: seq<Elem>): bytes
    decreases elems, 2
  {
    Framed(EncElems(elems))
  }

  function EncElems(elems: seq<Elem>): bytes
    decreases elems, 1
  {
    if elems == [] then [] else
      EncElem(elems[0].name, elems[0].value) + EncElems(elems[1..])
  }

  function EncElem(name: bytes, v: Value): bytes
    decreases v, 3
  {
    if AsArray(name, v) then [ARRAY] + EncCStr(name) + EncInts(v.data)
    else [KindOf(v)] + EncCStr(name) + EncValue(v)
  }

  const IN: bytes := [36, 105, 110]
  const NIN: bytes := [36, 110, 105, 110]
  const ALL: bytes := [36, 97, 108, 108]

  // Byte slices under the names of the array operators $in, $nin and $all go out as arrays.
  predicate AsArray(name: bytes, v: Value) {
    v.Slice? && (name == IN || name == NIN || name == ALL)
  }

  function EncInts(data: bytes): bytes {
    Framed(EncIntElems(data, 0))
  }

  // Each byte as a 32 bit number, named by its position from i on.
  function EncIntElems(data: bytes, i: nat): bytes {
    if data == [] then [] else
      [INT32] + EncCStr(ItoaBytes(i)) + EncInt32(data[0] as int) + EncIntElems(data[1..], i + 1)
  }

  function ItoaBytes(n: nat): bytes {
    var s := DecimalFormat.LowDigits(n, DecimalFormat.Width(n));
    seq(|s|, k requires 0 <= k < |s| => CharByte(s[k]))
  }

  function CharByte(c: char): byte {
    if c as int < 256 then c as int as byte else 0
  }

  // Array elements are named by their positions, from i on.
  function EncVals(vals: seq<Value>, i: nat): bytes
    decreases vals, 1
  {
    if vals == [] then [] else EncElem(ItoaBytes(i), vals[0]) + EncVals(vals[1..], i + 1)
  }

  function EncArray(vals: seq<Value>): bytes
    decreases vals, 2
  {
    Framed(EncVals(vals, 0))
  }

  function EncValue(v: Value): bytes
    decreases v, 2
  {
    match v
    case Float(bits) => EncInt64(bits)
    case Str(s) => EncStr(s)
    case Document(elems) => EncDoc(elems)
    case Array(vals) => EncArray(vals)
    case Slice(data) => EncBinary(BINARY_GENERIC, data)
    case Binary(kind, data) => EncBinary(kind, data)
    case Undefined => []
    case ObjectId(id) => id
    case Bool(b) => [if b then 1 else 0]
    case Date(ms) => EncInt64(ms)
    case Null => []
    case RegEx(pattern, options) => EncCStr(pattern) + EncCStr(options)
    case DBPointer(ns, id) => EncStr(ns) + id
    case Code(code) => EncStr(code)
    case Symbol(s) => EncStr(s)
    case CodeWithScope(code, scope) =>
      EncInt32(|EncStr(code) + EncDoc(scope)| + 4) + (EncStr(code) + EncDoc(scope))
    case Int32(n) => EncInt32(n)
    case Timestamp(t) => EncInt64(t)
    case Int64(n) => EncInt64(n)
    case Decimal(l, h) => EncInt64(l) + EncInt64(h)
    case MinKey => []
    case MaxKey => []
  }

  // ---- Decoding

  // A read ends with a value and the next position, or in a panic.
  datatype Read<+T> = Ok(value: T, i: nat) | Panic

  function Unsigned(b: bytes, i: nat, n: nat): nat
    requires i + n <= |b|
    decreases n
  {
    if n == 0 then 0 else b[i] as int + 256 * Unsigned(b, i + 1, n - 1)
  }

  function Signed(u: nat, half: nat): int {
    if u >= half then u - 2 * half else u
  }

  function ReadByte(b: bytes, i: nat): Read<byte> {
    if i < |b| then Ok(b[i], i + 1) else Panic
  }

  function ReadBytes(b: bytes, i: nat, length: int): Read<bytes> {
    if length < 0 || i + length > |b| then Panic else Ok(b[i..i + length], i + length)
  }

  function ReadInt32(b: bytes, i: nat): (r: Read<int>)
    ensures r.Ok? ==> r.i == i + 4 <= |b| && -TWO_31 <= r.value < TWO_31
  {
    if i + 4 > |b| then Panic else
      UnsignedBound(b, i, 4);
      Ok(Signed(Unsigned(b, i, 4), TWO_31), i + 4)
  }

  function ReadInt64(b: bytes, i: nat): Read<int> {
    if i + 8 > |b| then Panic else Ok(Signed(Unsigned(b, i, 8), TWO_63), i + 8)
  }

  function Power256(n: nat): nat {
    if n == 0 then 1 else 256 * Power256(n - 1)
  }

  lemma {:induction false} UnsignedBound(b: bytes, i: nat, n: nat)
    requires i + n <= |b|
    ensures Unsigned(b, i, n) < Power256(n)
    ensures n == 4 ==> Unsigned(b, i, n) < TWO_32
    decreases n
  {
    if n > 0 {
      UnsignedBound(b, i + 1, n - 1);
    }
    assert Power256(4) == TWO_32;
  }

  // The position of the first zero byte from i on, or the length.
  function FindZero(b: bytes, i: nat): (k: nat)
    requires i <= |b|
    ensures i <= k <= |b| && (k < |b| ==> b[k] == 0)
    decreases |b| - i
  {
    if i == |b| || b[i] == 0 then i else FindZero(b, i + 1)
  }

  function ReadCStr(b: bytes, i: nat): (r: Read<bytes>)
    ensures r.Ok? ==> i < r.i <= |b|
  {
    if i > |b| then Panic else
      var k := FindZero(b, i);
      if k == |b| then Panic else Ok(b[i..k], k + 1)
  }

  // Go's int32 subtraction, which wraps around.
  function Minus32(x: int, y: int): int {
    if x - y < -TWO_31 then x - y + TWO_32 else x - y
  }

  function ReadStr(b: bytes, i: nat): (r: Read<bytes>)
    ensures r.Ok? ==> i < r.i <= |b|
  {
    var l := ReadInt32(b, i);
    if l.Panic? then Panic else
      var s := ReadBytes(b, l.i, Minus32(l.value, 1));
      if s.Panic? then Panic else
        var z := ReadByte(b, s.i);
        if z.Panic? || z.value != 0 then Panic else Ok(s.value, z.i)
  }

  function ReadBinary(b: bytes, i: nat): (r: Read<Value>)
    ensures r.Ok? ==> i < r.i <= |b|
  {
    var l := ReadInt32(b, i);
    if l.Panic? then Panic else
      var k := ReadByte(b, l.i);
      if k.Panic? then Panic
      else if k.value == BINARY_OLD && l.value > 4 then
        var rl := ReadInt32(b, k.i);
        if rl.Panic? || rl.value != l.value - 4 then Panic else
          var d := ReadBytes(b, rl.i, rl.value);
          if d.Panic? then Panic else Ok(Slice(d.value), d.i)
      else
        var d := ReadBytes(b, k.i, l.value);
        if d.Panic? then Panic
        else Ok(if k.value == BINARY_OLD || k.value == BINARY_GENERIC then Slice(d.value)
          else Binary(k.value, d.value), d.i)
  }

  function Then<T, U>(r: Read<T>, f: T -> U): Read<U> {
    if r.Panic? then Panic else Ok(f(r.value), r.i)
  }

  function ReadBool(b: bytes, i: nat): Read<bool> {
    var r := ReadByte(b, i);
    if r.Panic? || r.value > 1 then Panic else Ok(r.value == 1, r.i)
  }

  // Reads the value of an element of this kind.
  function ReadValue(kind: byte, b: bytes, i: nat): (r: Read<Value>)
    ensures r.Ok? ==> i <= r.i
    decreases |b| - i, 3
  {
    if kind == FLOAT64 then Then(ReadInt64(b, i), x => Float(x))
    else if kind == STRING then Then(ReadStr(b, i), s => Str(s))
    else if kind == DOCUMENT then Then(ReadDoc(b, i), elems => Document(elems))
    else if kind == ARRAY then Then(ReadArray(b, i), vals => Array(vals))
    else if kind == BINARY then ReadBinary(b, i)
    else if kind == UNDEFINED then Ok(Undefined, i)
    else if kind == OBJECT_ID then Then(ReadBytes(b, i, 12), id => ObjectId(id))
    else if kind == BOOL then Then(ReadBool(b, i), x => Bool(x))
    else if kind == DATETIME then Then(ReadInt64(b, i), ms => Date(ms))
    else if kind == NIL then Ok(Null, i)
    else if kind == REGEX then
      var p := ReadCStr(b, i);
      if p.Panic? then Panic else Then(ReadCStr(b, p.i), o => RegEx(p.value, o))
    else if kind == DB_POINTER then
      var ns := ReadStr(b, i);
      if ns.Panic? then Panic else Then(ReadBytes(b, ns.i, 12), id => DBPointer(ns.value, id))
    else if kind == JAVASCRIPT then Then(ReadStr(b, i), s => Code(s))
    else if kind == SYMBOL then Then(ReadStr(b, i), s => Symbol(s))
    else if kind == JAVASCRIPT_WITH_SCOPE then ReadScoped(b, i)
    else if kind == INT32 then Then(ReadInt32(b, i), n => Int32(n))
    else if kind == TIMESTAMP then Then(ReadInt64(b, i), t => Timestamp(t))
    else if kind == INT64 then Then(ReadInt64(b, i), n => Int64(n))
    else if kind == DECIMAL128 then
      var l := ReadInt64(b, i);
      if l.Panic? then Panic else Then(ReadInt64(b, l.i), h => Decimal(l.value, h))
    else if kind == MAX_KEY then Ok(MaxKey, i)
    else if kind == MIN_KEY then Ok(MinKey, i)
    else Panic
  }

  // JavaScript with a scope: the outer length must be what code and scope took.
  function ReadScoped(b: bytes, i: nat): (r: Read<Value>)
    ensures r.Ok? ==> i < r.i <= |b|
    decreases |b| - i, 2
  {
    var l := ReadInt32(b, i);
    if l.Panic? then Panic else
      var code := ReadStr(b, l.i);
      if code.Panic? then Panic else
        var scope := ReadDoc(b, code.i);
        if scope.Panic? || scope.i != i + l.value then Panic else Ok(CodeWithScope(code.value, scope.value), scope.i)
  }

  // The end position that a length slot at i announces, if it makes sense.
  function FrameEnd(b: bytes, i: nat): (r: Read<()>)
    ensures r.Ok? ==> i + 4 < r.i <= |b| && b[r.i - 1] == 0
  {
    var l := ReadInt32(b, i);
    if l.Panic? then Panic else
      var end := l.value + l.i - 4;
      if end <= l.i || end > |b| || b[end - 1] != 0 then Panic else Ok((), end)
  }

  function ReadDoc(b: bytes, i: nat): (r: Read<seq<Elem>>)
    ensures r.Ok? ==> i < r.i <= |b|
    decreases |b| - i, 1
  {
    var end := FrameEnd(b, i);
    if end.Panic? then Panic else ReadElems(b, i + 4, end.i)
  }

  function ReadElems(b: bytes, i: nat, end: nat): (r: Read<seq<Elem>>)
    requires i < end <= |b|
    ensures r.Ok? ==> r.i == end
    decreases |b| - i, 0
  {
    if b[i] == 0 then
      if i + 1 != end then Panic else Ok([], i + 1)
    else
      var name := ReadCStr(b, i + 1);
      if name.Panic? || name.i >= end then Panic else
        var v := ReadValue(b[i], b, name.i);
        if v.Panic? || v.i >= end then Panic else
          var rest := ReadElems(b, v.i, end);
          if rest.Panic? then Panic else Ok([Elem(name.value, v.value)] + rest.value, rest.i)
  }

  function ReadArray(b: bytes, i: nat): (r: Read<seq<Value>>)
    ensures r.Ok? ==> i < r.i <= |b|
    decreases |b| - i, 1
  {
    var end := FrameEnd(b, i);
    if end.Panic? then Panic else ReadVals(b, i + 4, end.i)
  }

  // The names of array elements are skipped, within the array.
  function ReadVals(b: bytes, i: nat, end: nat): (r: Read<seq<Value>>)
    requires i < end <= |b|
    ensures r.Ok? ==> r.i == end
    decreases |b| - i, 0
  {
    if b[i] == 0 then
      if i + 1 != end then Panic else Ok([], i + 1)
    else
      var k := FindZero(b, i + 1);
      if k >= end then Panic else
        var v := ReadValue(b[i], b, k + 1);
        if v.Panic? || v.i >= end then Panic else
          var rest := ReadVals(b, v.i, end);
          if rest.Panic? then Panic else Ok([v.value] + rest.value, rest.i)
  }

  lemma FourUnsigned(b: bytes, i: nat)
    requires i + 4 <= |b|
    ensures Unsigned(b, i, 4) ==
      b[i] as int + b[i + 1] as int * 256 + b[i + 2] as int * 65536 + b[i + 3] as int * 16777216
  {
    assert Unsigned(b, i + 2, 2) == b[i + 2] as int + 256 * (b[i + 3] as int);
  }
}

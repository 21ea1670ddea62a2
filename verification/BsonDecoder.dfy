/** The decoder: a cursor over the input that every reader advances. */
module BsonDecoder {
  import opened Bytes
  import opened BsonValue
  import BsonSkip

  // The outcome of a reader that left the cursor at i; a panic ends the decoding.
  function Outcome<T>(ok: bool, value: T, i: nat): Read<T> {
    if ok then Ok(value, i) else Panic
  }

  function Prepend<T>(done: seq<T>, r: Read<seq<T>>): Read<seq<T>> {
    if r.Panic? then Panic else Ok(done + r.value, r.i)
  }

  lemma PrependNothing<T>(r: Read<seq<T>>)
    ensures Prepend([], r) == r
  {
    if r.Ok? {
      assert [] + r.value == r.value;
    }
  }

  lemma PrependMore<T>(done: seq<T>, x: T, r: Read<seq<T>>)
    ensures Prepend(done, Prepend([x], r)) == Prepend(done + [x], r)
  {
    if r.Ok? {
      assert done + ([x] + r.value) == done + [x] + r.value;
    }
  }

  class Decoder {
    const buf: bytes
    var i: nat

    constructor (buf: bytes)
      ensures this.buf == buf && i == 0
    {
      this.buf, i := buf, 0;
    }

    method TakeByte() returns (ok: bool, x: byte)
      modifies this
      ensures Outcome(ok, x, i) == ReadByte(buf, old(i))
    {
      i := i + 1;
      if i > |buf| {
        return false, 0;
      }
      return true, buf[i - 1];
    }

    method TakeBytes(length: int) returns (ok: bool, s: bytes)
      modifies this
      ensures Outcome(ok, s, i) == ReadBytes(buf, old(i), length)
    {
      if length < 0 {
        return false, [];
      }
      var start := i;
      i := i + length;
      if i > |buf| {
        return false, [];
      }
      return true, buf[start..start + length];
    }

    method TakeInt32() returns (ok: bool, x: int)
      modifies this
      ensures Outcome(ok, x, i) == ReadInt32(buf, old(i))
    {
      var s;
      ok, s := TakeBytes(4);
      if !ok {
        return false, 0;
      }
      FourUnsigned(buf, old(i));
      assert s == buf[old(i)..old(i) + 4];
      var u := s[0] as int + s[1] as int * 256 + s[2] as int * 65536 + s[3] as int * 16777216;
      x := if u >= TWO_31 then u - TWO_32 else u;
    }

    method TakeInt64() returns (ok: bool, x: int)
      modifies this
      ensures Outcome(ok, x, i) == ReadInt64(buf, old(i))
    {
      hide Unsigned;
      var s;
      ok, s := TakeBytes(8);
      if !ok {
        return false, 0;
      }
      EightUnsigned(buf, old(i));
      assert s == buf[old(i)..old(i) + 8];
      var low := s[0] as int + s[1] as int * 256 + s[2] as int * 65536 + s[3] as int * 16777216;
      var high := s[4] as int + s[5] as int * 256 + s[6] as int * 65536 + s[7] as int * 16777216;
      var u := low + TWO_32 * high;
      x := if u >= TWO_63 then u - TWO_64 else u;
    }

    method TakeCStr() returns (ok: bool, s: bytes)
      requires i <= |buf|
      modifies this
      ensures Outcome(ok, s, i) == ReadCStr(buf, old(i))
    {
      var start, end := i, i;
      while end != |buf| && buf[end] != 0
        invariant start <= end <= |buf| && FindZero(buf, start) == FindZero(buf, end)
      {
        end := end + 1;
      }
      i := end + 1;
      if i > |buf| {
        return false, [];
      }
      return true, buf[start..end];
    }

    method TakeStr() returns (ok: bool, s: bytes)
      modifies this
      ensures Outcome(ok, s, i) == ReadStr(buf, old(i))
    {
      hide ReadInt32;
      var l, z;
      ok, l := TakeInt32();
      if !ok {
        return false, [];
      }
      ok, s := TakeBytes(Minus32(l, 1));
      if !ok {
        return false, [];
      }
      ok, z := TakeByte();
      ok := ok && z == 0;
    }

    method TakeBinary() returns (ok: bool, v: Value)
      modifies this
      ensures Outcome(ok, v, i) == ReadBinary(buf, old(i))
    {
      hide ReadInt32;
      v := Null;
      var l, kind, rl, data;
      ok, l := TakeInt32();
      if !ok {
        return;
      }
      ok, kind := TakeByte();
      if !ok {
        return;
      }
      if kind == BINARY_OLD && l > 4 {
        ok, rl := TakeInt32();
        if !ok || rl != l - 4 {
          return false, Null;
        }
        l := rl;
      }
      ok, data := TakeBytes(l);
      v := if kind == BINARY_OLD || kind == BINARY_GENERIC then Slice(data) else Binary(kind, data);
    }

    method TakeBool() returns (ok: bool, x: bool)
      modifies this
      ensures Outcome(ok, x, i) == ReadBool(buf, old(i))
    {
      var b;
      ok, b := TakeByte();
      ok, x := ok && b <= 1, b == 1;
    }

    // The announced end of a document or array; the cursor moves past the length.
    method OpenFrame() returns (ok: bool, end: nat)
      modifies this
      ensures ok <==> FrameEnd(buf, old(i)).Ok?
      ensures ok ==> end == FrameEnd(buf, old(i)).i && i == old(i) + 4 < end <= |buf|
    {
      hide Unsigned;
      var l;
      ok, l := TakeInt32();
      if !ok {
        return false, 0;
      }
      var e := l + i - 4;
      if e <= i || e > |buf| || buf[e - 1] != 0 {
        return false, 0;
      }
      end := e;
    }

    method TakeDoc() returns (ok: bool, elems: seq<Elem>)
      modifies this
      ensures Outcome(ok, elems, i) == ReadDoc(buf, old(i))
      decreases |buf| - i, 1
    {
      hide FrameEnd, ReadElems;
      var end;
      ok, end := OpenFrame();
      if !ok {
        return false, [];
      }
      ok, elems := TakeElems(end);
    }

    method TakeElems(end: nat) returns (ok: bool, elems: seq<Elem>)
      requires i < end <= |buf|
      modifies this
      ensures Outcome(ok, elems, i) == ReadElems(buf, old(i), end)
      decreases |buf| - i, 0
    {
      hide ReadValue, ReadCStr, ReadElems;
      elems := [];
      PrependNothing(ReadElems(buf, i, end));
      while buf[i] != 0
        invariant old(i) <= i < end
        invariant ReadElems(buf, old(i), end) == Prepend(elems, ReadElems(buf, i, end))
        decreases |buf| - i
      {
        ghost var at := i;
        ElemsUnfold(buf, at, end);
        var kind, name, v;
        ok, kind := TakeByte();
        ok, name := TakeCStr();
        if !ok || i >= end {
          return false, [];
        }
        ok, v := TakeValue(kind);
        if !ok || i >= end {
          return false, [];
        }
        PrependMore(elems, Elem(name, v), ReadElems(buf, i, end));
        elems := elems + [Elem(name, v)];
      }
      ElemsUnfold(buf, i, end);
      assert elems + [] == elems;
      i := i + 1;
      ok := i == end;
    }

    method TakeArray() returns (ok: bool, vals: seq<Value>)
      modifies this
      ensures Outcome(ok, vals, i) == ReadArray(buf, old(i))
      decreases |buf| - i, 1
    {
      hide FrameEnd, ReadVals;
      var end;
      ok, end := OpenFrame();
      if !ok {
        return false, [];
      }
      ok, vals := TakeVals(end);
    }

    method TakeVals(end: nat) returns (ok: bool, vals: seq<Value>)
      requires i < end <= |buf|
      modifies this
      ensures Outcome(ok, vals, i) == ReadVals(buf, old(i), end)
      decreases |buf| - i, 0
    {
      hide ReadValue, ReadVals;
      vals := [];
      PrependNothing(ReadVals(buf, i, end));
      while buf[i] != 0
        invariant old(i) <= i < end
        invariant ReadVals(buf, old(i), end) == Prepend(vals, ReadVals(buf, i, end))
        decreases |buf| - i
      {
        ghost var at := i;
        ValsUnfold(buf, at, end);
        var kind, v;
        ok, kind := TakeByte();
        SkipName(end);
        if i >= end {
          return false, [];
        }
        i := i + 1;
        ok, v := TakeValue(kind);
        if !ok || i >= end {
          return false, [];
        }
        PrependMore(vals, v, ReadVals(buf, i, end));
        vals := vals + [v];
      }
      ValsUnfold(buf, i, end);
      assert vals + [] == vals;
      i := i + 1;
      ok := i == end;
    }

    // Moves to the next zero byte, but not past end.
    method SkipName(end: nat)
      requires i <= end <= |buf|
      modifies this
      ensures old(i) <= i <= end && (i < end <==> FindZero(buf, old(i)) < end)
      ensures i < end ==> i == FindZero(buf, old(i))
    {
      while i < end && buf[i] != 0
        invariant old(i) <= i <= end && FindZero(buf, i) == FindZero(buf, old(i))
      {
        i := i + 1;
      }
    }

    method TakeScoped() returns (ok: bool, v: Value)
      modifies this
      ensures Outcome(ok, v, i) == ReadScoped(buf, old(i))
      decreases |buf| - i, 2
    {
      hide ReadInt32, ReadStr, ReadDoc;
      v := Null;
      var start := i;
      var l, code, scope;
      ok, l := TakeInt32();
      if !ok {
        return;
      }
      ok, code := TakeStr();
      if !ok {
        return;
      }
      ok, scope := TakeDoc();
      ok, v := ok && i == start + l, CodeWithScope(code, scope);
    }

    method TakeValue(kind: byte) returns (ok: bool, v: Value)
      requires i <= |buf|
      modifies this
      ensures Outcome(ok, v, i) == ReadValue(kind, buf, old(i))
      decreases |buf| - i, 3
    {
      hide ReadInt32, ReadInt64, ReadStr, ReadBinary, ReadScoped, ReadCStr, ReadDoc, ReadArray, ReadBool;
      v := Null;
      ok := true;
      var s, x, y, t;
      if kind == FLOAT64 {
        ok, x := TakeInt64();
        v := Float(x);
      } else if kind == STRING {
        ok, s := TakeStr();
        v := Str(s);
      } else if kind == DOCUMENT {
        var elems;
        ok, elems := TakeDoc();
        v := Document(elems);
      } else if kind == ARRAY {
        var vals;
        ok, vals := TakeArray();
        v := Array(vals);
      } else if kind == BINARY {
        ok, v := TakeBinary();
      } else if kind == UNDEFINED {
        v := Undefined;
      } else if kind == OBJECT_ID {
        ok, s := TakeBytes(12);
        v := ObjectId(s);
      } else if kind == BOOL {
        var b;
        ok, b := TakeBool();
        v := Bool(b);
      } else if kind == DATETIME {
        ok, x := TakeInt64();
        v := Date(x);
      } else if kind == NIL {
      } else if kind == REGEX {
        ok, v := TakeRegEx();
      } else if kind == DB_POINTER {
        ok, s := TakeStr();
        if ok {
          ok, t := TakeBytes(12);
          v := DBPointer(s, t);
        }
      } else if kind == JAVASCRIPT {
        ok, s := TakeStr();
        v := Code(s);
      } else if kind == SYMBOL {
        ok, s := TakeStr();
        v := Symbol(s);
      } else if kind == JAVASCRIPT_WITH_SCOPE {
        ok, v := TakeScoped();
      } else if kind == INT32 {
        ok, x := TakeInt32();
        v := Int32(x);
      } else if kind == TIMESTAMP {
        ok, x := TakeInt64();
        v := Timestamp(x);
      } else if kind == INT64 {
        ok, x := TakeInt64();
        v := Int64(x);
      } else if kind == DECIMAL128 {
        ok, x := TakeInt64();
        if ok {
          ok, y := TakeInt64();
          v := Decimal(x, y);
        }
      } else if kind == MAX_KEY {
        v := MaxKey;
      } else if kind == MIN_KEY {
        v := MinKey;
      } else {
        ok := false;
      }
    }

    method TakeRegEx() returns (ok: bool, v: Value)
      requires i <= |buf|
      modifies this
      ensures Outcome(ok, v, i) == ReadValue(REGEX, buf, old(i))
    {
      hide ReadCStr;
      v := Null;
      var p, o;
      ok, p := TakeCStr();
      if ok {
        ok, o := TakeCStr();
        v := RegEx(p, o);
      }
    }

    // Moves past an element without reading it, to where reading it would end.
    method Drop(kind: byte) returns (ok: bool)
      modifies this
      ensures Outcome(ok, (), i) == BsonSkip.DropElem(kind, buf, old(i))
      ensures var r := ReadValue(kind, buf, old(i)); old(i) <= |buf| && r.Ok? ==> ok && i == r.i
    {
      hide BsonSkip.ElementSize, ReadValue;
      ghost var readable := i <= |buf| && ReadValue(kind, buf, i).Ok?;
      if readable {
        BsonSkip.SkipAgrees(kind, buf, i);
      }
      var size := BsonSkip.Measure(kind, buf, i);
      if size.SizeError? || i + size.n > |buf| {
        return false;
      }
      i := i + size.n;
      ok := true;
    }
  }

  lemma EightUnsigned(b: bytes, i: nat)
    requires i + 8 <= |b|
    ensures Unsigned(b, i, 8) == Unsigned(b, i, 4) + TWO_32 * Unsigned(b, i + 4, 4)
    ensures Unsigned(b, i, 4) ==
      b[i] as int + b[i + 1] as int * 256 + b[i + 2] as int * 65536 + b[i + 3] as int * 16777216
    ensures Unsigned(b, i + 4, 4) ==
      b[i + 4] as int + b[i + 5] as int * 256 + b[i + 6] as int * 65536 + b[i + 7] as int * 16777216
  {
    FourUnsigned(b, i);
    FourUnsigned(b, i + 4);
    assert Unsigned(b, i + 2, 6) == b[i + 2] as int + 256 * (b[i + 3] as int) + 65536 * Unsigned(b, i + 4, 4);
    assert Unsigned(b, i, 8) == b[i] as int + 256 * (b[i + 1] as int) + 65536 * Unsigned(b, i + 2, 6);
  }

  // One turn of the document loop.
  lemma ElemsUnfold(b: bytes, i: nat, end: nat)
    requires i < end <= |b|
    ensures b[i] == 0 ==> ReadElems(b, i, end) == if i + 1 != end then Panic else Ok([], i + 1)
    ensures b[i] != 0 ==>
      var name := ReadCStr(b, i + 1);
      if name.Panic? || name.i >= end then ReadElems(b, i, end) == Panic
      else
        var v := ReadValue(b[i], b, name.i);
        if v.Panic? || v.i >= end then ReadElems(b, i, end) == Panic
        else ReadElems(b, i, end) == Prepend([Elem(name.value, v.value)], ReadElems(b, v.i, end))
  {
  }

  lemma ValsUnfold(b: bytes, i: nat, end: nat)
    requires i < end <= |b|
    ensures b[i] == 0 ==> ReadVals(b, i, end) == if i + 1 != end then Panic else Ok([], i + 1)
    ensures b[i] != 0 ==>
      var k := FindZero(b, i + 1);
      if k >= end then ReadVals(b, i, end) == Panic
      else
        var v := ReadValue(b[i], b, k + 1);
        if v.Panic? || v.i >= end then ReadVals(b, i, end) == Panic
        else ReadVals(b, i, end) == Prepend([v.value], ReadVals(b, v.i, end))
  {
  }
}

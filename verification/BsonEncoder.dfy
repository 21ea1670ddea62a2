/** The encoder: bytes are appended, and length slots patched when their contents are known. */
module BsonEncoder {
  import opened Bytes
  import opened BsonValue

  // Every object id has twelve bytes; the encoder panics at the first that has not.
  predicate IdsFit(v: Value)
    decreases v, 1
  {
    match v
    case Document(elems) => ElemIdsFit(elems)
    case Array(vals) => ValIdsFit(vals)
    case ObjectId(id) => |id| == 12
    case DBPointer(_, id) => |id| == 12
    case CodeWithScope(_, scope) => ElemIdsFit(scope)
    case _ => true
  }

  predicate ElemIdsFit(elems: seq<Elem>)
    decreases elems, 0
  {
    elems == [] || (IdsFit(elems[0].value) && ElemIdsFit(elems[1..]))
  }

  predicate ValIdsFit(vals: seq<Value>)
    decreases vals, 0
  {
    vals == [] || (IdsFit(vals[0]) && ValIdsFit(vals[1..]))
  }

  // Encoding panics if and only if some id, however deep, is not of 12 bytes: a value holds
  // such an id if it is one or one of its elements holds one.
  lemma {:induction false} EveryIdFits(elems: seq<Elem>, vals: seq<Value>)
    ensures IdsFit(Document(elems)) <==> forall k :: 0 <= k < |elems| ==> IdsFit(elems[k].value)
    ensures IdsFit(Array(vals)) <==> forall k :: 0 <= k < |vals| ==> IdsFit(vals[k])
    decreases |elems| + |vals|
  {
    if elems != [] {
      EveryIdFits(elems[1..], vals);
    } else if vals != [] {
      EveryIdFits(elems, vals[1..]);
    }
  }

  class Encoder {
    var out: bytes

    constructor ()
      ensures out == []
    {
      out := [];
    }

    method AddBytes(v: bytes)
      modifies this
      ensures out == old(out) + v
    {
      out := out + v;
    }

    method ReserveInt32() returns (pos: nat)
      modifies this
      ensures pos == |old(out)| && |out| == pos + 4 && out[..pos] == old(out)
    {
      pos := |out|;
      AddBytes([0, 0, 0, 0]);
    }

    method SetInt32(pos: nat, v: int)
      requires pos + 4 <= |out|
      modifies this
      ensures out == old(out)[..pos] + EncInt32(v) + old(out)[pos + 4..]
    {
      ghost var before := out;
      var w := [(v % 256) as byte, (v / 256 % 256) as byte, (v / 65536 % 256) as byte, (v / 16777216 % 256) as byte];
      assert w == EncInt32(v) by { FourBytes(v); }
      out := out[pos := w[0]];
      out := out[pos + 1 := w[1]];
      out := out[pos + 2 := w[2]];
      out := out[pos + 3 := w[3]];
      assert out[pos..pos + 4] == w;
      assert out == before[..pos] + w + before[pos + 4..];
    }

    method AddElemName(kind: byte, name: bytes)
      modifies this
      ensures out == old(out) + [kind] + EncCStr(name)
    {
      AddBytes([kind]);
      AddBytes(name);
      AddBytes([0]);
    }

    method AddCStr(v: bytes)
      modifies this
      ensures out == old(out) + EncCStr(v)
    {
      AddBytes(v);
      AddBytes([0]);
    }

    method AddStr(v: bytes)
      modifies this
      ensures out == old(out) + EncStr(v)
    {
      AddBytes(EncInt32(|v| + 1));
      AddCStr(v);
    }

    method AddBinary(subtype: byte, v: bytes)
      modifies this
      ensures out == old(out) + EncBinary(subtype, v)
    {
      hide LittleEndian;
      if subtype == 0x02 {
        AddBytes(EncInt32(|v| + 4));
        AddBytes([subtype]);
        AddBytes(EncInt32(|v|));
      } else {
        AddBytes(EncInt32(|v|));
        AddBytes([subtype]);
      }
      AddBytes(v);
    }

    method AddDoc(elems: seq<Elem>) returns (ok: bool)
      modifies this
      ensures ok <==> ElemIdsFit(elems)
      ensures ok ==> out == old(out) + EncDoc(elems)
      decreases elems, 2
    {
      hide EncElems, LittleEndian, ElemIdsFit;
      var start := ReserveInt32();
      ok := AddElems(elems);
      if ok {
        Close(start, EncElems(elems));
      }
    }

    // The final zero and the length of a frame that began at start.
    method Close(start: nat, ghost body: bytes)
      requires start + 4 <= |out| && out[start + 4..] == body
      modifies this
      ensures out == old(out)[..start] + Framed(body)
    {
      hide LittleEndian;
      ghost var before := out;
      AddBytes([0]);
      SetInt32(start, |out| - start);
      assert (before + [0])[..start] == before[..start];
      assert (before + [0])[start + 4..] == body + [0];
    }

    method AddElems(elems: seq<Elem>) returns (ok: bool)
      modifies this
      ensures ok <==> ElemIdsFit(elems)
      ensures ok ==> out == old(out) + EncElems(elems)
      decreases elems, 1
    {
      hide EncElem, IdsFit;
      for k := 0 to |elems|
        invariant ElemIdsFit(elems) <==> ElemIdsFit(elems[k..])
        invariant old(out) + EncElems(elems) == out + EncElems(elems[k..])
      {
        assert elems[k..][0] == elems[k] && elems[k..][1..] == elems[k + 1..];
        ghost var before := out;
        ok := AddElem(elems[k].name, elems[k].value);
        if !ok {
          return;
        }
        assert before + EncElems(elems[k..]) == out + EncElems(elems[k + 1..]);
      }
      ok := true;
    }

    method AddArray(vals: seq<Value>) returns (ok: bool)
      modifies this
      ensures ok <==> ValIdsFit(vals)
      ensures ok ==> out == old(out) + EncArray(vals)
      decreases vals, 2
    {
      hide EncVals, LittleEndian, ValIdsFit;
      var start := ReserveInt32();
      ok := AddSlice(vals);
      if ok {
        Close(start, EncVals(vals, 0));
      }
    }

    method AddSlice(vals: seq<Value>) returns (ok: bool)
      modifies this
      ensures ok <==> ValIdsFit(vals)
      ensures ok ==> out == old(out) + EncVals(vals, 0)
      decreases vals, 1
    {
      hide EncElem, IdsFit, ItoaBytes;
      for k := 0 to |vals|
        invariant ValIdsFit(vals) <==> ValIdsFit(vals[k..])
        invariant old(out) + EncVals(vals, 0) == out + EncVals(vals[k..], k)
      {
        assert vals[k..][0] == vals[k] && vals[k..][1..] == vals[k + 1..];
        ghost var before := out;
        ok := AddElem(ItoaBytes(k), vals[k]);
        if !ok {
          return;
        }
        assert before + EncVals(vals[k..], k) == out + EncVals(vals[k + 1..], k + 1);
      }
      ok := true;
    }

    method AddElem(name: bytes, v: Value) returns (ok: bool)
      modifies this
      ensures ok <==> IdsFit(v)
      ensures ok ==> out == old(out) + EncElem(name, v)
      decreases v, 3
    {
      hide EncDoc, EncArray, EncStr, EncBinary, LittleEndian, EncValue, ElemIdsFit, ValIdsFit;
      if AsArray(name, v) {
        AddElemName(ARRAY, name);
        AddInts(v.data);
        return true;
      }
      AddElemName(KindOf(v), name);
      ok := AddValue(v);
    }

    // A byte slice as an array of numbers.
    method AddInts(data: bytes)
      modifies this
      ensures out == old(out) + EncInts(data)
    {
      hide EncIntElems, LittleEndian, EncCStr, ItoaBytes;
      var start := ReserveInt32();
      ghost var before := out;
      NoInts(|data|);
      for k := 0 to |data|
        invariant before + EncIntElems(data, 0) == out + EncIntElems(data[k..], k)
      {
        ghost var sofar := out;
        IntsStep(data, k);
        AddElemName(INT32, ItoaBytes(k));
        AddBytes(EncInt32(data[k] as int));
        assert sofar + EncIntElems(data[k..], k) == out + EncIntElems(data[k + 1..], k + 1);
      }
      assert data[|data|..] == [] && out + [] == out;
      assert out[..start] == before[..start] && out[start + 4..] == EncIntElems(data, 0);
      Close(start, EncIntElems(data, 0));
    }

    method AddValue(v: Value) returns (ok: bool)
      modifies this
      ensures ok <==> IdsFit(v)
      ensures ok ==> out == old(out) + EncValue(v)
      decreases v, 2
    {
      hide EncDoc, EncArray, EncStr, EncBinary, LittleEndian, ElemIdsFit, ValIdsFit, EncCStr;
      ok := true;
      match v
      case Float(bits) => AddBytes(EncInt64(bits));
      case Str(s) => AddStr(s);
      case Document(elems) => ok := AddDoc(elems);
      case Array(vals) => ok := AddArray(vals);
      case Slice(data) => AddBinary(BINARY_GENERIC, data);
      case Binary(kind, data) => AddBinary(kind, data);
      case ObjectId(id) =>
        if |id| != 12 {
          return false;
        }
        AddBytes(id);
      case Bool(b) => AddBytes([if b then 1 else 0]);
      case Date(ms) => AddBytes(EncInt64(ms));
      case RegEx(pattern, options) =>
        AddCStr(pattern);
        AddCStr(options);
      case DBPointer(ns, id) =>
        AddStr(ns);
        if |id| != 12 {
          return false;
        }
        AddBytes(id);
      case Code(code) => AddStr(code);
      case Symbol(s) => AddStr(s);
      case CodeWithScope(code, scope) => ok := AddScoped(code, scope);
      case Int32(n) => AddBytes(EncInt32(n));
      case Timestamp(t) => AddBytes(EncInt64(t));
      case Int64(n) => AddBytes(EncInt64(n));
      case Decimal(l, h) =>
        AddBytes(EncInt64(l));
        AddBytes(EncInt64(h));
      case _ =>
    }

    method AddScoped(code: bytes, scope: seq<Elem>) returns (ok: bool)
      modifies this
      ensures ok <==> ElemIdsFit(scope)
      ensures ok ==> out == old(out) + EncValue(CodeWithScope(code, scope))
      decreases scope, 3
    {
      hide EncDoc, EncStr, LittleEndian, ElemIdsFit;
      ghost var before := out;
      var start := ReserveInt32();
      AddStr(code);
      ok := AddDoc(scope);
      if ok {
        assert out[..start] == before && out[start + 4..] == EncStr(code) + EncDoc(scope);
        SetInt32(start, |out| - start);
      }
    }
  }

  lemma NoInts(i: nat)
    ensures EncIntElems([], i) == []
  {
  }

  lemma IntsStep(data: bytes, k: nat)
    requires k < |data|
    ensures EncIntElems(data[k..], k) ==
      [INT32] + EncCStr(ItoaBytes(k)) + EncInt32(data[k] as int) + EncIntElems(data[k + 1..], k + 1)
  {
    assert data[k..][1..] == data[k + 1..];
  }

  lemma FourBytes(v: int)
    ensures EncInt32(v) ==
      [(v % 256) as byte, (v / 256 % 256) as byte, (v / 65536 % 256) as byte, (v / 16777216 % 256) as byte]
  {
    assert v / 65536 == v / 256 / 256 && v / 16777216 == v / 256 / 256 / 256;
    assert LittleEndian(v / 65536, 2) == [(v / 65536 % 256) as byte, (v / 16777216 % 256) as byte];
  }
}

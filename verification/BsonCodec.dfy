/** Marshalling followed by unmarshalling. */
module BsonCodec {
  import opened BsonValue
  import opened BsonRoundTrip
  import opened BsonEncoder
  import opened BsonDecoder

  lemma {:induction false} EncodableIds(v: Value)
    requires Encodable(v)
    ensures IdsFit(v)
    decreases v, 1
  {
    match v
    case Document(elems) => EncodableElemIds(elems);
    case Array(vals) => EncodableValIds(vals);
    case CodeWithScope(_, scope) => EncodableElemIds(scope);
    case _ =>
  }

  lemma {:induction false} EncodableElemIds(elems: seq<Elem>)
    requires AllEncodable(elems)
    ensures ElemIdsFit(elems)
    decreases elems, 0
  {
    if elems != [] {
      EncodableIds(elems[0].value);
      EncodableElemIds(elems[1..]);
    }
  }

  lemma {:induction false} EncodableValIds(vals: seq<Value>)
    requires ValsEncodable(vals)
    ensures ValIdsFit(vals)
    decreases vals, 0
  {
    if vals != [] {
      EncodableIds(vals[0]);
      EncodableValIds(vals[1..]);
    }
  }

  // The encoder's output, decoded, is the document again if and only if all of it survives.
  method MarshalUnmarshal(elems: seq<Elem>) returns (ok: bool, back: seq<Elem>)
    requires AllEncodable(elems) && |EncDoc(elems)| < TWO_31
    ensures ok && back == NormalElems(elems)
    ensures back == elems <==> ElemsSurvive(elems)
  {
    hide EncDoc, ReadDoc, AllEncodable, ElemIdsFit, NormalElems, ElemsSurvive;
    EncodableElemIds(elems);
    var e := new Encoder();
    ok := e.AddDoc(elems);
    var out := e.out;
    RoundTrip([], elems, []);
    assert [] + EncDoc(elems) + [] == EncDoc(elems) == out;
    var d := new Decoder(out);
    ok, back := d.TakeDoc();
  }
}

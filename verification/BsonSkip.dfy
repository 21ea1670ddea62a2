/** Skipping an element agrees with reading it. */
module BsonSkip {
  import opened Bytes
  import opened BsonValue

  datatype Size = Size(n: nat) | SizeError

  // getSize, which unlike readInt32 takes the four bytes as unsigned.
  function GetSize(b: bytes, offset: nat): (r: Size)
    ensures r.Size? ==> offset + 4 <= |b| && r.n < TWO_32
  {
    if offset + 4 > |b| then SizeError else
      UnsignedBound(b, offset, 4);
      Size(Unsigned(b, offset, 4))
  }

  // Past the next zero byte, or past the end of the buffer.
  function AfterZero(b: bytes, i: nat): (k: nat)
    ensures k > i
  {
    if i <= |b| then FindZero(b, i) + 1 else i + 1
  }

  function ElementSize(kind: byte, b: bytes, offset: nat): Size {
    if kind == FLOAT64 || kind == DATETIME || kind == TIMESTAMP || kind == INT64 then Size(8)
    else if kind == JAVASCRIPT || kind == SYMBOL || kind == STRING then
      var size := GetSize(b, offset);
      if size.SizeError? || size.n < 1 then SizeError
      else if offset + size.n + 4 > |b| then SizeError
      else if b[offset + size.n + 3] != 0 then SizeError
      else Size(size.n + 4)
    else if kind == ARRAY || kind == DOCUMENT then
      var size := GetSize(b, offset);
      if size.SizeError? || size.n < 5 then SizeError else size
    else if kind == BINARY then
      var size := GetSize(b, offset);
      if size.SizeError? then SizeError else Size(size.n + 5)
    else if kind == UNDEFINED || kind == NIL || kind == MAX_KEY || kind == MIN_KEY then Size(0)
    else if kind == OBJECT_ID then Size(12)
    else if kind == BOOL then Size(1)
    else if kind == REGEX then
      var end := AfterZero(b, AfterZero(b, offset));
      if end > |b| then SizeError else Size(end - offset)
    else if kind == DB_POINTER then
      var size := GetSize(b, offset);
      if size.SizeError? || size.n < 1 then SizeError else Size(size.n + 12 + 4)
    else if kind == JAVASCRIPT_WITH_SCOPE then
      var size := GetSize(b, offset);
      if size.SizeError? || size.n < 4 + 5 + 5 then SizeError else size
    else if kind == INT32 then Size(4)
    else if kind == DECIMAL128 then Size(16)
    else SizeError
  }

  // Moves past an element without reading it.
  function DropElem(kind: byte, b: bytes, i: nat): Read<()> {
    var size := ElementSize(kind, b, i);
    if size.SizeError? || i + size.n > |b| then Panic else Ok((), i + size.n)
  }

  method TakeSize(b: bytes, offset: nat) returns (size: Size)
    ensures size == GetSize(b, offset)
  {
    if offset + 4 > |b| {
      return SizeError;
    }
    UnsignedBound(b, offset, 4);
    var n := b[offset] as int + b[offset + 1] as int * 256 + b[offset + 2] as int * 65536 +
      b[offset + 3] as int * 16777216;
    FourUnsigned(b, offset);
    return Size(n);
  }

  // Two texts that end with a zero byte each.
  method MeasureRegEx(b: bytes, offset: nat) returns (size: Size)
    ensures size == ElementSize(REGEX, b, offset)
  {
    var end := offset;
    for k := 0 to 2
      invariant end >= offset
      invariant end ==
        if k == 0 then offset else if k == 1 then AfterZero(b, offset) else AfterZero(b, AfterZero(b, offset))
    {
      ghost var start := end;
      while end < |b| && b[end] != 0
        invariant start <= end && (start <= |b| ==> end <= |b| && FindZero(b, start) == FindZero(b, end))
        invariant start > |b| ==> end == start
      {
        end := end + 1;
      }
      end := end + 1;
    }
    return if end > |b| then SizeError else Size(end - offset);
  }

  // The size of an element by its kind and, for most kinds, the length it begins with.
  method Measure(kind: byte, b: bytes, offset: nat) returns (size: Size)
    ensures size == ElementSize(kind, b, offset)
  {
    hide GetSize, AfterZero;
    size := SizeError;
    if kind == FLOAT64 || kind == DATETIME || kind == TIMESTAMP || kind == INT64 {
      size := Size(8);
    } else if kind == JAVASCRIPT || kind == SYMBOL || kind == STRING {
      var length := TakeSize(b, offset);
      if length.Size? && length.n >= 1 {
        var n := length.n + 4;
        if offset + n <= |b| && b[offset + n - 1] == 0 {
          size := Size(n);
        }
      }
    } else if kind == ARRAY || kind == DOCUMENT {
      var length := TakeSize(b, offset);
      if length.Size? && length.n >= 5 {
        size := length;
      }
    } else if kind == BINARY {
      var length := TakeSize(b, offset);
      if length.Size? {
        size := Size(length.n + 5);
      }
    } else if kind == UNDEFINED || kind == NIL || kind == MAX_KEY || kind == MIN_KEY {
      size := Size(0);
    } else if kind == OBJECT_ID {
      size := Size(12);
    } else if kind == BOOL {
      size := Size(1);
    } else if kind == REGEX {
      size := MeasureRegEx(b, offset);
    } else if kind == DB_POINTER {
      var length := TakeSize(b, offset);
      if length.Size? && length.n >= 1 {
        size := Size(length.n + 12 + 4);
      }
    } else if kind == JAVASCRIPT_WITH_SCOPE {
      var length := TakeSize(b, offset);
      if length.Size? && length.n >= 4 + 5 + 5 {
        size := length;
      }
    } else if kind == INT32 {
      size := Size(4);
    } else if kind == DECIMAL128 {
      size := Size(16);
    }
  }

  // The signed and the unsigned reading of a length agree unless it is negative.
  lemma SameLength(b: bytes, i: nat)
    requires ReadInt32(b, i).Ok?
    ensures GetSize(b, i).Size?
    ensures GetSize(b, i).n ==
      if ReadInt32(b, i).value < 0 then ReadInt32(b, i).value + TWO_32 else ReadInt32(b, i).value
  {
    UnsignedBound(b, i, 4);
  }

  // A string that can be read has the size that skipping uses, even where the source's
  // int32 subtraction wraps.
  lemma StringSize(b: bytes, i: nat)
    requires ReadStr(b, i).Ok?
    ensures GetSize(b, i).Size? && GetSize(b, i).n >= 1
    ensures ReadStr(b, i).i == i + GetSize(b, i).n + 4 && b[ReadStr(b, i).i - 1] == 0
  {
    SameLength(b, i);
  }

  lemma FrameSize(b: bytes, i: nat)
    requires FrameEnd(b, i).Ok?
    ensures GetSize(b, i) == Size(FrameEnd(b, i).i - i) && GetSize(b, i).n >= 5
  {
    SameLength(b, i);
  }

  lemma BinarySize(b: bytes, i: nat)
    requires ReadBinary(b, i).Ok?
    ensures GetSize(b, i).Size? && ReadBinary(b, i).i == i + GetSize(b, i).n + 5
  {
    SameLength(b, i);
  }

  lemma CStrSize(b: bytes, i: nat)
    requires ReadCStr(b, i).Ok?
    ensures AfterZero(b, i) == ReadCStr(b, i).i
  {
  }

  lemma ScopedSize(b: bytes, i: nat)
    requires ReadScoped(b, i).Ok?
    ensures GetSize(b, i).Size? && GetSize(b, i).n >= 14 && ReadScoped(b, i).i == i + GetSize(b, i).n
  {
    hide ReadElems, ReadStr;
    SameLength(b, i);
    var code := ReadStr(b, i + 4);
    StringLonger(b, i + 4);
    assert FrameEnd(b, code.i).Ok?;
    FrameSize(b, code.i);
  }

  lemma StringLonger(b: bytes, i: nat)
    requires ReadStr(b, i).Ok?
    ensures ReadStr(b, i).i >= i + 5
  {
    StringSize(b, i);
  }

  // Whenever reading succeeds, skipping does too and stops at the same place.
  lemma SkipAgrees(kind: byte, b: bytes, i: nat)
    requires ReadValue(kind, b, i).Ok? && i <= |b|
    ensures DropElem(kind, b, i) == Ok((), ReadValue(kind, b, i).i)
  {
    hide ReadElems, ReadVals, ReadStr, ReadBinary, ReadScoped, ReadCStr, FrameEnd, GetSize, ReadInt64, AfterZero;
    var r := ReadValue(kind, b, i);
    Int64Size(b, i);
    Int64Size(b, i + 8);
    if kind == STRING || kind == SYMBOL || kind == JAVASCRIPT || kind == DB_POINTER {
      StringSize(b, i);
    } else if kind == DOCUMENT || kind == ARRAY {
      FrameSize(b, i);
    } else if kind == BINARY {
      BinarySize(b, i);
    } else if kind == REGEX {
      CStrSize(b, i);
      CStrSize(b, ReadCStr(b, i).i);
    } else if kind == JAVASCRIPT_WITH_SCOPE {
      ScopedSize(b, i);
    }
  }

  lemma Int64Size(b: bytes, i: nat)
    ensures ReadInt64(b, i).Ok? ==> ReadInt64(b, i).i == i + 8 <= |b|
  {
  }
}

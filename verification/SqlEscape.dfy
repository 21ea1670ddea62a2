/** Escaping in place, into room reserved at the end of a slice. */
module SqlEscape {
  import opened Bytes
  import opened SqlLiterals

  // A slice is the first length bytes of an array; the array is its capacity.
  method ReserveBuffer(buf: array<byte>, length: nat, appendSize: nat) returns (out: array<byte>, newSize: nat)
    requires length <= buf.Length
    ensures newSize == length + appendSize <= out.Length
    ensures if buf.Length >= newSize then out == buf else fresh(out) && out.Length == length + newSize
    ensures out[..length] == buf[..length]
  {
    newSize := length + appendSize;
    out := buf;
    if buf.Length < newSize {
      var newBuf := new byte[length * 2 + appendSize];
      forall k | 0 <= k < length {
        newBuf[k] := buf[k];
      }
      out := newBuf;
    }
  }

  lemma EscapeOneMore(v: bytes, i: nat, mode: Mode)
    requires i < |v|
    ensures Escape(v[..i + 1], mode) == Escape(v[..i], mode) + EscapeByte(v[i], mode)
    ensures |Escape(v[..i], mode)| <= 2 * i
  {
    assert v[..i + 1][..i] == v[..i];
    EscapeFits(v[..i], mode);
  }

  method PutPair(out: array<byte>, pos: nat, a: byte, b: byte) returns (end: nat)
    requires pos + 2 <= out.Length
    modifies out
    ensures end == pos + 2 && out[..end] == old(out[..pos]) + [a, b] && out[end..] == old(out[end..])
  {
    out[pos], out[pos + 1] := a, b;
    end := pos + 2;
  }

  method PutByte(out: array<byte>, pos: nat, a: byte) returns (end: nat)
    requires pos < out.Length
    modifies out
    ensures end == pos + 1 && out[..end] == old(out[..pos]) + [a] && out[end..] == old(out[end..])
  {
    out[pos] := a;
    end := pos + 1;
  }

  // The switch over one byte.
  method PutBackslashed(out: array<byte>, pos: nat, c: byte) returns (end: nat)
    requires pos + 2 <= out.Length
    modifies out
    ensures end == pos + |EscapeByte(c, Backslashes)| <= pos + 2
    ensures out[..end] == old(out[..pos]) + EscapeByte(c, Backslashes) && out[end..] == old(out[end..])
  {
    if c == NUL {
      end := PutPair(out, pos, BACKSLASH, DIGIT_0);
    } else if c == NEWLINE {
      end := PutPair(out, pos, BACKSLASH, LOWER_N);
    } else if c == RETURN {
      end := PutPair(out, pos, BACKSLASH, LOWER_R);
    } else if c == SUBSTITUTE {
      end := PutPair(out, pos, BACKSLASH, UPPER_Z);
    } else if c == QUOTE {
      end := PutPair(out, pos, BACKSLASH, QUOTE);
    } else if c == DOUBLE_QUOTE {
      end := PutPair(out, pos, BACKSLASH, DOUBLE_QUOTE);
    } else if c == BACKSLASH {
      end := PutPair(out, pos, BACKSLASH, BACKSLASH);
    } else {
      end := PutByte(out, pos, c);
    }
  }

  lemma After(now: bytes, before: bytes, end: nat, size: nat)
    requires end <= size <= |now| == |before| && now[end..] == before[end..]
    ensures now[size..] == before[size..]
  {
    assert now[size..] == now[end..][size - end..];
    assert before[size..] == before[end..][size - end..];
  }

  // Appends v escaped with backslashes; nothing is written past twice its length.
  method EscapeBackslash(buf: array<byte>, length: nat, v: bytes) returns (out: array<byte>, pos: nat)
    requires length <= buf.Length
    modifies buf
    ensures length <= pos <= out.Length && pos <= length + 2 * |v| && (out == buf || fresh(out))
    ensures out[..pos] == old(buf[..length]) + Escape(v, Backslashes)
    ensures out == buf ==> length + 2 * |v| <= buf.Length && out[length + 2 * |v|..] == old(buf[length + 2 * |v|..])
  {
    hide Escape, EscapeByte;
    pos := length;
    var newSize;
    out, newSize := ReserveBuffer(buf, length, |v| * 2);
    ghost var beyond := out[newSize..];
    NothingEscaped(v, Backslashes);
    for i := 0 to |v|
      invariant length <= pos <= length + 2 * i && out[..pos] == old(buf[..length]) + Escape(v[..i], Backslashes)
      invariant out[newSize..] == beyond
    {
      EscapeOneMore(v, i, Backslashes);
      ghost var before := out[..];
      pos := PutBackslashed(out, pos, v[i]);
      After(out[..], before, pos, newSize);
    }
    assert v[..|v|] == v;
  }

  // Appends v with its apostrophes doubled.
  method EscapeQuotes(buf: array<byte>, length: nat, v: bytes) returns (out: array<byte>, pos: nat)
    requires length <= buf.Length
    modifies buf
    ensures length <= pos <= out.Length && pos <= length + 2 * |v| && (out == buf || fresh(out))
    ensures out[..pos] == old(buf[..length]) + Escape(v, Quotes)
    ensures out == buf ==> length + 2 * |v| <= buf.Length && out[length + 2 * |v|..] == old(buf[length + 2 * |v|..])
  {
    hide Escape;
    pos := length;
    var newSize;
    out, newSize := ReserveBuffer(buf, length, |v| * 2);
    ghost var beyond := out[newSize..];
    NothingEscaped(v, Quotes);
    for i := 0 to |v|
      invariant length <= pos <= length + 2 * i && out[..pos] == old(buf[..length]) + Escape(v[..i], Quotes)
      invariant out[newSize..] == beyond
    {
      EscapeOneMore(v, i, Quotes);
      var c := v[i];
      ghost var before := out[..];
      if c == QUOTE {
        pos := PutPair(out, pos, QUOTE, QUOTE);
      } else {
        pos := PutByte(out, pos, c);
      }
      After(out[..], before, pos, newSize);
    }
    assert v[..|v|] == v;
  }

  lemma NothingEscaped(v: bytes, mode: Mode)
    ensures Escape(v[..0], mode) == []
  {
  }
}

/** Putting the arguments of a query into its text on the client side. */
module SqlInterpolate {
  import opened Bytes
  import opened SqlLiterals
  import opened SqlEscape
  import opened SqlTemplates

  datatype Answer = Text(text: bytes) | Skip | Busy

  // The rest of a query appended to the text so far; none if an argument has no literal or
  // the text gets too long at one. A nil argument goes on before the length is tested.
  function Run(query: bytes, args: seq<Arg>, sofar: bytes, mode: Mode, limit: int): Answer
    requires Marks(query) == |args|
  {
    if query == [] then Answer.Text(sofar)
    else if query[0] != MARK then Run(query[1..], args, sofar + [query[0]], mode, limit)
    else if args[0].Other? then Skip
    else
      var longer := sofar + Literal(args[0], mode);
      if !args[0].Null? && |longer| + 4 > limit then Skip else Run(query[1..], args[1..], longer, mode, limit)
  }

  // The text that is held against the limit: up to the last placeholder with an argument
  // that is not nil.
  function Measured(query: bytes, args: seq<Arg>, mode: Mode): bytes
    requires Marks(query) == |args|
  {
    var kept := WithoutLastNulls(args);
    Fill(UpTo(query, |kept|), Literals(kept, mode))
  }

  predicate SomeOther(args: seq<Arg>) {
    exists k :: 0 <= k < |args| && args[k].Other?
  }

  predicate TooLong(query: bytes, args: seq<Arg>, sofar: nat, mode: Mode, limit: int)
    requires Marks(query) == |args|
  {
    WithoutLastNulls(args) != [] && sofar + |Measured(query, args, mode)| + 4 > limit
  }

  // The query is interpolated exactly when every argument has a literal and the text up to the
  // last argument that is not nil fits into a packet; what is behind it is not measured.
  lemma {:induction false} RunFills(query: bytes, args: seq<Arg>, sofar: bytes, mode: Mode, limit: int)
    requires Marks(query) == |args|
    ensures Run(query, args, sofar, mode, limit) ==
      if SomeOther(args) || TooLong(query, args, |sofar|, mode, limit) then Skip
      else Answer.Text(sofar + Fill(query, Literals(args, mode)))
    decreases |query|
  {
    hide Literal, SomeOther, TooLong, Run;
    var lits := Literals(args, mode);
    if query == [] {
      RunEnd(args, sofar, mode, limit);
      NothingTooLong(sofar, mode, limit);
      assert sofar + [] == sofar;
    } else if query[0] != MARK {
      var longer := sofar + [query[0]];
      RunPlainByte(query, args, sofar, mode, limit);
      RunFills(query[1..], args, longer, mode, limit);
      PlainMeasured(query, args, |sofar|, mode, limit);
      assert sofar + ([query[0]] + Fill(query[1..], lits)) == longer + Fill(query[1..], lits);
    } else {
      var longer := sofar + lits[0];
      RunAtMark(query, args, sofar, mode, limit);
      RunFills(query[1..], args[1..], longer, mode, limit);
      OtherFirst(args);
      MarkMeasured(query, args, |sofar|, mode, limit);
      assert Literals(args[1..], mode) == lits[1..];
      assert sofar + (lits[0] + Fill(query[1..], lits[1..])) == longer + Fill(query[1..], lits[1..]);
    }
  }

  lemma NothingTooLong(sofar: bytes, mode: Mode, limit: int)
    ensures !TooLong([], [], |sofar|, mode, limit) && !SomeOther([])
  {
  }

  lemma PlainMeasured(query: bytes, args: seq<Arg>, sofar: nat, mode: Mode, limit: int)
    requires Marks(query) == |args| && query != [] && query[0] != MARK
    ensures TooLong(query, args, sofar, mode, limit) <==> TooLong(query[1..], args, sofar + 1, mode, limit)
  {
    hide Literal;
    var kept := WithoutLastNulls(args);
    if kept != [] {
      assert UpTo(query, |kept|)[1..] == UpTo(query[1..], |kept|);
    }
  }

  lemma MarkMeasured(query: bytes, args: seq<Arg>, sofar: nat, mode: Mode, limit: int)
    requires Marks(query) == |args| && query != [] && query[0] == MARK
    ensures var n := sofar + |Literal(args[0], mode)|;
      TooLong(query, args, sofar, mode, limit) <==>
        (!args[0].Null? && n + 4 > limit) || TooLong(query[1..], args[1..], n, mode, limit)
  {
    hide Literal;
    var kept, rest := WithoutLastNulls(args), WithoutLastNulls(args[1..]);
    if kept != [] {
      assert kept[1..] == rest;
      assert UpTo(query, |kept|)[1..] == UpTo(query[1..], |rest|);
      assert Literals(kept, mode)[1..] == Literals(rest, mode);
      assert Fill(UpTo(query, |kept|), Literals(kept, mode)) ==
        Literal(args[0], mode) + Fill(UpTo(query[1..], |rest|), Literals(rest, mode));
    }
  }

  // A nil argument is put in however small the limit.
  lemma NullNotMeasured(mode: Mode, limit: int)
    ensures Run([MARK], [Arg.Null], [], mode, limit) == Answer.Text(NULL_TEXT)
  {
    assert [MARK][1..] == [] && [Arg.Null][1..] == [];
    assert [] + NULL_TEXT == NULL_TEXT;
  }

  lemma OtherFirst(args: seq<Arg>)
    requires args != []
    ensures SomeOther(args) <==> args[0].Other? || SomeOther(args[1..])
  {
    assert args == [args[0]] + args[1..];
    if SomeOther(args[1..]) {
      var k :| 0 <= k < |args[1..]| && args[1..][k].Other?;
      assert args[k + 1].Other?;
    }
  }

  lemma RunPlainByte(query: bytes, args: seq<Arg>, sofar: bytes, mode: Mode, limit: int)
    requires Marks(query) == |args| && query != [] && query[0] != MARK
    ensures Marks(query[1..]) == |args|
    ensures Run(query, args, sofar, mode, limit) == Run(query[1..], args, sofar + [query[0]], mode, limit)
  {
  }

  // A stretch without placeholders is appended at once.
  lemma {:induction false} RunPlain(plain: bytes, query: bytes, args: seq<Arg>, sofar: bytes, mode: Mode, limit: int)
    requires Marks(plain) == 0 && Marks(query) == |args|
    ensures Marks(plain + query) == |args|
    ensures Run(plain + query, args, sofar, mode, limit) == Run(query, args, sofar + plain, mode, limit)
  {
    MarksConcat(plain, query);
    if plain == [] {
      assert plain + query == query && sofar + plain == sofar;
    } else {
      RunPlain(plain[1..], query, args, sofar + [plain[0]], mode, limit);
      assert (plain + query)[1..] == plain[1..] + query;
      assert sofar + [plain[0]] + plain[1..] == sofar + plain;
    }
  }

  method Count(query: bytes) returns (n: nat)
    ensures n == Marks(query)
  {
    n := 0;
    assert query[..0] == [];
    for i := 0 to |query|
      invariant n == Marks(query[..i])
    {
      MarksConcat(query[..i], [query[i]]);
      assert query[..i + 1] == query[..i] + [query[i]];
      assert Marks([query[i]]) == (if query[i] == MARK then 1 else 0);
      if query[i] == MARK {
        n := n + 1;
      }
    }
    assert query[..|query|] == query;
  }

  // The place of the next placeholder, or the end.
  method NextMark(query: bytes, i: nat) returns (q: nat)
    requires i <= |query|
    ensures i <= q <= |query| && Marks(query[i..q]) == 0 && (q < |query| ==> query[q] == MARK)
  {
    q := i;
    while q < |query| && query[q] != MARK
      invariant i <= q <= |query| && Marks(query[i..q]) == 0
    {
      MarksConcat(query[i..q], [query[q]]);
      assert query[i..q + 1] == query[i..q] + [query[q]];
      q := q + 1;
    }
  }

  // append of Go: into the array if there is room, else into a larger copy.
  method Append(buf: array<byte>, length: nat, data: bytes) returns (out: array<byte>, end: nat)
    requires length <= buf.Length
    modifies buf
    ensures end == length + |data| <= out.Length && (out == buf || fresh(out))
    ensures out[..end] == old(buf[..length]) + data
  {
    out, end := ReserveBuffer(buf, length, |data|);
    for k := 0 to |data|
      invariant out[..length] == old(buf[..length]) && out[length..length + k] == data[..k]
    {
      out[length + k] := data[k];
    }
    assert out[length..end] == data;
    assert out[..end] == out[..length] + out[length..end];
  }

  class Connection {
    // The connection's buffer and how much of it holds unread input.
    var buf: array<byte>
    var unread: nat
    const mode: Mode
    const maxAllowedPacket: int

    constructor (mode: Mode, maxAllowedPacket: int)
      ensures this.mode == mode && this.maxAllowedPacket == maxAllowedPacket && unread == 0 && fresh(buf)
    {
      this.mode, this.maxAllowedPacket := mode, maxAllowedPacket;
      buf, unread := new byte[4096], 0;
    }

    method AppendQuoted(buf: array<byte>, length: nat, opening: bytes, v: bytes) returns (out: array<byte>, end: nat)
      requires length <= buf.Length
      modifies buf
      ensures end <= out.Length && (out == buf || fresh(out))
      ensures out[..end] == old(buf[..length]) + (opening + Escape(v, mode) + [QUOTE])
    {
      hide Escape;
      ghost var sofar := buf[..length];
      out, end := Append(buf, length, opening);
      if mode == Backslashes {
        out, end := EscapeBackslash(out, end, v);
      } else {
        out, end := EscapeQuotes(out, end, v);
      }
      out, end := Append(out, end, [QUOTE]);
      assert sofar + opening + Escape(v, mode) + [QUOTE] == sofar + (opening + Escape(v, mode) + [QUOTE]);
    }

    method AppendLiteral(buf: array<byte>, length: nat, arg: Arg) returns (out: array<byte>, end: nat)
      requires length <= buf.Length && !arg.Null? && !arg.Other?
      modifies buf
      ensures end <= out.Length && (out == buf || fresh(out)) && out[..end] == old(buf[..length]) + Literal(arg, mode)
    {
      hide Escape;
      match arg {
        case Number(text) => out, end := Append(buf, length, text);
        case Boolean(b) => out, end := Append(buf, length, if b then [49] else [48]);
        case Time(text) => out, end := Append(buf, length, [QUOTE] + text + [QUOTE]);
        case NilData => out, end := Append(buf, length, NULL_TEXT);
        case Data(v) => out, end := AppendQuoted(buf, length, BINARY_PREFIX + [QUOTE], v);
        case Text(v) =>
          out, end := AppendQuoted(buf, length, [QUOTE], v);
          assert [QUOTE] + Escape(v, mode) + [QUOTE] == Quoted(v, mode);
      }
    }

    method InterpolateParams(query: bytes, args: seq<Arg>) returns (a: Answer)
      modifies buf
      ensures Marks(query) != |args| ==> a == Skip
      ensures Marks(query) == |args| && unread > 0 ==> a == Busy
      ensures Marks(query) == |args| && unread == 0 ==> a == Run(query, args, [], mode, maxAllowedPacket)
    {
      hide Run, Literal, Marks;
      var count := Count(query);
      if count != |args| {
        return Skip;
      }
      if unread > 0 {
        return Busy;
      }
      var out := buf;
      var length: nat, argPos: nat, i: nat := 0, 0, 0;
      ghost var all := Run(query, args, [], mode, maxAllowedPacket);
      assert query[0..] == query && args[0..] == args && out[..0] == [];
      while i < |query|
        invariant i <= |query| && argPos <= |args| && Marks(query[i..]) == |args[argPos..]|
        invariant length <= out.Length && (out == buf || fresh(out))
        invariant Run(query[i..], args[argPos..], out[..length], mode, maxAllowedPacket) == all
      {
        var q := NextMark(query, i);
        ghost var sofar := out[..length];
        assert query[i..] == query[i..q] + query[q..];
        MarksConcat(query[i..q], query[q..]);
        RunPlain(query[i..q], query[q..], args[argPos..], sofar, mode, maxAllowedPacket);
        out, length := Append(out, length, query[i..q]);
        if q == |query| {
          i := q;
          break;
        }
        RunAtMark(query[q..], args[argPos..], out[..length], mode, maxAllowedPacket);
        var arg := args[argPos];
        argPos := argPos + 1;
        i := q + 1;
        assert query[q..][1..] == query[i..] && args[argPos - 1..][1..] == args[argPos..];
        if arg.Null? {
          out, length := Append(out, length, NULL_TEXT);
          NullLiteral(mode);
          continue;
        }
        if arg.Other? {
          return Skip;
        }
        out, length := AppendLiteral(out, length, arg);
        if length + 4 > maxAllowedPacket {
          return Skip;
        }
      }
      assert query[i..] == [];
      RunEnd(args[argPos..], out[..length], mode, maxAllowedPacket);
      return Answer.Text(out[..length]);
    }
  }

  lemma NullLiteral(mode: Mode)
    ensures Literal(Arg.Null, mode) == NULL_TEXT
  {
  }

  lemma RunAtMark(query: bytes, args: seq<Arg>, sofar: bytes, mode: Mode, limit: int)
    requires Marks(query) == |args| && query != [] && query[0] == MARK
    ensures args != [] && Marks(query[1..]) == |args[1..]|
    ensures var longer := sofar + Literal(args[0], mode);
      Run(query, args, sofar, mode, limit) ==
        if args[0].Other? || (!args[0].Null? && |longer| + 4 > limit) then Skip
        else Run(query[1..], args[1..], longer, mode, limit)
  {
  }

  lemma RunEnd(args: seq<Arg>, sofar: bytes, mode: Mode, limit: int)
    requires Marks([]) == |args|
    ensures args == [] && Run([], args, sofar, mode, limit) == Answer.Text(sofar)
  {
  }
}

/** Queries with placeholders, and the literals that replace them. */
module SqlTemplates {
  import opened Bytes
  import opened SqlLiterals

  const MARK: byte := 63
  const NULL_TEXT: bytes := [78, 85, 76, 76]
  const BINARY_PREFIX: bytes := [95, 98, 105, 110, 97, 114, 121]

  // Numbers and times come as formatted; a nil byte slice is not an empty one.
  datatype Arg = Null | Number(text: bytes) | Boolean(b: bool) | Time(text: bytes) | NilData | Data(v: bytes)
    | Text(v: bytes) | Other

  function Quoted(v: bytes, mode: Mode): bytes {
    [QUOTE] + Escape(v, mode) + [QUOTE]
  }

  function Literal(arg: Arg, mode: Mode): bytes {
    match arg
    case Null => NULL_TEXT
    case Number(text) => text
    case Boolean(b) => if b then [49] else [48]
    case Time(text) => [QUOTE] + text + [QUOTE]
    case NilData => NULL_TEXT
    case Data(v) => BINARY_PREFIX + Quoted(v, mode)
    case Text(v) => Quoted(v, mode)
    case Other => []
  }

  function Literals(args: seq<Arg>, mode: Mode): (lits: seq<bytes>)
    ensures |lits| == |args| && forall k :: 0 <= k < |args| ==> lits[k] == Literal(args[k], mode)
  {
    seq(|args|, k requires 0 <= k < |args| => Literal(args[k], mode))
  }

  function Marks(query: bytes): nat {
    if query == [] then 0 else (if query[0] == MARK then 1 else 0) + Marks(query[1..])
  }

  // The query with its k-th placeholder replaced by the k-th literal.
  function Fill(query: bytes, lits: seq<bytes>): bytes
    requires Marks(query) == |lits|
  {
    if query == [] then []
    else if query[0] == MARK then lits[0] + Fill(query[1..], lits[1..])
    else [query[0]] + Fill(query[1..], lits)
  }

  // The query up to and including its n-th placeholder.
  function UpTo(query: bytes, n: nat): (r: bytes)
    requires n <= Marks(query)
    ensures Marks(r) == n
  {
    if n == 0 then []
    else
      var rest := UpTo(query[1..], if query[0] == MARK then n - 1 else n);
      assert ([query[0]] + rest)[1..] == rest;
      [query[0]] + rest
  }

  // The arguments without the nil ones at the end.
  function WithoutLastNulls(args: seq<Arg>): (r: seq<Arg>)
    ensures r <= args
  {
    if args == [] then []
    else
      var rest := WithoutLastNulls(args[1..]);
      if rest == [] && args[0].Null? then [] else [args[0]] + rest
  }

  lemma {:induction false} MarksConcat(a: bytes, b: bytes)
    ensures Marks(a + b) == Marks(a) + Marks(b)
  {
    if a == [] {
      assert a + b == b;
    } else {
      MarksConcat(a[1..], b);
      assert (a + b)[1..] == a[1..] + b;
    }
  }

  lemma MarkFirst(query: bytes, lits: seq<bytes>)
    requires Marks(query) == |lits| && query != [] && query[0] == MARK
    ensures |lits| == 1 + Marks(query[1..]) && Fill(query, lits) == lits[0] + Fill(query[1..], lits[1..])
  {
  }

  lemma PlainFirst(query: bytes, lits: seq<bytes>)
    requires Marks(query) == |lits| && query != [] && query[0] != MARK
    ensures |lits| == Marks(query[1..]) && Fill(query, lits) == [query[0]] + Fill(query[1..], lits)
  {
  }

  lemma {:induction false} FillConcat(a: bytes, b: bytes, lits: seq<bytes>)
    requires Marks(a) + Marks(b) == |lits|
    ensures Marks(a + b) == |lits|
    ensures Fill(a + b, lits) == Fill(a, lits[..Marks(a)]) + Fill(b, lits[Marks(a)..])
  {
    hide Fill;
    MarksConcat(a, b);
    if a == [] {
      assert a + b == b && lits[0..] == lits && lits[..0] == [];
      FillPlain([]);
    } else {
      assert (a + b)[1..] == a[1..] + b;
      var m := Marks(a);
      if a[0] == MARK {
        FillConcat(a[1..], b, lits[1..]);
        assert lits[1..][..m - 1] == lits[..m][1..] && lits[1..][m - 1..] == lits[m..];
        MarkFirst(a + b, lits);
        MarkFirst(a, lits[..m]);
      } else {
        FillConcat(a[1..], b, lits);
        PlainFirst(a + b, lits);
        PlainFirst(a, lits[..m]);
      }
    }
  }

  lemma {:induction false} FillPlain(query: bytes)
    requires Marks(query) == 0
    ensures Fill(query, []) == query
  {
    if query != [] {
      FillPlain(query[1..]);
      assert [query[0]] + query[1..] == query;
    }
  }

  // Around any placeholder: what precedes it is filled with the literals before its own.
  lemma AtMark(query: bytes, lits: seq<bytes>, q: nat)
    requires Marks(query) == |lits| && q < |query| && query[q] == MARK
    ensures var k := Marks(query[..q]);
      && |lits| == k + 1 + Marks(query[q + 1..])
      && Fill(query, lits) == Fill(query[..q], lits[..k]) + lits[k] + Fill(query[q + 1..], lits[k + 1..])
  {
    hide Fill, Marks;
    var k := Marks(query[..q]);
    assert query == query[..q] + query[q..];
    MarksConcat(query[..q], query[q..]);
    FillConcat(query[..q], query[q..], lits);
    var tail, mine := query[q..], lits[k..];
    MarkFirst(tail, mine);
    assert tail[1..] == query[q + 1..] && mine[1..] == lits[k + 1..];
    assert Fill(query[..q], lits[..k]) + (lits[k] + Fill(tail[1..], mine[1..])) ==
      Fill(query[..q], lits[..k]) + lits[k] + Fill(tail[1..], mine[1..]);
  }

  // The literal of a string or byte argument is read back from its place in the filled query,
  // and reading stops at its closing quote, exactly when no quote comes next.
  lemma ArgumentReadBack(query: bytes, args: seq<Arg>, mode: Mode, q: nat)
    requires Marks(query) == |args| && q < |query| && query[q] == MARK
    requires Marks(query[..q]) < |args|
    requires var arg := args[Marks(query[..q])]; arg.Text? || arg.Data?
    ensures var k := Marks(query[..q]);
      var before := Fill(query[..q], Literals(args, mode)[..k]) +
        (if args[k].Data? then BINARY_PREFIX else []) + [QUOTE];
      Marks(query[q + 1..]) == |args| - k - 1 &&
      var after := Fill(query[q + 1..], Literals(args, mode)[k + 1..]);
      var text := Fill(query, Literals(args, mode));
      && before <= text
      && (Scan(text[|before|..], QUOTE, mode) == Scanned(args[k].v, after) <==> !([QUOTE] <= after))
  {
    hide Fill, Scan, Marks, Escape;
    var lits := Literals(args, mode);
    AtMark(query, lits, q);
    var k := Marks(query[..q]);
    var prefix: bytes := if args[k].Data? then BINARY_PREFIX else [];
    var before := Fill(query[..q], lits[..k]) + prefix + [QUOTE];
    var after := Fill(query[q + 1..], lits[k + 1..]);
    var closed := Escape(args[k].v, mode) + [QUOTE];
    assert lits[k] == prefix + [QUOTE] + closed;
    assert Fill(query, lits) == before + (closed + after);
    assert Fill(query, lits)[|before|..] == closed + after;
    ReadBack(args[k].v, after, mode);
  }
}

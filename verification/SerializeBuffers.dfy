/** A buffer that grows at both ends, reused for one packet after the other. */
module SerializeBuffers {
  import opened Bytes

  datatype Op = Prepend(size: nat) | Append(size: nat)

  // The room allotted in front and behind, and how much of each is taken since the last clear.
  datatype Room = Room(prepended: nat, appended: nat, front: nat, back: nat)

  predicate Within(r: Room) {
    r.front <= r.prepended && r.back <= r.appended
  }

  // Whether the buffer has to be reallocated for an operation.
  predicate Grows(r: Room, op: Op) {
    match op
    case Prepend(n) => r.prepended < r.front + n
    case Append(n) => r.appended < r.back + n
  }

  function Larger(a: nat, b: nat): nat {
    if a < b then b else a
  }

  function After(r: Room, op: Op): (s: Room)
    requires Within(r)
    ensures Within(s) && r.prepended <= s.prepended && r.appended <= s.appended
  {
    match op
    case Prepend(n) =>
      r.(prepended := if Grows(r, op) then r.prepended + Larger(r.prepended, n) else r.prepended, front := r.front + n)
    case Append(n) =>
      r.(appended := if Grows(r, op) then r.appended + Larger(r.appended, n) else r.appended, back := r.back + n)
  }

  function Cleared(r: Room): Room {
    r.(front := 0, back := 0)
  }

  function Run(r: Room, ops: seq<Op>): (s: Room)
    requires Within(r)
    ensures Within(s)
    decreases |ops|
  {
    if ops == [] then r else Run(After(r, ops[0]), ops[1..])
  }

  function Allocations(r: Room, ops: seq<Op>): nat
    requires Within(r)
    decreases |ops|
  {
    if ops == [] then 0 else (if Grows(r, ops[0]) then 1 else 0) + Allocations(After(r, ops[0]), ops[1..])
  }

  function Prepends(ops: seq<Op>): nat {
    if ops == [] then 0 else (if ops[0].Prepend? then ops[0].size else 0) + Prepends(ops[1..])
  }

  function Appends(ops: seq<Op>): nat {
    if ops == [] then 0 else (if ops[0].Append? then ops[0].size else 0) + Appends(ops[1..])
  }

  lemma {:induction false} RunTakes(r: Room, ops: seq<Op>)
    requires Within(r)
    ensures var s := Run(r, ops);
      && s.front == r.front + Prepends(ops) && s.back == r.back + Appends(ops)
      && s.prepended >= r.prepended && s.appended >= r.appended
    decreases |ops|
  {
    if ops != [] {
      RunTakes(After(r, ops[0]), ops[1..]);
    }
  }

  // Nothing is allocated exactly as long as the sums of the sizes fit into the room.
  lemma {:induction false} NoAllocation(r: Room, ops: seq<Op>)
    requires Within(r)
    ensures Allocations(r, ops) == 0 <==>
      r.front + Prepends(ops) <= r.prepended && r.back + Appends(ops) <= r.appended
    decreases |ops|
  {
    if ops != [] && !Grows(r, ops[0]) {
      NoAllocation(After(r, ops[0]), ops[1..]);
    }
  }

  // After a clear, the same operations again, or any others that add no more in sum at
  // either end, allocate nothing, and so does every further round.
  lemma RepeatAllocatesNothing(r: Room, ops: seq<Op>, again: seq<Op>)
    requires Within(r) && Prepends(again) <= Prepends(ops) && Appends(again) <= Appends(ops)
    ensures var s := Run(Cleared(r), ops);
      && Allocations(Cleared(s), again) == 0
      && Cleared(Run(Cleared(s), again)) == Cleared(s)
  {
    RunTakes(Cleared(r), ops);
    var s := Run(Cleared(r), ops);
    NoAllocation(Cleared(s), again);
    SameRoom(Cleared(s), again);
  }

  lemma {:induction false} SameRoom(r: Room, ops: seq<Op>)
    requires Within(r) && Allocations(r, ops) == 0
    ensures Cleared(Run(r, ops)) == Cleared(r)
    decreases |ops|
  {
    if ops != [] {
      SameRoom(After(r, ops[0]), ops[1..]);
    }
  }

  // What a layer puts around the ones inside it; the outermost layer comes first.
  datatype Layer = Layer(header: bytes, trailer: bytes)

  function Nested(layers: seq<Layer>): bytes {
    if layers == [] then [] else layers[0].header + Nested(layers[1..]) + layers[0].trailer
  }

  // The operations of serializing layers, from the innermost out.
  function Ops(layers: seq<Layer>): seq<Op> {
    if layers == [] then []
    else Ops(layers[1..]) + [Prepend(|layers[0].header|), Append(|layers[0].trailer|)]
  }

  lemma {:induction false} RunConcat(r: Room, a: seq<Op>, b: seq<Op>)
    requires Within(r)
    ensures Run(r, a + b) == Run(Run(r, a), b)
    decreases |a|
  {
    if a == [] {
      assert a + b == b;
    } else {
      assert (a + b)[1..] == a[1..] + b;
      RunConcat(After(r, a[0]), a[1..], b);
    }
  }

  lemma TwoOps(r: Room, a: Op, b: Op)
    requires Within(r)
    ensures Run(r, [a, b]) == After(After(r, a), b)
  {
    hide After;
    assert [a, b][1..] == [b] && [b][1..] == [];
    assert Run(r, [a, b]) == Run(After(r, a), [b]) == Run(After(After(r, a), b), []);
  }

  lemma OneLayer(r: Room, layer: Layer)
    requires Within(r)
    ensures Run(r, Ops([layer])) == After(After(r, Prepend(|layer.header|)), Append(|layer.trailer|))
  {
    hide After, Run;
    assert [layer][1..] == [];
    assert Ops([layer]) == [Prepend(|layer.header|), Append(|layer.trailer|)];
    TwoOps(r, Prepend(|layer.header|), Append(|layer.trailer|));
  }

  lemma RunOps(r: Room, layers: seq<Layer>)
    requires Within(r) && layers != []
    ensures Run(r, Ops(layers)) == Run(Run(r, Ops(layers[1..])), Ops([layers[0]]))
  {
    hide Run;
    var ops := [Prepend(|layers[0].header|), Append(|layers[0].trailer|)];
    assert [layers[0]][1..] == [];
    assert Ops([layers[0]]) == [] + ops == ops;
    RunConcat(r, Ops(layers[1..]), ops);
  }

  class SerializeBuffer {
    // The first length bytes of the array are in use; the packet begins at start.
    var data: array<byte>
    var length: nat
    var start: nat
    var prepended: nat
    var appended: nat

    ghost predicate Valid()
      reads this
    {
      && start <= length <= data.Length == prepended + appended
      && start <= prepended && data.Length - length <= appended
    }

    ghost function Packet(): bytes
      requires Valid()
      reads this, data
    {
      data[start..length]
    }

    ghost function Rooms(): Room
      requires Valid()
      reads this
    {
      Room(prepended, appended, prepended - start, appended - (data.Length - length))
    }

    constructor (expectedPrepend: nat, expectedAppend: nat)
      ensures Valid() && Packet() == [] && Rooms() == Room(expectedPrepend, expectedAppend, 0, 0) && fresh(data)
    {
      data := new byte[expectedPrepend + expectedAppend];
      length, start, prepended, appended := expectedPrepend, expectedPrepend, expectedPrepend, expectedAppend;
    }

    // A new array with a copy of the packet.
    method CopyPacket(size: nat, at: nat) returns (newData: array<byte>)
      requires Valid() && at + (length - start) <= size
      ensures fresh(newData) && newData.Length == size && newData[at..at + (length - start)] == Packet()
    {
      newData := new byte[size];
      forall k | 0 <= k < length - start {
        newData[at + k] := data[start + k];
      }
    }

    // Makes room for num bytes in front of the packet; the caller is to overwrite them.
    method PrependBytes(num: nat) returns (from: nat)
      requires Valid()
      modifies this
      ensures Valid() && from == start && |Packet()| == num + |old(Packet())| && Packet()[num..] == old(Packet())
      ensures Rooms() == After(old(Rooms()), Prepend(num))
      ensures if Grows(old(Rooms()), Prepend(num)) then fresh(data) else data == old(data)
    {
      ghost var packet := Packet();
      if start < num {
        var toPrepend := prepended;
        if toPrepend < num {
          toPrepend := num;
        }
        var newStart := start + toPrepend;
        var newData := CopyPacket(data.Length + toPrepend, newStart);
        prepended := prepended + toPrepend;
        length := toPrepend + length;
        start := newStart;
        data := newData;
      }
      assert data[start..length] == packet;
      start := start - num;
      from := start;
      assert |Packet()| == num + |packet|;
      assert Packet()[num..] == data[start + num..length];
    }

    // Makes room for num bytes behind the packet.
    method AppendBytes(num: nat) returns (from: nat)
      requires Valid()
      modifies this
      ensures Valid() && from + num == length
      ensures from - start == |old(Packet())| && Packet()[..from - start] == old(Packet())
      ensures Rooms() == After(old(Rooms()), Append(num))
      ensures if Grows(old(Rooms()), Append(num)) then fresh(data) else data == old(data)
    {
      var initialLength := length;
      ghost var packet := Packet();
      if data.Length - initialLength < num {
        var toAppend := appended;
        if toAppend < num {
          toAppend := num;
        }
        var newData := CopyPacket(data.Length + toAppend, start);
        appended := appended + toAppend;
        data := newData;
      }
      assert data[start..initialLength] == packet;
      length := initialLength + num;
      from := initialLength;
      assert Packet()[..from - start] == data[start..from];
    }

    method Clear()
      requires Valid()
      modifies this`start, this`length
      ensures Valid() && Packet() == [] && Rooms() == Cleared(old(Rooms()))
    {
      start := prepended;
      length := start;
    }

    // A layer puts its header in front and its trailer behind, filling the room it is given.
    method SerializeTo(layer: Layer)
      requires Valid()
      modifies this, data
      ensures Valid() && Packet() == layer.header + old(Packet()) + layer.trailer
      ensures Rooms() == Run(old(Rooms()), Ops([layer]))
      ensures data == old(data) || fresh(data)
    {
      PrependAll(layer.header);
      AppendAll(layer.trailer);
      OneLayer(old(Rooms()), layer);
    }

    method PrependAll(b: bytes)
      requires Valid()
      modifies this, data
      ensures Valid() && Packet() == b + old(Packet()) && Rooms() == After(old(Rooms()), Prepend(|b|))
      ensures data == old(data) || fresh(data)
    {
      hide After, Grows;
      ghost var packet := Packet();
      var from := PrependBytes(|b|);
      assert data[from + |b|..][..length - from - |b|] == data[from + |b|..length] == packet by {
        assert Packet()[|b|..] == data[from + |b|..length];
      }
      Overwrite(from, b);
      assert data[from..from + |b|] == b;
      assert data[from + |b|..length] == data[from + |b|..][..length - from - |b|] == packet;
      assert Packet() == data[from..from + |b|] + data[from + |b|..length];
    }

    method AppendAll(b: bytes)
      requires Valid()
      modifies this, data
      ensures Valid() && Packet() == old(Packet()) + b && Rooms() == After(old(Rooms()), Append(|b|))
      ensures data == old(data) || fresh(data)
    {
      hide After, Grows;
      ghost var packet := Packet();
      var from := AppendBytes(|b|);
      assert data[start..from] == packet;
      Overwrite(from, b);
      assert data[from..length] == b;
      assert Packet() == data[start..from] + data[from..length];
    }

    // Clears the buffer and writes the layers from the innermost out.
    method SerializeLayers(layers: seq<Layer>)
      requires Valid()
      modifies this, data
      ensures Valid() && Packet() == Nested(layers) && Rooms() == Run(Cleared(old(Rooms())), Ops(layers))
      ensures data == old(data) || fresh(data)
    {
      hide SerializeBuffer.Valid, SerializeBuffer.Packet, SerializeBuffer.Rooms;
      Clear();
      ghost var room := Rooms();
      var i := |layers|;
      assert layers[i..] == [];
      while i > 0
        invariant 0 <= i <= |layers| && Valid() && Packet() == Nested(layers[i..])
        invariant Rooms() == Run(room, Ops(layers[i..])) && (data == old(data) || fresh(data))
      {
        i := i - 1;
        assert layers[i..][1..] == layers[i + 1..];
        ghost var inner := Rooms();
        SerializeTo(layers[i]);
        RunOps(room, layers[i..]);
      }
      assert layers[0..] == layers;
    }

    method Overwrite(from: nat, b: bytes)
      requires from + |b| <= data.Length
      modifies data
      ensures data[from..from + |b|] == b
      ensures data[..from] == old(data[..from]) && data[from + |b|..] == old(data[from + |b|..])
    {
      forall k | 0 <= k < |b| {
        data[from + k] := b[k];
      }
    }
  }
}

/** MySQL packets on the wire: a payload is cut into frames of a 24 bit length, a sequence number and data. */
module WireFrames {
  import opened Bytes

  const MAX_PACKET_SIZE: nat := 0xFF_FFFF

  datatype Read =
    | Packet(payload: bytes, rest: bytes, sequence: byte)
    | OutOfSync(ahead: bool)
    | Malformed
    | Truncated

  function Next(sequence: byte): byte {
    if sequence == 255 then 0 else sequence + 1
  }

  function After(sequence: byte, frames: nat): byte {
    ((sequence as int + frames) % 256) as byte
  }

  function Header(size: nat, sequence: byte): bytes
    requires size <= MAX_PACKET_SIZE
  {
    [(size % 256) as byte, (size / 256 % 256) as byte, (size / 65536) as byte, sequence]
  }

  function Size(header: bytes): nat
    requires |header| == 4
  {
    header[0] as nat + header[1] as nat * 256 + header[2] as nat * 65536
  }

  lemma SizeOfHeader(size: nat, sequence: byte)
    requires size <= MAX_PACKET_SIZE
    ensures Size(Header(size, sequence)) == size
  {
  }

  // A full frame is always followed by another one, an empty one if nothing is left.
  function Frames(payload: bytes, sequence: byte): bytes {
    if |payload| < MAX_PACKET_SIZE then
      Header(|payload|, sequence) + payload
    else
      Header(MAX_PACKET_SIZE, sequence) + payload[..MAX_PACKET_SIZE] +
        Frames(payload[MAX_PACKET_SIZE..], Next(sequence))
  }

  function FrameCount(payload: bytes): nat {
    |payload| / MAX_PACKET_SIZE + 1
  }

  // What is read from the front of a byte stream, after the data of full frames.
  function ReadFrom(stream: bytes, sequence: byte, previous: bytes): Read
    decreases |stream|
  {
    if |stream| < 4 then Truncated
    else
      var size := Size(stream[..4]);
      if stream[3] != sequence then OutOfSync(stream[3] > sequence)
      else if size == 0 then
        if previous == [] then Malformed else Packet(previous, stream[4..], Next(sequence))
      else if |stream| < 4 + size then Truncated
      else if size < MAX_PACKET_SIZE then
        Packet(previous + stream[4..4 + size], stream[4 + size..], Next(sequence))
      else ReadFrom(stream[4 + size..], Next(sequence), previous + stream[4..4 + size])
  }

  lemma {:induction false} FramesBack(payload: bytes, sequence: byte, previous: bytes, rest: bytes)
    ensures ReadFrom(Frames(payload, sequence) + rest, sequence, previous) ==
      if previous + payload == [] then Malformed
      else Packet(previous + payload, rest, After(sequence, FrameCount(payload)))
    decreases |payload|
  {
    hide ReadFrom, Frames, FrameCount;
    if |payload| < MAX_PACKET_SIZE {
      LastFrameBack(payload, sequence, previous, rest);
    } else {
      var part, more := payload[..MAX_PACKET_SIZE], payload[MAX_PACKET_SIZE..];
      FullFrameBack(payload, sequence, previous, rest);
      FramesBack(more, Next(sequence), previous + part, rest);
      assert previous + part + more == previous + payload;
      CountOne(payload, sequence);
    }
  }

  lemma LastFrameBack(payload: bytes, sequence: byte, previous: bytes, rest: bytes)
    requires |payload| < MAX_PACKET_SIZE
    ensures ReadFrom(Frames(payload, sequence) + rest, sequence, previous) ==
      if previous + payload == [] then Malformed
      else Packet(previous + payload, rest, After(sequence, FrameCount(payload)))
  {
    var stream := Frames(payload, sequence) + rest;
    assert stream[..4] == Header(|payload|, sequence);
    SizeOfHeader(|payload|, sequence);
    assert stream[4..4 + |payload|] == payload && stream[4 + |payload|..] == rest;
    assert FrameCount(payload) == 1;
    assert payload == [] ==> previous + payload == previous;
  }

  lemma FullFrameBack(payload: bytes, sequence: byte, previous: bytes, rest: bytes)
    requires |payload| >= MAX_PACKET_SIZE
    ensures var part, more := payload[..MAX_PACKET_SIZE], payload[MAX_PACKET_SIZE..];
      ReadFrom(Frames(payload, sequence) + rest, sequence, previous) ==
      ReadFrom(Frames(more, Next(sequence)) + rest, Next(sequence), previous + part)
  {
    var part, more := payload[..MAX_PACKET_SIZE], payload[MAX_PACKET_SIZE..];
    var tail := Frames(more, Next(sequence)) + rest;
    var stream := Frames(payload, sequence) + rest;
    assert stream == Header(MAX_PACKET_SIZE, sequence) + part + tail;
    assert stream[..4] == Header(MAX_PACKET_SIZE, sequence);
    SizeOfHeader(MAX_PACKET_SIZE, sequence);
    assert stream[4..4 + MAX_PACKET_SIZE] == part && stream[4 + MAX_PACKET_SIZE..] == tail;
  }

  lemma CountOne(payload: bytes, sequence: byte)
    requires |payload| >= MAX_PACKET_SIZE
    ensures FrameCount(payload) == 1 + FrameCount(payload[MAX_PACKET_SIZE..])
    ensures After(sequence, FrameCount(payload)) == After(Next(sequence), FrameCount(payload[MAX_PACKET_SIZE..]))
  {
  }

  // A payload is read back as it was written exactly when it is not empty.
  lemma RoundTrip(payload: bytes, sequence: byte, rest: bytes)
    ensures payload != [] <==>
      ReadFrom(Frames(payload, sequence) + rest, sequence, []) ==
        Packet(payload, rest, After(sequence, FrameCount(payload)))
  {
    hide ReadFrom, Frames, FrameCount;
    FramesBack(payload, sequence, [], rest);
    assert [] + payload == payload;
  }

  // A reader of frames cut short never takes them for a packet.
  lemma {:induction false} CutShort(payload: bytes, sequence: byte, previous: bytes, k: nat)
    requires k < |Frames(payload, sequence)|
    ensures ReadFrom(Frames(payload, sequence)[..k], sequence, previous) == Truncated
    decreases |payload|
  {
    var frames := Frames(payload, sequence);
    var stream := frames[..k];
    if 4 <= k {
      var size := if |payload| < MAX_PACKET_SIZE then |payload| else MAX_PACKET_SIZE;
      assert stream[..4] == frames[..4] == Header(size, sequence);
      SizeOfHeader(size, sequence);
      if |payload| >= MAX_PACKET_SIZE && k >= 4 + MAX_PACKET_SIZE {
        var more := Frames(payload[MAX_PACKET_SIZE..], Next(sequence));
        assert frames[4 + MAX_PACKET_SIZE..] == more;
        assert stream[4 + MAX_PACKET_SIZE..] == more[..k - 4 - MAX_PACKET_SIZE];
        CutShort(payload[MAX_PACKET_SIZE..], Next(sequence), previous + stream[4..4 + MAX_PACKET_SIZE],
          k - 4 - MAX_PACKET_SIZE);
      }
    }
  }

  // The bytes of a packet by the protocol: the length in three bytes, least first, the number,
  // the data; after 0xFFFFFF bytes of data another frame, here an empty one.
  lemma FrameBytes(payload: bytes, sequence: byte)
    ensures |payload| < 0xFF_FFFF ==>
      Frames(payload, sequence) ==
        [(|payload| % 0x100) as byte, (|payload| / 0x100 % 0x100) as byte, (|payload| / 0x1_0000) as byte, sequence] +
        payload
    ensures |payload| == 0xFF_FFFF ==>
      Frames(payload, sequence) ==
        [0xFF, 0xFF, 0xFF, sequence] + payload + [0x00, 0x00, 0x00, ((sequence as int + 1) % 0x100) as byte]
  {
    if |payload| == 0xFF_FFFF {
      assert payload[..0xFF_FFFF] == payload && payload[0xFF_FFFF..] == [];
      assert Frames([], Next(sequence)) == Header(0, Next(sequence)) + [];
    }
  }

  // Nothing but the frames of a packet is read as that packet.
  lemma {:induction false} OnlyFrames(stream: bytes, sequence: byte, previous: bytes) returns (data: bytes)
    requires ReadFrom(stream, sequence, previous).Packet?
    ensures var r := ReadFrom(stream, sequence, previous);
      && r.payload == previous + data && r.payload != [] && stream == Frames(data, sequence) + r.rest
      && r.sequence == After(sequence, FrameCount(data))
    decreases |stream|
  {
    hide ReadFrom, Frames, FrameCount, Size, Header;
    ReadTurn(stream, sequence, previous);
    var r, size := ReadFrom(stream, sequence, previous), Size(stream[..4]);
    HeaderIs(stream[..4]);
    if size < MAX_PACKET_SIZE {
      data := stream[4..4 + size];
      LastFrame(stream, sequence, data);
      LastNumber(sequence);
      assert size == 0 ==> previous + data == previous;
    } else {
      var part := stream[4..4 + size];
      var more := OnlyFrames(stream[4 + size..], Next(sequence), previous + part);
      data := part + more;
      assert previous + part + more == previous + data;
      FullFrame(stream, sequence, part, more, r.rest);
      CountOne(data, sequence);
      assert data[MAX_PACKET_SIZE..] == more;
    }
  }

  lemma LastNumber(sequence: byte)
    ensures Next(sequence) == After(sequence, 1)
  {
  }

  // One turn of the reading loop.
  lemma ReadTurn(stream: bytes, sequence: byte, previous: bytes)
    ensures |stream| < 4 || stream[3] != sequence ==> !ReadFrom(stream, sequence, previous).Packet?
    ensures |stream| >= 4 && stream[3] == sequence ==>
      var size := Size(stream[..4]);
      ReadFrom(stream, sequence, previous) ==
        if size == 0 then if previous == [] then Malformed else Packet(previous, stream[4..], Next(sequence))
        else if |stream| < 4 + size then Truncated
        else if size < MAX_PACKET_SIZE then
          Packet(previous + stream[4..4 + size], stream[4 + size..], Next(sequence))
        else ReadFrom(stream[4 + size..], Next(sequence), previous + stream[4..4 + size])
  {
    hide Size;
  }

  lemma LastFrame(stream: bytes, sequence: byte, data: bytes)
    requires 4 + |data| <= |stream| && |data| < MAX_PACKET_SIZE && data == stream[4..4 + |data|]
    requires stream[..4] == Header(|data|, sequence)
    ensures stream == Frames(data, sequence) + stream[4 + |data|..] && FrameCount(data) == 1
  {
    assert stream == stream[..4] + stream[4..4 + |data|] + stream[4 + |data|..];
  }

  lemma FullFrame(stream: bytes, sequence: byte, part: bytes, more: bytes, rest: bytes)
    requires |part| == MAX_PACKET_SIZE && 4 + |part| <= |stream| && part == stream[4..4 + |part|]
    requires stream[..4] == Header(MAX_PACKET_SIZE, sequence)
    requires stream[4 + |part|..] == Frames(more, Next(sequence)) + rest
    ensures stream == Frames(part + more, sequence) + rest
  {
    var data := part + more;
    assert data[..MAX_PACKET_SIZE] == part && data[MAX_PACKET_SIZE..] == more;
    assert stream == stream[..4] + part + stream[4 + |part|..];
  }

  lemma HeaderIs(header: bytes)
    requires |header| == 4
    ensures Size(header) <= MAX_PACKET_SIZE && Header(Size(header), header[3]) == header
  {
    var size := Size(header);
    assert size / 256 == header[1] as nat + header[2] as nat * 256;
  }

  // A wrong number, an empty packet and a missing byte are told apart.
  lemma Refused(stream: bytes, sequence: byte)
    ensures |stream| < 4 ==> ReadFrom(stream, sequence, []) == Truncated
    ensures |stream| >= 4 && stream[3] != sequence ==> ReadFrom(stream, sequence, []) == OutOfSync(stream[3] > sequence)
    ensures |stream| >= 4 && stream[..4] == [0, 0, 0, sequence] ==> ReadFrom(stream, sequence, []) == Malformed
  {
  }
}

/** Reading packets through a buffer that is refilled from an arbitrarily fragmented stream. */
module WireReader {
  import opened Bytes
  import opened WireFrames

  const DEFAULT_BUF_SIZE: nat := 4096

  datatype Status = Fine | EndOfStream | Failure

  datatype ReadError = NoError | PacketSync | PacketSyncMul | InvalidConnection

  datatype Answer = Answer(payload: bytes, error: ReadError)

  // What a caller learns of a read.
  function AnswerOf(r: Read): Answer {
    match r
    case Packet(payload, _, _) => Answer(payload, NoError)
    case OutOfSync(ahead) => Answer([], if ahead then PacketSyncMul else PacketSync)
    case Malformed => Answer([], InvalidConnection)
    case Truncated => Answer([], InvalidConnection)
  }

  // A wrong number, an empty packet and a missing byte, by the first four bytes.
  lemma AnsweredTo(stream: bytes, sequence: byte)
    ensures var a := AnswerOf(ReadFrom(stream, sequence, []));
      if |stream| < 4 then a == Answer([], InvalidConnection)
      else if stream[3] > sequence then a == Answer([], PacketSyncMul)
      else if stream[3] < sequence then a == Answer([], PacketSync)
      else stream[..3] == [0, 0, 0] ==> a == Answer([], InvalidConnection)
  {
    if |stream| >= 4 && stream[..3] == [0, 0, 0] {
      assert stream[..4] == stream[..3] + [stream[3]];
    }
    Refused(stream, sequence);
  }

  // The receiving side of a network connection. A read delivers some of the bytes to come,
  // at least one if there is any, and may report the end of the stream with the last ones.
  class Network {
    var stream: bytes
    // Whether reads never fail otherwise.
    const reliable: bool

    constructor (stream: bytes, reliable: bool)
      ensures this.stream == stream && this.reliable == reliable
    {
      this.stream, this.reliable := stream, reliable;
    }

    method Read(buf: array<byte>, from: nat) returns (n: nat, status: Status)
      requires from < buf.Length
      modifies this`stream, buf
      ensures n <= |old(stream)| && from + n <= buf.Length && stream == old(stream)[n..]
      ensures buf[..from + n] == old(buf[..from]) + old(stream)[..n]
      ensures status == Fine ==> n > 0
      ensures status == EndOfStream ==> stream == []
      ensures status == Failure ==> !reliable
    {
      var fails: bool := *;
      if !reliable && fails {
        return 0, Failure;
      }
      if stream == [] {
        return 0, EndOfStream;
      }
      n :| 0 < n <= |stream| && from + n <= buf.Length;
      for k := 0 to n
        invariant stream == old(stream)
        invariant buf[..from] == old(buf[..from]) && buf[from..from + k] == stream[..k]
      {
        buf[from + k] := stream[k];
      }
      assert buf[..from + n] == buf[..from] + buf[from..from + n];
      stream := stream[n..];
      var early: bool := *;
      status := if stream == [] && early then EndOfStream else Fine;
    }
  }

  class Buffer {
    var buf: array<byte>
    const nc: Network
    var idx: nat
    var length: nat

    ghost predicate Valid()
      reads this
    {
      idx + length <= buf.Length
    }

    // The bytes buffered and those still to come.
    ghost function Pending(): bytes
      requires Valid()
      reads this, buf, nc
    {
      buf[idx..idx + length] + nc.stream
    }

    constructor (nc: Network)
      ensures Valid() && this.nc == nc && Pending() == nc.stream && fresh(buf)
    {
      this.nc := nc;
      buf := new byte[DEFAULT_BUF_SIZE];
      idx, length := 0, 0;
      new;
      assert buf[0..0] + nc.stream == nc.stream;
    }

    // Moves the buffered bytes to the front of a buffer that has room for need bytes.
    method MakeRoom(need: nat)
      requires Valid()
      modifies this`buf, this`idx, buf
      ensures Valid() && idx == 0 && buf.Length >= need && buf[..length] == old(buf[idx..idx + length])
      ensures buf == old(buf) || (fresh(buf) && buf.Length == (need / 4096 + 1) * 4096)
    {
      var n := length;
      if n > 0 && idx > 0 {
        forall k | 0 <= k < n {
          buf[k] := buf[idx + k];
        }
      }
      assert buf[..n] == old(buf[idx..idx + n]);
      if need > buf.Length {
        var newBuf := new byte[(need / DEFAULT_BUF_SIZE + 1) * DEFAULT_BUF_SIZE];
        forall k | 0 <= k < buf.Length {
          newBuf[k] := buf[k];
        }
        assert newBuf[..n] == buf[..n];
        buf := newBuf;
      }
      idx := 0;
    }

    // One read behind the first n bytes.
    method ReadOn(n: nat, ghost all: bytes) returns (m: nat, status: Status)
      requires n < buf.Length && buf[..n] + nc.stream == all
      modifies buf, nc`stream
      ensures n <= m <= buf.Length && buf[..m] + nc.stream == all && (status == Fine ==> n < m)
      ensures status == EndOfStream ==> nc.stream == []
      ensures status == Failure ==> !nc.reliable
    {
      ghost var was, coming := buf[..n], nc.stream;
      var nn;
      nn, status := nc.Read(buf, n);
      Regroup(was, coming, nn);
      m := n + nn;
    }

    // Reads until at least need bytes are buffered. It can fail only if the network does or
    // if there are not so many.
    method Fill(need: nat) returns (ok: bool)
      requires Valid() && length < need
      modifies this`buf, this`idx, this`length, buf, nc`stream
      ensures Valid() && (buf == old(buf) || fresh(buf))
      ensures ok ==> length >= need && Pending() == old(Pending())
      ensures !ok ==> !nc.reliable || |old(Pending())| < need
    {
      hide Buffer.Pending;
      ghost var all := FromFront();
      MakeRoom(need);
      var n := length;
      while true
        invariant length <= n < need <= buf.Length && idx == 0 && (buf == old(buf) || fresh(buf))
        invariant buf[..n] + nc.stream == all == old(Pending())
        decreases need - n
      {
        var status;
        n, status := ReadOn(n, all);
        match status {
          case Fine =>
            if n < need {
              continue;
            }
            length := n;
            all := FromFront();
            return true;
          case EndOfStream =>
            if n >= need {
              length := n;
              all := FromFront();
              return true;
            }
            return false;
          case Failure =>
            return false;
        }
      }
    }

    // The pending bytes, the buffered ones first.
    ghost method FromFront() returns (all: bytes)
      requires Valid()
      ensures all == buf[idx..idx + length] + nc.stream == Pending()
      ensures idx == 0 ==> all == buf[..length] + nc.stream
    {
      all := Pending();
      assert idx == 0 ==> buf[idx..idx + length] == buf[..length];
    }

    // The next bytes of the stream.
    method ReadNext(need: nat) returns (data: bytes, ok: bool)
      requires Valid()
      modifies this`buf, this`idx, this`length, buf, nc`stream
      ensures Valid() && (buf == old(buf) || fresh(buf))
      ensures ok ==> |data| == need && old(Pending()) == data + Pending()
      ensures !ok ==> !nc.reliable || |old(Pending())| < need
    {
      hide Buffer.Pending;
      if length < need {
        ok := Fill(need);
        if !ok {
          return [], false;
        }
      }
      data := Take(need);
      ok := true;
    }

    method Take(need: nat) returns (data: bytes)
      requires Valid() && length >= need
      modifies this`idx, this`length
      ensures Valid() && |data| == need && old(Pending()) == data + Pending()
    {
      hide Buffer.Pending;
      var offset := idx;
      Cut(buf, idx, idx + need, idx + length, nc.stream);
      ghost var all := FromFront();
      idx := idx + need;
      length := length - need;
      all := FromFront();
      return buf[offset..idx];
    }
  }

  lemma Regroup(was: bytes, coming: bytes, n: nat)
    requires n <= |coming|
    ensures (was + coming[..n]) + coming[n..] == was + coming
  {
    assert coming == coming[..n] + coming[n..];
  }

  lemma Cut(buf: array<byte>, lo: nat, mid: nat, hi: nat, stream: bytes)
    requires lo <= mid <= hi <= buf.Length
    ensures buf[lo..hi] + stream == buf[lo..mid] + (buf[mid..hi] + stream)
  {
    assert buf[lo..hi] == buf[lo..mid] + buf[mid..hi];
  }

  class Connection {
    const buf: Buffer
    var sequence: byte
    var closed: bool

    constructor (buf: Buffer, sequence: byte)
      ensures this.buf == buf && this.sequence == sequence && !closed
    {
      this.buf, this.sequence, closed := buf, sequence, false;
    }

    // Reads one packet, however the network delivers its frames. A failed read closes the
    // connection; frames out of sequence do not.
    method ReadPacket() returns (a: Answer)
      requires buf.Valid()
      modifies this, buf`buf, buf`idx, buf`length, buf.buf, buf.nc`stream
      ensures buf.Valid() && (buf.buf == old(buf.buf) || fresh(buf.buf))
      ensures var r := ReadFrom(old(buf.Pending()), old(sequence), []);
        && (a == AnswerOf(r) || (!buf.nc.reliable && a == AnswerOf(Truncated)))
        && (a.error == NoError ==> r.Packet? && buf.Pending() == r.rest && sequence == r.sequence)
      ensures closed == (old(closed) || a.error == InvalidConnection)
    {
      hide ReadFrom, Size, Next, Buffer.Pending;
      var previous: bytes := [];
      ghost var spec := ReadFrom(buf.Pending(), sequence, []);
      while true
        invariant buf.Valid() && (buf.buf == old(buf.buf) || fresh(buf.buf)) && closed == old(closed)
        invariant ReadFrom(buf.Pending(), sequence, previous) == spec
        decreases |buf.Pending()|
      {
        ghost var stream := buf.Pending();
        var header, ok := buf.ReadNext(4);
        if !ok {
          ShortHeader(stream, sequence, previous);
          closed := true;
          return Answer([], InvalidConnection);
        }
        ghost var more := buf.Pending();
        var pktLen := Size(header);
        ReadStep(stream, header, more, sequence, previous);
        if header[3] != sequence {
          return Answer([], if header[3] > sequence then PacketSyncMul else PacketSync);
        }
        sequence := Next(sequence);
        if pktLen == 0 {
          if previous == [] {
            closed := true;
            return Answer([], InvalidConnection);
          }
          return Answer(previous, NoError);
        }
        var data;
        data, ok := buf.ReadNext(pktLen);
        if !ok {
          closed := true;
          return Answer([], InvalidConnection);
        }
        CutOff(more, data, buf.Pending());
        if pktLen < MAX_PACKET_SIZE {
          return Answer(previous + data, NoError);
        }
        previous := previous + data;
      }
    }
  }

  lemma CutOff(more: bytes, data: bytes, rest: bytes)
    requires more == data + rest
    ensures more[..|data|] == data && more[|data|..] == rest
  {
  }

  lemma ShortHeader(stream: bytes, sequence: byte, previous: bytes)
    ensures |stream| < 4 ==> ReadFrom(stream, sequence, previous) == Truncated
  {
  }

  // One frame of the specification, its header and what follows apart.
  lemma ReadStep(stream: bytes, header: bytes, more: bytes, sequence: byte, previous: bytes)
    requires |header| == 4 && stream == header + more
    ensures var size := Size(header);
      ReadFrom(stream, sequence, previous) ==
        if header[3] != sequence then OutOfSync(header[3] > sequence)
        else if size == 0 then if previous == [] then Malformed else Packet(previous, more, Next(sequence))
        else if |more| < size then Truncated
        else if size < MAX_PACKET_SIZE then Packet(previous + more[..size], more[size..], Next(sequence))
        else ReadFrom(more[size..], Next(sequence), previous + more[..size])
  {
    assert stream[..4] == header;
    var size := Size(header);
    assert |more| >= size ==> stream[4..4 + size] == more[..size] && stream[4 + size..] == more[size..];
    assert stream[4..] == more;
  }
}

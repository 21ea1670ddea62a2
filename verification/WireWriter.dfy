/** Writing packets: the headers of later frames overwrite bytes of the payload already sent. */
module WireWriter {
  import opened Bytes
  import opened WireFrames

  // How a network write goes: the bytes it takes, and whether it reports an error. Writes
  // beyond the script succeed.
  datatype Outcome = Outcome(taken: nat, failed: bool)
  type Script = seq<Outcome>

  datatype Result = Done | TooLarge | NothingWritten | InvalidConnection

  datatype Written = Written(result: Result, sent: bytes, sequence: byte, script: Script)

  function Min(a: nat, b: nat): nat {
    if a < b then a else b
  }

  function Taken(frame: bytes, script: Script): nat {
    if script == [] then |frame| else Min(script[0].taken, |frame|)
  }

  predicate Fails(script: Script) {
    script != [] && script[0].failed
  }

  function Tail(script: Script): Script {
    if script == [] then [] else script[1..]
  }

  function FirstFrame(payload: bytes, sequence: byte): bytes {
    var size := Min(|payload|, MAX_PACKET_SIZE);
    Header(size, sequence) + payload[..size]
  }

  // What a run over the frames of a payload sends and answers.
  function WriteFrames(payload: bytes, sequence: byte, script: Script): Written
    decreases |payload|
  {
    var frame := FirstFrame(payload, sequence);
    var n := Taken(frame, script);
    if !Fails(script) && n == |frame| then
      if |payload| < MAX_PACKET_SIZE then Written(Done, frame, Next(sequence), Tail(script))
      else Before(frame, WriteFrames(payload[MAX_PACKET_SIZE..], Next(sequence), Tail(script)))
    else
      Written(if Fails(script) && n == 0 then NothingWritten else InvalidConnection, frame[..n], sequence, Tail(script))
  }

  function Before(sent: bytes, w: Written): Written {
    w.(sent := sent + w.sent)
  }

  // A successful write sent all frames; any other sent a part of them from the front.
  lemma {:induction false} SendsFrames(payload: bytes, sequence: byte, script: Script)
    ensures var w := WriteFrames(payload, sequence, script);
      && w.result != TooLarge && w.sent <= Frames(payload, sequence)
      && (w.result == Done ==>
        w.sent == Frames(payload, sequence) && w.sequence == After(sequence, FrameCount(payload)))
    decreases |payload|
  {
    var frame := FirstFrame(payload, sequence);
    var w := WriteFrames(payload, sequence, script);
    if |payload| < MAX_PACKET_SIZE {
      assert payload[..|payload|] == payload;
      assert w.sent <= frame;
    } else {
      assert Frames(payload, sequence) == frame + Frames(payload[MAX_PACKET_SIZE..], Next(sequence));
      if !Fails(script) && Taken(frame, script) == |frame| {
        SendsFrames(payload[MAX_PACKET_SIZE..], Next(sequence), Tail(script));
        CountOne(payload, sequence);
      }
    }
  }

  // The network takes the whole k-th frame of a payload of that length.
  predicate TakesFrame(length: nat, script: Script, k: nat)
    requires 0xFF_FFFF * k <= length
  {
    k < |script| ==> !script[k].failed && script[k].taken >= 4 + Min(length - 0xFF_FFFF * k, 0xFF_FFFF)
  }

  // The write ended at frame k, the first that the network did not take as a whole, if there is
  // one: then nothing is said to be written if it failed at once, and the connection is invalid
  // otherwise.
  ghost predicate EndedAt(length: nat, sequence: byte, script: Script, w: Written, k: nat) {
    var n := length / 0xFF_FFFF + 1;
    && k <= n && (forall j: nat :: j < k ==> TakesFrame(length, script, j))
    && (w.result == Done <==> k == n) && w.sequence == After(sequence, k)
    && (k < n ==>
      && k < |script| && !TakesFrame(length, script, k)
      && w.result == (if script[k] == Outcome(0, true) then NothingWritten else InvalidConnection)
      && |w.sent| == (4 + 0xFF_FFFF) * k + Min(script[k].taken, 4 + Min(length - 0xFF_FFFF * k, 0xFF_FFFF)))
  }

  lemma {:induction false} EndsAt(payload: bytes, sequence: byte, script: Script) returns (k: nat)
    ensures EndedAt(|payload|, sequence, script, WriteFrames(payload, sequence, script), k)
    decreases |payload|
  {
    var frame := FirstFrame(payload, sequence);
    if Fails(script) || Taken(frame, script) < |frame| {
      k := 0;
    } else if |payload| < MAX_PACKET_SIZE {
      k := 1;
    } else {
      hide EndedAt;
      var more := payload[MAX_PACKET_SIZE..];
      k := EndsAt(more, Next(sequence), Tail(script));
      EndsLater(|payload|, sequence, script, frame, WriteFrames(more, Next(sequence), Tail(script)), k);
      k := k + 1;
    }
  }

  lemma EndsLater(length: nat, sequence: byte, script: Script, frame: bytes, w: Written, k: nat)
    requires length >= MAX_PACKET_SIZE && |frame| == 4 + 0xFF_FFFF && TakesFrame(length, script, 0)
    requires EndedAt(length - MAX_PACKET_SIZE, Next(sequence), Tail(script), w, k)
    ensures EndedAt(length, sequence, script, Before(frame, w), k + 1)
  {
    forall j: nat | j < k + 1 ensures TakesFrame(length, script, j) {
      if j > 0 {
        LaterFrame(length, script, j);
      }
    }
    if k < length / 0xFF_FFFF {
      LaterFrame(length, script, k + 1);
    }
  }

  lemma LaterFrame(length: nat, script: Script, k: nat)
    requires 0 < k && 0xFF_FFFF * k <= length
    ensures TakesFrame(length, script, k) == TakesFrame(length - 0xFF_FFFF, Tail(script), k - 1)
    ensures k - 1 < |Tail(script)| ==> k < |script| && Tail(script)[k - 1] == script[k]
  {
  }

  // A network that fails nothing takes every packet.
  lemma {:induction false} Undisturbed(payload: bytes, sequence: byte)
    ensures WriteFrames(payload, sequence, []).result == Done && WriteFrames(payload, sequence, []).script == []
    decreases |payload|
  {
    if |payload| >= MAX_PACKET_SIZE {
      Undisturbed(payload[MAX_PACKET_SIZE..], Next(sequence));
    }
  }

  // A reader of what a write sent gets the payload after a success, and no packet otherwise.
  lemma WrittenIsRead(payload: bytes, sequence: byte, script: Script, rest: bytes)
    requires payload != []
    ensures var w := WriteFrames(payload, sequence, script);
      if w.result == Done then ReadFrom(w.sent + rest, sequence, []) == Packet(payload, rest, w.sequence)
      else w.sent < Frames(payload, sequence) ==> ReadFrom(w.sent, sequence, []) == Truncated
  {
    hide WriteFrames, ReadFrom, Frames, FrameCount;
    var w := WriteFrames(payload, sequence, script);
    SendsFrames(payload, sequence, script);
    RoundTrip(payload, sequence, rest);
    if w.sent < Frames(payload, sequence) {
      CutShort(payload, sequence, [], |w.sent|);
      assert w.sent == Frames(payload, sequence)[..|w.sent|];
    }
  }

  // The answer that nothing was written, upon which a caller may retry, can be wrong exactly
  // for payloads that need more than one frame.
  lemma NothingWrittenHolds(payload: bytes, sequence: byte)
    ensures |payload| < MAX_PACKET_SIZE <==>
      forall script :: WriteFrames(payload, sequence, script).result == NothingWritten ==>
        WriteFrames(payload, sequence, script).sent == []
  {
    hide WriteFrames;
    if |payload| >= MAX_PACKET_SIZE {
      var script := SecondFrameFails(payload, sequence);
    } else {
      forall script | WriteFrames(payload, sequence, script).result == NothingWritten
        ensures WriteFrames(payload, sequence, script).sent == []
      {
        OneFrame(payload, sequence, script);
      }
    }
  }

  lemma OneFrame(payload: bytes, sequence: byte, script: Script)
    requires |payload| < MAX_PACKET_SIZE
    ensures WriteFrames(payload, sequence, script).result == NothingWritten ==>
      WriteFrames(payload, sequence, script).sent == []
  {
  }

  // The network takes the first frame and then fails.
  lemma SecondFrameFails(payload: bytes, sequence: byte) returns (script: Script)
    requires |payload| >= MAX_PACKET_SIZE
    ensures WriteFrames(payload, sequence, script).result == NothingWritten
    ensures WriteFrames(payload, sequence, script).sent != []
  {
    script := [Outcome(4 + MAX_PACKET_SIZE, false), Outcome(0, true)];
    var frame, more := FirstFrame(payload, sequence), payload[MAX_PACKET_SIZE..];
    assert |frame| == 4 + MAX_PACKET_SIZE && Tail(script) == [Outcome(0, true)];
    var w := WriteFrames(more, Next(sequence), Tail(script));
    assert w.result == NothingWritten;
    assert WriteFrames(payload, sequence, script) == Before(frame, w);
  }

  class Connection {
    // What the network has taken, and how it will behave.
    var sent: bytes
    var script: Script
    var sequence: byte
    var closed: bool
    const maxAllowedPacket: nat

    constructor (maxAllowedPacket: nat, script: Script)
      ensures this.maxAllowedPacket == maxAllowedPacket && this.script == script
      ensures sent == [] && sequence == 0 && !closed
    {
      this.maxAllowedPacket, this.script := maxAllowedPacket, script;
      sent, sequence, closed := [], 0, false;
    }

    method NetworkWrite(data: array<byte>, lo: nat, hi: nat) returns (n: nat, failed: bool)
      requires lo <= hi <= data.Length
      modifies this`sent, this`script
      ensures n == Taken(data[lo..hi], old(script)) && failed == Fails(old(script)) && script == Tail(old(script))
      ensures sent == old(sent) + data[lo..hi][..n]
    {
      n, failed := Taken(data[lo..hi], script), Fails(script);
      script := Tail(script);
      sent := sent + data[lo..lo + n];
    }

    // Puts the header over the four bytes before the payload.
    method PutHeader(data: array<byte>, from: nat, pktLen: nat) returns (size: nat)
      requires from + 4 + pktLen <= data.Length
      modifies data
      ensures data[..from] == old(data[..from]) && data[from + 4..] == old(data[from + 4..])
      ensures size == Min(pktLen, MAX_PACKET_SIZE) && data[from..from + 4] == Header(size, sequence)
    {
      if pktLen >= MAX_PACKET_SIZE {
        data[from], data[from + 1], data[from + 2] := 0xFF, 0xFF, 0xFF;
        size := MAX_PACKET_SIZE;
      } else {
        data[from] := (pktLen % 256) as byte;
        data[from + 1] := (pktLen / 256 % 256) as byte;
        data[from + 2] := (pktLen / 65536 % 256) as byte;
        size := pktLen;
      }
      data[from + 3] := sequence;
    }

    method SendFrame(data: array<byte>, from: nat, pktLen: nat) returns (size: nat, n: nat, failed: bool)
      requires from + 4 + pktLen <= data.Length
      modifies this`sent, this`script, data
      ensures data[..from] == old(data[..from]) && data[from + 4..] == old(data[from + 4..])
      ensures size == Min(pktLen, MAX_PACKET_SIZE) && n <= 4 + size
      ensures var frame := FirstFrame(old(data[from + 4..from + 4 + pktLen]), sequence);
        && |frame| == 4 + size && n == Taken(frame, old(script)) && sent == old(sent) + frame[..n]
        && failed == Fails(old(script)) && script == Tail(old(script))
    {
      hide Fails, Tail, Header;
      size := PutHeader(data, from, pktLen);
      assert data[from + 4..][..size] == data[from + 4..from + 4 + size];
      assert old(data[from + 4..])[..size] == old(data[from + 4..from + 4 + pktLen])[..size];
      assert data[from..from + 4 + size] == data[from..from + 4] + data[from + 4..from + 4 + size];
      n, failed := NetworkWrite(data, from, from + 4 + size);
    }

    // Writes the packet in data[at..at + length], whose first four bytes are left for the header.
    method WritePacket(data: array<byte>, at: nat, length: nat) returns (result: Result)
      requires at + length <= data.Length && length >= 4
      modifies this`sent, this`script, this`sequence, this`closed, data
      ensures data[..at] == old(data[..at]) && data[at + length..] == old(data[at + length..])
      ensures length - 4 > maxAllowedPacket ==>
        result == TooLarge && sent == old(sent) && sequence == old(sequence) && data[..] == old(data[..])
      ensures length - 4 <= maxAllowedPacket ==>
        Written(result, sent, sequence, script) ==
        Before(old(sent), WriteFrames(old(data[at + 4..at + length]), old(sequence), old(script)))
      ensures closed == (old(closed) || result == InvalidConnection)
    {
      hide WriteFrames, FirstFrame, Header, Taken, Fails, Tail, Next;
      var pktLen := length - 4;
      if pktLen > maxAllowedPacket {
        return TooLarge;
      }
      var from, left := at, length;
      ghost var all := WriteFrames(data[at + 4..at + length], sequence, script);
      while true
        invariant at <= from && from + left == at + length && left == pktLen + 4 >= 4
        invariant data[..at] == old(data[..at]) && data[at + length..] == old(data[at + length..])
        invariant closed == old(closed)
        invariant Before(sent, WriteFrames(data[from + 4..from + left], sequence, script)) == Before(old(sent), all)
        decreases left
      {
        ghost var payload := data[from + 4..from + left];
        Step(payload, sequence, script, sent);
        label sending:
        var size, n, failed := SendFrame(data, from, pktLen);
        Outside(data[..], old@sending(data[..]), at, from, length);
        if !failed && n == 4 + size {
          sequence := Next(sequence);
          if size != MAX_PACKET_SIZE {
            return Done;
          }
          pktLen := pktLen - size;
          from, left := from + size, left - size;
          assert data[from + 4..from + left] == payload[MAX_PACKET_SIZE..];
          continue;
        }
        if !failed {
          closed := true;
        } else {
          // Meant for the first frame only, but the lengths agree at every frame.
          if n == 0 && pktLen == left - 4 {
            return NothingWritten;
          }
          closed := true;
        }
        return InvalidConnection;
      }
    }
  }

  // What lies outside the packet is untouched when only bytes from..from + 4 are.
  lemma Outside(now: bytes, before: bytes, at: nat, from: nat, length: nat)
    requires |now| == |before| && at <= from && from + 4 <= at + length <= |now|
    requires now[..from] == before[..from] && now[from + 4..] == before[from + 4..]
    ensures now[..at] == before[..at] && now[at + length..] == before[at + length..]
    ensures now[from + 4..at + length] == before[from + 4..at + length]
  {
    assert now[..at] == now[..from][..at] && before[..at] == before[..from][..at];
    var k, j := at + length - from - 4, at + length;
    assert now[j..] == now[from + 4..][k..] && before[j..] == before[from + 4..][k..];
    assert now[from + 4..j] == now[from + 4..][..k] && before[from + 4..j] == before[from + 4..][..k];
  }

  // One frame of the run.
  lemma Step(payload: bytes, sequence: byte, script: Script, sent: bytes)
    ensures var frame := FirstFrame(payload, sequence);
      var n := Taken(frame, script);
      Before(sent, WriteFrames(payload, sequence, script)) ==
        if Fails(script) || n < |frame| then
          Written(if Fails(script) && n == 0 then NothingWritten else InvalidConnection,
            sent + frame[..n], sequence, Tail(script))
        else if |payload| < MAX_PACKET_SIZE then Written(Done, sent + frame, Next(sequence), Tail(script))
        else Before(sent + frame, WriteFrames(payload[MAX_PACKET_SIZE..], Next(sequence), Tail(script)))
  {
    var frame := FirstFrame(payload, sequence);
    if |payload| >= MAX_PACKET_SIZE {
      var w := WriteFrames(payload[MAX_PACKET_SIZE..], Next(sequence), Tail(script));
      assert sent + (frame + w.sent) == sent + frame + w.sent;
    }
  }
}

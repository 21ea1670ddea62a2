/** Sending a long statement argument: commands that carry it piece by piece. */
module WireLongData {
  import opened Bytes
  import opened WireFrames
  import opened WireWriter

  const COM_STMT_SEND_LONG_DATA: byte := 24
  const DATA_OFFSET: nat := 7

  function Command(id: nat, param: nat): bytes {
    [COM_STMT_SEND_LONG_DATA, (id % 256) as byte, (id / 256 % 256) as byte, (id / 65536 % 256) as byte,
     (id / 0x100_0000 % 256) as byte, (param % 256) as byte, (param / 256 % 256) as byte]
  }

  // The frames of all commands, every packet with at most room bytes of the argument.
  function LongFrames(id: nat, param: nat, arg: bytes, room: nat): bytes
    requires room > 0
    decreases |arg|
  {
    if arg == [] then []
    else
      var part := Min(|arg|, room);
      Frames(Command(id, param) + arg[..part], 0) + LongFrames(id, param, arg[part..], room)
  }

  datatype Received = Piece(id: nat, param: nat, data: bytes) | NotLongData

  // How a server reads COM_STMT_SEND_LONG_DATA: the command byte 0x18, the statement id in four
  // bytes and the parameter id in two, least first, and the data.
  function ServerReads(payload: bytes): Received {
    if |payload| < 7 || payload[0] != 0x18 then NotLongData
    else
      Piece(payload[1] as int + 0x100 * (payload[2] as int) + 0x1_0000 * (payload[3] as int) +
            0x100_0000 * (payload[4] as int),
        payload[5] as int + 0x100 * (payload[6] as int), payload[7..])
  }

  // What a server gathers for a parameter from the commands it reads.
  function Gathered(id: nat, param: nat, stream: bytes): (arg: bytes)
    decreases |stream|
  {
    var packet := ReadFrom(stream, 0, []);
    if packet.Packet? && |packet.rest| < |stream| then
      var received := ServerReads(packet.payload);
      if received.Piece? && received.id == id % 0x1_0000_0000 && received.param == param % 0x1_0000
      then received.data + Gathered(id, param, packet.rest)
      else []
    else []
  }

  // A command is read with the ids it was sent with.
  lemma CommandRead(id: nat, param: nat, part: bytes)
    ensures ServerReads(Command(id, param) + part) == Piece(id % 0x1_0000_0000, param % 0x1_0000, part)
  {
    var payload := Command(id, param) + part;
    assert payload[7..] == part;
    FourParts(id);
    TwoParts(param);
  }

  lemma FourParts(x: nat)
    ensures x % 256 + 0x100 * (x / 256 % 256) + 0x1_0000 * (x / 65536 % 256) + 0x100_0000 * (x / 0x100_0000 % 256) ==
      x % 0x1_0000_0000
  {
    TwoParts(x);
    TwoParts(x / 65536);
    assert x == x % 65536 + 65536 * (x / 65536);
    assert x / 65536 / 256 == x / 0x100_0000;
    assert x / 65536 == x / 65536 % 65536 + 65536 * (x / 0x1_0000_0000);
  }

  lemma TwoParts(x: nat)
    ensures x % 256 + 0x100 * (x / 256 % 256) == x % 0x1_0000
  {
    assert x == x % 256 + 256 * (x / 256);
    assert x / 256 == x / 256 % 256 + 256 * (x / 0x1_0000);
  }

  lemma OneCommand(id: nat, param: nat, part: bytes, rest: bytes)
    ensures Gathered(id, param, Frames(Command(id, param) + part, 0) + rest) == part + Gathered(id, param, rest)
  {
    hide ReadFrom, Frames, Command, FrameCount, ServerReads;
    var payload := Command(id, param) + part;
    CommandLength(id, param);
    CommandRead(id, param, part);
    FramesBack(payload, 0, [], rest);
    assert [] + payload == payload;
    FramesNotEmpty(payload, 0);
  }

  lemma CommandLength(id: nat, param: nat)
    ensures |Command(id, param)| == DATA_OFFSET
  {
  }

  lemma FramesNotEmpty(payload: bytes, sequence: byte)
    ensures |Frames(payload, sequence)| > 0
  {
  }

  // The pieces put together are the argument.
  lemma {:induction false} ArgumentArrives(id: nat, param: nat, arg: bytes, room: nat)
    requires room > 0
    ensures Gathered(id, param, LongFrames(id, param, arg, room)) == arg
    decreases |arg|
  {
    hide Gathered, Frames, Command;
    if arg == [] {
      NothingGathered(id, param);
    } else {
      var part := Min(|arg|, room);
      OneCommand(id, param, arg[..part], LongFrames(id, param, arg[part..], room));
      ArgumentArrives(id, param, arg[part..], room);
      assert arg[..part] + arg[part..] == arg;
    }
  }

  lemma NothingGathered(id: nat, param: nat)
    ensures Gathered(id, param, []) == []
  {
  }

  // How the loop stands after some turns: it returned, it panicked on a slice or an index out
  // of range, or it goes on with what is left of the argument.
  datatype End = Returned(result: Result) | Panicked | Running(left: bytes)

  datatype Sending = Sending(end: End, sent: bytes, sequence: byte, script: Script)

  function Further(sent: bytes, sending: Sending): Sending {
    sending.(sent := sent + sending.sent)
  }

  // The payload of the next packet under a packet limit: a piece of the argument behind the
  // command, or less than the command if the limit is too small.
  function Payload(id: nat, param: nat, arg: bytes, limit: nat): bytes
    requires limit > 0
  {
    (Command(id, param) + arg)[..Min(DATA_OFFSET + |arg|, limit - 1)]
  }

  // The loop, looked at after at most so many turns.
  function Turns(id: nat, param: nat, arg: bytes, limit: nat, sequence: byte, script: Script, turns: nat): Sending
    decreases turns
  {
    if arg == [] then Sending(Returned(Done), [], 0, script)
    else if turns == 0 then Sending(Running(arg), [], sequence, script)
    else if limit == 0 then Sending(Panicked, [], 0, script)
    else
      var payload := Payload(id, param, arg, limit);
      var w := WriteFrames(payload, 0, script);
      if w.result != Done then Sending(Returned(w.result), w.sent, w.sequence, w.script)
      else if |payload| < DATA_OFFSET then Sending(Panicked, w.sent, w.sequence, w.script)
      else Further(w.sent, Turns(id, param, arg[|payload| - DATA_OFFSET..], limit, w.sequence, w.script, turns - 1))
  }

  // With room for data every turn takes some of the argument: the loop returns, after sending
  // all commands or, when the network fails, a part of them from the front.
  lemma {:induction false} Ends(id: nat, param: nat, arg: bytes, limit: nat, sequence: byte, script: Script, turns: nat)
    requires limit > 1 + DATA_OFFSET && turns >= |arg|
    ensures var sending := Turns(id, param, arg, limit, sequence, script, turns);
      var all := LongFrames(id, param, arg, limit - 1 - DATA_OFFSET);
      && sending.end.Returned? && sending.end.result != TooLarge && sending.sent <= all
      && (sending.end.result == Done ==> sending.sent == all && sending.sequence == 0)
      && (script == [] ==> sending.end.result == Done)
    decreases |arg|
  {
    hide Frames, Command, WriteFrames, FrameCount, After;
    if arg != [] {
      var room := limit - 1 - DATA_OFFSET;
      var part := Min(|arg|, room);
      var payload := Payload(id, param, arg, limit);
      CommandLength(id, param);
      assert payload == Command(id, param) + arg[..part];
      var w := WriteFrames(payload, 0, script);
      SendsFrames(payload, 0, script);
      Undisturbed(payload, 0);
      if w.result == Done {
        Ends(id, param, arg[part..], limit, w.sequence, w.script, turns - 1);
      }
    }
  }

  // Without room for data no turn takes any of it: whatever the network does the loop does
  // not return successfully.
  lemma {:induction false} NeverDone(
      id: nat, param: nat, arg: bytes, limit: nat, sequence: byte, script: Script, turns: nat)
    requires limit <= 1 + DATA_OFFSET && arg != []
    ensures var end := Turns(id, param, arg, limit, sequence, script, turns).end;
      && end != Returned(Done) && (end.Running? ==> end.left == arg)
      && (limit <= DATA_OFFSET && turns > 0 ==> !end.Running?)
    decreases turns
  {
    hide Command, WriteFrames;
    CommandLength(id, param);
    if turns > 0 && limit == 1 + DATA_OFFSET {
      var w := WriteFrames(Payload(id, param, arg, limit), 0, script);
      assert arg[0..] == arg;
      NeverDone(id, param, arg, limit, w.sequence, w.script, turns - 1);
    }
  }

  // So the loop comes to a successful end, over a network that fails nothing, exactly when
  // there is nothing to send or the limit exceeds eight bytes.
  lemma EndsExactly(id: nat, param: nat, arg: bytes, limit: nat, sequence: byte)
    ensures (exists turns :: Turns(id, param, arg, limit, sequence, [], turns).end == Returned(Done)) <==>
      arg == [] || limit > 8
  {
    hide Turns;
    if arg == [] || limit > 8 {
      if arg == [] {
        NothingToSend(id, param, limit, sequence);
      } else {
        Ends(id, param, arg, limit, sequence, [], |arg|);
      }
      assert Turns(id, param, arg, limit, sequence, [], |arg|).end == Returned(Done);
    } else {
      forall turns ensures Turns(id, param, arg, limit, sequence, [], turns).end != Returned(Done) {
        NeverDone(id, param, arg, limit, sequence, [], turns);
      }
    }
  }

  lemma NothingToSend(id: nat, param: nat, limit: nat, sequence: byte)
    ensures Turns(id, param, [], limit, sequence, [], 0).end == Returned(Done)
  {
  }

  // The frames of so many commands without data.
  function EmptyCommands(id: nat, param: nat, rounds: nat): bytes {
    if rounds == 0 then [] else Frames(Command(id, param), 0) + EmptyCommands(id, param, rounds - 1)
  }

  // With a limit of eight bytes the loop goes round for ever: every turn sends a command, the
  // argument stays as it is, and a server gathers nothing of it.
  lemma {:induction false} NothingArrives(id: nat, param: nat, arg: bytes, sequence: byte, turns: nat)
    requires arg != []
    ensures var sending := Turns(id, param, arg, 8, sequence, [], turns);
      && sending.end == Running(arg) && sending.sent == EmptyCommands(id, param, turns) && sending.script == []
      && Gathered(id, param, sending.sent) == []
    decreases turns
  {
    hide Gathered, Frames, Command, WriteFrames, FrameCount, After;
    if turns == 0 {
      NothingGathered(id, param);
    } else {
      CommandLength(id, param);
      var payload := Payload(id, param, arg, 8);
      assert payload == Command(id, param) && arg[0..] == arg && Command(id, param) + [] == payload;
      var w := WriteFrames(payload, 0, []);
      SendsFrames(payload, 0, []);
      Undisturbed(payload, 0);
      NothingArrives(id, param, arg, w.sequence, turns - 1);
      OneCommand(id, param, [], EmptyCommands(id, param, turns - 1));
    }
  }

  // With a smaller limit the first turn sends the beginning of a command, if the limit is at
  // least one, and then panics.
  lemma CutCommand(id: nat, param: nat, arg: bytes, limit: nat, sequence: byte, turns: nat)
    requires arg != [] && limit < 8 && turns > 0
    ensures var sending := Turns(id, param, arg, limit, sequence, [], turns);
      && sending.end == Panicked
      && sending.sent == if limit == 0 then [] else Frames(Command(id, param)[..limit - 1], 0)
  {
    hide Frames, Command, WriteFrames;
    CommandLength(id, param);
    if limit > 0 {
      var payload := Payload(id, param, arg, limit);
      assert payload == Command(id, param)[..limit - 1];
      SendsFrames(payload, 0, []);
      Undisturbed(payload, 0);
    }
  }

  class Statement {
    const id: nat
    const mc: Connection

    constructor (id: nat, mc: Connection)
      ensures this.id == id && this.mc == mc
    {
      this.id, this.mc := id, mc;
    }

    // Commands go out of one array; each overwrites the end of the piece sent before it. The
    // loop need not come to an end and is looked at after at most so many turns.
    method WriteCommandLongData(param: nat, arg: bytes, turns: nat) returns (end: End)
      modifies mc`sent, mc`script, mc`sequence, mc`closed
      ensures Sending(end, mc.sent, mc.sequence, mc.script) ==
        Further(old(mc.sent), Turns(id, param, arg, mc.maxAllowedPacket, old(mc.sequence), old(mc.script), turns))
      ensures mc.closed == (old(mc.closed) || end == Returned(InvalidConnection))
    {
      hide Command, WriteFrames, Turns, Further, Frames;
      CommandLength(id, param);
      ghost var limit := mc.maxAllowedPacket;
      var maxLen: int := mc.maxAllowedPacket - 1;
      var pktLen := maxLen;
      var data := new byte[4 + DATA_OFFSET + |arg|];
      CopyIn(data, 4 + DATA_OFFSET, arg);
      var at := 0;
      var argLen: int := |arg|;
      ghost var all := Turns(id, param, arg, limit, mc.sequence, mc.script, turns);
      var turn := 0;
      while argLen > 0
        invariant 0 <= argLen <= |arg| && at == |arg| - argLen && turn <= turns
        invariant pktLen == maxLen || argLen == 0
        invariant data[at + 4 + DATA_OFFSET..] == arg[at..]
        invariant Further(mc.sent, Turns(id, param, arg[at..], limit, mc.sequence, mc.script, turns - turn)) ==
          Further(old(mc.sent), all)
        invariant mc.closed == old(mc.closed)
        decreases turns - turn
      {
        OneTurn(id, param, arg[at..], limit, mc.sequence, mc.script, turns - turn, mc.sent);
        if turn == turns {
          return Running(arg[at..]);
        }
        turn := turn + 1;
        if DATA_OFFSET + argLen < maxLen {
          pktLen := DATA_OFFSET + argLen;
        }
        mc.sequence := 0;
        if pktLen < 0 {
          return Panicked;
        }
        var result := SendCommand(data, at, param, pktLen, arg[at..]);
        if result != Done {
          return Returned(result);
        }
        if pktLen < DATA_OFFSET {
          return Panicked;
        }
        assert arg[at..][pktLen - DATA_OFFSET..] == arg[at + (pktLen - DATA_OFFSET)..];
        at := at + (pktLen - DATA_OFFSET);
        argLen := argLen - (pktLen - DATA_OFFSET);
      }
      assert arg[at..] == [];
      OneTurn(id, param, [], limit, mc.sequence, mc.script, turns - turn, mc.sent);
      mc.sequence := 0;
      end := Returned(Done);
    }

    // One packet with the command and what follows it in the array.
    method SendCommand(data: array<byte>, at: nat, param: nat, pktLen: nat, ghost rest: bytes) returns (result: Result)
      requires at + 4 + DATA_OFFSET <= data.Length && at + 4 + pktLen <= data.Length && pktLen <= mc.maxAllowedPacket
      requires data[at + 4 + DATA_OFFSET..] == rest
      modifies data, mc`sent, mc`script, mc`sequence, mc`closed
      ensures Written(result, mc.sent, mc.sequence, mc.script) ==
        Before(old(mc.sent), WriteFrames((Command(id, param) + rest)[..pktLen], old(mc.sequence), old(mc.script)))
      ensures mc.closed == (old(mc.closed) || result == InvalidConnection)
      ensures pktLen >= DATA_OFFSET ==> data[at + 4 + pktLen..] == rest[pktLen - DATA_OFFSET..]
    {
      hide Command, WriteFrames, Before;
      CommandLength(id, param);
      PutCommand(data, at, param);
      CutOut(data[..], at + 4, DATA_OFFSET, pktLen, Command(id, param), rest);
      result := mc.WritePacket(data, at, 4 + pktLen);
    }

    method PutCommand(data: array<byte>, at: nat, param: nat)
      requires at + 4 + DATA_OFFSET <= data.Length
      modifies data
      ensures data[at + 4..at + 4 + DATA_OFFSET] == Command(id, param)
      ensures data[at + 4 + DATA_OFFSET..] == old(data[at + 4 + DATA_OFFSET..])
    {
      data[at + 4] := COM_STMT_SEND_LONG_DATA;
      data[at + 5] := (id % 256) as byte;
      data[at + 6] := (id / 256 % 256) as byte;
      data[at + 7] := (id / 65536 % 256) as byte;
      data[at + 8] := (id / 0x100_0000 % 256) as byte;
      data[at + 9] := (param % 256) as byte;
      data[at + 10] := (param / 256 % 256) as byte;
    }
  }

  method CopyIn(data: array<byte>, at: nat, arg: bytes)
    requires at + |arg| == data.Length
    modifies data
    ensures data[at..] == arg
  {
    for k := 0 to |arg|
      invariant data[at..at + k] == arg[..k]
    {
      ghost var was := data[at..at + k];
      data[at + k] := arg[k];
      assert data[at..at + k + 1] == was + [arg[k]] == arg[..k + 1];
    }
    assert arg[..|arg|] == arg && data[at..at + |arg|] == data[at..];
  }

  lemma CutOut(data: bytes, from: nat, k: nat, n: nat, front: bytes, back: bytes)
    requires from + k <= |data| && data[from..from + k] == front && data[from + k..] == back
    requires from + n <= |data|
    ensures data[from..from + n] == (front + back)[..n]
    ensures n >= k ==> data[from + n..] == back[n - k..]
  {
    assert data[from..] == front + back;
    assert n >= k ==> data[from + n..] == data[from + k..][n - k..];
  }

  // One turn of the loop.
  lemma OneTurn(id: nat, param: nat, arg: bytes, limit: nat, sequence: byte, script: Script, turns: nat, sent: bytes)
    ensures Further(sent, Turns(id, param, arg, limit, sequence, script, turns)) ==
      if arg == [] then Sending(Returned(Done), sent, 0, script)
      else if turns == 0 then Sending(Running(arg), sent, sequence, script)
      else if limit == 0 then Sending(Panicked, sent, 0, script)
      else
        var payload := Payload(id, param, arg, limit);
        var w := WriteFrames(payload, 0, script);
        if w.result != Done then Sending(Returned(w.result), sent + w.sent, w.sequence, w.script)
        else if |payload| < DATA_OFFSET then Sending(Panicked, sent + w.sent, w.sequence, w.script)
        else Further(sent + w.sent,
          Turns(id, param, arg[|payload| - DATA_OFFSET..], limit, w.sequence, w.script, turns - 1))
  {
    hide Command, WriteFrames;
    CommandLength(id, param);
    if arg == [] || turns == 0 || limit == 0 {
      assert sent + [] == sent;
    } else {
      var payload := Payload(id, param, arg, limit);
      var w := WriteFrames(payload, 0, script);
      if w.result == Done && |payload| >= DATA_OFFSET {
        var rest := Turns(id, param, arg[|payload| - DATA_OFFSET..], limit, w.sequence, w.script, turns - 1);
        assert sent + (w.sent + rest.sent) == sent + w.sent + rest.sent;
      }
    }
  }
}

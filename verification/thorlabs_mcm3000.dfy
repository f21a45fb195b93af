/**
 * The Thorlabs MCM3000 stage driver (`MotionController`): fixed-header
 * messages of the Thorlabs APT host-controller protocol and the encoder
 * bookkeeping around them.
 *
 * A message starts with a 6-byte header: the 2-byte message id
 * (little-endian), then either two parameter bytes or the 2-byte length of the
 * data packet that follows, then destination and source. The data packets
 * here are a 2-byte channel and a 4-byte signed little-endian count.
 *
 * The serial port is abstracted: `portOpen` stands for the serial object
 * existing, every message written is appended to `written`, and the bytes a
 * `read(size=12)` returns are passed in as `response`.
 */
module ThorlabsMcm3000 {
  import opened Common
  import IntBytes

  const SET_ENCCOUNTER: nat := 0x0409
  const REQ_ENCCOUNTER: nat := 0x040A
  const GET_ENCCOUNTER: nat := 0x040B
  const MOVE_ABSOLUTE: nat := 0x0453
  const MOVE_STOP: nat := 0x0465

  /** Header and channel of the set-encoder-counter message. */
  const SET_PREFIX: seq<byte> := [0x09, 0x04, 0x06, 0x00, 0x00, 0x00, 0x00, 0x00]
  /** Header and channel of the absolute-move message. */
  const MOVE_PREFIX: seq<byte> := [0x53, 0x04, 0x06, 0x00, 0x00, 0x00, 0x00, 0x00]
  /** The position request `get_current_position` sends. */
  const REQUEST_POSITION: seq<byte> := [0x0A, 0x04, 0x00, 0x00, 0x00, 0x00]
  /** The message `stop` sends. */
  const STOP: seq<byte> := [0x65, 0x04, 0x00, 0x01, 0x00, 0x00]
  /** The header a position reply must start with. */
  const REPLY_HEADER: seq<byte> := [0x0B, 0x04, 0x06, 0x00, 0x00, 0x00]

  /** `int(25.4 * 1000 / 0.21166666)`, the count `set_stage_model('ZFM2020')` starts from. */
  const ENCODER_OFFSET: int := 120000

  /** `struct.error`: the count does not fit a signed 32-bit integer. */
  datatype StructError = StructError

  /** `struct.pack("<l", x)`. */
  function PackLong(x: int): Result<seq<byte>, StructError> {
    match IntBytes.ToBytes(x, 4, IntBytes.Little, true)
    case None => Err(StructError)
    case Some(b) => Ok(b)
  }

  /** The command `set_ini_position` sends for `count`. */
  function SetEncCounterCommand(count: int): Result<seq<byte>, StructError> {
    match PackLong(count)
    case Err(e) => Err(e)
    case Ok(b) => Ok(SET_PREFIX + b)
  }

  /** The command `move_rel` sends for the target `count`. */
  function MoveCommand(count: int): Result<seq<byte>, StructError> {
    match PackLong(count)
    case Err(e) => Err(e)
    case Ok(b) => Ok(MOVE_PREFIX + b)
  }

  /** The reply check of `get_current_position`: the unsigned little-endian value of the last four bytes after a matching header; otherwise None. */
  function ParsePosition(response: seq<byte>): (r: Option<nat>)
    ensures r.Some? <==> |response| >= 6 && response[..6] == REPLY_HEADER
    ensures r.Some? ==> r.value < 0x1_0000_0000 && r.value == IntBytes.DecodeLE(response[|response| - 4..])
  {
    var header := Slice(response, 0, 6);
    assert |response| >= 6 ==> header == response[..6];
    if header == REPLY_HEADER then
      var tail := Slice(response, -4, |response|);
      assert tail == response[|response| - 4..];
      Pow256Four();
      Some(IntBytes.FromBytes(tail, IntBytes.Little, false))
    else None
  }

  /** The driver state the modelled operations touch. */
  class MotionController {
    var portOpen: bool
    var written: seq<seq<byte>>
    var encoderOffset: int
    var positionEncoder: int

    /** `__init__` with the ZFM2020 stage: both counts start at the offset. */
    constructor()
      ensures !portOpen && written == []
      ensures encoderOffset == ENCODER_OFFSET && positionEncoder == ENCODER_OFFSET
    {
      portOpen := false;
      written := [];
      encoderOffset := ENCODER_OFFSET;
      positionEncoder := ENCODER_OFFSET;
    }

    /** A write whose exception is caught and printed: nothing is sent without a port. */
    method Write(command: seq<byte>)
      modifies this`written
      ensures written == if portOpen then old(written) + [command] else old(written)
    {
      if portOpen {
        written := written + [command];
      }
    }

    /** `set_ini_position`: the encoder counter is set to the offset rather than zero. */
    method SetIniPosition() returns (r: Result<(), StructError>)
      modifies this`written
      ensures r == if SetEncCounterCommand(encoderOffset).Ok? then Ok(()) else Err(StructError)
      ensures written == if portOpen && r.Ok? then old(written) + [SetEncCounterCommand(encoderOffset).value] else old(written)
    {
      var command := SetEncCounterCommand(encoderOffset);
      if command.Err? {
        return Err(StructError);
      }
      Write(command.value);
      r := Ok(());
    }

    /** A successful `connect()`: the port opens and the encoder counter is initialised. */
    method Connect() returns (r: Result<(), StructError>)
      modifies this`portOpen, this`written
      ensures portOpen
      ensures r == if SetEncCounterCommand(encoderOffset).Ok? then Ok(()) else Err(StructError)
      ensures written == if r.Ok? then old(written) + [SetEncCounterCommand(encoderOffset).value] else old(written)
    {
      portOpen := true;
      r := SetIniPosition();
    }

    /** `get_current_position('count')`: asks for the count and takes it from a reply with the right header. */
    method GetCurrentPosition(response: seq<byte>) returns (pos: int)
      modifies this`written, this`positionEncoder
      ensures written == if portOpen then old(written) + [REQUEST_POSITION] else old(written)
      ensures positionEncoder ==
        if portOpen && ParsePosition(response).Some? then ParsePosition(response).value else old(positionEncoder)
      ensures pos == positionEncoder
    {
      Write(REQUEST_POSITION);
      if portOpen {
        var p := ParsePosition(response);
        if p.Some? {
          positionEncoder := p.value;
        }
      }
      pos := positionEncoder;
    }

    /** `move_rel` with `deltaCounts` = `int(pos_um / um_per_count)`: re-reads the position, then moves to it plus the delta. */
    method MoveRel(response: seq<byte>, deltaCounts: int) returns (r: Result<(), StructError>)
      modifies this`written, this`positionEncoder
      ensures positionEncoder ==
        if portOpen && ParsePosition(response).Some? then ParsePosition(response).value else old(positionEncoder)
      ensures r == if MoveCommand(positionEncoder + deltaCounts).Ok? then Ok(()) else Err(StructError)
      ensures written == if !portOpen then old(written)
        else if r.Ok? then old(written) + [REQUEST_POSITION, MoveCommand(positionEncoder + deltaCounts).value]
        else old(written) + [REQUEST_POSITION]
    {
      var pos := GetCurrentPosition(response);
      var command := MoveCommand(pos + deltaCounts);
      if command.Err? {
        return Err(StructError);
      }
      Write(command.value);
      r := Ok(());
    }

    /** `stop`. */
    method Stop()
      modifies this`written
      ensures written == if portOpen then old(written) + [STOP] else old(written)
    {
      Write(STOP);
    }
  }

  // ---------------------------------------------------------------------
  // Properties

  lemma Pow256Four()
    ensures IntBytes.Pow256(4) == 0x1_0000_0000
  {
    assert IntBytes.Pow256(2) == 0x10000 by {
      assert IntBytes.Pow256(1) == 256 * IntBytes.Pow256(0);
    }
  }

  /** `struct.pack("<l", x)` succeeds exactly on signed 32-bit values and is undone by the signed decode. */
  lemma PackLongRoundTrip(x: int)
    ensures PackLong(x).Ok? <==> -0x8000_0000 <= x < 0x8000_0000
    ensures PackLong(x).Ok? ==>
      |PackLong(x).value| == 4 && IntBytes.FromBytes(PackLong(x).value, IntBytes.Little, true) == x
  {
    Pow256Four();
    if -0x8000_0000 <= x < 0x8000_0000 {
      IntBytes.FromBytesToBytes(x, 4, IntBytes.Little, true);
    }
  }

  /** Unsigned decoding of a packed count gives the count when it is non-negative and count + 2^32 when it is negative. */
  lemma SignedUnsignedAsymmetry(x: int)
    requires PackLong(x).Ok?
    ensures IntBytes.FromBytes(PackLong(x).value, IntBytes.Little, false) == if x >= 0 then x else x + 0x1_0000_0000
  {
    PackLongRoundTrip(x);
    Pow256Four();
    var b := PackLong(x).value;
    assert IntBytes.FromBytes(b, IntBytes.Little, false) == IntBytes.Unsigned(b, IntBytes.Little);
  }

  /** The message ids of the fixed frames and prefixes, read little-endian; the request and stop frames are bare 6-byte headers. */
  lemma MessageIds()
    ensures |REQUEST_POSITION| == 6 && |STOP| == 6
    ensures IntBytes.DecodeLE(SET_PREFIX[..2]) == SET_ENCCOUNTER
    ensures IntBytes.DecodeLE(MOVE_PREFIX[..2]) == MOVE_ABSOLUTE
    ensures IntBytes.DecodeLE(REQUEST_POSITION[..2]) == REQ_ENCCOUNTER
    ensures IntBytes.DecodeLE(REPLY_HEADER[..2]) == GET_ENCCOUNTER
    ensures IntBytes.DecodeLE(STOP[..2]) == MOVE_STOP
  {
    assert SET_PREFIX[..2] == [0x09, 0x04];
    assert MOVE_PREFIX[..2] == [0x53, 0x04];
    assert REQUEST_POSITION[..2] == [0x0A, 0x04];
    assert REPLY_HEADER[..2] == [0x0B, 0x04];
    assert STOP[..2] == [0x65, 0x04];
  }

  /** Both data messages are 12 bytes whose length field (bytes 2-3) counts the bytes after the header, ending in the count. */
  lemma DataMessageLayout(count: int)
    ensures MoveCommand(count).Ok? <==> -0x8000_0000 <= count < 0x8000_0000
    ensures SetEncCounterCommand(count).Ok? <==> -0x8000_0000 <= count < 0x8000_0000
    ensures MoveCommand(count).Ok? ==>
      var m := MoveCommand(count).value;
      |m| == 12 && m[..8] == MOVE_PREFIX
      && IntBytes.DecodeLE(m[2..4]) == |m| - 6
      && IntBytes.FromBytes(m[8..], IntBytes.Little, true) == count
    ensures SetEncCounterCommand(count).Ok? ==>
      var m := SetEncCounterCommand(count).value;
      |m| == 12 && m[..8] == SET_PREFIX
      && IntBytes.DecodeLE(m[2..4]) == |m| - 6
      && IntBytes.FromBytes(m[8..], IntBytes.Little, true) == count
  {
    PackLongRoundTrip(count);
    if PackLong(count).Ok? {
      var b := PackLong(count).value;
      var m := MOVE_PREFIX + b;
      assert m[2..4] == [0x06, 0x00];
      assert m[8..] == b;
      var s := SET_PREFIX + b;
      assert s[2..4] == [0x06, 0x00];
      assert s[8..] == b;
    }
  }

  /** The initial encoder offset fits the set-encoder message. */
  lemma OffsetFits()
    ensures SetEncCounterCommand(ENCODER_OFFSET).Ok?
  {
    PackLongRoundTrip(ENCODER_OFFSET);
  }

  /** A reply with the right header and any channel bytes gives back the count in its last four bytes. */
  lemma ReplyRoundTrip(channel: seq<byte>, count: nat)
    requires |channel| == 2 && count < 0x1_0000_0000
    ensures ParsePosition(REPLY_HEADER + channel + IntBytes.EncodeLE(count, 4)) == Some(count)
  {
    Pow256Four();
    var resp := REPLY_HEADER + channel + IntBytes.EncodeLE(count, 4);
    assert Slice(resp, 0, 6) == REPLY_HEADER;
    assert Slice(resp, -4, |resp|) == IntBytes.EncodeLE(count, 4);
    IntBytes.DecodeEncodeLE(count, 4);
  }

  /** A reply whose first six bytes are not the header leaves the position alone. */
  lemma ReplyRejected(response: seq<byte>)
    requires |response| < 6 || response[..6] != REPLY_HEADER
    ensures ParsePosition(response).None?
  {
    if |response| >= 6 {
      assert Slice(response, 0, 6) == response[..6];
    }
  }

  /** A count set with `set_ini_position` and reported back unchanged reads as itself only if it is non-negative. */
  lemma CountEcho(count: int, channel: seq<byte>)
    requires -0x8000_0000 <= count < 0x8000_0000 && |channel| == 2
    ensures ParsePosition(REPLY_HEADER + channel + PackLong(count).value)
      == Some(if count >= 0 then count else count + 0x1_0000_0000)
  {
    PackLongRoundTrip(count);
    Pow256Four();
    var b := PackLong(count).value;
    SignedUnsignedAsymmetry(count);
    var resp := REPLY_HEADER + channel + b;
    assert Slice(resp, 0, 6) == REPLY_HEADER;
    assert Slice(resp, -4, |resp|) == b;
  }
}

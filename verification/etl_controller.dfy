/**
 * The Optotune electrically tunable lens driver (`ETLController`): command
 * framing with a CRC-16/ARC trailer, verification of the lens's replies,
 * the operation-mode tables and the argument checks of the setters that
 * build a payload.
 *
 * The serial port is abstracted: `connected` stands for `self._ser` being
 * set, every frame written to the port is appended to `written`, and the
 * bytes `read_until` would return are passed in as `reply`.
 */
module EtlController {
  import opened Common
  import IntBytes
  import OptotuneCrc

  /** The exceptions the driver raises on these paths. */
  datatype EtlError =
    | SerialNotConnected  // serial.SerialException('Serial not connected')
    | CrcMismatch         // serial.SerialException('CRC mismatch: ...')
    | IndexError          // indexing an empty or short reply
    | KeyError            // unknown mode code in a reply
    | ValueError          // argument rejected by a setter
    | OverflowError       // int.to_bytes on a value that does not fit

  /** `calc_crc(data)`: the CRC-16/ARC of `data`, low byte first. */
  function Crc(data: seq<byte>): (r: seq<byte>)
    ensures |r| == 2
    ensures IntBytes.DecodeLE(r) == OptotuneCrc.Crc16Arc(data)
  {
    OptotuneCrc.Crc16ArcBound(data);
    OptotuneCrc.CrcBytes(OptotuneCrc.Crc16Arc(data))
  }

  /** The bytes `_send_cmd` writes for `cmd`. */
  function Frame(cmd: seq<byte>, includeCrc: bool): seq<byte> {
    if includeCrc then cmd + Crc(cmd) else cmd
  }

  /** The reply check of `_send_cmd`: with a CRC, the content is all but the last four bytes and `resp[-4:-2]` must be its CRC. */
  function CheckReply(resp: seq<byte>, includeCrc: bool): (r: Result<seq<byte>, EtlError>)
    ensures r.Ok? ==> r.value != []
    ensures includeCrc && r.Ok? ==>
      |resp| > 4 && r.value == resp[..|resp| - 4] && resp[|resp| - 4..|resp| - 2] == Crc(r.value)
    ensures !includeCrc ==> r == if resp == [] then Err(IndexError) else Ok(resp)
  {
    assert |resp| >= 4 ==> Slice(resp, 0, -4) == resp[..|resp| - 4];
    assert |resp| >= 4 ==> Slice(resp, -4, -2) == resp[|resp| - 4..|resp| - 2];
    var content := if includeCrc then Slice(resp, 0, -4) else resp;
    if includeCrc && Slice(resp, -4, -2) != Crc(content) then Err(CrcMismatch)
    else if |content| == 0 then Err(IndexError)
    else Ok(content)
  }

  /** What `_send_cmd` returns (None when it does not wait) or raises. */
  function SendResult(connected: bool, includeCrc: bool, waitForResp: bool, reply: seq<byte>)
    : Result<Option<seq<byte>>, EtlError>
  {
    if !connected then Err(SerialNotConnected)
    else if !waitForResp then Ok(None)
    else match CheckReply(reply, includeCrc)
      case Ok(content) => Ok(Some(content))
      case Err(e) => Err(e)
  }

  // ---------------------------------------------------------------------
  // Modes

  /** The mode names `mode()` accepts for setting. */
  predicate Settable(name: string) {
    name in {"sinusoidal", "rectangular", "current", "triangular", "focal", "analog"}
  }

  /** The command `mode(name)` sends. */
  function ModeCommand(name: string): (r: Option<seq<byte>>)
    ensures r.Some? <==> Settable(name)
  {
    if name == "sinusoidal" then Some(Bytes("MwSA"))
    else if name == "rectangular" then Some(Bytes("MwQA"))
    else if name == "current" then Some(Bytes("MwDA"))
    else if name == "triangular" then Some(Bytes("MwTA"))
    else if name == "focal" then Some(Bytes("MwCA"))
    else if name == "analog" then Some(Bytes("MwAA"))
    else None
  }

  /** The `modes` table of `mode()`: the name of a mode code read back from the lens. */
  function ModeName(code: int): (r: Option<string>)
    ensures r.Some? <==> 1 <= code <= 7
  {
    if code == 1 then Some("current")
    else if code == 2 then Some("sinusoidal")
    else if code == 3 then Some("triangular")
    else if code == 4 then Some("rectangular")
    else if code == 5 then Some("focal")
    else if code == 6 then Some("analog")
    else if code == 7 then Some("position")
    else None
  }

  /** The code the lens reports for a settable mode. */
  function ModeCode(name: string): (code: int)
    requires Settable(name)
    ensures ModeName(code) == Some(name)
  {
    if name == "current" then 1
    else if name == "sinusoidal" then 2
    else if name == "triangular" then 3
    else if name == "rectangular" then 4
    else if name == "focal" then 5
    else 6
  }

  /** What `mode(name)` returns or raises. */
  function SetModeResult(connected: bool, name: string, reply: seq<byte>): Result<string, EtlError> {
    match ModeCommand(name)
    case None => Err(ValueError)
    case Some(_) =>
      match SendResult(connected, true, true, reply)
      case Err(e) => Err(e)
      case Ok(_) => Ok(name)
  }

  /** What `mode()` returns or raises: the name of `r[3]` of the reply to `MMA`. */
  function GetModeResult(connected: bool, reply: seq<byte>): Result<string, EtlError> {
    match SendResult(connected, true, true, reply)
    case Err(e) => Err(e)
    case Ok(r) =>
      var content := r.value;
      if |content| < 4 then Err(IndexError)
      else match ModeName(content[3])
        case None => Err(KeyError)
        case Some(name) => Ok(name)
  }

  // ---------------------------------------------------------------------
  // Payloads

  /** `x.to_bytes(2, byteorder='big', signed=True)`, the setpoint encoding. */
  function Be16(x: int): Result<seq<byte>, EtlError> {
    match IntBytes.ToBytes(x, 2, IntBytes.Big, true)
    case None => Err(OverflowError)
    case Some(b) => Ok(b)
  }

  /** The command `temp_limits((lower, upper))` sends: `PwTA`, then upper*16 and lower*16. */
  function TempLimitsCommand(lower: int, upper: int): Result<seq<byte>, EtlError> {
    if lower > upper then Err(ValueError)
    else match Be16(upper * 16)
      case Err(e) => Err(e)
      case Ok(u) =>
        match Be16(lower * 16)
        case Err(e) => Err(e)
        case Ok(l) => Ok(Bytes("PwTA") + u + l)
  }

  /**
   * The command `gain(value)` sends: `Ow` and `hundredths` as two unsigned big-endian bytes.
   * `hundredths` is `int(value*100)` as Python computes it on doubles (28 for 0.29), so it is
   * an input, while the range test is made on the value itself.
   */
  function GainCommand(value: real, hundredths: int): Result<seq<byte>, EtlError> {
    if value < 0.0 || value > 5.0 then Err(ValueError)
    else match IntBytes.ToBytes(hundredths, 2, IntBytes.Big, false)
      case None => Err(OverflowError)
      case Some(data) => Ok(Bytes("Ow") + data)
  }

  /** The command `set_current` sends for the DAC value `int(value*4095/current_max)`. */
  function CurrentCommand(dac: int): Result<seq<byte>, EtlError> {
    match Be16(dac)
    case Err(e) => Err(e)
    case Ok(data) => Ok(Bytes("Aw") + data)
  }

  /** The driver state the modelled operations touch. */
  class ETLController {
    var crcTable: seq<nat>
    var connected: bool
    var written: seq<seq<byte>>
    var mode: Option<string>
    var current: real

    ghost predicate Valid()
      reads this
    {
      OptotuneCrc.IsCrcTable(crcTable, OptotuneCrc.POLYNOMIAL)
    }

    /** `__init__`: the CRC table is built, no port is open, the current is 0. */
    constructor()
      ensures Valid()
      ensures !connected && written == [] && mode == None && current == 0.0
    {
      var table := OptotuneCrc.InitCrcTable(OptotuneCrc.POLYNOMIAL);
      crcTable := table;
      connected := false;
      written := [];
      mode := None;
      current := 0.0;
    }

    /** A successful `connect()`: the port is open. The handshake and the initial current are not modelled. */
    method Open()
      modifies this`connected
      ensures connected
    {
      connected := true;
    }

    /** `close(soft_close=False)`: the port is released. */
    method Close()
      modifies this`connected
      ensures !connected
    {
      connected := false;
    }

    /** `calc_crc` with this driver's table. */
    method CalcCrc(data: seq<byte>) returns (r: seq<byte>)
      requires Valid()
      ensures r == Crc(data)
    {
      r := OptotuneCrc.CalcCrc(crcTable, data);
    }

    /** `_send_cmd(cmd, include_crc, wait_for_resp)`, with `reply` the bytes read back. */
    method SendCmd(cmd: seq<byte>, includeCrc: bool, waitForResp: bool, reply: seq<byte>)
      returns (r: Result<Option<seq<byte>>, EtlError>)
      requires Valid()
      modifies this`written
      ensures r == SendResult(connected, includeCrc, waitForResp, reply)
      ensures written == if connected then old(written) + [Frame(cmd, includeCrc)] else old(written)
    {
      if !connected {
        return Err(SerialNotConnected);
      }
      if includeCrc {
        var crc := CalcCrc(cmd);
        written := written + [cmd + crc];
      } else {
        written := written + [cmd];
      }
      if !waitForResp {
        return Ok(None);
      }
      var content := reply;
      if includeCrc {
        var respCrc := Slice(reply, -4, -2);
        content := Slice(reply, 0, -4);
        var crc := CalcCrc(content);
        if respCrc != crc {
          return Err(CrcMismatch);
        }
      }
      if |content| == 0 {
        return Err(IndexError);
      }
      r := Ok(Some(content));
    }

    /** `mode(name)`: sends the mode's command and records the name; any other name raises ValueError. */
    method SetMode(name: string, reply: seq<byte>) returns (r: Result<string, EtlError>)
      requires Valid()
      modifies this`written, this`mode
      ensures r == SetModeResult(old(connected), name, reply)
      ensures mode == if r.Ok? then Some(name) else old(mode)
      ensures written == if Settable(name) && connected then old(written) + [Frame(ModeCommand(name).value, true)] else old(written)
    {
      var cmd := ModeCommand(name);
      if cmd.None? {
        return Err(ValueError);
      }
      var s := SendCmd(cmd.value, true, true, reply);
      if s.Err? {
        return Err(s.error);
      }
      mode := Some(name);
      r := Ok(name);
    }

    /** `mode()`: asks with `MMA` and records the name of the reported code. */
    method GetMode(reply: seq<byte>) returns (r: Result<string, EtlError>)
      requires Valid()
      modifies this`written, this`mode
      ensures r == GetModeResult(old(connected), reply)
      ensures mode == if r.Ok? then Some(r.value) else old(mode)
      ensures written == if connected then old(written) + [Frame(Bytes("MMA"), true)] else old(written)
    {
      var s := SendCmd(Bytes("MMA"), true, true, reply);
      if s.Err? {
        return Err(s.error);
      }
      var content := s.value.value;
      if |content| < 4 {
        return Err(IndexError);
      }
      var name := ModeName(content[3]);
      if name.None? {
        return Err(KeyError);
      }
      mode := name;
      r := Ok(name.value);
    }

    /** `temp_limits((lower, upper))`: the raw signed values at `r[5:7]` and `r[3:5]` of the reply. */
    method SetTempLimits(lower: int, upper: int, reply: seq<byte>) returns (r: Result<(int, int), EtlError>)
      requires Valid()
      modifies this`written
      ensures TempLimitsCommand(lower, upper).Err? ==> r == Err(TempLimitsCommand(lower, upper).error) && written == old(written)
      ensures TempLimitsCommand(lower, upper).Ok? ==>
        written == if connected then old(written) + [Frame(TempLimitsCommand(lower, upper).value, true)] else old(written)
      ensures TempLimitsCommand(lower, upper).Ok? ==>
        match SendResult(connected, true, true, reply)
        case Err(e) => r == Err(e)
        case Ok(c) => r == Ok((IntBytes.FromBytes(Slice(c.value, 5, 7), IntBytes.Big, true),
                               IntBytes.FromBytes(Slice(c.value, 3, 5), IntBytes.Big, true)))
    {
      var cmd := TempLimitsCommand(lower, upper);
      if cmd.Err? {
        return Err(cmd.error);
      }
      var s := SendCmd(cmd.value, true, true, reply);
      if s.Err? {
        return Err(s.error);
      }
      var c := s.value.value;
      r := Ok((IntBytes.FromBytes(Slice(c, 5, 7), IntBytes.Big, true),
               IntBytes.FromBytes(Slice(c, 3, 5), IntBytes.Big, true)));
    }

    /** `gain(value)` with `hundredths` = int(value*100): the status byte `r[2]` and the raw unsigned values at `r[3:5]` and `r[5:7]`. */
    method SetGain(value: real, hundredths: int, reply: seq<byte>) returns (r: Result<(int, int, int), EtlError>)
      requires Valid()
      modifies this`written
      ensures GainCommand(value, hundredths).Err? ==> r == Err(GainCommand(value, hundredths).error) && written == old(written)
      ensures GainCommand(value, hundredths).Ok? ==>
        written == if connected then old(written) + [Frame(GainCommand(value, hundredths).value, true)] else old(written)
      ensures GainCommand(value, hundredths).Ok? ==>
        match SendResult(connected, true, true, reply)
        case Err(e) => r == Err(e)
        case Ok(c) =>
          if |c.value| < 3 then r == Err(IndexError)
          else r == Ok((c.value[2], IntBytes.FromBytes(Slice(c.value, 3, 5), IntBytes.Big, false),
                        IntBytes.FromBytes(Slice(c.value, 5, 7), IntBytes.Big, false)))
    {
      var cmd := GainCommand(value, hundredths);
      if cmd.Err? {
        return Err(cmd.error);
      }
      var s := SendCmd(cmd.value, true, true, reply);
      if s.Err? {
        return Err(s.error);
      }
      var c := s.value.value;
      if |c| < 3 {
        return Err(IndexError);
      }
      r := Ok((c[2], IntBytes.FromBytes(Slice(c, 3, 5), IntBytes.Big, false),
               IntBytes.FromBytes(Slice(c, 5, 7), IntBytes.Big, false)));
    }

    /** `set_current(value)` with `dac` = int(value*4095/current_max): sent without waiting, then recorded. */
    method SetCurrent(value: real, dac: int) returns (r: Result<(), EtlError>)
      requires Valid()
      modifies this`written, this`current
      ensures CurrentCommand(dac).Err? ==> r == Err(OverflowError) && current == old(current) && written == old(written)
      ensures CurrentCommand(dac).Ok? ==>
        if connected then r == Ok(()) && current == value && written == old(written) + [Frame(CurrentCommand(dac).value, true)]
        else r == Err(SerialNotConnected) && current == old(current) && written == old(written)
    {
      var cmd := CurrentCommand(dac);
      if cmd.Err? {
        return Err(OverflowError);
      }
      var s := SendCmd(cmd.value, true, false, []);
      if s.Err? {
        return Err(s.error);
      }
      current := value;
      r := Ok(());
    }
  }

  // ---------------------------------------------------------------------
  // Properties

  /** A frame with a CRC is the command followed by its CRC, low byte first. */
  lemma FrameLayout(cmd: seq<byte>)
    ensures Frame(cmd, false) == cmd
    ensures |Frame(cmd, true)| == |cmd| + 2
    ensures Frame(cmd, true)[..|cmd|] == cmd
    ensures IntBytes.DecodeLE(Frame(cmd, true)[|cmd|..]) == OptotuneCrc.Crc16Arc(cmd)
  {
    assert Frame(cmd, true)[|cmd|..] == Crc(cmd);
  }

  /** The reply check accepts exactly the replies of more than four bytes whose bytes -4..-2 are the CRC of the rest. */
  lemma CheckReplyAccepts(resp: seq<byte>)
    ensures CheckReply(resp, true).Ok? <==>
      |resp| > 4 && resp[|resp| - 4..|resp| - 2] == Crc(resp[..|resp| - 4])
    ensures CheckReply(resp, true).Ok? ==> CheckReply(resp, true).value == resp[..|resp| - 4]
  {
    if |resp| >= 4 {
      assert Slice(resp, 0, -4) == resp[..|resp| - 4];
      assert Slice(resp, -4, -2) == resp[|resp| - 4..|resp| - 2];
    } else {
      ShortReplyMismatch(resp);
    }
  }

  /** A reply shorter than four bytes never carries a matching CRC. */
  lemma ShortReplyMismatch(resp: seq<byte>)
    requires |resp| < 4
    ensures CheckReply(resp, true) == Err(CrcMismatch)
  {
    assert |Slice(resp, -4, -2)| < 2;
  }

  /** Content, its CRC and any two-byte terminator pass the check and give the content back. */
  lemma ReplyRoundTrip(content: seq<byte>, terminator: seq<byte>)
    requires |content| > 0 && |terminator| == 2
    ensures CheckReply(content + Crc(content) + terminator, true) == Ok(content)
  {
    var resp := content + Crc(content) + terminator;
    assert resp[..|resp| - 4] == content;
    assert resp[|resp| - 4..|resp| - 2] == Crc(content);
    CheckReplyAccepts(resp);
  }

  /** A well-formed reply with no content fails on `resp_content[0]`. */
  lemma EmptyReplyContent(terminator: seq<byte>)
    requires |terminator| == 2
    ensures CheckReply(Crc([]) + terminator, true) == Err(IndexError)
  {
    var resp := Crc([]) + terminator;
    assert Slice(resp, 0, -4) == [];
    assert Slice(resp, -4, -2) == resp[0..2] == Crc([]);
  }

  /** Without a CRC the whole reply is the content, and only the empty reply fails. */
  lemma PlainReply(resp: seq<byte>)
    ensures CheckReply(resp, false) == if resp == [] then Err(IndexError) else Ok(resp)
  {
  }

  /** What the driver sends with a CRC, echoed back with a terminator, passes its own check. */
  lemma FrameEcho(cmd: seq<byte>)
    requires |cmd| > 0
    ensures CheckReply(Frame(cmd, true) + [13, 10], true) == Ok(cmd)
  {
    ReplyRoundTrip(cmd, [13, 10]);
  }

  /** The six set commands are distinct: each name has its own command. */
  lemma ModeCommandInjective(a: string, b: string)
    requires ModeCommand(a).Some? && ModeCommand(a) == ModeCommand(b)
    ensures a == b
  {
    var ca := ModeCommand(a).value;
    assert ca[2] == ModeCommand(b).value[2];
  }

  /** Every set command is `Mw`, a letter and `A`. */
  lemma ModeCommandShape(name: string)
    requires Settable(name)
    ensures |ModeCommand(name).value| == 4
    ensures ModeCommand(name).value[..2] == Bytes("Mw") && ModeCommand(name).value[3] == 'A' as int
  {
  }

  /** Every settable mode can be read back, and `position` is the only readable mode that cannot be set. */
  lemma SettableReadable(name: string, code: int)
    ensures Settable(name) ==> ModeName(ModeCode(name)) == Some(name)
    ensures ModeName(code).Some? ==> (Settable(ModeName(code).value) <==> ModeName(code).value != "position")
  {
  }

  /** Setting a name outside the six raises ValueError whatever the port does. */
  lemma SetModeRejects(connected: bool, name: string, reply: seq<byte>)
    ensures SetModeResult(connected, name, reply).Err? || Settable(name)
    ensures !Settable(name) ==> SetModeResult(connected, name, reply) == Err(ValueError)
    ensures Settable(name) && connected && CheckReply(reply, true).Ok? ==> SetModeResult(connected, name, reply) == Ok(name)
  {
  }

  /** Reading a mode code back gives its name, for a well-formed reply. */
  lemma GetModeRoundTrip(content: seq<byte>, code: byte)
    requires |content| == 3 && 1 <= code <= 7
    ensures GetModeResult(true, content + [code] + Crc(content + [code]) + [13, 10]) == Ok(ModeName(code).value)
  {
    ReplyRoundTrip(content + [code], [13, 10]);
  }

  /** The 16-bit setpoint encoding round-trips on [-32768, 32767] and overflows outside it. */
  lemma Be16RoundTrip(x: int)
    ensures Be16(x).Ok? <==> -32768 <= x <= 32767
    ensures Be16(x).Ok? ==> |Be16(x).value| == 2 && IntBytes.FromBytes(Be16(x).value, IntBytes.Big, true) == x
  {
    Pow256Two();
    if -32768 <= x <= 32767 {
      IntBytes.FromBytesToBytes(x, 2, IntBytes.Big, true);
    }
  }

  lemma Pow256Two()
    ensures IntBytes.Pow256(2) == 0x10000
  {
    assert IntBytes.Pow256(1) == 256 * IntBytes.Pow256(0);
  }

  /** `temp_limits` rejects lower > upper first; otherwise the payload decodes back to upper*16 then lower*16. */
  lemma TempLimitsPayload(lower: int, upper: int)
    ensures lower > upper ==> TempLimitsCommand(lower, upper) == Err(ValueError)
    ensures TempLimitsCommand(lower, upper).Ok? <==>
      lower <= upper && -32768 <= lower * 16 && upper * 16 <= 32767
    ensures TempLimitsCommand(lower, upper).Ok? ==>
      var c := TempLimitsCommand(lower, upper).value;
      |c| == 8 && c[..4] == Bytes("PwTA")
      && IntBytes.FromBytes(c[4..6], IntBytes.Big, true) == upper * 16
      && IntBytes.FromBytes(c[6..8], IntBytes.Big, true) == lower * 16
  {
    Be16RoundTrip(upper * 16);
    Be16RoundTrip(lower * 16);
    if TempLimitsCommand(lower, upper).Ok? {
      var c := TempLimitsCommand(lower, upper).value;
      assert c[4..6] == Be16(upper * 16).value;
      assert c[6..8] == Be16(lower * 16).value;
    }
  }

  /**
   * `gain` raises ValueError outside [0, 5] before looking at the payload; inside it the
   * payload is `Ow` and `hundredths` as two unsigned big-endian bytes, and `to_bytes` raises
   * OverflowError exactly when `hundredths` does not fit them.
   */
  lemma GainPayload(value: real, hundredths: int)
    ensures !(0.0 <= value <= 5.0) ==> GainCommand(value, hundredths) == Err(ValueError)
    ensures 0.0 <= value <= 5.0 && !(0 <= hundredths < 65536) ==> GainCommand(value, hundredths) == Err(OverflowError)
    ensures GainCommand(value, hundredths).Ok? <==> 0.0 <= value <= 5.0 && 0 <= hundredths < 65536
    ensures GainCommand(value, hundredths).Ok? ==>
      var c := GainCommand(value, hundredths).value;
      |c| == 4 && c[..2] == Bytes("Ow")
      && IntBytes.FromBytes(c[2..], IntBytes.Big, false) == hundredths
  {
    Pow256Two();
    if 0.0 <= value <= 5.0 && 0 <= hundredths < 65536 {
      IntBytes.FromBytesToBytes(hundredths, 2, IntBytes.Big, false);
      var c := GainCommand(value, hundredths).value;
      assert c[2..] == IntBytes.ToBytes(hundredths, 2, IntBytes.Big, false).value;
    }
  }
}

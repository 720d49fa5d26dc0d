/** The packet layer of app/core/protocol.py: message types, the 7-byte
    little-endian header, `Packet.serialize` and `Packet.parse`. */
module Protocol {
  import opened Common
  import Crc
  import Cobs

  /** The fifteen message types and their codes on the wire. */
  datatype MsgType =
    | HelloReq | HelloRsp | DictReq | DictRsp | ParamSet | ParamGet | ParamVal
    | Telemetry | Cmd | Ack | Error | TimeSync | RunExperiment | ExportLog | ApplyProfile
  {
    function Code(): (c: Byte)
      ensures 0x01 <= c <= 0x0F
    {
      match this
      case HelloReq => 0x01
      case HelloRsp => 0x02
      case DictReq => 0x03
      case DictRsp => 0x04
      case ParamSet => 0x05
      case ParamGet => 0x06
      case ParamVal => 0x07
      case Telemetry => 0x08
      case Cmd => 0x09
      case Ack => 0x0A
      case Error => 0x0B
      case TimeSync => 0x0C
      case RunExperiment => 0x0D
      case ExportLog => 0x0E
      case ApplyProfile => 0x0F
    }
  }

  /** `MsgType(value)`: the type with that code, if there is one. */
  function FromCode(b: int): (r: Option<MsgType>)
    ensures r.Some? <==> 0x01 <= b <= 0x0F
    ensures r.Some? ==> r.value.Code() == b
  {
    if b == 0x01 then Some(HelloReq)
    else if b == 0x02 then Some(HelloRsp)
    else if b == 0x03 then Some(DictReq)
    else if b == 0x04 then Some(DictRsp)
    else if b == 0x05 then Some(ParamSet)
    else if b == 0x06 then Some(ParamGet)
    else if b == 0x07 then Some(ParamVal)
    else if b == 0x08 then Some(Telemetry)
    else if b == 0x09 then Some(Cmd)
    else if b == 0x0A then Some(Ack)
    else if b == 0x0B then Some(Error)
    else if b == 0x0C then Some(TimeSync)
    else if b == 0x0D then Some(RunExperiment)
    else if b == 0x0E then Some(ExportLog)
    else if b == 0x0F then Some(ApplyProfile)
    else None
  }

  /** Every type is found again from its code, so no two types share one. */
  lemma FromCodeOfCode(t: MsgType)
    ensures FromCode(t.Code()) == Some(t)
  {
    var r := FromCode(t.Code());
    assert r.Some? && r.value.Code() == t.Code();
    match t
    case HelloReq =>
    case HelloRsp =>
    case DictReq =>
    case DictRsp =>
    case ParamSet =>
    case ParamGet =>
    case ParamVal =>
    case Telemetry =>
    case Cmd =>
    case Ack =>
    case Error =>
    case TimeSync =>
    case RunExperiment =>
    case ExportLog =>
    case ApplyProfile =>
  }

  const Version: Byte := 1
  const HeaderLen: nat := 7
  const CrcLen: nat := 2
  /** Header and CRC: the shortest frame `parse` accepts. */
  const MinFrame: nat := HeaderLen + CrcLen

  /** A packet; its version is always 1, and the creation timestamp is not modelled.
      The sequence number `seqNum` (`seq` in the source) and `flags` are Python integers, checked only when packed. */
  datatype Packet = Packet(msgType: MsgType, payload: seq<Byte>, seqNum: int, flags: int)

  /** What `struct.pack('<BBHBH', ...)` accepts. */
  predicate Packable(p: Packet)
  {
    0 <= p.seqNum < 0x1_0000 && 0 <= p.flags < 0x100 && |p.payload| < 0x1_0000
  }

  /** `struct.error` from packing a field out of range. */
  datatype PackError = PackRange

  /** The frame before stuffing: the header (version, type, sequence number as LE16,
      flags, declared payload length as LE16), the payload, and the CRC of
      both as LE16. `serialize` declares the payload's own length. */
  function Frame(t: MsgType, seqNum: int, flags: int, declared: int, payload: seq<Byte>): (f: seq<Byte>)
    requires 0 <= seqNum < 0x1_0000 && 0 <= flags < 0x100 && 0 <= declared < 0x1_0000
    ensures |f| == MinFrame + |payload|
  {
    var body := [Version, t.Code()] + Le16(seqNum) + [flags] + Le16(declared) + payload;
    body + Le16(Crc.Crc16(body))
  }

  function RawFrame(p: Packet): (f: seq<Byte>)
    requires Packable(p)
  {
    Frame(p.msgType, p.seqNum, p.flags, |p.payload|, p.payload)
  }

  /** `Packet.serialize`: the stuffed raw frame and the 0x00 delimiter. The
      frame holds exactly one 0x00, its last byte. */
  function Serialize(p: Packet): (r: Result<seq<Byte>, PackError>)
    ensures r.Ok? <==> Packable(p)
    ensures r.Ok? ==> |r.value| >= MinFrame + 2 && r.value[|r.value| - 1] == 0
    ensures r.Ok? ==> NoZero(r.value[..|r.value| - 1])
  {
    if !Packable(p) then Err(PackRange)
    else
      var raw := RawFrame(p);
      Cobs.EncodeNoZero(raw);
      Cobs.EncodeLength(raw);
      var frame := Cobs.Encode(raw) + [0];
      assert frame[..|frame| - 1] == Cobs.Encode(raw);
      Ok(frame)
  }

  /** Why `Packet.parse` raises `ProtocolError`. */
  datatype ParseError =
    | TooShort
    | CrcMismatch(received: int, computed: int)
    | UnsupportedVersion(version: Byte)
    | TruncatedPayload
    | UnknownType(code: Byte)

  /** The trailing delimiter is removed when present. */
  function StripDelimiter(data: seq<Byte>): seq<Byte>
  {
    if |data| > 0 && data[|data| - 1] == 0 then data[..|data| - 1] else data
  }

  /** The destuffed frame that `parse` inspects. */
  function Decoded(data: seq<Byte>): seq<Byte>
  {
    Cobs.Decode(StripDelimiter(data))
  }

  /** The checks of `parse`, each stated on its own. */
  predicate CrcMatches(f: seq<Byte>)
    requires |f| >= MinFrame
  {
    ReadLe16(f, |f| - CrcLen) == Crc.Crc16(f[..|f| - CrcLen])
  }

  function DeclaredLength(f: seq<Byte>): int
    requires |f| >= MinFrame
  {
    ReadLe16(f, 5)
  }

  /** `Packet.parse`: strip the delimiter, destuff, then check the frame. */
  function Parse(data: seq<Byte>): (r: Result<Packet, ParseError>)
    ensures r.Ok? ==> Packable(r.value) && |r.value.payload| <= |Decoded(data)| - MinFrame
  {
    Check(Decoded(data))
  }

  /** The checks `parse` makes on the destuffed frame `f`, rejecting in this
      order a frame shorter than 9 bytes, a CRC mismatch, a version other
      than 1, a payload shorter than declared and an unknown type; a longer
      payload is cut to the declared length. */
  function Check(f: seq<Byte>): (r: Result<Packet, ParseError>)
    ensures r.Ok? ==> Packable(r.value) && |r.value.payload| <= |f| - MinFrame
  {
    if |f| < MinFrame then Err(TooShort)
    else
      var received := ReadLe16(f, |f| - CrcLen);
      var computed := Crc.Crc16(f[..|f| - CrcLen]);
      if received != computed then Err(CrcMismatch(received, computed))
      else if f[0] != Version then Err(UnsupportedVersion(f[0]))
      else
        var plen := ReadLe16(f, 5);
        if |f| - MinFrame < plen then Err(TruncatedPayload)
        else
          match FromCode(f[1])
          case None => Err(UnknownType(f[1]))
          case Some(t) => Ok(Packet(t, f[HeaderLen..HeaderLen + plen], ReadLe16(f, 2), f[4]))
  }

  /** A destuffed frame that passes every check. */
  predicate Accepted(f: seq<Byte>)
  {
    && |f| >= MinFrame
    && CrcMatches(f)
    && f[0] == Version
    && DeclaredLength(f) <= |f| - MinFrame
    && FromCode(f[1]).Some?
  }

  /** `parse` succeeds exactly on accepted frames, and then returns the
      declared fields with the first `plen` payload bytes. */
  lemma CheckAccepts(f: seq<Byte>)
    ensures Check(f).Ok? <==> Accepted(f)
    ensures Accepted(f) ==> Check(f) == Ok(Packet(FromCode(f[1]).value,
      f[HeaderLen..HeaderLen + DeclaredLength(f)], ReadLe16(f, 2), f[4]))
  {
  }

  /** Which error `parse` raises: the first failing check, in source order. */
  lemma CheckErrorOrder(f: seq<Byte>)
    ensures Check(f) == Err(TooShort) <==> |f| < MinFrame
    ensures Check(f).Err? && Check(f).error.CrcMismatch? <==> |f| >= MinFrame && !CrcMatches(f)
    ensures Check(f).Err? && Check(f).error.UnsupportedVersion? <==>
      |f| >= MinFrame && CrcMatches(f) && f[0] != Version
    ensures Check(f) == Err(TruncatedPayload) <==>
      |f| >= MinFrame && CrcMatches(f) && f[0] == Version && DeclaredLength(f) > |f| - MinFrame
    ensures Check(f).Err? && Check(f).error.UnknownType? <==>
      |f| >= MinFrame && CrcMatches(f) && f[0] == Version && DeclaredLength(f) <= |f| - MinFrame
      && FromCode(f[1]).None?
  {
  }

  /** The fields of a frame, read back at their offsets. */
  lemma FrameFields(t: MsgType, seqNum: int, flags: int, declared: int, payload: seq<Byte>)
    requires 0 <= seqNum < 0x1_0000 && 0 <= flags < 0x100 && 0 <= declared <= |payload| && declared < 0x1_0000
    ensures var f := Frame(t, seqNum, flags, declared, payload);
      && f[0] == Version && f[1] == t.Code() && ReadLe16(f, 2) == seqNum
      && f[4] == flags && DeclaredLength(f) == declared
      && f[HeaderLen..HeaderLen + declared] == payload[..declared]
      && CrcMatches(f)
  {
    var s, l := Le16(seqNum), Le16(declared);
    var h := [Version, t.Code()] + s + [flags] + l;
    var body := h + payload;
    var f := body + Le16(Crc.Crc16(body));
    assert h[2..4] == s && h[5..7] == l;
    assert f[..HeaderLen] == h;
    assert f[HeaderLen..HeaderLen + declared] == payload[..declared];
    assert f[..|f| - CrcLen] == body;
  }

  /** Parsing the stuffed, delimited frame yields the header's fields and
      the first `declared` bytes of the payload. */
  lemma ParseOfFrame(t: MsgType, seqNum: int, flags: int, declared: int, payload: seq<Byte>)
    requires 0 <= seqNum < 0x1_0000 && 0 <= flags < 0x100 && 0 <= declared <= |payload| && declared < 0x1_0000
    ensures Parse(Cobs.Encode(Frame(t, seqNum, flags, declared, payload)) + [0])
         == Ok(Packet(t, payload[..declared], seqNum, flags))
  {
    var f := Frame(t, seqNum, flags, declared, payload);
    var e := Cobs.Encode(f);
    assert (e + [0])[..|e|] == e;
    Cobs.DecodeEncode(f);
    assert Decoded(e + [0]) == f;
    FrameFields(t, seqNum, flags, declared, payload);
    FromCodeOfCode(t);
  }

  /** `parse(serialize(p))` gives back `p`'s type, sequence number, flags and payload. */
  lemma ParseSerialize(p: Packet)
    requires Packable(p)
    ensures Parse(Serialize(p).value) == Ok(p)
  {
    ParseOfFrame(p.msgType, p.seqNum, p.flags, |p.payload|, p.payload);
    assert p.payload[..|p.payload|] == p.payload;
  }

  /** The delimiter is optional: a frame parses the same with or without it. */
  lemma ParseDelimiterOptional(data: seq<Byte>)
    requires data == [] || data[|data| - 1] != 0
    ensures Parse(data + [0]) == Parse(data)
  {
    assert (data + [0])[..|data|] == data;
    assert Decoded(data + [0]) == Decoded(data);
  }

  /** A frame carrying more payload bytes than its header declares is
      accepted, and the extra bytes are dropped. */
  lemma ParseCutsLongPayload(p: Packet, extra: seq<Byte>)
    requires Packable(p)
    ensures Parse(Cobs.Encode(Frame(p.msgType, p.seqNum, p.flags, |p.payload|, p.payload + extra)) + [0]) == Ok(p)
  {
    ParseOfFrame(p.msgType, p.seqNum, p.flags, |p.payload|, p.payload + extra);
    assert (p.payload + extra)[..|p.payload|] == p.payload;
  }
}

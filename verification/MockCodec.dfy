// The firmware side of the wire: how the mock endpoint encodes the frames it
// sends and decodes the frames it receives, written from the protocol tables
// and independently of the engine's own encoders.
module MockCodec {
  import opened Wrappers
  import opened Bytes

  datatype Event =
    | DataToHost(device: byte, data: seq<byte>, completed: bool, dma: bool)
    | CommandEnd(error: bool, device: byte, sense: byte, asc: byte, asq: byte)
    | GetDataFromHost(device: byte, chunk: nat)
    | ResetAck
    | UnknownFrame(cmd: byte)
    | Violation

  // --- What the mock sends ---

  /** Sequence numbers that do not fit in 32 bits overflow. */
  function EncodeHeader(cmd: byte, seqno: nat): (h: seq<byte>)
    requires seqno < TWO32
    ensures |h| == 8
  {
    [cmd, 0, 0, 0] + LE(seqno, 4)
  }

  function EncodeCommandWritten(cdb: seq<byte>, flags: byte, feature: byte): (p: seq<byte>)
    requires |cdb| == 12
    ensures |p| == 20
  {
    [0, feature, 0, 0, 0, 0, flags, 0] + cdb
  }

  function EncodeDataFromHost(chunk: seq<byte>): seq<byte>
    requires |chunk| < 65536
  {
    [0] + LE(|chunk|, 2) + [0, 0, 0] + chunk
  }

  function EncodeStatusData(kind: byte, value: nat): (p: seq<byte>)
    requires value < TWO32
    ensures |p| == 5
  {
    [kind] + LE(value, 4)
  }

  function EncodeOpenSessionReply(readbfr: nat, writebfr: nat, proto: byte): (p: seq<byte>)
    requires readbfr < 65536 && writebfr < 65536
    ensures |p| == 22
  {
    [1, 0, 10, 0, 0, 0, 0, 0] + LE(readbfr, 2) + LE(writebfr, 2) + [0, proto, 0, 0, 0, 0, 0, 0, 0, 0]
  }

  // --- What the mock receives ---

  function DecodeDataToHost(p: seq<byte>): Event {
    if |p| < 26 then Violation
    else
      var length := p[1] as int + 256 * (p[2] as int);
      if |p| < 26 + length then Violation
      else DataToHost(p[10], p[26..26 + length], p[12] == 0x85, p[4] == 0xB4)
  }

  function DecodeCommandEnd(p: seq<byte>): Event {
    if |p| != 23 then Violation
    else if p[12] == 0xC5 then CommandEnd(true, p[18], 0, 0, 0)
    else if p[12] == 0x87 then CommandEnd(false, p[18], p[20], p[21], p[22])
    else Violation
  }

  function DecodeGetData(p: seq<byte>): Event {
    if |p| != 23 then Violation
    else GetDataFromHost(p[10], p[1] as int + 256 * (p[2] as int))
  }

  /** Payload lengths of the fixed-length commands the mock accepts. */
  function FixedPayload(cmd: byte): Option<nat> {
    if cmd == 0x43 || cmd == 0x44 || cmd == 0x45 || cmd == 0x47 then Some(0)
    else if cmd == 0x46 then Some(1)
    else if cmd == 0x4A then Some(3)
    else if cmd == 0x51 || cmd == 0x52 then Some(23)
    else None
  }

  /** What one complete frame of a given command means. */
  function DecodePayload(cmd: byte, payload: seq<byte>): Event {
    if cmd == 0x54 then DecodeDataToHost(payload)
    else if cmd == 0x47 then ResetAck
    else if cmd == 0x51 then DecodeCommandEnd(payload)
    else if cmd == 0x52 then DecodeGetData(payload)
    else UnknownFrame(cmd)
  }

  /** How long the frame at the head of the stream is, once that can be told. */
  function FrameLength(stream: seq<byte>): Option<nat>
    requires |stream| >= 8
  {
    if stream[0] == 0x54 then
      if |stream| < 34 then None else Some(34 + stream[9] as int + 256 * (stream[10] as int))
    else
      match FixedPayload(stream[0])
      case None => None
      case Some(n) => Some(8 + n)
  }

  /** A frame is decoded only if it is exactly as long as it says. */
  function DecodeFrame(frame: seq<byte>): Event {
    if |frame| < 8 || FrameLength(frame) != Some(|frame|) then Violation else DecodePayload(frame[0], frame[8..])
  }

  function DecodeFrames(frames: seq<seq<byte>>): (es: seq<Event>)
    ensures |es| == |frames|
  {
    seq(|frames|, i requires 0 <= i < |frames| => DecodeFrame(frames[i]))
  }

  /** The data of consecutive DATA_TO_HOST events. */
  function Payload(events: seq<Event>): seq<byte> {
    if events == [] then []
    else (if events[0].DataToHost? then events[0].data else []) + Payload(events[1..])
  }

  lemma DecodeFramesAppend(a: seq<seq<byte>>, b: seq<seq<byte>>)
    ensures DecodeFrames(a + b) == DecodeFrames(a) + DecodeFrames(b)
  {
  }

  lemma {:induction false} PayloadAppend(a: seq<Event>, b: seq<Event>)
    ensures Payload(a + b) == Payload(a) + Payload(b)
  {
    if a == [] {
      assert a + b == b;
    } else {
      assert (a + b)[0] == a[0] && (a + b)[1..] == a[1..] + b;
      PayloadAppend(a[1..], b);
    }
  }
}

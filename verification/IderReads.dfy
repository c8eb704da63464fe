// A READ, from the CDB to the frames firmware decodes.
module IderReads {
  import opened Wrappers
  import opened Bytes
  import opened IderFrames
  import opened IderTarget
  import opened IderInvariants
  import opened MockCodec

  // --- The engine's frames, as firmware decodes them ---

  /** Two little-endian bytes are the number they were packed from, cut to 16 bits. */
  lemma TwoBytes(n: nat)
    ensures LE(n, 2)[0] as int + 256 * (LE(n, 2)[1] as int) == n % 65536
  {
    assert LE(n, 2) == [n % 256] + LE(n / 256, 1);
    assert LE(n / 256, 1) == [n / 256 % 256] + LE(n / 256 / 256, 0);
  }

  lemma DecodeData(seqno: nat, device: byte, completed: bool, data: seq<byte>, dma: bool)
    requires |data| < 65536
    ensures var frame := Header(CMD_DATA_TO_HOST, seqno, completed, dma) + DataPayload(device, completed, data, dma);
            && DecodeFrame(frame) == DataToHost(device, data, completed, dma)
            && FrameLength(frame) == Some(|frame|)
  {
    var frame := Header(CMD_DATA_TO_HOST, seqno, completed, dma) + DataPayload(device, completed, data, dma);
    TwoBytes(|data|);
    var p := DataPayload(device, completed, data, dma);
    assert frame[8..] == p;
    assert p[26..26 + |data|] == data;
    assert p[1] == LE(|data|, 2)[0] && p[2] == LE(|data|, 2)[1];
    assert frame[9] == p[1] && frame[10] == p[2];
  }

  /** A frame longer than its 16-bit length can say is not decoded. */
  lemma DecodeOverlong(seqno: nat, device: byte, completed: bool, data: seq<byte>, dma: bool)
    requires |data| >= 65536
    ensures DecodeFrame(Header(CMD_DATA_TO_HOST, seqno, completed, dma) + DataPayload(device, completed, data, dma)) == Violation
  {
    var frame := Header(CMD_DATA_TO_HOST, seqno, completed, dma) + DataPayload(device, completed, data, dma);
    TwoBytes(|data|);
    var p := DataPayload(device, completed, data, dma);
    assert frame[0] == CMD_DATA_TO_HOST && |frame| == 34 + |data|;
    assert p[1] == LE(|data|, 2)[0] && p[2] == LE(|data|, 2)[1];
    assert frame[9] == p[1] && frame[10] == p[2];
    assert FrameLength(frame) == Some(34 + |data| % 65536);
  }

  lemma DecodeEndPayload(error: bool, sense: byte, device: byte, asc: byte, asq: byte)
    ensures DecodeCommandEnd(EndPayload(error, sense, device, asc, asq))
         == (if error then CommandEnd(true, device, 0, 0, 0) else CommandEnd(false, device, sense, asc, asq))
  {
    var p := EndPayload(error, sense, device, asc, asq);
    assert p[12] == if error then 0xC5 else 0x87;
    assert p[18] == device;
    assert !error ==> p[20] == sense && p[21] == asc && p[22] == asq;
  }

  lemma DecodeEnd(seqno: nat, error: bool, sense: byte, device: byte, asc: byte, asq: byte)
    ensures var frame := Header(CMD_COMMAND_END_RESPONSE, seqno, true, false) + EndPayload(error, sense, device, asc, asq);
            && DecodeFrame(frame) == (if error then CommandEnd(true, device, 0, 0, 0) else CommandEnd(false, device, sense, asc, asq))
            && FrameLength(frame) == Some(|frame|)
  {
    hide EndPayload, DecodeCommandEnd;
    var payload := EndPayload(error, sense, device, asc, asq);
    var frame := Header(CMD_COMMAND_END_RESPONSE, seqno, true, false) + payload;
    DecodeEndPayload(error, sense, device, asc, asq);
    assert frame[0] == CMD_COMMAND_END_RESPONSE && frame[8..] == payload && |frame| == 31;
  }

  // --- What a READ delivers ---

  /** The most a frame may carry; a reported buffer of 0 sets no limit of its own. */
  function ChunkLimit(readbfr: nat): nat {
    if readbfr == 0 then 65535 else readbfr
  }

  /** Frame `e` carries at least one byte of the transfer, and no more than it may. */
  predicate IsChunk(e: Event, device: byte, dma: bool, readbfr: nat) {
    e.DataToHost? && e.device == device && e.dma == dma && 1 <= |e.data| <= ChunkLimit(readbfr)
  }

  /** Without a buffer size all the data goes into one frame, which must be able to say its length. */
  predicate Framable(readbfr: nat, data: seq<byte>) {
    readbfr > 0 || |data| < 65536
  }

  /** The whole range, in chunks; exactly the last frame is marked completed. */
  ghost predicate Complete(es: seq<Event>, data: seq<byte>, device: byte, dma: bool, readbfr: nat) {
    && es != []
    && (forall i :: 0 <= i < |es| ==> IsChunk(es[i], device, dma, readbfr) && (es[i].completed <==> i == |es| - 1))
    && Payload(es) == data
  }

  /** What the file still had, no frame marked completed, then exactly one medium error. */
  ghost predicate CutShort(es: seq<Event>, data: seq<byte>, device: byte, dma: bool, readbfr: nat) {
    && es != []
    && es[|es| - 1] == CommandEnd(false, device, 0x03, 0x11, 0)
    && (forall i :: 0 <= i < |es| - 1 ==> IsChunk(es[i], device, dma, readbfr) && !es[i].completed)
    && Payload(es) == data
  }

  ghost predicate Delivers(es: seq<Event>, data: seq<byte>, length: nat, device: byte, dma: bool, readbfr: nat) {
    if |data| == length then Complete(es, data, device, dma, readbfr) else CutShort(es, data, device, dma, readbfr)
  }

  lemma DeliversMore(e: Event, es: seq<Event>, data: seq<byte>, length: nat, device: byte, dma: bool, readbfr: nat)
    requires IsChunk(e, device, dma, readbfr) && !e.completed
    requires Delivers(es, data, length, device, dma, readbfr)
    ensures Delivers([e] + es, e.data + data, |e.data| + length, device, dma, readbfr)
  {
    var all := [e] + es;
    assert all[1..] == es;
    assert all[|all| - 1] == es[|es| - 1];
    forall i | 0 < i < |all| ensures all[i] == es[i - 1] {}
  }

  /** Reading on from where a possibly short read ended. */
  lemma ReadAtSplit(file: seq<byte>, offset: nat, first: nat, length: nat)
    requires first <= length
    ensures var data := ReadAt(file, offset, first);
            ReadAt(file, offset, length) == data + ReadAt(file, offset + |data|, length - |data|)
  {
  }

  /** A lone read in flight, nothing queued, no reset pending, no re-entrant transport. */
  ghost predicate Lone(t: Target) {
    t.Reading() && t.pump.queue == [] && !t.pump.resetPending && t.reentry == []
  }

  /** The file behind a device slot. */
  function Backing(m: Media, device: byte): seq<byte> {
    match Slot(m, device)
    case None => []
    case Some(image) => Content(m, image)
  }

  lemma MediaReadBacking(m: Media, device: byte, offset: nat, length: nat)
    requires Slot(m, device).Some?
    ensures var (data, n) := MediaRead(m, device, offset, length);
            && data == ReadAt(Backing(m, device), offset, length)
            && Backing(n, device) == Backing(m, device) && n.files == m.files && Slot(n, device).Some?
  {
  }

  /** The events of the frames sent between two states. */
  ghost function Emitted(t: Target, u: Target): seq<Event>
    requires t.out.sent <= u.out.sent
  {
    DecodeFrames(u.out.sent[|t.out.sent|..])
  }

  lemma EmittedChain(t: Target, u: Target, v: Target)
    requires t.out.sent <= u.out.sent <= v.out.sent
    ensures Emitted(t, v) == Emitted(t, u) + Emitted(u, v)
  {
    var a, b := u.out.sent[|t.out.sent|..], v.out.sent[|u.out.sent|..];
    assert v.out.sent[|t.out.sent|..] == a + b;
    DecodeFramesAppend(a, b);
  }

  lemma SentEvent(t: Target, cmd: byte, payload: seq<byte>, completed: bool, dma: bool, u: Target)
    requires u.out == Emit(t.out, cmd, payload, completed, dma)
    ensures t.out.sent <= u.out.sent
    ensures Emitted(t, u) == [DecodeFrame(Header(cmd, t.out.seqno, completed, dma) + payload)]
  {
    assert u.out.sent[|t.out.sent|..] == [Header(cmd, t.out.seqno, completed, dma) + payload];
  }

  /** What is left of the current read, as the file has it now. */
  function Range(t: Target): seq<byte>
    requires t.Reading()
  {
    ReadAt(Backing(t.media, t.Current().device), t.Current().byteOffset, t.Current().remaining)
  }

  ghost predicate Serving(t: Target) {
    && Lone(t) && Slot(t.media, t.Current().device).Some? && t.Current().remaining > 0
    && t.session.info.readbfr <= MAX_READ_WRITE_BUFFER && Framable(t.session.info.readbfr, Range(t))
  }

  /** `u` is where the pump stops, having delivered the current read of `t`. */
  ghost predicate Served(t: Target, u: Target)
    requires t.Reading()
  {
    && t.out.sent <= u.out.sent && u.pump == IDLE && u.reentry == [] && u.media.files == t.media.files
    && u.pending == t.pending
    && Delivers(Emitted(t, u), Range(t), t.Current().remaining, t.Current().device, t.Current().dma, t.session.info.readbfr)
  }

  /** `u` follows `t` by one chunk of a read that goes on. */
  ghost predicate OneChunk(t: Target, u: Target)
    requires Serving(t)
  {
    var r := t.Current();
    var data := ReadAt(Backing(t.media, r.device), r.byteOffset, ChunkSize(t));
    && u.session == t.session && u.media.files == t.media.files && u.pending == t.pending
    && Backing(u.media, r.device) == Backing(t.media, r.device)
    && data != [] && |data| < r.remaining
    && Serving(u) && u.Current() == After(r, |data|)
    && t.out.sent <= u.out.sent && Emitted(t, u) == [DataToHost(r.device, data, false, r.dma)]
  }

  /** One iteration of the pump on a lone read: it ends, or it goes on by one chunk. */
  lemma LoneStep(t: Target)
    requires Serving(t)
    ensures if PumpStep(t).Reading() then OneChunk(t, PumpStep(t)) else Served(t, PumpStep(t))
  {
    hide DecodeFrame, Header, DataPayload, EndPayload, FrameLength;
    var r := t.Current();
    var (data, media) := NextChunk(t);
    var u := PumpStep(t);
    MediaReadBacking(t.media, r.device, r.byteOffset, ChunkSize(t));
    ReadAtSplit(Backing(t.media, r.device), r.byteOffset, ChunkSize(t), r.remaining);
    if data == [] {
      DecodeEnd(t.out.seqno, false, 0x03, r.device, 0x11, 0);
      SentEvent(t, CMD_COMMAND_END_RESPONSE, EndPayload(false, 0x03, r.device, 0x11, 0), true, false, u);
      assert Range(t) == [];
    } else {
      var done := |data| == r.remaining;
      DecodeData(t.out.seqno, r.device, done, data, r.dma);
      SentEvent(t, CMD_DATA_TO_HOST, DataPayload(r.device, done, data, r.dma), done, r.dma, u);
      if done {
        assert Payload(Emitted(t, u)) == data + Payload([]);
      }
    }
  }

  lemma ServedOn(t: Target, u: Target, w: Target)
    requires Serving(t) && OneChunk(t, u) && Served(u, w)
    ensures Served(t, w)
  {
    hide Delivers, Emitted;
    var r := t.Current();
    var data := ReadAt(Backing(t.media, r.device), r.byteOffset, ChunkSize(t));
    EmittedChain(t, u, w);
    ReadAtSplit(Backing(t.media, r.device), r.byteOffset, ChunkSize(t), r.remaining);
    DeliversMore(Emitted(t, u)[0], Emitted(u, w), Range(u), u.Current().remaining, r.device, r.dma, t.session.info.readbfr);
  }

  /** The pump delivers what the file holds of the range, in order, and stops. */
  lemma {:induction false} PumpDelivers(t: Target)
    requires Serving(t)
    ensures Served(t, PumpAll(t))
    decreases t.Current().remaining
  {
    var u := PumpStep(t);
    LoneStep(t);
    assert PumpAll(t) == PumpAll(u);
    if u.Reading() {
      PumpDelivers(u);
      ServedOn(t, u, PumpAll(u));
    }
  }

  /** Firmware cannot make anything of a first frame that is too long. */
  lemma OverlongFirst(t: Target, u: Target)
    requires Lone(t) && Slot(t.media, t.Current().device).Some? && !Framable(t.session.info.readbfr, Range(t))
    requires u == PumpAll(t) && PumpStep(t).out.sent <= u.out.sent
    ensures t.out.sent <= u.out.sent && Emitted(t, u) != [] && Emitted(t, u)[0] == Violation
  {
    hide DecodeFrame, Header, DataPayload, FrameLength, PumpAll;
    var r := t.Current();
    var (data, media) := NextChunk(t);
    MediaReadBacking(t.media, r.device, r.byteOffset, ChunkSize(t));
    var done := |data| == r.remaining;
    DecodeOverlong(t.out.seqno, r.device, done, data, r.dma);
    SentEvent(t, CMD_DATA_TO_HOST, DataPayload(r.device, done, data, r.dma), done, r.dma, PumpStep(t));
    EmittedChain(t, PumpStep(t), u);
  }

  /** The part of the range of a READ that the file still has. */
  function Available(m: Media, device: byte, lba: nat, length: nat): seq<byte> {
    match Slot(m, device)
    case None => []
    case Some(image) => ReadAt(Backing(m, device), lba * image.SectorSize(), length * image.SectorSize())
  }

  /**
    A READ within bounds, whatever has happened to the file since it was opened:
    what firmware decodes is exactly the part of the range the file still has,
    if and only if that part can be framed.
    */
  lemma ReadDelivers(t: Target, device: byte, lba: nat, length: nat, dma: bool)
    requires Quiet(t) && t.reentry == []
    requires Slot(t.media, device).Some? && length > 0 && lba + length <= Slot(t.media, device).value.Blocks()
    ensures var u := ScsiRead(t, device, lba, length, dma);
            var data := Available(t.media, device, lba, length);
            && t.out.sent <= u.out.sent && u.pump == IDLE
            && (Framable(t.session.info.readbfr, data) ==> u.media.files == t.media.files && u.reentry == [] && u.pending == t.pending)
            && (Delivers(Emitted(t, u), data, length * Slot(t.media, device).value.SectorSize(), device, dma, t.session.info.readbfr)
                <==> Framable(t.session.info.readbfr, data))
  {
    hide Delivers, PumpAll, Numbered;
    var admitted := AdmitRead(t, device, lba, length, dma);
    ReadStep(t, device, lba, length, dma);
    assert Range(admitted) == Available(t.media, device, lba, length);
    if Framable(t.session.info.readbfr, Range(admitted)) {
      PumpDelivers(admitted);
      assert Emitted(t, PumpAll(admitted)) == Emitted(admitted, PumpAll(admitted));
    } else {
      AdmitStep(t, device, lba, length, dma);
      StepSends(admitted);
      OverlongFirst(admitted, PumpAll(admitted));
      assert Emitted(t, PumpAll(admitted)) == Emitted(admitted, PumpAll(admitted));
      NotDelivered(Emitted(t, PumpAll(admitted)), Available(t.media, device, lba, length), length * Slot(t.media, device).value.SectorSize(),
                   device, dma, t.session.info.readbfr);
    }
  }

  lemma NotDelivered(es: seq<Event>, data: seq<byte>, length: nat, device: byte, dma: bool, readbfr: nat)
    requires es != [] && es[0] == Violation
    ensures !Delivers(es, data, length, device, dma, readbfr)
  {
  }

  /** What the pump has sent after its first step is still there at its end. */
  lemma StepSends(t: Target)
    requires t.Reading() && Inv(t)
    ensures PumpStep(t).out.sent <= PumpAll(t).out.sent
  {
    PumpStepStep(t);
    PumpAllStep(PumpStep(t));
  }
}

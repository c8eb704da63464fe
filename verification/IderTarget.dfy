// What the IDE-R engine does with one complete message, as a function of its
// state: session bookkeeping, SCSI emulation, the read pump and the write path.
//
// The transport is the list of frames sent so far. While the pump is sending a
// DATA_TO_HOST frame the environment may deliver further messages: `reentry`
// holds, batch by batch, what arrives during each such send. With `reentry`
// empty this is the engine as it is deployed, whose `send` never re-enters.
module IderTarget {
  import opened Wrappers
  import opened Bytes
  import opened Framing
  import opened IderFrames

  type FileId = nat

  /** A MediaImage; the bytes live in the backing file, which other processes may truncate. */
  datatype Image = Image(file: FileId, device: byte, size: nat, writable: bool,
                         changeReported: bool, bytesRead: nat, bytesWritten: nat)
  {
    function SectorSize(): nat {
      if device == DEVICE_CDROM then 2048 else 512
    }

    /** Counted once, when the image is opened. */
    function Blocks(): nat {
      size / SectorSize()
    }
  }

  datatype SessionInfo = SessionInfo(major: byte, minor: byte, fwMajor: byte, fwMinor: byte,
                                     readbfr: nat, writebfr: nat, proto: byte, iana: nat)

  /** A WRITE whose payload is still arriving. */
  datatype PendingWrite = PendingWrite(device: byte, byteOffset: nat, expected: nat, received: nat)

  datatype ReadRequest = ReadRequest(device: byte, byteOffset: nat, remaining: nat, dma: bool)

  /** Messages the environment can deliver while the pump is sending. */
  datatype Reentry =
    | ReadArrives(device: byte, lba: nat, length: nat, dma: bool)
    | ResetArrives

  /** The answer a canned SCSI table gives. */
  datatype Reply =
    | NoReply
    | DataReply(data: seq<byte>)
    | EndReply(error: bool, sense: byte, asc: byte, asq: byte)

  /** READ_TOC, GET_CONFIGURATION, GET_EVENT_STATUS_NOTIFICATION and MODE_SENSE_10. */
  type Tables = (byte, Option<Image>, seq<byte>) -> Reply

  /** Frames handed to the transport, and the engine's outbound counters. */
  datatype Out = Out(seqno: nat, sent: seq<seq<byte>>, bytes: nat)

  datatype Session = Session(info: SessionInfo, isOpen: bool, enabled: bool, toggleOk: Option<bool>,
                             errorsSeen: seq<byte>, startMode: nat)

  /** The attached images and the files behind them. */
  datatype Media = Media(floppy: Option<Image>, cdrom: Option<Image>, files: map<FileId, seq<byte>>)

  datatype Pump = Pump(reading: Option<ReadRequest>, queue: seq<ReadRequest>, resetPending: bool)

  datatype Target = Target(out: Out, session: Session, media: Media, pending: Option<PendingWrite>,
                           pump: Pump, tables: Tables, reentry: seq<seq<Reentry>>)
  {
    predicate Reading() {
      pump.reading.Some?
    }

    /** The read in flight. */
    function Current(): ReadRequest
      requires Reading()
    {
      pump.reading.value
    }
  }

  const MAX_READ_WRITE_BUFFER := 8192

  // --- Backing files ---

  /** seek and read: short at end of file, empty past it. */
  function ReadAt(file: seq<byte>, offset: nat, length: nat): (data: seq<byte>)
    ensures |data| <= length
  {
    if offset >= |file| then []
    else if offset + length <= |file| then file[offset..offset + length]
    else file[offset..]
  }

  /** seek and write: a hole past the end of file is filled with zeros. */
  function WriteAt(file: seq<byte>, offset: nat, data: seq<byte>): seq<byte> {
    if data == [] then file
    else
      var padded := if |file| < offset then file + Zeros(offset - |file|) else file;
      padded[..offset] + data + (if offset + |data| < |padded| then padded[offset + |data|..] else [])
  }

  // --- Device slots ---

  function Slot(m: Media, device: byte): Option<Image> {
    if device == DEVICE_FLOPPY then m.floppy else if device == DEVICE_CDROM then m.cdrom else None
  }

  function SetSlot(m: Media, device: byte, image: Image): Media {
    if device == DEVICE_FLOPPY then m.(floppy := Some(image))
    else if device == DEVICE_CDROM then m.(cdrom := Some(image))
    else m
  }

  function Content(m: Media, image: Image): seq<byte> {
    if image.file in m.files then m.files[image.file] else []
  }

  /** MediaImage.read: the bytes, and the image having counted them. */
  function MediaRead(m: Media, device: byte, offset: nat, length: nat): (r: (seq<byte>, Media))
    ensures |r.0| <= length
  {
    match Slot(m, device)
    case None => ([], m)
    case Some(image) =>
      var data := ReadAt(Content(m, image), offset, length);
      (data, SetSlot(m, device, image.(bytesRead := image.bytesRead + |data|)))
  }

  /** MediaImage.write, with its two guards; None when a guard raises. */
  function MediaWrite(m: Media, device: byte, offset: nat, data: seq<byte>): Option<Media> {
    match Slot(m, device)
    case None => None
    case Some(image) =>
      if !image.writable || offset + |data| > image.size then None
      else
        var written := m.(files := m.files[image.file := WriteAt(Content(m, image), offset, data)]);
        Some(SetSlot(written, device, image.(bytesWritten := image.bytesWritten + |data|)))
  }

  // --- Outbound ---

  function Emit(o: Out, cmd: byte, payload: seq<byte>, completed: bool, dma: bool): Out {
    var frame := Header(cmd, o.seqno, completed, dma) + payload;
    Out((o.seqno + 1) % TWO32, o.sent + [frame], o.bytes + |frame|)
  }

  function Send(t: Target, cmd: byte, payload: seq<byte>, completed: bool, dma: bool): Target {
    t.(out := Emit(t.out, cmd, payload, completed, dma))
  }

  function SendEnd(t: Target, error: bool, sense: byte, device: byte, asc: byte, asq: byte): Target {
    Send(t, CMD_COMMAND_END_RESPONSE, EndPayload(error, sense, device, asc, asq), true, false)
  }

  function SendData(t: Target, device: byte, completed: bool, data: seq<byte>, dma: bool): Target {
    Send(t, CMD_DATA_TO_HOST, DataPayload(device, completed, data, dma), completed, dma)
  }

  function SendFeatures(t: Target): Target {
    Send(t, CMD_DISABLE_ENABLE_FEATURES, [3] + LE(t.session.startMode, 4), false, false)
  }

  function SendReply(t: Target, device: byte, reply: Reply, dma: bool): (r: Target)
    ensures r.session == t.session
  {
    match reply
    case NoReply => t
    case DataReply(data) => SendData(t, device, true, data, dma)
    case EndReply(error, sense, asc, asq) => SendEnd(t, error, sense, device, asc, asq)
  }

  // --- Read path ---

  /** Answer a READ that transfers nothing, or queue it behind the read in flight, or make it current. */
  function AdmitRead(t: Target, device: byte, lba: nat, length: nat, dma: bool): (r: Target)
    ensures r.session == t.session
  {
    match Slot(t.media, device)
    case None => SendEnd(t, true, 0x02, device, 0x3A, 0)
    case Some(image) =>
      if lba + length > image.Blocks() then SendEnd(t, true, 0x05, device, 0x21, 0)
      else if length == 0 then SendEnd(t, true, 0, device, 0, 0)
      else
        var request := ReadRequest(device, lba * image.SectorSize(), length * image.SectorSize(), dma);
        if t.Reading() then t.(pump := t.pump.(queue := t.pump.queue + [request])) else t.(pump := t.pump.(reading := Some(request)))
  }

  function ResetOccurred(t: Target): Target {
    if !t.Reading() then Send(t, CMD_RESET_OCCURRED_RESPONSE, [], false, false)
    else t.(pump := t.pump.(resetPending := true))
  }

  function Deliver(t: Target, e: Reentry): Target {
    match e
    case ReadArrives(device, lba, length, dma) => AdmitRead(t, device, lba, length, dma)
    case ResetArrives => ResetOccurred(t)
  }

  function DeliverAll(t: Target, batch: seq<Reentry>): (r: Target)
    requires t.Reading()
    ensures r.pump.reading == t.pump.reading && r.reentry == t.reentry && r.session == t.session
    decreases |batch|
  {
    if batch == [] then t else DeliverAll(Deliver(t, batch[0]), batch[1..])
  }

  /** What the environment does while a DATA_TO_HOST frame is on its way out. */
  function Reenter(t: Target): (r: Target)
    requires t.Reading()
    ensures r.pump.reading == t.pump.reading
    ensures r.reentry == if t.reentry == [] then [] else t.reentry[1..]
    ensures t.reentry == [] ==> r == t
    ensures r.session == t.session
  {
    if t.reentry == [] then t else DeliverAll(t.(reentry := t.reentry[1..]), t.reentry[0])
  }

  function Cost(r: ReadRequest): nat {
    1 + r.remaining
  }

  function QueueCost(queue: seq<ReadRequest>): nat {
    if queue == [] then 0 else Cost(queue[0]) + QueueCost(queue[1..])
  }

  /** How much the pump still has to do, the environment aside. */
  function Outstanding(p: Pump): nat {
    (if p.reading.Some? then Cost(p.reading.value) else 0) + QueueCost(p.queue)
  }

  /** The next queued read becomes current. */
  function NextRead(p: Pump): (r: Pump)
    requires p.reading.Some?
    ensures Outstanding(r) < Outstanding(p)
  {
    if p.queue == [] then p.(reading := None) else p.(reading := Some(p.queue[0]), queue := p.queue[1..])
  }

  /** The current read is over: acknowledge a pending reset and drop the queue, or take the next queued read. */
  function FinishRead(t: Target): (r: Target)
    requires t.Reading()
    ensures r.reentry == t.reentry && r.session == t.session
    ensures Outstanding(r.pump) < Outstanding(t.pump)
  {
    if t.pump.resetPending then
      Send(t, CMD_RESET_OCCURRED_RESPONSE, [], false, false).(pump := Pump(None, [], false))
    else t.(pump := NextRead(t.pump))
  }

  function ChunkSize(t: Target): (n: nat)
    requires t.Reading()
    ensures n <= t.Current().remaining
  {
    if 0 < t.session.info.readbfr < t.Current().remaining then t.session.info.readbfr else t.Current().remaining
  }

  /** End of file before the transfer is complete: a medium error, never a completed transfer. */
  function EndShort(t: Target): (r: Target)
    requires t.Reading()
    ensures r.reentry == t.reentry && r.session == t.session && Outstanding(r.pump) < Outstanding(t.pump)
  {
    FinishRead(SendEnd(t, false, 0x03, t.Current().device, 0x11, 0))
  }

  function After(read: ReadRequest, n: nat): ReadRequest
    requires n <= read.remaining
  {
    read.(byteOffset := read.byteOffset + n, remaining := read.remaining - n)
  }

  /** The current read has moved past `data`, which is on its way to the host. */
  function SendChunk(t: Target, data: seq<byte>): (r: Target)
    requires t.Reading() && |data| <= t.Current().remaining
    ensures r.reentry == if t.reentry == [] then [] else t.reentry[1..]
    ensures r.pump.reading == Some(After(t.Current(), |data|))
    ensures t.reentry == [] ==> r.pump.queue == t.pump.queue
    ensures r.session == t.session
  {
    var rest := After(t.Current(), |data|);
    var moved := t.(pump := t.pump.(reading := Some(rest)));
    Reenter(SendData(moved, rest.device, rest.remaining == 0, data, rest.dma))
  }

  /** The next chunk of the current read, and the media having counted it. */
  function NextChunk(t: Target): (r: (seq<byte>, Media))
    requires t.Reading()
    ensures |r.0| <= t.Current().remaining
  {
    MediaRead(t.media, t.Current().device, t.Current().byteOffset, ChunkSize(t))
  }

  /** One iteration of the pump. */
  function PumpStep(t: Target): (r: Target)
    requires t.Reading()
    ensures |r.reentry| < |t.reentry| || (r.reentry == t.reentry && Outstanding(r.pump) < Outstanding(t.pump))
    ensures r.session == t.session
  {
    var (data, media) := NextChunk(t);
    if data == [] then EndShort(t.(media := media))
    else
      var sent := SendChunk(t.(media := media), data);
      if sent.Current().remaining > 0 && !sent.pump.resetPending then sent else FinishRead(sent)
  }

  /** Drain the current read and whatever is queued behind it. */
  function PumpAll(t: Target): (r: Target)
    ensures !r.Reading() && r.session == t.session
    decreases |t.reentry|, Outstanding(t.pump)
  {
    if !t.Reading() then t else PumpAll(PumpStep(t))
  }

  function ScsiRead(t: Target, device: byte, lba: nat, length: nat, dma: bool): (r: Target)
    ensures r.session == t.session
  {
    var admitted := AdmitRead(t, device, lba, length, dma);
    if t.Reading() then admitted else PumpAll(admitted)
  }

  // --- Write path ---

  function ScsiWrite(t: Target, device: byte, lba: nat, length: nat): (r: Target)
    ensures r.session == t.session
  {
    if device != DEVICE_FLOPPY || t.media.floppy.None? then SendEnd(t, true, 0x02, device, 0x3A, 0)
    else if lba + length > t.media.floppy.value.Blocks() then SendEnd(t, true, 0x05, device, 0x21, 0)
    else if length == 0 then SendEnd(t, true, 0, device, 0, 0)
    else if !t.media.floppy.value.writable then SendEnd(t, false, 0x07, device, 0x27, 0)
    else
      Send(t.(pending := Some(PendingWrite(device, lba * 512, 512 * length, 0))),
           CMD_GET_DATA_FROM_HOST, GetDataPayload(device, 512 * length), false, false)
  }

  function OnDataFromHost(t: Target, data: seq<byte>): (Target, Verdict) {
    match t.pending
    case None => (SendEnd(t, false, 0x05, DEVICE_FLOPPY, 0x20, 0), Continue)
    case Some(p) =>
      if p.received + |data| > p.expected then
        (SendEnd(t.(pending := None), false, 0x05, p.device, 0x21, 0), Continue)
      else
        match MediaWrite(t.media, p.device, p.byteOffset + p.received, data)
        case None => (t, Raise(WriteGuard, false))
        case Some(media) =>
          if p.received + |data| >= p.expected then
            (SendEnd(t.(media := media, pending := None), false, 0, p.device, 0, 0), Continue)
          else
            (t.(media := media, pending := Some(p.(received := p.received + |data|))), Continue)
  }

  // --- SCSI dispatch ---

  /** READ_6 and WRITE_6 address 21 bits; a zero count means 256 sectors. */
  function Lba6(cdb: seq<byte>): nat
    requires |cdb| == 12
  {
    (cdb[1] as int) % 32 * 65536 + (cdb[2] as int) * 256 + cdb[3] as int
  }

  function Length6(cdb: seq<byte>): nat
    requires |cdb| == 12
  {
    if cdb[4] == 0 then 256 else cdb[4]
  }

  function ReadCapacity(t: Target, device: byte, flags: byte, dma: bool): (r: (Target, Verdict))
    ensures r.0.session == t.session
  {
    match Slot(t.media, device)
    case None => (SendEnd(t, false, 0x02, device, 0x3A, 0), Continue)
    case Some(image) =>
      if image.size == 0 then (SendEnd(t, false, 0x02, device, 0x3A, 0), Continue)
      else if !(1 <= image.Blocks() <= TWO32) then (t, Raise(StructError, false))
      else
        var payload := BE(image.Blocks() - 1, 4) + [0, 0, if device == DEVICE_CDROM then 8 else 2, 0];
        (SendData(t, flags, true, payload, dma), Continue)
  }

  function TestUnitReady(t: Target, device: byte): (r: Target)
    ensures r.session == t.session
  {
    match Slot(t.media, device)
    case None => SendEnd(t, true, 0x02, device, 0x3A, 0)
    case Some(image) =>
      if !image.changeReported then
        SendEnd(t.(media := SetSlot(t.media, device, image.(changeReported := true))), true, 0x06, device, 0x28, 0)
      else SendEnd(t, true, 0, device, 0, 0)
  }

  function ModeSense6(t: Target, device: byte, cdb: seq<byte>, dma: bool): (r: Target)
    requires |cdb| == 12
    ensures r.session == t.session
  {
    if cdb[2] != 0x3F || cdb[3] != 0 then SendEnd(t, true, 0x05, device, 0x24, 0)
    else
      match Slot(t.media, device)
      case None => SendEnd(t, true, 0x02, device, 0x3A, 0)
      case Some(image) =>
        SendData(t, device, true, [0, if device == DEVICE_FLOPPY then 0 else 5, if image.writable then 0 else 0x80, 0], dma)
  }

  function AllowRemoval(t: Target, device: byte): (r: Target)
    ensures r.session == t.session
  {
    if Slot(t.media, device).None? then SendEnd(t, true, 0x02, device, 0x3A, 0) else SendEnd(t, true, 0, device, 0, 0)
  }

  /** A fixed descriptor, whatever the size of the medium. */
  function ReadFormatCapacities(t: Target, device: byte, dma: bool): (r: Target)
    ensures r.session == t.session
  {
    var image := Slot(t.media, device);
    if image.None? || image.value.size == 0 then SendEnd(t, false, 0x05, device, 0x24, 0)
    else SendData(t, device, true, [0, 0, 0, 8, 0, 0, 0x0B, 0x40, 2, 0, 2, 0], dma)
  }

  /** The commands that neither read the medium, write it, nor report its capacity. */
  function ScsiOther(t: Target, device: byte, cdb: seq<byte>, dma: bool): (r: Target)
    requires |cdb| == 12
    ensures r.session == t.session
  {
    var op := cdb[0];
    if op == 0x00 then TestUnitReady(t, device)
    else if op == 0x1A then ModeSense6(t, device, cdb, dma)
    else if op == 0x1B then SendEnd(t, true, 0, device, 0, 0)
    else if op == 0x1E then AllowRemoval(t, device)
    else if op == 0x23 then ReadFormatCapacities(t, device, dma)
    else if op == 0x43 || op == 0x46 || op == 0x4A || op == 0x5A then
      SendReply(t, device, t.tables(device, Slot(t.media, device), cdb), dma)
    else if op == 0x51 then SendEnd(t, false, 0x05, device, 0x20, 0)
    else if op == 0x55 then SendEnd(t, true, 0x05, device, 0x20, 0)
    else if op == 0xAC then SendData(t, device, true, [0, 0, 0, 4, 2, 0, 0, 0], dma)
    else SendEnd(t, false, 0x05, device, 0x20, 0)
  }

  function HandleScsi(t: Target, device: byte, cdb: seq<byte>, feature: byte, flags: byte): (r: (Target, Verdict))
    requires |cdb| == 12
    ensures r.0.session == t.session
  {
    var dma := feature % 2 == 1;
    var op := cdb[0];
    if op == 0x08 then (ScsiRead(t, device, Lba6(cdb), Length6(cdb), dma), Continue)
    else if op == 0x0A then (ScsiWrite(t, device, Lba6(cdb), Length6(cdb)), Continue)
    else if op == 0x25 then ReadCapacity(t, device, flags, dma)
    else if op == 0x28 then (ScsiRead(t, device, FromBE(cdb[2..6]), FromBE(cdb[7..9]), dma), Continue)
    else if op == 0x2A || op == 0x2E then (ScsiWrite(t, device, FromBE(cdb[2..6]), FromBE(cdb[7..9])), Continue)
    else (ScsiOther(t, device, cdb, dma), Continue)
  }

  // --- Session messages ---

  function ParseInfo(m: seq<byte>): SessionInfo
    requires |m| >= 30
  {
    SessionInfo(m[8], m[9], m[10], m[11], FromLE(m[16..18]), FromLE(m[18..20]), m[21], FromLE(m[25..29]))
  }

  predicate InfoAccepted(info: SessionInfo) {
    info.proto == 0 && info.readbfr <= MAX_READ_WRITE_BUFFER && info.writebfr <= MAX_READ_WRITE_BUFFER
  }

  function OnOpenSessionReply(t: Target, m: seq<byte>): (Target, Verdict)
    requires |m| >= 30
  {
    if !InfoAccepted(ParseInfo(m)) then (t, Raise(BadOpenReply, true))
    else (SendFeatures(t.(session := t.session.(info := ParseInfo(m), isOpen := true))), Continue)
  }

  function OnStatusData(t: Target, kind: byte, value: nat): Target {
    if kind == 1 then
      if value % 2 == 1 then SendFeatures(t) else t
    else if kind == 2 then t.(session := t.session.(enabled := value / 2 % 2 == 1))
    else if kind == 3 then t.(session := t.session.(toggleOk := Some(value == 1)))
    else t
  }

  predicate WellFormed(m: seq<byte>) {
    |m| >= 8 && Peek(m) == Length(|m|)
  }

  /** The framer only ever hands over well-formed messages. */
  function Dispatch(t: Target, m: seq<byte>): (Target, Verdict) {
    if !WellFormed(m) then (t, Continue)
    else
      var cmd := m[0];
      if cmd == CMD_OPEN_SESSION_REPLY then OnOpenSessionReply(t, m)
      else if cmd == CMD_CLOSE then (t, Close)
      else if cmd == CMD_KEEPALIVE_PING then (Send(t, CMD_KEEPALIVE_PONG, [], false, false), Continue)
      else if cmd == CMD_RESET_OCCURRED then (ResetOccurred(t), Continue)
      else if cmd == CMD_STATUS_DATA then (OnStatusData(t, m[8], FromLE(m[9..13])), Continue)
      else if cmd == CMD_ERROR_OCCURRED then (t.(session := t.session.(errorsSeen := t.session.errorsSeen + [m[8]])), Continue)
      else if cmd == CMD_COMMAND_WRITTEN then
        var device := if m[14] / 16 % 2 == 1 then DEVICE_CDROM else DEVICE_FLOPPY;
        HandleScsi(t, device, m[16..28], m[9], m[14])
      else if cmd == CMD_DATA_FROM_HOST then OnDataFromHost(t, m[14..14 + FromLE(m[9..11])])
      else (t, Continue)  // KEEPALIVE_PONG and HEARTBEAT
  }

  type Engine = Framer<Target>

  function Feed(e: Engine, data: seq<byte>): (Engine, Outcome) {
    FeedWith(Dispatch, e, data)
  }

  function Run(e: Engine, chunks: seq<seq<byte>>): (Engine, Outcome) {
    RunWith(Dispatch, e, chunks)
  }

  const NO_INFO := SessionInfo(0, 0, 0, 0, 0, 0, 0, 0)

  /** A fresh engine with its images attached, before `start`. */
  function Initial(startMode: nat, tables: Tables, floppy: Option<Image>, cdrom: Option<Image>, files: map<FileId, seq<byte>>): Engine {
    Framer([], 0, false,
           Target(Out(0, [], 0), Session(NO_INFO, false, false, None, [], startMode),
                  Media(floppy, cdrom, files), None, Pump(None, [], false), tables, []))
  }

  /** OPEN_SESSION: receive and transmit timeouts, heartbeat, version 1. */
  function Start(t: Target, rxTimeout: nat, txTimeout: nat, heartbeat: nat): Target
    requires rxTimeout < 65536 && txTimeout < 65536 && heartbeat < 65536
  {
    Send(t, CMD_OPEN_SESSION, LE(rxTimeout, 2) + LE(txTimeout, 2) + LE(heartbeat, 2) + LE(1, 4), false, false)
  }
}

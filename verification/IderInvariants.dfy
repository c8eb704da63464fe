// What every inbound message keeps: frames are numbered consecutively, media
// that must not change do not change, a pending write stays in bounds, and the
// read pump is idle between messages.
module IderInvariants {
  import opened Wrappers
  import opened Bytes
  import opened Framing
  import opened IderFrames
  import opened IderTarget

  function TotalLength(frames: seq<seq<byte>>): nat {
    if frames == [] then 0 else TotalLength(frames[..|frames| - 1]) + |frames[|frames| - 1]|
  }

  /** The sequence number an outbound frame carries. */
  function FrameSeq(frame: seq<byte>): nat {
    if |frame| < 8 then 0 else FromLE(frame[4..8])
  }

  /** The n-th frame sent carries sequence number n mod 2^32. */
  ghost predicate Numbered(o: Out) {
    && o.seqno == |o.sent| % TWO32
    && o.bytes == TotalLength(o.sent)
    && forall n :: 0 <= n < |o.sent| ==> |o.sent[n]| >= 8 && FrameSeq(o.sent[n]) == n % TWO32
  }

  predicate SlotOk(slot: Option<Image>, device: byte, files: map<FileId, seq<byte>>) {
    slot.Some? ==>
      && slot.value.device == device
      && slot.value.file in files
      && slot.value.size % 512 == 0
      && (device == DEVICE_CDROM ==> !slot.value.writable)
  }

  predicate MediaOk(m: Media) {
    SlotOk(m.floppy, DEVICE_FLOPPY, m.files) && SlotOk(m.cdrom, DEVICE_CDROM, m.files)
  }

  /** A pending write is on a writable floppy, in bounds and incomplete. */
  predicate PendingOk(m: Media, pending: Option<PendingWrite>) {
    pending.Some? ==>
      && pending.value.device == DEVICE_FLOPPY
      && m.floppy.Some? && m.floppy.value.writable
      && pending.value.received < pending.value.expected
      && pending.value.byteOffset + pending.value.expected <= m.floppy.value.size
  }

  predicate RequestOk(m: Media, r: ReadRequest) {
    Slot(m, r.device).Some? && r.byteOffset + r.remaining <= Slot(m, r.device).value.size
  }

  predicate PumpOk(m: Media, p: Pump) {
    && (p.reading.None? ==> p.queue == [] && !p.resetPending)
    && (p.reading.Some? ==> RequestOk(m, p.reading.value))
    && (forall i :: 0 <= i < |p.queue| ==> RequestOk(m, p.queue[i]))
  }

  const IDLE: Pump := Pump(None, [], false)

  ghost predicate Inv(t: Target) {
    && Numbered(t.out) && MediaOk(t.media) && PendingOk(t.media, t.pending) && PumpOk(t.media, t.pump)
    && t.session.info.readbfr <= MAX_READ_WRITE_BUFFER
  }

  /** The same image, counters aside. */
  predicate SameImage(a: Option<Image>, b: Option<Image>) {
    a.Some? == b.Some? &&
    (a.Some? ==>
       && b.value.file == a.value.file && b.value.device == a.value.device
       && b.value.size == a.value.size && b.value.writable == a.value.writable)
  }

  /** The one file IDE-R traffic may change. */
  predicate MayChange(m: Media, file: FileId) {
    m.floppy.Some? && m.floppy.value.writable && m.floppy.value.file == file
  }

  /** A file never shrinks, never grows past the size its image was opened with, and never changes behind that size. */
  predicate FileKept(m: Media, n: Media, file: FileId)
    requires file in m.files && file in n.files
  {
    if MayChange(m, file) then
      && |m.files[file]| <= |n.files[file]|
      && (|m.files[file]| >= m.floppy.value.size ==>
            && |n.files[file]| == |m.files[file]|
            && n.files[file][m.floppy.value.size..] == m.files[file][m.floppy.value.size..])
      && (|m.files[file]| < m.floppy.value.size ==> |n.files[file]| <= m.floppy.value.size)
    else n.files[file] == m.files[file]
  }

  ghost predicate MediaKept(m: Media, n: Media) {
    && n.files.Keys == m.files.Keys
    && (forall file :: file in m.files ==> FileKept(m, n, file))
    && SameImage(m.floppy, n.floppy) && SameImage(m.cdrom, n.cdrom)
  }

  /** What no amount of traffic changes between two states of one session. */
  ghost predicate Kept(t: Target, u: Target) {
    && t.out.sent <= u.out.sent
    && MediaKept(t.media, u.media)
    && u.tables == t.tables && u.session.startMode == t.session.startMode
  }

  /** One step of the engine: the invariant again, and nothing lost. */
  ghost predicate Step(t: Target, u: Target) {
    Inv(u) && Kept(t, u)
  }

  lemma MediaKeptTransitive(m: Media, n: Media, o: Media)
    requires MediaKept(m, n) && MediaKept(n, o)
    ensures MediaKept(m, o)
  {
    forall file | file in m.files ensures FileKept(m, o, file) {
      assert FileKept(m, n, file) && FileKept(n, o, file);
    }
  }

  lemma StepTransitive(t: Target, u: Target, v: Target)
    requires Step(t, u) && Step(u, v)
    ensures Step(t, v)
  {
    MediaKeptTransitive(t.media, u.media, v.media);
  }

  // --- Sends ---

  /** A frame carries the sequence number it was built with. */
  lemma FrameCarries(cmd: byte, seqno: nat, completed: bool, dma: bool, payload: seq<byte>)
    requires seqno < TWO32
    ensures var frame := Header(cmd, seqno, completed, dma) + payload;
            |frame| >= 8 && FrameSeq(frame) == seqno
  {
    LE32(seqno);
    assert (Header(cmd, seqno, completed, dma) + payload)[4..8] == LE(seqno, 4);
  }

  lemma AppendNumbered(o: Out, frame: seq<byte>)
    requires Numbered(o) && |frame| >= 8 && FrameSeq(frame) == o.seqno
    ensures Numbered(Out((o.seqno + 1) % TWO32, o.sent + [frame], o.bytes + |frame|))
  {
    var sent := o.sent + [frame];
    assert sent[..|sent| - 1] == o.sent;
    forall n | 0 <= n < |sent| ensures |sent[n]| >= 8 && FrameSeq(sent[n]) == n % TWO32 {
      if n < |o.sent| {
        assert sent[n] == o.sent[n];
      }
    }
  }

  lemma EmitNumbered(o: Out, cmd: byte, payload: seq<byte>, completed: bool, dma: bool)
    requires Numbered(o)
    ensures var p := Emit(o, cmd, payload, completed, dma);
            Numbered(p) && o.sent <= p.sent
  {
    FrameCarries(cmd, o.seqno, completed, dma, payload);
    AppendNumbered(o, Header(cmd, o.seqno, completed, dma) + payload);
  }

  lemma SendStep(t: Target, cmd: byte, payload: seq<byte>, completed: bool, dma: bool)
    requires Inv(t)
    ensures Step(t, Send(t, cmd, payload, completed, dma))
  {
    EmitNumbered(t.out, cmd, payload, completed, dma);
  }

  lemma EndStep(t: Target, error: bool, sense: byte, device: byte, asc: byte, asq: byte)
    requires Inv(t)
    ensures Step(t, SendEnd(t, error, sense, device, asc, asq))
  {
    SendStep(t, CMD_COMMAND_END_RESPONSE, EndPayload(error, sense, device, asc, asq), true, false);
  }

  lemma DataStep(t: Target, device: byte, completed: bool, data: seq<byte>, dma: bool)
    requires Inv(t)
    ensures Step(t, SendData(t, device, completed, data, dma))
  {
    SendStep(t, CMD_DATA_TO_HOST, DataPayload(device, completed, data, dma), completed, dma);
  }

  // --- Read path ---

  lemma QueueStep(t: Target, r: ReadRequest)
    requires Inv(t) && RequestOk(t.media, r)
    ensures t.Reading() ==> Step(t, t.(pump := t.pump.(queue := t.pump.queue + [r])))
    ensures Step(t, t.(pump := t.pump.(reading := Some(r))))
  {
  }

  lemma AdmitStep(t: Target, device: byte, lba: nat, length: nat, dma: bool)
    requires Inv(t)
    ensures Step(t, AdmitRead(t, device, lba, length, dma))
  {
    match Slot(t.media, device)
    case None => EndStep(t, true, 0x02, device, 0x3A, 0);
    case Some(image) =>
      if lba + length > image.Blocks() {
        EndStep(t, true, 0x05, device, 0x21, 0);
      } else if length == 0 {
        EndStep(t, true, 0, device, 0, 0);
      } else {
        QueueStep(t, ReadRequest(device, lba * image.SectorSize(), length * image.SectorSize(), dma));
      }
  }

  lemma ResetStep(t: Target)
    requires Inv(t)
    ensures Step(t, ResetOccurred(t))
  {
    if !t.Reading() {
      SendStep(t, CMD_RESET_OCCURRED_RESPONSE, [], false, false);
    }
  }

  lemma {:induction false} DeliverAllStep(t: Target, batch: seq<Reentry>)
    requires Inv(t) && t.Reading()
    ensures Step(t, DeliverAll(t, batch))
    decreases |batch|
  {
    if batch != [] {
      var u := Deliver(t, batch[0]);
      match batch[0] {
        case ReadArrives(device, lba, length, dma) => AdmitStep(t, device, lba, length, dma);
        case ResetArrives => ResetStep(t);
      }
      DeliverAllStep(u, batch[1..]);
      StepTransitive(t, u, DeliverAll(t, batch));
    }
  }

  lemma ReenterStep(t: Target)
    requires Inv(t) && t.Reading()
    ensures Step(t, Reenter(t))
  {
    if t.reentry != [] {
      var u := t.(reentry := t.reentry[1..]);
      assert Step(t, u);
      DeliverAllStep(u, t.reentry[0]);
      StepTransitive(t, u, Reenter(t));
    }
  }

  lemma FinishStep(t: Target)
    requires Inv(t) && t.Reading()
    ensures Step(t, FinishRead(t))
  {
    if t.pump.resetPending {
      EmitNumbered(t.out, CMD_RESET_OCCURRED_RESPONSE, [], false, false);
    } else {
      assert PumpOk(t.media, NextRead(t.pump));
    }
  }

  /** Counters of an image may move; nothing else about it may. */
  lemma SetSlotKept(m: Media, device: byte, image: Image)
    requires MediaOk(m) && Slot(m, device).Some? && SameImage(Slot(m, device), Some(image))
    ensures MediaOk(SetSlot(m, device, image)) && MediaKept(m, SetSlot(m, device, image))
  {
  }

  /** New media, and whatever the old ones allowed is still allowed. */
  lemma SetMediaStep(t: Target, media: Media)
    requires Inv(t) && MediaOk(media) && MediaKept(t.media, media)
    ensures Step(t, t.(media := media))
  {
    forall r: ReadRequest | RequestOk(t.media, r) ensures RequestOk(media, r) {}
  }

  /** The bytes come from the image and only its byte counter moves. */
  lemma MediaReadKept(m: Media, device: byte, offset: nat, length: nat)
    requires MediaOk(m) && Slot(m, device).Some?
    ensures MediaOk(MediaRead(m, device, offset, length).1) && MediaKept(m, MediaRead(m, device, offset, length).1)
  {
    var image := Slot(m, device).value;
    var data := ReadAt(Content(m, image), offset, length);
    SetSlotKept(m, device, image.(bytesRead := image.bytesRead + |data|));
  }

  lemma EndShortStep(t: Target)
    requires Inv(t) && t.Reading()
    ensures Step(t, EndShort(t))
  {
    var ended := SendEnd(t, false, 0x03, t.Current().device, 0x11, 0);
    EndStep(t, false, 0x03, t.Current().device, 0x11, 0);
    FinishStep(ended);
    StepTransitive(t, ended, FinishRead(ended));
  }

  lemma SendChunkStep(t: Target, data: seq<byte>)
    requires Inv(t) && t.Reading() && |data| <= t.Current().remaining
    ensures Step(t, SendChunk(t, data)) && Step(t, FinishRead(SendChunk(t, data)))
  {
    var rest := After(t.Current(), |data|);
    var moved := t.(pump := t.pump.(reading := Some(rest)));
    var sent := SendData(moved, rest.device, rest.remaining == 0, data, rest.dma);
    QueueStep(t, rest);
    DataStep(moved, rest.device, rest.remaining == 0, data, rest.dma);
    StepTransitive(t, moved, sent);
    ReenterStep(sent);
    StepTransitive(t, sent, Reenter(sent));
    FinishStep(Reenter(sent));
    StepTransitive(t, Reenter(sent), FinishRead(Reenter(sent)));
  }

  lemma PumpStepStep(t: Target)
    requires Inv(t) && t.Reading()
    ensures Step(t, PumpStep(t))
  {
    var (data, media) := NextChunk(t);
    var counted := t.(media := media);
    MediaReadKept(t.media, t.Current().device, t.Current().byteOffset, ChunkSize(t));
    SetMediaStep(t, media);
    if data == [] {
      EndShortStep(counted);
    } else {
      SendChunkStep(counted, data);
    }
    StepTransitive(t, counted, PumpStep(t));
  }

  /** However the environment re-enters, the pump keeps the invariant and ends idle. */
  lemma {:induction false} PumpAllStep(t: Target)
    requires Inv(t)
    ensures Step(t, PumpAll(t)) && PumpAll(t).pump == IDLE
    decreases |t.reentry|, Outstanding(t.pump)
  {
    if t.Reading() {
      PumpStepStep(t);
      PumpAllStep(PumpStep(t));
      StepTransitive(t, PumpStep(t), PumpAll(t));
    }
  }

  /** Between messages: the invariant, with no read in flight. */
  ghost predicate Quiet(t: Target) {
    Inv(t) && t.pump == IDLE
  }

  ghost predicate QuietStep(t: Target, u: Target) {
    Quiet(u) && Kept(t, u)
  }

  lemma ReadStep(t: Target, device: byte, lba: nat, length: nat, dma: bool)
    requires Quiet(t)
    ensures QuietStep(t, ScsiRead(t, device, lba, length, dma))
  {
    var admitted := AdmitRead(t, device, lba, length, dma);
    AdmitStep(t, device, lba, length, dma);
    PumpAllStep(admitted);
    StepTransitive(t, admitted, PumpAll(admitted));
  }

  // --- Write path ---

  lemma SetPendingStep(t: Target, pending: Option<PendingWrite>)
    requires Inv(t) && PendingOk(t.media, pending)
    ensures Step(t, t.(pending := pending))
  {
  }

  lemma WriteRequestStep(t: Target, device: byte, lba: nat, length: nat)
    requires Quiet(t)
    ensures QuietStep(t, ScsiWrite(t, device, lba, length))
  {
    if device != DEVICE_FLOPPY || t.media.floppy.None? {
      EndStep(t, true, 0x02, device, 0x3A, 0);
    } else if lba + length > t.media.floppy.value.Blocks() {
      EndStep(t, true, 0x05, device, 0x21, 0);
    } else if length == 0 {
      EndStep(t, true, 0, device, 0, 0);
    } else if !t.media.floppy.value.writable {
      EndStep(t, false, 0x07, device, 0x27, 0);
    } else {
      var asked := t.(pending := Some(PendingWrite(device, lba * 512, 512 * length, 0)));
      SetPendingStep(t, asked.pending);
      SendStep(asked, CMD_GET_DATA_FROM_HOST, GetDataPayload(device, 512 * length), false, false);
      StepTransitive(t, asked, ScsiWrite(t, device, lba, length));
    }
  }

  lemma WriteAtLength(file: seq<byte>, offset: nat, data: seq<byte>)
    ensures var w := WriteAt(file, offset, data);
            |w| == if data == [] || offset + |data| <= |file| then |file| else offset + |data|
  {
  }

  lemma WriteAtBehind(file: seq<byte>, offset: nat, data: seq<byte>, size: nat)
    requires offset + |data| <= size <= |file|
    ensures |WriteAt(file, offset, data)| == |file| && WriteAt(file, offset, data)[size..] == file[size..]
  {
  }

  /** Neither guard of MediaImage.write can fire on a pending write. */
  lemma MediaWriteKept(m: Media, p: PendingWrite, data: seq<byte>)
    requires MediaOk(m) && PendingOk(m, Some(p)) && p.received + |data| <= p.expected
    ensures var w := MediaWrite(m, p.device, p.byteOffset + p.received, data);
            w.Some? && MediaOk(w.value) && MediaKept(m, w.value)
  {
    var file := Content(m, m.floppy.value);
    WriteAtLength(file, p.byteOffset + p.received, data);
    if m.floppy.value.size <= |file| {
      WriteAtBehind(file, p.byteOffset + p.received, data, m.floppy.value.size);
    }
  }

  lemma DataFromHostStep(t: Target, data: seq<byte>)
    requires Quiet(t)
    ensures QuietStep(t, OnDataFromHost(t, data).0) && OnDataFromHost(t, data).1.Continue?
  {
    hide MediaKept, Numbered;
    match t.pending
    case None => EndStep(t, false, 0x05, DEVICE_FLOPPY, 0x20, 0);
    case Some(p) =>
      var dropped := t.(pending := None);
      SetPendingStep(t, None);
      if p.received + |data| > p.expected {
        EndStep(dropped, false, 0x05, p.device, 0x21, 0);
        StepTransitive(t, dropped, SendEnd(dropped, false, 0x05, p.device, 0x21, 0));
      } else {
        MediaWriteKept(t.media, p, data);
        ArrivedStep(t, p, data, MediaWrite(t.media, p.device, p.byteOffset + p.received, data).value);
      }
  }

  lemma ArrivedStep(t: Target, p: PendingWrite, data: seq<byte>, media: Media)
    requires Quiet(t) && t.pending == Some(p) && MediaOk(media) && MediaKept(t.media, media)
    requires p.received + |data| <= p.expected
    ensures p.received + |data| >= p.expected ==>
              QuietStep(t, SendEnd(t.(media := media, pending := None), false, 0, p.device, 0, 0))
    ensures p.received + |data| < p.expected ==>
              QuietStep(t, t.(media := media, pending := Some(p.(received := p.received + |data|))))
  {
    var written := t.(media := media);
    SetMediaStep(t, media);
    if p.received + |data| >= p.expected {
      var dropped := written.(pending := None);
      SetPendingStep(written, None);
      StepTransitive(t, written, dropped);
      EndStep(dropped, false, 0, p.device, 0, 0);
      StepTransitive(t, dropped, SendEnd(dropped, false, 0, p.device, 0, 0));
    } else {
      var more := Some(p.(received := p.received + |data|));
      SetPendingStep(written, more);
      StepTransitive(t, written, written.(pending := more));
    }
  }

  // --- Everything else ---

  lemma TestUnitReadyStep(t: Target, device: byte)
    requires Quiet(t)
    ensures QuietStep(t, TestUnitReady(t, device))
  {
    match Slot(t.media, device)
    case None => EndStep(t, true, 0x02, device, 0x3A, 0);
    case Some(image) =>
      if image.changeReported {
        EndStep(t, true, 0, device, 0, 0);
      } else {
        var marked := t.(media := SetSlot(t.media, device, image.(changeReported := true)));
        SetSlotKept(t.media, device, image.(changeReported := true));
        SetMediaStep(t, marked.media);
        EndStep(marked, true, 0x06, device, 0x28, 0);
        StepTransitive(t, marked, SendEnd(marked, true, 0x06, device, 0x28, 0));
      }
  }

  /** A command that only answers, whatever it answers. */
  ghost predicate OneAnswer(t: Target, u: Target) {
    u == t
    || (exists error, sense, device, asc, asq :: u == SendEnd(t, error, sense, device, asc, asq))
    || (exists device, data, dma :: u == SendData(t, device, true, data, dma))
  }

  lemma OneAnswerStep(t: Target, u: Target)
    requires Quiet(t) && OneAnswer(t, u)
    ensures QuietStep(t, u)
  {
    if error, sense, device, asc, asq :| u == SendEnd(t, error, sense, device, asc, asq) {
      EndStep(t, error, sense, device, asc, asq);
    } else if device, data, dma :| u == SendData(t, device, true, data, dma) {
      DataStep(t, device, true, data, dma);
    }
  }

  lemma OtherAnswersOnce(t: Target, device: byte, cdb: seq<byte>, dma: bool)
    requires |cdb| == 12 && cdb[0] != 0
    ensures OneAnswer(t, ScsiOther(t, device, cdb, dma))
  {
  }

  lemma ScsiStep(t: Target, device: byte, cdb: seq<byte>, feature: byte, flags: byte)
    requires Quiet(t) && |cdb| == 12
    ensures var (u, verdict) := HandleScsi(t, device, cdb, feature, flags);
            QuietStep(t, u) && (verdict.Continue? || verdict == Raise(StructError, false))
  {
    hide FromBE, ScsiRead, ScsiWrite, Numbered, MediaKept;
    var dma := feature % 2 == 1;
    var op := cdb[0];
    if op == 0x08 {
      ReadStep(t, device, Lba6(cdb), Length6(cdb), dma);
    } else if op == 0x28 {
      ReadStep(t, device, FromBE(cdb[2..6]), FromBE(cdb[7..9]), dma);
    } else if op == 0x0A {
      WriteRequestStep(t, device, Lba6(cdb), Length6(cdb));
    } else if op == 0x2A || op == 0x2E {
      WriteRequestStep(t, device, FromBE(cdb[2..6]), FromBE(cdb[7..9]));
    } else if op == 0x25 {
      OneAnswerStep(t, ReadCapacity(t, device, flags, dma).0);
    } else if op == 0 {
      TestUnitReadyStep(t, device);
    } else {
      OtherAnswersOnce(t, device, cdb, dma);
      OneAnswerStep(t, ScsiOther(t, device, cdb, dma));
    }
  }

  lemma SessionStep(t: Target, session: Session)
    requires Quiet(t) && session.startMode == t.session.startMode && session.info.readbfr <= MAX_READ_WRITE_BUFFER
    ensures QuietStep(t, t.(session := session))
    ensures QuietStep(t, SendFeatures(t.(session := session)))
  {
    var u := t.(session := session);
    SendStep(u, CMD_DISABLE_ENABLE_FEATURES, [3] + LE(session.startMode, 4), false, false);
    StepTransitive(t, u, SendFeatures(u));
  }

  /** Every inbound message keeps the invariant and leaves the pump idle; no guard of the write path is reached. */
  lemma DispatchStep(t: Target, m: seq<byte>)
    requires Quiet(t)
    ensures QuietStep(t, Dispatch(t, m).0)
    ensures Dispatch(t, m).1.Raise? ==> Dispatch(t, m).1.error in {BadOpenReply, StructError}
  {
    hide HandleScsi, OnDataFromHost, FromLE, Numbered, MediaKept;
    SessionStep(t, t.session);
    if WellFormed(m) {
      var cmd := m[0];
      if cmd == CMD_OPEN_SESSION_REPLY {
        if InfoAccepted(ParseInfo(m)) {
          SessionStep(t, t.session.(info := ParseInfo(m), isOpen := true));
        }
      } else if cmd == CMD_KEEPALIVE_PING {
        SendStep(t, CMD_KEEPALIVE_PONG, [], false, false);
      } else if cmd == CMD_RESET_OCCURRED {
        ResetStep(t);
      } else if cmd == CMD_STATUS_DATA {
        SessionStep(t, OnStatusData(t, m[8], FromLE(m[9..13])).session);
      } else if cmd == CMD_ERROR_OCCURRED {
        SessionStep(t, t.session.(errorsSeen := t.session.errorsSeen + [m[8]]));
      } else if cmd == CMD_COMMAND_WRITTEN {
        ScsiStep(t, if m[14] / 16 % 2 == 1 then DEVICE_CDROM else DEVICE_FLOPPY, m[16..28], m[9], m[14]);
      } else if cmd == CMD_DATA_FROM_HOST {
        DataFromHostStep(t, m[14..14 + FromLE(m[9..11])]);
      }
    }
  }
}

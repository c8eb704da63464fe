// Firmware and engine together: the mock's own encoders, decoders and sequence
// checks on one side, the engine on the other, and nothing but bytes between.
module IderComposition {
  import opened Wrappers
  import opened Bytes
  import opened Framing
  import opened IderFrames
  import opened IderTarget
  import opened IderInvariants
  import opened IderSession
  import opened MockCodec
  import Mock = MockServer
  import opened IderReads
  import opened IderWrites

  // --- From the engine to the mock ---

  /** The mock can tell what the frame is, and goes on after it. */
  predicate Readable(frame: seq<byte>) {
    |frame| >= 8 && FrameLength(frame) == Some(|frame|) && frame[0] != 0x43 && DecodeFrame(frame) != Violation
  }

  lemma ReadableHead(frame: seq<byte>, rest: seq<byte>, expected: nat)
    requires Readable(frame) && FrameSeq(frame) == expected
    ensures Mock.NextFrame(frame + rest, expected) == Mock.Frame(|frame|)
  {
    var stream := frame + rest;
    assert stream[4..8] == frame[4..8];
    assert stream[..|frame|] == frame;
    assert FrameLength(stream) == FrameLength(frame);
  }

  lemma ReadOne(frame: seq<byte>, rest: seq<byte>, expected: nat)
    requires Readable(frame) && FrameSeq(frame) == expected
    ensures var later := Mock.Read(rest, expected + 1);
            Mock.Read(frame + rest, expected) ==
            later.(events := Mock.Reported(frame) + later.events, pongs := Mock.Pings(frame) + later.pongs)
  {
    hide Readable, Mock.NextFrame, Mock.Reported, Mock.Pings;
    ReadableHead(frame, rest, expected);
    assert (frame + rest)[..|frame|] == frame && (frame + rest)[|frame|..] == rest;
  }

  function AllReported(frames: seq<seq<byte>>): seq<Event> {
    if frames == [] then [] else Mock.Reported(frames[0]) + AllReported(frames[1..])
  }

  function AllPings(frames: seq<seq<byte>>): nat {
    if frames == [] then 0 else Mock.Pings(frames[0]) + AllPings(frames[1..])
  }

  /** Any run of frames the mock knows, consecutively numbered: each is reported, and every ping answered. */
  lemma {:induction false} FramesRead(frames: seq<seq<byte>>, expected: nat)
    requires forall i :: 0 <= i < |frames| ==> Readable(frames[i]) && FrameSeq(frames[i]) == expected + i
    ensures Mock.Read(Concat(frames), expected)
         == Mock.Reading(AllReported(frames), expected + |frames|, [], false, AllPings(frames))
    decreases |frames|
  {
    hide Readable, Mock.Reported, Mock.Pings;
    if frames != [] {
      ReadOne(frames[0], Concat(frames[1..]), expected);
      FramesRead(frames[1..], expected + 1);
    }
  }

  /** An event of a transfer, or the acknowledgement of a reset. */
  predicate Known(e: Event) {
    e.DataToHost? || e.CommandEnd? || e.GetDataFromHost? || e.ResetAck?
  }

  lemma KnownIsReadable(frame: seq<byte>)
    requires Known(DecodeFrame(frame))
    ensures Readable(frame) && Mock.Reported(frame) == [DecodeFrame(frame)] && Mock.Pings(frame) == 0
  {
  }

  lemma {:induction false} KnownAreReported(frames: seq<seq<byte>>)
    requires forall i :: 0 <= i < |frames| ==> Known(DecodeFrame(frames[i]))
    ensures AllReported(frames) == DecodeFrames(frames) && AllPings(frames) == 0
    decreases |frames|
  {
    hide Known, DecodeFrame, Mock.Reported, Mock.Pings;
    if frames != [] {
      KnownIsReadable(frames[0]);
      KnownAreReported(frames[1..]);
      assert DecodeFrames(frames) == [DecodeFrame(frames[0])] + DecodeFrames(frames[1..]);
    }
  }

  /** The frames sent between two states, as bytes on the connection. */
  function SentBytes(t: Target, u: Target): seq<byte>
    requires t.out.sent <= u.out.sent
  {
    Concat(u.out.sent[|t.out.sent|..])
  }

  lemma ShiftMod(base: nat, i: nat)
    requires base % TWO32 + i < TWO32
    ensures (base + i) % TWO32 == base % TWO32 + i
  {
  }

  /** The mock reads back exactly the events the engine emitted, as long as its counter does not have to wrap. */
  lemma EmittedRead(t: Target, u: Target)
    requires Numbered(t.out) && Numbered(u.out) && t.out.sent <= u.out.sent
    requires forall i :: 0 <= i < |Emitted(t, u)| ==> Known(Emitted(t, u)[i])
    requires t.out.seqno + |Emitted(t, u)| <= TWO32
    ensures Mock.Read(SentBytes(t, u), t.out.seqno) == Mock.Reading(Emitted(t, u), t.out.seqno + |Emitted(t, u)|, [], false, 0)
  {
    hide Known, Readable, DecodeFrame;
    var base := |t.out.sent|;
    var frames := u.out.sent[base..];
    forall i | 0 <= i < |frames| ensures Known(DecodeFrame(frames[i])) && Readable(frames[i]) && FrameSeq(frames[i]) == t.out.seqno + i {
      assert Emitted(t, u)[i] == DecodeFrame(frames[i]);
      KnownIsReadable(frames[i]);
      assert frames[i] == u.out.sent[base + i];
      ShiftMod(base, i);
    }
    FramesRead(frames, t.out.seqno);
    KnownAreReported(frames);
  }

  // --- Reassembly ---

  /** One flag per frame, set on the last only. */
  predicate LastOnly(flags: seq<bool>) {
    forall i :: 0 <= i < |flags| ==> (flags[i] <==> i == |flags| - 1)
  }

  lemma {:induction false} ReassembleChunks(es: seq<Event>)
    requires es != [] && forall i :: 0 <= i < |es| ==> es[i].DataToHost? && (es[i].completed <==> i == |es| - 1)
    ensures var (r, left) := Mock.Reassemble(es);
            r.Stream? && left == [] && r.data == Payload(es) && |r.completed| == |es| && LastOnly(r.completed)
    decreases |es|
  {
    if |es| == 1 {
      assert es[1..] == [];
      assert Payload(es) == es[0].data + Payload([]);
    } else {
      forall i | 0 <= i < |es[1..]| ensures es[1..][i].completed <==> i == |es[1..]| - 1 {
        assert es[1..][i] == es[i + 1];
      }
      ReassembleChunks(es[1..]);
    }
  }

  lemma {:induction false} ReassembleCut(es: seq<Event>)
    requires es != [] && !es[|es| - 1].DataToHost?
    requires forall i :: 0 <= i < |es| - 1 ==> es[i].DataToHost? && !es[i].completed
    ensures Mock.Reassemble(es) == (Mock.Unexpected(es[|es| - 1]), [])
    decreases |es|
  {
    if |es| > 1 {
      forall i | 0 <= i < |es[1..]| - 1 ensures es[1..][i].DataToHost? && !es[1..][i].completed {
        assert es[1..][i] == es[i + 1];
      }
      ReassembleCut(es[1..]);
    } else {
      assert es[1..] == [];
    }
  }

  /** A transfer takes at most one frame per byte, and one more. */
  lemma {:induction false} PayloadCounts(es: seq<Event>)
    requires forall i :: 0 <= i < |es| ==> es[i].DataToHost? && |es[i].data| >= 1
    ensures |es| <= |Payload(es)|
  {
    if es != [] {
      PayloadCounts(es[1..]);
    }
  }

  lemma DeliversCount(es: seq<Event>, data: seq<byte>, length: nat, device: byte, dma: bool, readbfr: nat)
    requires Delivers(es, data, length, device, dma, readbfr) && |data| <= length
    ensures |es| <= length + 1
  {
    if |data| == length {
      PayloadCounts(es);
    } else {
      var n := |es| - 1;
      assert es == es[..n] + [es[n]];
      PayloadAppend(es[..n], [es[n]]);
      assert Payload([es[n]]) == [] + Payload([]);
      PayloadCounts(es[..n]);
    }
  }

  // --- From the mock to the engine ---

  function Cdb10(op: byte, lba: nat, length: nat): (cdb: seq<byte>)
    requires lba < TWO32 && length < 65536
    ensures |cdb| == 12
  {
    [op, 0] + BE(lba, 4) + [0] + BE(length, 2) + [0, 0, 0]
  }

  lemma Cdb10Fields(op: byte, lba: nat, length: nat)
    requires lba < TWO32 && length < 65536
    ensures var cdb := Cdb10(op, lba, length);
            cdb[0] == op && FromBE(cdb[2..6]) == lba && FromBE(cdb[7..9]) == length
  {
    hide BE, FromBE;
    var cdb := Cdb10(op, lba, length);
    Pow256Values();
    BERoundTrip(lba, 4);
    BERoundTrip(length, 2);
    assert cdb[2..6] == BE(lba, 4) && cdb[7..9] == BE(length, 2);
  }

  /** The mock's COMMAND_WRITTEN frame for a CDB. */
  function CommandFrame(seqno: nat, cdb: seq<byte>, device: byte, feature: byte): seq<byte>
    requires seqno < TWO32 && |cdb| == 12
  {
    Mock.WireFrame(0x50, seqno, EncodeCommandWritten(cdb, if device == DEVICE_CDROM then 0x10 else 0, feature))
  }

  lemma CommandIsMessage(seqno: nat, cdb: seq<byte>, device: byte, feature: byte)
    requires seqno < TWO32 && |cdb| == 12
    ensures var m := CommandFrame(seqno, cdb, device, feature);
            IsMessage(m, seqno) && m[0] == CMD_COMMAND_WRITTEN && m[9] == feature && m[16..28] == cdb
            && m[14] == (if device == DEVICE_CDROM then 0x10 else 0)
  {
    var m := CommandFrame(seqno, cdb, device, feature);
    LE32(seqno);
    assert m[4..8] == LE(seqno, 4);
    assert m[16..28] == cdb;
  }

  lemma DispatchCommand(t: Target, m: seq<byte>)
    requires WellFormed(m) && m[0] == CMD_COMMAND_WRITTEN
    ensures Dispatch(t, m) == HandleScsi(t, if m[14] / 16 % 2 == 1 then DEVICE_CDROM else DEVICE_FLOPPY, m[16..28], m[9], m[14])
  {
    hide HandleScsi;
  }

  lemma CommandDispatch(t: Target, seqno: nat, cdb: seq<byte>, device: byte, feature: byte)
    requires seqno < TWO32 && |cdb| == 12 && device in {DEVICE_FLOPPY, DEVICE_CDROM}
    ensures var m := CommandFrame(seqno, cdb, device, feature);
            Dispatch(t, m) == HandleScsi(t, device, cdb, feature, m[14])
  {
    hide CommandFrame, HandleScsi, Dispatch, FromLE;
    CommandIsMessage(seqno, cdb, device, feature);
    DispatchCommand(t, CommandFrame(seqno, cdb, device, feature));
  }

  /** A running session with nothing half-received. */
  ghost predicate Synced(e: Engine) {
    !e.stopped && e.buf == [] && e.inSeq < TWO32 && Quiet(e.target) && e.target.reentry == []
  }

  /** One whole message in, handled, and nothing left over. */
  lemma FeedOne(e: Engine, m: seq<byte>)
    requires !e.stopped && e.buf == [] && IsMessage(m, e.inSeq) && Dispatch(e.target, m).1.Continue?
    ensures Feed(e, m) == (Framer([], Advance(e.inSeq), false, Dispatch(e.target, m).0), Ok)
  {
    assert e.buf + m == m && m + [] == m;
    DrainMessage(Dispatch, e.(buf := m), m, []);
  }

  // --- READ, end to end ---

  /** What the mock makes of the bytes sent between two states. */
  function Heard(t: Target, u: Target): Mock.Reading
    requires t.out.sent <= u.out.sent
  {
    Mock.Read(SentBytes(t, u), t.out.seqno)
  }

  /**
    The mock has reassembled the range from the image, with only the last
    completed flag set; or the file no longer holds the range, and the mock has
    been given what the file still had of it, met the medium error and seen no
    completed transfer.
    */
  ghost predicate ReadHeard(t: Target, u: Target, device: byte, lba: nat, length: nat)
    requires Slot(t.media, device).Some?
  {
    var sector := Slot(t.media, device).value.SectorSize();
    var file := Backing(t.media, device);
    && t.out.sent <= u.out.sent && u.media.files == t.media.files
    && Heard(t, u).rest == [] && !Heard(t, u).ended && Heard(t, u).expected == u.out.seqno
    && Payload(Heard(t, u).events) == ReadAt(file, lba * sector, length * sector)
    && var (r, left) := Mock.Reassemble(Heard(t, u).events);
       && left == []
       && if |file| >= (lba + length) * sector
          then r.Stream? && r.data == file[lba * sector..(lba + length) * sector] && LastOnly(r.completed)
          else r == Mock.Unexpected(CommandEnd(false, device, 0x03, 0x11, 0))
  }

  lemma SeqnoAfter(t: Target, u: Target)
    requires Numbered(t.out) && Numbered(u.out) && t.out.sent <= u.out.sent
    requires t.out.seqno + |Emitted(t, u)| < TWO32
    ensures u.out.seqno == t.out.seqno + |Emitted(t, u)|
  {
    ShiftMod(|t.out.sent|, |Emitted(t, u)|);
  }

  lemma DeliveredIsHeard(t: Target, u: Target, data: seq<byte>, size: nat, device: byte, dma: bool, readbfr: nat)
    requires Numbered(t.out) && Numbered(u.out) && t.out.sent <= u.out.sent
    requires Delivers(Emitted(t, u), data, size, device, dma, readbfr) && |data| <= size
    requires t.out.seqno + size + 1 < TWO32
    ensures Heard(t, u).rest == [] && !Heard(t, u).ended && Heard(t, u).expected == u.out.seqno
    ensures Payload(Heard(t, u).events) == data
    ensures var (r, left) := Mock.Reassemble(Heard(t, u).events);
            && left == []
            && if |data| == size then r.Stream? && r.data == data && LastOnly(r.completed)
               else r == Mock.Unexpected(CommandEnd(false, device, 0x03, 0x11, 0))
  {
    var es := Emitted(t, u);
    DeliversCount(es, data, size, device, dma, readbfr);
    EmittedRead(t, u);
    SeqnoAfter(t, u);
    if |data| == size {
      ReassembleChunks(es);
    } else {
      ReassembleCut(es);
    }
  }

  /** The range of a file, whole or cut. */
  lemma RangeOf(file: seq<byte>, lba: nat, length: nat, sector: nat)
    requires sector == 512 || sector == 2048
    ensures |ReadAt(file, lba * sector, length * sector)| == length * sector <==> (|file| >= (lba + length) * sector || length == 0)
    ensures |file| >= (lba + length) * sector ==>
              ReadAt(file, lba * sector, length * sector) == file[lba * sector..(lba + length) * sector]
  {
  }

  lemma ReadIsHeard(t: Target, device: byte, lba: nat, length: nat, dma: bool)
    requires Quiet(t) && t.reentry == [] && Framable(t.session.info.readbfr, Available(t.media, device, lba, length))
    requires Slot(t.media, device).Some? && 0 < length && lba + length <= Slot(t.media, device).value.Blocks()
    requires t.out.seqno + length * 2048 + 1 < TWO32
    ensures ReadHeard(t, ScsiRead(t, device, lba, length, dma), device, lba, length)
  {
    var u := ScsiRead(t, device, lba, length, dma);
    var sector := Slot(t.media, device).value.SectorSize();
    ReadDelivers(t, device, lba, length, dma);
    ReadStep(t, device, lba, length, dma);
    RangeOf(Backing(t.media, device), lba, length, sector);
    DeliveredIsHeard(t, u, ReadAt(Backing(t.media, device), lba * sector, length * sector), length * sector,
                     device, dma, t.session.info.readbfr);
  }

  /** The engine after firmware issues a READ_10. */
  function AfterRead(e: Engine, device: byte, lba: nat, length: nat, feature: byte): (Engine, Outcome)
    requires e.inSeq < TWO32 && lba < TWO32 && length < 65536
  {
    Feed(e, CommandFrame(e.inSeq, Cdb10(0x28, lba, length), device, feature))
  }

  lemma ReadCommand(e: Engine, device: byte, lba: nat, length: nat, feature: byte)
    requires Synced(e) && device in {DEVICE_FLOPPY, DEVICE_CDROM} && lba < TWO32 && length < 65536
    ensures AfterRead(e, device, lba, length, feature) ==
              (Framer([], Advance(e.inSeq), false, ScsiRead(e.target, device, lba, length, feature % 2 == 1)), Ok)
  {
    hide CommandFrame, Cdb10, FromBE, ScsiRead, Feed;
    var cdb := Cdb10(0x28, lba, length);
    CommandIsMessage(e.inSeq, cdb, device, feature);
    CommandDispatch(e.target, e.inSeq, cdb, device, feature);
    Cdb10Fields(0x28, lba, length);
    FeedOne(e, CommandFrame(e.inSeq, cdb, device, feature));
  }

  /** A READ_10 issued by the mock, from its frame to its reassembled bytes. */
  lemma EndToEndRead(e: Engine, device: byte, lba: nat, length: nat, feature: byte)
    requires Synced(e) && device in {DEVICE_FLOPPY, DEVICE_CDROM}
    requires Framable(e.target.session.info.readbfr, Available(e.target.media, device, lba, length))
    requires Slot(e.target.media, device).Some?
    requires 0 < length < 65536 && lba < TWO32 && lba + length <= Slot(e.target.media, device).value.Blocks()
    requires e.target.out.seqno + length * 2048 + 1 < TWO32
    ensures AfterRead(e, device, lba, length, feature).1 == Ok
    ensures Synced(AfterRead(e, device, lba, length, feature).0)
    ensures ReadHeard(e.target, AfterRead(e, device, lba, length, feature).0.target, device, lba, length)
  {
    ReadCommand(e, device, lba, length, feature);
    ReadIsHeard(e.target, device, lba, length, feature % 2 == 1);
    ReadStep(e.target, device, lba, length, feature % 2 == 1);
    ReadDelivers(e.target, device, lba, length, feature % 2 == 1);
  }

  // --- WRITE, end to end ---

  lemma AdvanceSmall(n: nat)
    requires n + 1 < TWO32
    ensures Advance(n) == n + 1
  {
  }

  /** The state after one payload frame. */
  function Store(t: Target, piece: seq<byte>): Target {
    OnDataFromHost(t, piece).0
  }

  lemma DispatchData(t: Target, m: seq<byte>)
    requires Quiet(t) && WellFormed(m) && m[0] == CMD_DATA_FROM_HOST
    ensures Dispatch(t, m) == (Store(t, m[14..14 + FromLE(m[9..11])]), Continue)
  {
    DataFromHostStep(t, m[14..14 + FromLE(m[9..11])]);
  }

  lemma DataDispatch(t: Target, piece: seq<byte>, seqno: nat)
    requires Quiet(t) && seqno < TWO32 && |piece| < 65536
    ensures Quiet(Store(t, piece))
    ensures Dispatch(t, Mock.WireFrame(0x53, seqno, EncodeDataFromHost(piece))) == (Store(t, piece), Continue)
  {
    Mock.DataIsMessage(seqno, piece);
    DispatchData(t, Mock.WireFrame(0x53, seqno, EncodeDataFromHost(piece)));
    DataFromHostStep(t, piece);
  }

  lemma EngineStores()
    ensures Mock.Stores(Dispatch, Store, Quiet)
  {
    forall t, piece, seqno: nat ensures Mock.StoresOne(Dispatch, Store, Quiet, t, piece, seqno) {
      if Quiet(t) && |piece| < 65536 && seqno < TWO32 {
        DataDispatch(t, piece, seqno);
      }
    }
  }

  lemma {:induction false} ArriveFolds(t: Target, pieces: seq<seq<byte>>)
    ensures Mock.FoldPieces(Store, t, pieces) == Arrive(t, pieces)
    decreases |pieces|
  {
    if pieces != [] {
      ArriveFolds(Store(t, pieces[0]), pieces[1..]);
    }
  }

  /** The engine after firmware issues a WRITE_10. */
  function AfterWriteCommand(e: Engine, lba: nat, length: nat): (Engine, Outcome)
    requires e.inSeq < TWO32 && lba < TWO32 && length < 65536
  {
    Feed(e, CommandFrame(e.inSeq, Cdb10(0x2A, lba, length), DEVICE_FLOPPY, 0))
  }

  predicate Writable(t: Target, lba: nat, length: nat) {
    && t.media.floppy.Some? && t.media.floppy.value.writable
    && 0 < length < 65536 && lba < TWO32 && lba + length <= t.media.floppy.value.Blocks()
  }

  lemma DecodeGet(seqno: nat, device: byte, chunk: nat)
    ensures var frame := Header(CMD_GET_DATA_FROM_HOST, seqno, false, false) + GetDataPayload(device, chunk);
            DecodeFrame(frame) == GetDataFromHost(device, chunk % 65536)
  {
    var frame := Header(CMD_GET_DATA_FROM_HOST, seqno, false, false) + GetDataPayload(device, chunk);
    assert frame[8..] == GetDataPayload(device, chunk);
    assert LE(chunk, 2) == [chunk % 256] + LE(chunk / 256, 1);
    assert LE(chunk / 256, 1) == [chunk / 256 % 256] + LE(chunk / 256 / 256, 0);
  }

  /** The write is pending and the payload has been asked for; the length on the wire has 16 bits. */
  ghost predicate Asked(t: Target, u: Target, lba: nat, length: nat) {
    && Quiet(u) && u.media == t.media && u.session == t.session && u.reentry == t.reentry
    && u.pending == Some(PendingWrite(DEVICE_FLOPPY, lba * 512, 512 * length, 0))
    && t.out.sent <= u.out.sent
    && Emitted(t, u) == [GetDataFromHost(DEVICE_FLOPPY, 512 * length % 65536)]
  }

  lemma WriteAsks(t: Target, lba: nat, length: nat)
    requires Quiet(t) && Writable(t, lba, length)
    ensures Asked(t, ScsiWrite(t, DEVICE_FLOPPY, lba, length), lba, length)
    ensures length < 128 ==> Emitted(t, ScsiWrite(t, DEVICE_FLOPPY, lba, length)) == [GetDataFromHost(DEVICE_FLOPPY, 512 * length)]
  {
    WriteRequestStep(t, DEVICE_FLOPPY, lba, length);
    DecodeGet(t.out.seqno, DEVICE_FLOPPY, 512 * length);
    SentEvent(t, CMD_GET_DATA_FROM_HOST, GetDataPayload(DEVICE_FLOPPY, 512 * length), false, false, ScsiWrite(t, DEVICE_FLOPPY, lba, length));
  }

  lemma WriteCommand(e: Engine, lba: nat, length: nat)
    requires Synced(e) && lba < TWO32 && length < 65536
    ensures AfterWriteCommand(e, lba, length)
         == (Framer([], Advance(e.inSeq), false, ScsiWrite(e.target, DEVICE_FLOPPY, lba, length)), Ok)
  {
    var cdb := Cdb10(0x2A, lba, length);
    CommandIsMessage(e.inSeq, cdb, DEVICE_FLOPPY, 0);
    CommandDispatch(e.target, e.inSeq, cdb, DEVICE_FLOPPY, 0);
    Cdb10Fields(0x2A, lba, length);
    FeedOne(e, CommandFrame(e.inSeq, cdb, DEVICE_FLOPPY, 0));
  }

  /** The slice is in the image, nothing else changed, and the mock has heard one end response: success. */
  ghost predicate WriteDone(t: Target, asked: Target, u: Target, lba: nat, length: nat, data: seq<byte>)
    requires t.media.floppy.Some?
  {
    var image := t.media.floppy.value;
    var file := Content(t.media, image);
    && Quiet(u) && u.pending == None && u.reentry == t.reentry
    && u.media.files == t.media.files[image.file := WriteAt(file, lba * 512, data)]
    && (|file| >= (lba + length) * 512 ==>
          u.media.files[image.file] == file[..lba * 512] + data + file[(lba + length) * 512..])
    && asked.out.sent <= u.out.sent
    && Heard(asked, u) == Mock.Reading([SUCCESS], u.out.seqno, [], false, 0)
  }

  lemma WriteAtSlice(file: seq<byte>, lba: nat, length: nat, data: seq<byte>)
    requires |data| == 512 * length
    ensures |file| >= (lba + length) * 512 ==>
              WriteAt(file, lba * 512, data) == file[..lba * 512] + data + file[(lba + length) * 512..]
  {
    if |file| >= (lba + length) * 512 {
      WriteAtInside(file, lba * 512, data);
    }
  }

  lemma WriteIsHeard(t: Target, asked: Target, lba: nat, length: nat, data: seq<byte>, pieces: seq<seq<byte>>)
    requires Quiet(t) && Writable(t, lba, length) && Asked(t, asked, lba, length)
    requires Concat(pieces) == data && |data| == 512 * length && pieces != [] && pieces[|pieces| - 1] != []
    requires asked.out.seqno + 1 < TWO32
    ensures WriteDone(t, asked, Arrive(asked, pieces), lba, length, data)
  {
    var u := Arrive(asked, pieces);
    FragmentationInvariance(asked, pieces);
    WriteAtSlice(Content(t.media, t.media.floppy.value), lba, length, data);
    EmittedRead(asked, u);
    SeqnoAfter(asked, u);
  }

  /** The bytes of a payload cut at any frame size, delivered by the transport in any chunks. */
  predicate Carries(chunks: seq<seq<byte>>, data: seq<byte>, frameSize: nat, seqno: nat)
    requires 0 < frameSize < 65536 && seqno + |Mock.Cut(data, frameSize)| <= TWO32
  {
    Concat(chunks) == Concat(Mock.DataFrames(Mock.Cut(data, frameSize), seqno))
  }

  lemma PayloadStored(start: Engine, data: seq<byte>, frameSize: nat, chunks: seq<seq<byte>>) returns (done: Engine)
    requires !start.stopped && start.buf == [] && Quiet(start.target) && 0 < frameSize < 65536
    requires start.inSeq + |Mock.Cut(data, frameSize)| < TWO32
    requires Carries(chunks, data, frameSize, start.inSeq)
    ensures Run(start, chunks) == (done, Ok)
    ensures done == Framer([], start.inSeq + |Mock.Cut(data, frameSize)|, false, Arrive(start.target, Mock.Cut(data, frameSize)))
  {
    hide Dispatch, Store, Arrive, Mock.Cut, Mock.DataFrames;
    EngineStores();
    Mock.PayloadRun(Dispatch, Store, Quiet, start, data, frameSize, chunks);
    ArriveFolds(start.target, Mock.Cut(data, frameSize));
    done := Framer([], start.inSeq + |Mock.Cut(data, frameSize)|, false, Arrive(start.target, Mock.Cut(data, frameSize)));
  }

  /** A WRITE_10 issued by the mock, from its frame to the image, whatever the frame size and the chunks. */
  lemma EndToEndWrite(e: Engine, lba: nat, length: nat, data: seq<byte>, frameSize: nat, chunks: seq<seq<byte>>)
    returns (asked: Engine, done: Engine)
    requires Synced(e) && Writable(e.target, lba, length) && |data| == 512 * length
    requires 0 < frameSize < 65536
    requires e.inSeq + 1 + |Mock.Cut(data, frameSize)| < TWO32 && e.target.out.seqno + 2 < TWO32
    requires Carries(chunks, data, frameSize, e.inSeq + 1)
    ensures AfterWriteCommand(e, lba, length) == (asked, Ok)
    ensures Run(asked, chunks) == (done, Ok)
    ensures Synced(done) && WriteDone(e.target, asked.target, done.target, lba, length, data)
  {
    hide Feed, Run, ScsiWrite, Arrive, Mock.Cut, Mock.Read;
    WriteCommand(e, lba, length);
    AdvanceSmall(e.inSeq);
    WriteAsks(e.target, lba, length);
    asked := Framer([], e.inSeq + 1, false, ScsiWrite(e.target, DEVICE_FLOPPY, lba, length));
    done := PayloadStored(asked, data, frameSize, chunks);
    Mock.CutWhole(data, frameSize);
    SeqnoAfter(e.target, asked.target);
    WriteIsHeard(e.target, asked.target, lba, length, data, Mock.Cut(data, frameSize));
  }

  // --- Which media are safe from the wire ---

  /** Another 512 bytes than the file begins with. */
  function Different(file: seq<byte>): (data: seq<byte>)
    ensures |data| == 512 && WriteAt(file, 0, data) != file
  {
    var first: byte := if |file| > 0 && file[0] == 0 then 1 else 0;
    var data: seq<byte> := [first] + Zeros(511);
    assert WriteAt(file, 0, data)[0] == first;
    data
  }

  /** One sector written through the floppy slot changes the file both slots share. */
  lemma AliasedFileChanges(e: Engine, file: FileId) returns (chunks: seq<seq<byte>>)
    requires Synced(e) && MayChange(e.target.media, file) && e.target.media.floppy.value.size >= 512
    requires e.inSeq + 2 < TWO32 && e.target.out.seqno + 2 < TWO32
    ensures file in e.target.media.files
    ensures Run(e, chunks).1 == Ok && Run(e, chunks).0.target.media.files.Keys == e.target.media.files.Keys
    ensures Run(e, chunks).0.target.media.files[file] != e.target.media.files[file]
  {
    var data := Different(e.target.media.files[file]);
    var payload := Concat(Mock.DataFrames(Mock.Cut(data, 512), e.inSeq + 1));
    ConcatOne(payload);
    hide Run, RunWith, FeedWith, Mock.DataFrames, CommandFrame, Different, Mock.Read;
    var asked, done := EndToEndWrite(e, 0, 1, data, 512, [payload]);
    var command := CommandFrame(e.inSeq, Cdb10(0x2A, 0, 1), DEVICE_FLOPPY, 0);
    RunCons(Dispatch, e, command, [payload]);
    chunks := [command] + [payload];
    RunIs(e, chunks);
    RunIs(asked, [payload]);
  }

  lemma RunIs(e: Engine, chunks: seq<seq<byte>>)
    ensures Run(e, chunks) == RunWith(Dispatch, e, chunks)
  {
  }

  /**
    A file behind the CD slot (or any other file) is beyond the reach of every
    inbound stream exactly when it is not also the file of a writable floppy, or
    that floppy was empty when it was opened.
    */
  lemma ImmutableIff(e: Engine, file: FileId)
    requires Synced(e) && file in e.target.media.files
    requires e.inSeq + 2 < TWO32 && e.target.out.seqno + 2 < TWO32
    ensures (forall chunks :: var m := Run(e, chunks).0.target.media;
               file in m.files && m.files[file] == e.target.media.files[file])
        <==> !(MayChange(e.target.media, file) && e.target.media.floppy.value.size > 0)
  {
    hide Run;
    if MayChange(e.target.media, file) && e.target.media.floppy.value.size > 0 {
      var chunks := AliasedFileChanges(e, file);
    } else {
      forall chunks ensures var m := Run(e, chunks).0.target.media;
                            file in m.files && m.files[file] == e.target.media.files[file] {
        RunQuiet(e, chunks);
        assert FileKept(e.target.media, Run(e, chunks).0.target.media, file);
      }
    }
  }
}

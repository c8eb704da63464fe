// The opening of a session as the mock conducts it: from a fresh engine to one
// that serves reads and writes.
module IderOpening {
  import opened Wrappers
  import opened Bytes
  import opened Framing
  import opened IderFrames
  import opened IderTarget
  import opened IderInvariants
  import opened IderSession
  import opened MockCodec
  import Mock = MockServer
  import opened IderReads
  import opened IderComposition

  const RX_TIMEOUT := 30000
  const TX_TIMEOUT := 0
  const HEARTBEAT := 20000

  /** A fresh engine with its images attached, after `start`. */
  function Started(startMode: nat, tables: Tables, floppy: Option<Image>, cdrom: Option<Image>, files: map<FileId, seq<byte>>): Engine {
    var e := Initial(startMode, tables, floppy, cdrom, files);
    e.(target := IderTarget.Start(e.target, RX_TIMEOUT, TX_TIMEOUT, HEARTBEAT))
  }

  /** How the mock is set up; without a verdict it never answers the toggle. */
  datatype Setup = Setup(readbfr: nat, writebfr: nat, proto: byte, verdict: Option<nat>)

  predicate Encodable(setup: Setup) {
    setup.readbfr < 65536 && setup.writebfr < 65536 && (setup.verdict.Some? ==> setup.verdict.value < TWO32)
  }

  function ReplyFrame(setup: Setup): seq<byte>
    requires Encodable(setup)
  {
    Mock.WireFrame(0x41, 0, EncodeOpenSessionReply(setup.readbfr, setup.writebfr, setup.proto))
  }

  function VerdictFrame(setup: Setup): seq<byte>
    requires Encodable(setup) && setup.verdict.Some?
  {
    Mock.WireFrame(0x49, 1, EncodeStatusData(3, setup.verdict.value))
  }

  /** Everything the mock sends until it waits for commands. */
  function MockOpening(setup: Setup): seq<byte>
    requires Encodable(setup)
  {
    ReplyFrame(setup) + if setup.verdict.Some? then VerdictFrame(setup) else []
  }

  /** The settings the engine accepts. */
  predicate Acceptable(setup: Setup) {
    setup.proto == 0 && setup.readbfr <= MAX_READ_WRITE_BUFFER && setup.writebfr <= MAX_READ_WRITE_BUFFER
  }

  // --- The two frames ---

  lemma ReplyIsMessage(setup: Setup)
    requires Encodable(setup)
    ensures var m := ReplyFrame(setup);
            && IsMessage(m, 0) && m[0] == CMD_OPEN_SESSION_REPLY && |m| == 30
            && ParseInfo(m).readbfr == setup.readbfr && ParseInfo(m).writebfr == setup.writebfr && ParseInfo(m).proto == setup.proto
  {
    hide LE, FromLE;
    var m := ReplyFrame(setup);
    LE32(0);
    LE16(setup.readbfr);
    LE16(setup.writebfr);
    assert m[4..8] == LE(0, 4);
    assert m[16..18] == LE(setup.readbfr, 2);
    assert m[18..20] == LE(setup.writebfr, 2);
    assert m[21] == setup.proto && m[29] == 0;
  }

  lemma VerdictIsMessage(setup: Setup)
    requires Encodable(setup) && setup.verdict.Some?
    ensures var m := VerdictFrame(setup);
            && IsMessage(m, 1) && m[0] == CMD_STATUS_DATA && |m| == 13
            && m[8] == 3 && FromLE(m[9..13]) == setup.verdict.value
  {
    hide LE, FromLE;
    var m := VerdictFrame(setup);
    LE32(1);
    LE32(setup.verdict.value);
    assert m[4..8] == LE(1, 4);
    assert m[9..13] == LE(setup.verdict.value, 4);
  }

  lemma ReplyDispatched(t: Target, setup: Setup)
    requires Encodable(setup)
    ensures Dispatch(t, ReplyFrame(setup)) == OnOpenSessionReply(t, ReplyFrame(setup))
  {
    hide ReplyFrame, OnOpenSessionReply;
    ReplyIsMessage(setup);
  }

  lemma VerdictDispatched(t: Target, setup: Setup)
    requires Encodable(setup) && setup.verdict.Some?
    ensures Dispatch(t, VerdictFrame(setup))
         == (t.(session := t.session.(toggleOk := Some(setup.verdict.value == 1))), Continue)
  {
    hide VerdictFrame, FromLE;
    VerdictIsMessage(setup);
  }

  // --- The opening ---

  /** The session is open as the mock was set up, nothing else has moved, and the two requests are on the wire. */
  ghost predicate Opened(start: Engine, e: Engine, setup: Setup) {
    var s := e.target.session;
    && Synced(e) && e.inSeq == (if setup.verdict.Some? then 2 else 1)
    && s.isOpen && s.info.readbfr == setup.readbfr && s.info.writebfr == setup.writebfr
    && s.toggleOk == (if setup.verdict.Some? then Some(setup.verdict.value == 1) else None)
    && e.target.media == start.target.media
    && e.target.out.seqno == 2 && |e.target.out.sent| == 2
    && AsExpected(e.target.out.sent[0], 0x40, 0, 10) && AsExpected(e.target.out.sent[1], 0x48, 1, 5)
  }

  /** The frame the mock's handshake waits for: command, sequence number and payload length. */
  predicate AsExpected(frame: seq<byte>, cmd: byte, seqno: nat, payload: nat) {
    |frame| == 8 + payload && frame[0] == cmd && FromLE(frame[4..8]) == seqno
  }

  lemma SentAsExpected(o: Out, cmd: byte, payload: seq<byte>)
    requires o.seqno < TWO32
    ensures AsExpected(Header(cmd, o.seqno, false, false) + payload, cmd, o.seqno, |payload|)
  {
    hide LE, FromLE;
    var frame := Header(cmd, o.seqno, false, false) + payload;
    LE32(o.seqno);
    assert frame[4..8] == LE(o.seqno, 4);
  }

  /** The state once the reply has been accepted. */
  function AfterReply(t: Target, setup: Setup): Target
    requires Encodable(setup)
  {
    SendFeatures(t.(session := t.session.(info := ParseInfo(ReplyFrame(setup)), isOpen := true)))
  }

  lemma ReplyFed(e: Engine, setup: Setup, rest: seq<byte>)
    requires Encodable(setup) && !e.stopped && e.buf == [] && e.inSeq == 0
    ensures FeedWith(Dispatch, e, ReplyFrame(setup) + rest) ==
            if Acceptable(setup) then FeedWith(Dispatch, Framer([], 1, false, AfterReply(e.target, setup)), rest)
            else (Framer(rest, 1, true, e.target), Raised(BadOpenReply))
  {
    hide ReplyFrame, Dispatch, AfterReply;
    ReplyIsMessage(setup);
    ReplyDispatched(e.target, setup);
    var m := ReplyFrame(setup);
    ReplyOutcome(e.target, setup);
    if Acceptable(setup) {
      FeedMessage(Dispatch, e, m, rest);
    } else {
      assert e.buf + (m + rest) == m + rest;
      PeekStable(m, rest);
      assert (m + rest)[..|m|] == m && (m + rest)[|m|..] == rest;
      assert (m + rest)[4..8] == m[4..8];
    }
  }

  lemma ReplyOutcome(t: Target, setup: Setup)
    requires Encodable(setup)
    ensures OnOpenSessionReply(t, ReplyFrame(setup))
         == if Acceptable(setup) then (AfterReply(t, setup), Continue) else (t, Raise(BadOpenReply, true))
  {
    hide ReplyFrame;
    ReplyIsMessage(setup);
  }

  lemma StartedSends(startMode: nat, tables: Tables, floppy: Option<Image>, cdrom: Option<Image>, files: map<FileId, seq<byte>>)
    requires SlotOk(floppy, DEVICE_FLOPPY, files) && SlotOk(cdrom, DEVICE_CDROM, files)
    ensures var e := Started(startMode, tables, floppy, cdrom, files);
            && Quiet(e.target) && !e.stopped && e.buf == [] && e.inSeq == 0 && e.target.reentry == []
            && e.target.out.seqno == 1 && |e.target.out.sent| == 1 && AsExpected(e.target.out.sent[0], 0x40, 0, 10)
            && e.target.session.toggleOk == None && !e.target.session.isOpen && e.target.session.startMode == startMode
  {
    hide AsExpected;
    var begin := Initial(startMode, tables, floppy, cdrom, files);
    FreshQuiet(startMode, tables, floppy, cdrom, files);
    var payload := LE(RX_TIMEOUT, 2) + LE(TX_TIMEOUT, 2) + LE(HEARTBEAT, 2) + LE(1, 4);
    SendStep(begin.target, CMD_OPEN_SESSION, payload, false, false);
    SentAsExpected(begin.target.out, CMD_OPEN_SESSION, payload);
  }

  /** The reply has been accepted: the invariant again, and the toggle request as the mock expects it. */
  lemma FeaturesSent(t: Target, setup: Setup)
    requires Encodable(setup) && Acceptable(setup) && Quiet(t) && t.out.seqno == 1 && |t.out.sent| == 1
    ensures var u := AfterReply(t, setup);
            && Quiet(u) && u.media == t.media && u.reentry == t.reentry && u.out.seqno == 2
            && u.out.sent == t.out.sent + [u.out.sent[1]] && AsExpected(u.out.sent[1], 0x48, 1, 5)
            && u.session == t.session.(info := ParseInfo(ReplyFrame(setup)), isOpen := true)
  {
    hide ReplyFrame, AsExpected, Quiet;
    ReplyIsMessage(setup);
    var session := t.session.(info := ParseInfo(ReplyFrame(setup)), isOpen := true);
    SessionStep(t, session);
    SentAsExpected(t.out, CMD_DISABLE_ENABLE_FEATURES, [3] + LE(session.startMode, 4));
  }

  /**
    The mock's opening in any chunks: an engine that accepts its settings ends
    in an open session that is ready for commands, with the mock's verdict; any
    other tears the session down. Accepted are exactly protocol 0 and buffers
    of at most 8192 bytes.
    */
  lemma Opening(startMode: nat, tables: Tables, floppy: Option<Image>, cdrom: Option<Image>, files: map<FileId, seq<byte>>,
                setup: Setup, chunks: seq<seq<byte>>)
    requires SlotOk(floppy, DEVICE_FLOPPY, files) && SlotOk(cdrom, DEVICE_CDROM, files)
    requires Encodable(setup) && Concat(chunks) == MockOpening(setup)
    ensures var start := Started(startMode, tables, floppy, cdrom, files);
            var (e, o) := Run(start, chunks);
            if Acceptable(setup) then o == Ok && Opened(start, e, setup)
            else o == Raised(BadOpenReply) && e.stopped && e.target == start.target
  {
    hide ReplyFrame, VerdictFrame, AfterReply, Dispatch, RunWith, Quiet, AsExpected, Started;
    var start := Started(startMode, tables, floppy, cdrom, files);
    StartedSends(startMode, tables, floppy, cdrom, files);
    var rest := if setup.verdict.Some? then VerdictFrame(setup) else [];
    Segmentation(Dispatch, start, chunks);
    ReplyFed(start, setup, rest);
    if Acceptable(setup) {
      FeaturesSent(start.target, setup);
      ReplyIsMessage(setup);
      var f := Framer([], 1, false, AfterReply(start.target, setup));
      VerdictFed(f, setup);
    }
  }

  lemma VerdictFed(f: Engine, setup: Setup)
    requires Encodable(setup) && !f.stopped && f.buf == [] && f.inSeq == 1 && Quiet(f.target)
    ensures var rest := if setup.verdict.Some? then VerdictFrame(setup) else [];
            var (e, o) := FeedWith(Dispatch, f, rest);
            && o == Ok && !e.stopped && e.buf == [] && e.inSeq == (if setup.verdict.Some? then 2 else 1) && Quiet(e.target)
            && e.target == f.target.(session := if setup.verdict.Some?
                                                then f.target.session.(toggleOk := Some(setup.verdict.value == 1))
                                                else f.target.session)
  {
    hide VerdictFrame, Dispatch, FeedWith;
    Mock.FeedNothing(Dispatch, f);
    if setup.verdict.Some? {
      var m := VerdictFrame(setup);
      VerdictIsMessage(setup);
      VerdictDispatched(f.target, setup);
      FeedMessage(Dispatch, f, m, []);
      assert m + [] == m;
      var session := f.target.session.(toggleOk := Some(setup.verdict.value == 1));
      SessionStep(f.target, session);
      Mock.FeedNothing(Dispatch, Framer([], 2, false, f.target.(session := session)));
    }
  }

  /** A READ_10 issued now is handled, and heard as it should be. */
  ghost predicate Serves(e: Engine, device: byte, lba: nat, length: nat)
    requires lba < TWO32 && length < 65536
  {
    && Synced(e) && Slot(e.target.media, device).Some?
    && var r := AfterRead(e, device, lba, length, 0);
       r.1 == Ok && ReadHeard(e.target, r.0.target, device, lba, length)
  }

  /** From a fresh engine, through the mock's opening, to the first READ: no assumption on the session is left. */
  lemma FirstRead(startMode: nat, tables: Tables, floppy: Option<Image>, cdrom: Option<Image>, files: map<FileId, seq<byte>>,
                  setup: Setup, chunks: seq<seq<byte>>, device: byte, lba: nat, length: nat)
    requires SlotOk(floppy, DEVICE_FLOPPY, files) && SlotOk(cdrom, DEVICE_CDROM, files)
    requires Encodable(setup) && Acceptable(setup) && Concat(chunks) == MockOpening(setup)
    requires device in {DEVICE_FLOPPY, DEVICE_CDROM} && Slot(Media(floppy, cdrom, files), device).Some?
    requires 0 < length < 65536 && lba < TWO32 && lba + length <= Slot(Media(floppy, cdrom, files), device).value.Blocks()
    requires Framable(setup.readbfr, Available(Media(floppy, cdrom, files), device, lba, length))
    ensures Serves(Run(Started(startMode, tables, floppy, cdrom, files), chunks).0, device, lba, length)
  {
    hide Run, Started, AfterRead, ReadHeard, Quiet, MockOpening;
    Opening(startMode, tables, floppy, cdrom, files, setup, chunks);
    StartedMedia(startMode, tables, floppy, cdrom, files);
    var e := Run(Started(startMode, tables, floppy, cdrom, files), chunks).0;
    EndToEndRead(e, device, lba, length, 0);
  }

  lemma StartedMedia(startMode: nat, tables: Tables, floppy: Option<Image>, cdrom: Option<Image>, files: map<FileId, seq<byte>>)
    ensures Started(startMode, tables, floppy, cdrom, files).target.media == Media(floppy, cdrom, files)
  {
  }
}

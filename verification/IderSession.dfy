// Whole sessions: what holds after any bytes at all, in any chunks.
module IderSession {
  import opened Wrappers
  import opened Bytes
  import opened Framing
  import opened IderFrames
  import opened IderTarget
  import opened IderInvariants

  lemma QuietTransitive(t: Target, u: Target, v: Target)
    requires QuietStep(t, u) && QuietStep(u, v)
    ensures QuietStep(t, v)
  {
    MediaKeptTransitive(t.media, u.media, v.media);
  }

  /** The write path's internal guards are not among the ways a session can end. */
  predicate SafeOutcome(o: Outcome) {
    o != Raised(WriteGuard)
  }

  lemma {:induction false} DrainQuiet(e: Engine)
    requires Quiet(e.target)
    ensures QuietStep(e.target, Drain(Dispatch, e).0.target)
    ensures SafeOutcome(Drain(Dispatch, e).1)
    decreases |e.buf|
  {
    match Next(e.buf, e.inSeq)
    case Wait =>
    case Refuse(_) =>
    case TakeNext(n) =>
      DispatchStep(e.target, e.buf[..n]);
      var (g, verdict) := Take(Dispatch, e, n);
      if verdict.Continue? {
        DrainQuiet(g);
        QuietTransitive(e.target, g.target, Drain(Dispatch, g).0.target);
      }
  }

  /** Any bytes at all: numbering, media and idleness are kept, and no guard of MediaImage.write fires. */
  lemma FeedQuiet(e: Engine, data: seq<byte>)
    requires Quiet(e.target)
    ensures QuietStep(e.target, Feed(e, data).0.target) && SafeOutcome(Feed(e, data).1)
  {
    DrainQuiet(e.(buf := e.buf + data));
  }

  lemma {:induction false} RunQuiet(e: Engine, chunks: seq<seq<byte>>)
    requires Quiet(e.target)
    ensures QuietStep(e.target, Run(e, chunks).0.target) && SafeOutcome(Run(e, chunks).1)
    decreases |chunks|
  {
    if chunks != [] && !e.stopped {
      FeedQuiet(e, chunks[0]);
      var g := Feed(e, chunks[0]).0;
      if Feed(e, chunks[0]).1.Ok? {
        RunQuiet(g, chunks[1..]);
        QuietTransitive(e.target, g.target, Run(e, chunks).0.target);
      }
    }
  }

  lemma FreshQuiet(startMode: nat, tables: Tables, floppy: Option<Image>, cdrom: Option<Image>, files: map<FileId, seq<byte>>)
    requires SlotOk(floppy, DEVICE_FLOPPY, files) && SlotOk(cdrom, DEVICE_CDROM, files)
    ensures Quiet(Initial(startMode, tables, floppy, cdrom, files).target)
  {
  }

  /** From start to whatever end: consecutive frames, and every file but the writable floppy's as it was. */
  lemma WholeSession(startMode: nat, tables: Tables, floppy: Option<Image>, cdrom: Option<Image>, files: map<FileId, seq<byte>>,
                     chunks: seq<seq<byte>>)
    requires SlotOk(floppy, DEVICE_FLOPPY, files) && SlotOk(cdrom, DEVICE_CDROM, files)
    ensures var begin := Initial(startMode, tables, floppy, cdrom, files);
            var end := Run(begin.(target := Start(begin.target, 30000, 0, 20000)), chunks).0.target;
            && Numbered(end.out) && end.pump == IDLE && PendingOk(end.media, end.pending)
            && end.media.files.Keys == files.Keys
            && (forall file :: file in files && !MayChange(begin.target.media, file) ==> end.media.files[file] == files[file])
            && (floppy.Some? && |files[floppy.value.file]| == floppy.value.size ==>
                  |end.media.files[floppy.value.file]| == floppy.value.size)
  {
    var begin := Initial(startMode, tables, floppy, cdrom, files);
    var started := Start(begin.target, 30000, 0, 20000);
    FreshQuiet(startMode, tables, floppy, cdrom, files);
    SendStep(begin.target, CMD_OPEN_SESSION, LE(30000, 2) + LE(0, 2) + LE(20000, 2) + LE(1, 4), false, false);
    RunQuiet(begin.(target := started), chunks);
    var end := Run(begin.(target := started), chunks).0.target;
    assert Kept(started, end) && started.media == begin.target.media;
    forall file | file in files ensures FileKept(begin.target.media, end.media, file) {}
  }

  // --- The feature toggle: what the attach gate looks at ---

  /** A REGS_TOGGLE verdict. */
  predicate IsToggle(m: seq<byte>) {
    WellFormed(m) && m[0] == CMD_STATUS_DATA && m[8] == 3
  }

  predicate ToggleAccepts(m: seq<byte>)
    requires IsToggle(m)
  {
    FromLE(m[9..13]) == 1
  }

  predicate OpensSession(m: seq<byte>) {
    WellFormed(m) && m[0] == CMD_OPEN_SESSION_REPLY && InfoAccepted(ParseInfo(m))
  }

  /** The messages a drain hands over, in order. */
  function Handed<T>(h: Handler<T>, f: Framer<T>): seq<seq<byte>>
    decreases |f.buf|
  {
    match Next(f.buf, f.inSeq)
    case Wait => []
    case Refuse(_) => []
    case TakeNext(n) =>
      var (g, verdict) := Take(h, f, n);
      [f.buf[..n]] + if verdict.Continue? then Handed(h, g) else []
  }

  function FeedHanded(e: Engine, data: seq<byte>): seq<seq<byte>> {
    if e.stopped then [] else Handed(Dispatch, e.(buf := e.buf + data))
  }

  /** The verdict of the last REGS_TOGGLE, starting from `sofar`. */
  function LatestToggle(sofar: Option<bool>, messages: seq<seq<byte>>): Option<bool>
    decreases |messages|
  {
    if messages == [] then sofar
    else LatestToggle(if IsToggle(messages[0]) then Some(ToggleAccepts(messages[0])) else sofar, messages[1..])
  }

  predicate AnyOpens(sofar: bool, messages: seq<seq<byte>>) {
    sofar || exists i :: 0 <= i < |messages| && OpensSession(messages[i])
  }

  lemma ToggleOne(t: Target, m: seq<byte>)
    ensures Dispatch(t, m).0.session.toggleOk == LatestToggle(t.session.toggleOk, [m])
    ensures Dispatch(t, m).0.session.isOpen == AnyOpens(t.session.isOpen, [m])
  {
    assert [m][1..] == [];
    assert [m][0] == m;
  }

  lemma {:induction false} DrainTracks(e: Engine)
    ensures var end := Drain(Dispatch, e).0.target.session;
            && end.toggleOk == LatestToggle(e.target.session.toggleOk, Handed(Dispatch, e))
            && end.isOpen == AnyOpens(e.target.session.isOpen, Handed(Dispatch, e))
    decreases |e.buf|
  {
    match Next(e.buf, e.inSeq)
    case Wait =>
    case Refuse(_) =>
    case TakeNext(n) =>
      var m := e.buf[..n];
      var (g, verdict) := Take(Dispatch, e, n);
      var rest := if verdict.Continue? then Handed(Dispatch, g) else [];
      ToggleOne(e.target, m);
      assert Handed(Dispatch, e) == [m] + rest;
      assert ([m] + rest)[0] == m && ([m] + rest)[1..] == rest;
      if verdict.Continue? {
        DrainTracks(g);
      }
      assert AnyOpens(e.target.session.isOpen, [m] + rest) == AnyOpens(g.target.session.isOpen, rest) by {
        assert forall i :: 0 < i < |[m] + rest| ==> ([m] + rest)[i] == rest[i - 1];
        assert forall i :: 0 <= i < |rest| ==> rest[i] == ([m] + rest)[i + 1];
      }
  }

  /** After any feed the toggle verdict is firmware's latest one, and the session is open iff an acceptable reply arrived. */
  lemma FeedTracks(e: Engine, data: seq<byte>)
    ensures var end := Feed(e, data).0.target.session;
            && end.toggleOk == LatestToggle(e.target.session.toggleOk, FeedHanded(e, data))
            && end.isOpen == AnyOpens(e.target.session.isOpen, FeedHanded(e, data))
  {
    if !e.stopped {
      DrainTracks(e.(buf := e.buf + data));
    }
  }
}

// An attach that succeeds: the run in which the daemon meets the mock firmware
// and the attaching process reports a change.
module AttachRun {
  import opened Wrappers
  import opened Bytes
  import opened Framing
  import IderTarget
  import IderInvariants
  import Opening = IderOpening
  import opened MediaSession
  import opened StateFile
  import opened AttachSafety

  /** A temporary file is made, filled and moved over the path. */
  lemma Persisted(start: System, events: seq<Event>, s: System) returns (longer: seq<Event>, t: System)
    requires s == MediaSession.Run(start, events) && s.daemon.CreateTemp?
    ensures t == MediaSession.Run(start, longer)
    ensures t == s.(daemon := Resume(s.daemon.next), fs := t.fs, written := s.written + [Write(Record(s.pid, s.state), s.handed)])
    ensures t.fs.link.Some? && Parse(t.fs, t.fs.link.value) == Some(Record(s.pid, s.state))
  {
    hide MediaSession.Run, Gate, ConnectNext, ReceiveNext, AttachNext;
    longer, t := Extend(start, events, s, DaemonStep(GO));
    longer, t := Extend(start, longer, t, DaemonStep(GO));
    longer, t := Extend(start, longer, t, DaemonStep(GO));
  }

  /** The daemon has connected and waits for bytes; the attaching process polls. */
  lemma Connected(pid: nat, prepared: IderTarget.Engine) returns (events: seq<Event>, s: System)
    requires Unheard(prepared) && !prepared.stopped
    ensures s == MediaSession.Run(Start(None, pid, false, prepared), events)
    ensures s.attach == PollOpen && s.daemon == Receive && s.engine == Some(prepared) && s.pid == pid && !s.stopFlag && s.written != []
  {
    hide MediaSession.Run, Start, PersistNext, ReceiveNext, FeedEngine, ReaderNext, Parse, AttachNext;
    var start := Start(None, pid, false, prepared);
    events, s := Opened(pid, prepared);
    events, s := Extend(start, events, s, DaemonStep(GO));
    events, s := Extend(start, events, s, DaemonStep(GO));
    events, s := Persisted(start, events, s);
  }

  /** The daemon has opened its images and is about to connect. */
  lemma Opened(pid: nat, prepared: IderTarget.Engine) returns (events: seq<Event>, s: System)
    ensures s == MediaSession.Run(Start(None, pid, false, prepared), events)
    ensures s.attach == PollOpen && s.daemon == Connect && s.state == Connecting && s.prepared == prepared && s.engine == None
    ensures s.pid == pid && !s.stopFlag && s.written != []
  {
    hide MediaSession.Run, Start, PersistNext, ReceiveNext, ConnectNext, Gate, FeedEngine, ReaderNext, Parse;
    var start := Start(None, pid, false, prepared);
    events, s := FallbackCreated(pid, prepared);
    events, s := Extend(start, events, s, AttachStep(GO));
    events, s := Persisted(start, events, s);
    events, s := Extend(start, events, s, DaemonStep(GO));
    events, s := Persisted(start, events, s);
  }

  /** The next bytes open the session with the toggle accepted: attached is written, read, and reported. */
  lemma AttachedAfter(pid: nat, prepared: IderTarget.Engine, bytes: seq<byte>) returns (events: seq<Event>)
    requires Unheard(prepared) && !prepared.stopped && bytes != []
    requires var (e, o) := IderTarget.Feed(prepared, bytes);
             o == Ok && !e.stopped && e.target.session.isOpen && e.target.session.toggleOk == Some(true)
    ensures var s := MediaSession.Run(Start(None, pid, false, prepared), events);
            s.attach == Done(Changed(Record(pid, Attached)))
  {
    hide MediaSession.Run, Start, PersistNext, ConnectNext, ReaderNext, IderTarget.Feed;
    var start := Start(None, pid, false, prepared);
    var s: System;
    events, s := Connected(pid, prepared);
    events, s := Extend(start, events, s, DaemonStep(GO.(received := Chunk(bytes))));
    events, s := Extend(start, events, s, DaemonStep(GO));
    events, s := Persisted(start, events, s);
    events := Reported(start, events, s);
  }

  /** The path holds attached, and the poll that finds it concludes. */
  lemma Reported(start: System, before: seq<Event>, s0: System) returns (events: seq<Event>)
    requires s0 == MediaSession.Run(start, before) && s0.attach == PollOpen && s0.written != []
    requires s0.fs.link.Some? && Parse(s0.fs, s0.fs.link.value) == Some(Record(s0.pid, Attached))
    ensures MediaSession.Run(start, events).attach == Done(Changed(Record(s0.pid, Attached)))
  {
    hide MediaSession.Run, DaemonNext, ReaderNext;
    var s := s0;
    events := before;
    events, s := Extend(start, events, s, AttachStep(GO));
    events, s := Extend(start, events, s, AttachStep(GO));
    events, s := Extend(start, events, s, AttachStep(GO));
  }

  /** Against a mock whose settings are acceptable and whose verdict is acceptance there is a run that reports success. */
  lemma MockIsAttached(pid: nat, startMode: nat, tables: IderTarget.Tables, floppy: Option<IderTarget.Image>, cdrom: Option<IderTarget.Image>,
                       files: map<IderTarget.FileId, seq<byte>>, setup: Opening.Setup) returns (events: seq<Event>)
    requires IderInvariants.SlotOk(floppy, 0xA0, files) && IderInvariants.SlotOk(cdrom, 0xB0, files)
    requires Opening.Encodable(setup) && Opening.Acceptable(setup) && setup.verdict == Some(1)
    ensures var prepared := Opening.Started(startMode, tables, floppy, cdrom, files);
            MediaSession.Run(Start(None, pid, false, prepared), events).attach == Done(Changed(Record(pid, Attached)))
  {
    hide MediaSession.Run, Start, Opening.Started, IderTarget.Run, RunWith, IderInvariants.Quiet;
    var prepared := Opening.Started(startMode, tables, floppy, cdrom, files);
    var bytes := Opening.MockOpening(setup);
    ConcatOne(bytes);
    Opening.StartedSends(startMode, tables, floppy, cdrom, files);
    Opening.Opening(startMode, tables, floppy, cdrom, files, setup, [bytes]);
    OneChunk(prepared, bytes);
    events := AttachedAfter(pid, prepared, bytes);
  }

  lemma OneChunk(e: IderTarget.Engine, bytes: seq<byte>)
    requires !e.stopped
    ensures IderTarget.Run(e, [bytes]) == IderTarget.Feed(e, bytes)
  {
    hide Drain;
    assert [bytes][0] == bytes && [bytes][1..] == [];
    var r := FeedWith(IderTarget.Dispatch, e, bytes);
    assert RunWith(IderTarget.Dispatch, r.0, []) == (r.0, Ok);
  }
}

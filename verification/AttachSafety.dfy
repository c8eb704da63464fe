// Safety of the detached session over every interleaving: what the state file
// can hold, what a poller can see, and when an attach may report success.
module AttachSafety {
  import opened Wrappers
  import opened Bytes
  import opened MediaSession
  import opened StateFile
  import IderTarget
  import IderSession

  /** Firmware opened the session and its latest toggle verdict is acceptance. */
  predicate Accepted(handed: seq<seq<byte>>) {
    IderSession.LatestToggle(None, handed) == Some(true) && IderSession.AnyOpens(false, handed)
  }

  /** The engine's session flags are what the messages it handled make them. */
  predicate Tracks(engine: IderTarget.Engine, handed: seq<seq<byte>>) {
    && engine.target.session.toggleOk == IderSession.LatestToggle(None, handed)
    && engine.target.session.isOpen == IderSession.AnyOpens(false, handed)
  }

  // --- The daemon on its own ---

  function LatestRank(written: seq<Write>): nat {
    if written == [] then 0 else Rank(written[|written| - 1].record.state)
  }

  /** Records only ever move forward, and nothing follows a terminal one. */
  ghost predicate Orderly(written: seq<Write>) {
    && (forall i, j :: 0 <= i <= j < |written| ==> Rank(written[i].record.state) <= Rank(written[j].record.state))
    && (forall i :: 0 <= i < |written| - 1 ==> !Terminal(written[i].record.state))
  }

  predicate WriteOk(w: Write, pid: nat) {
    w.record.pid == pid && (w.record.state == Attached ==> Accepted(w.handed))
  }

  /** A record for `state` is on its way to the file, and control goes on where such a record leads. */
  predicate PersistOk(s: System, next: Continuation) {
    && LatestRank(s.written) <= Rank(s.state)
    && (s.state == Starting <==> next == ToImages)
    && (Terminal(s.state) <==> next == ToExit)
    && (next == ToConnect ==> s.state == Connecting)
    && (next in {ToImages, ToConnect} ==> s.engine == None)
    && (next == ToReceive ==> s.engine.Some?)
    && (s.state == Attached ==> Accepted(s.handed))
  }

  predicate StillAlive(s: System) {
    s.written != [] ==> !Terminal(s.written[|s.written| - 1].record.state)
  }

  predicate ControlOk(s: System) {
    match s.daemon
    case Unborn => s.written == [] && s.engine == None && s.handed == []
    case CreateTemp(next) => StillAlive(s) && PersistOk(s, next)
    case WriteTemp(_, next) => StillAlive(s) && PersistOk(s, next)
    case Replace(_, next) => StillAlive(s) && PersistOk(s, next)
    case OpenImages => StillAlive(s) && s.state == Starting && s.engine == None && LatestRank(s.written) <= 0
    case Connect => StillAlive(s) && s.state == Connecting && s.engine == None && LatestRank(s.written) <= 1
    case LoopTop => StillAlive(s) && s.state in {Connecting, Attached} && s.engine.Some? && LatestRank(s.written) <= Rank(s.state)
    case Receive => StillAlive(s) && s.state in {Connecting, Attached} && s.engine.Some? && LatestRank(s.written) <= Rank(s.state)
    case Exited => s.written != [] && Terminal(s.written[|s.written| - 1].record.state)
    case Killed => true
  }

  /** An attached session stays open; a refusal arriving later is met at the top of the loop. */
  predicate EngineOk(s: System) {
    && Tracks(s.prepared, [])
    && (s.engine.None? ==> s.handed == [])
    && (s.engine.Some? ==> Tracks(s.engine.value, s.handed))
    && (s.state == Attached && s.engine.Some? ==> s.engine.value.target.session.isOpen && s.engine.value.target.session.toggleOk.Some?)
  }

  ghost predicate DaemonOk(s: System) {
    && ControlOk(s) && EngineOk(s) && Orderly(s.written)
    && forall i :: 0 <= i < |s.written| ==> WriteOk(s.written[i], s.pid)
  }

  lemma {:induction false} LatestAppend(sofar: Option<bool>, a: seq<seq<byte>>, b: seq<seq<byte>>)
    ensures IderSession.LatestToggle(sofar, a + b) == IderSession.LatestToggle(IderSession.LatestToggle(sofar, a), b)
    ensures sofar.Some? ==> IderSession.LatestToggle(sofar, a).Some?
    decreases |a|
  {
    if a == [] {
      assert a + b == b;
    } else {
      assert (a + b)[0] == a[0] && (a + b)[1..] == a[1..] + b;
      LatestAppend(if IderSession.IsToggle(a[0]) then Some(IderSession.ToggleAccepts(a[0])) else sofar, a[1..], b);
    }
  }

  lemma OpensAppend(sofar: bool, a: seq<seq<byte>>, b: seq<seq<byte>>)
    ensures IderSession.AnyOpens(sofar, a + b) == IderSession.AnyOpens(IderSession.AnyOpens(sofar, a), b)
  {
    forall i | 0 <= i < |a + b| ensures (a + b)[i] == if i < |a| then a[i] else b[i - |a|] {}
    if exists i :: 0 <= i < |b| && IderSession.OpensSession(b[i]) {
      var i :| 0 <= i < |b| && IderSession.OpensSession(b[i]);
      assert (a + b)[|a| + i] == b[i];
    }
    if exists i :: 0 <= i < |a| && IderSession.OpensSession(a[i]) {
      var i :| 0 <= i < |a| && IderSession.OpensSession(a[i]);
      assert (a + b)[i] == a[i];
    }
  }

  lemma FeedKeepsTrack(engine: IderTarget.Engine, handed: seq<seq<byte>>, data: seq<byte>)
    requires Tracks(engine, handed)
    ensures var fed := IderTarget.Feed(engine, data).0;
            && Tracks(fed, handed + IderSession.FeedHanded(engine, data))
            && (engine.target.session.isOpen ==> fed.target.session.isOpen)
            && (engine.target.session.toggleOk.Some? ==> fed.target.session.toggleOk.Some?)
  {
    hide IderTarget.Feed, IderSession.FeedHanded, IderSession.OpensSession;
    var more := IderSession.FeedHanded(engine, data);
    IderSession.FeedTracks(engine, data);
    LatestAppend(None, handed, more);
    LatestAppend(engine.target.session.toggleOk, more, []);
    OpensAppend(false, handed, more);
  }

  lemma FeedEngineOk(s: System, engine: IderTarget.Engine, data: seq<byte>)
    requires DaemonOk(s) && s.daemon in {Connect, Receive}
    requires Tracks(engine, s.handed)
    requires s.state == Attached ==> engine.target.session.isOpen && engine.target.session.toggleOk.Some?
    ensures DaemonOk(FeedEngine(s, engine, data))
  {
    hide IderTarget.Feed, IderSession.FeedHanded, Accepted, Tracks, Orderly, WriteOk;
    FeedKeepsTrack(engine, s.handed, data);
  }

  lemma TrackedAccepts(engine: IderTarget.Engine, handed: seq<seq<byte>>)
    requires Tracks(engine, handed) && engine.target.session.isOpen && engine.target.session.toggleOk == Some(true)
    ensures Accepted(handed)
  {
  }

  lemma GateOk(s: System, deadline: bool)
    requires DaemonOk(s) && s.daemon == LoopTop
    ensures DaemonOk(Gate(s, s.engine.value, deadline))
  {
    hide Accepted, Tracks, Orderly, WriteOk;
    var session := s.engine.value.target.session;
    assert session.toggleOk.Some? ==> session.toggleOk == Some(true) || session.toggleOk == Some(false) by {
      if session.toggleOk.Some? && session.toggleOk.value {
        assert session.toggleOk == Some(true);
      } else if session.toggleOk.Some? {
        assert session.toggleOk == Some(false);
      }
    }
    if session.isOpen && session.toggleOk == Some(true) {
      TrackedAccepts(s.engine.value, s.handed);
    }
  }

  lemma AppendOrderly(written: seq<Write>, w: Write)
    requires Orderly(written) && LatestRank(written) <= Rank(w.record.state)
    requires written != [] ==> !Terminal(written[|written| - 1].record.state)
    ensures Orderly(written + [w])
  {
    var more := written + [w];
    forall i, j | 0 <= i <= j < |more| ensures Rank(more[i].record.state) <= Rank(more[j].record.state) {
      if i < |written| {
        assert Rank(written[i].record.state) <= LatestRank(written);
      }
    }
  }

  lemma PersistStepOk(s: System)
    requires DaemonOk(s) && (s.daemon.CreateTemp? || s.daemon.WriteTemp? || s.daemon.Replace?)
    ensures DaemonOk(PersistNext(s))
  {
    hide Accepted, Tracks, Orderly;
    if s.daemon.Replace? {
      var w := Write(Record(s.pid, s.state), s.handed);
      AppendOrderly(s.written, w);
      assert WriteOk(w, s.pid);
    }
  }

  lemma ConnectOk(s: System, c: Choice)
    requires DaemonOk(s) && s.daemon == Connect
    ensures DaemonOk(ConnectNext(s, c))
  {
    hide FeedEngine, Tracks, Accepted, Orderly, WriteOk;
    if c.ok && c.received.Chunk? && c.received.bytes != [] {
      FeedEngineOk(s, s.prepared, c.received.bytes);
    }
  }

  lemma ReceiveOk(s: System, c: Choice)
    requires DaemonOk(s) && s.daemon == Receive
    ensures DaemonOk(ReceiveNext(s, c))
  {
    hide FeedEngine, Tracks, Accepted, Orderly, WriteOk;
    if c.received.Chunk? && c.received.bytes != [] {
      FeedEngineOk(s, s.engine.value, c.received.bytes);
    }
  }

  lemma OpenOk(s: System)
    requires DaemonOk(s) && s.daemon == OpenImages
    ensures DaemonOk(Persist(s, Connecting, ToConnect)) && DaemonOk(Fail(s))
  {
    hide Tracks, Accepted, Orderly, WriteOk;
  }

  /** Everything the daemon does on its own keeps its records in order and the gate shut. */
  lemma DaemonStepOk(s: System, c: Choice)
    requires DaemonOk(s)
    ensures DaemonOk(DaemonNext(s, c))
  {
    hide Gate, PersistNext, ConnectNext, ReceiveNext, DaemonOk, Persist, Fail;
    match s.daemon
    case CreateTemp(_) => PersistStepOk(s);
    case WriteTemp(_, _) => PersistStepOk(s);
    case Replace(_, _) => PersistStepOk(s);
    case OpenImages => OpenOk(s);
    case Connect => ConnectOk(s, c);
    case LoopTop => LoopOk(s, c);
    case Receive => ReceiveOk(s, c);
    case Unborn =>
    case Exited =>
    case Killed =>
  }

  lemma LoopOk(s: System, c: Choice)
    requires DaemonOk(s) && s.daemon == LoopTop
    ensures s.engine.Some? && DaemonOk(Gate(s, s.engine.value, c.deadline))
  {
    hide Gate;
    GateOk(s, c.deadline);
  }

  // --- The state file ---

  ghost predicate InWritten(written: seq<Write>, r: Record) {
    exists i :: 0 <= i < |written| && written[i].record == r
  }

  /** The file the daemon is preparing, not yet at the path. */
  function Temp(s: System): Option<Inode> {
    match s.daemon
    case WriteTemp(fd, _) => Some(fd)
    case Replace(fd, _) => Some(fd)
    case _ => None
  }

  /** The inode the attaching process has created at the path and is still writing. */
  function Fallback(s: System): Option<Inode> {
    if s.attach.WriteFallback? then Some(s.attach.fd) else None
  }

  /** Nothing readable, or the record written for a daemon that has said nothing yet. */
  predicate Blank(content: Content, pid: nat) {
    content == Torn || content == Whole(Record(pid, Starting))
  }

  predicate InodesOk(fs: FileSystem) {
    && (forall fd :: fd in fs.inodes ==> fd < fs.next)
    && (fs.link.Some? ==> fs.link.value in fs.inodes)
  }

  /** Once the daemon has persisted, the path holds its latest record. */
  predicate LinkOk(s: System) {
    if s.Persisted() then
      s.fs.link.Some? && s.fs.link.value in s.fs.inodes
      && s.fs.inodes[s.fs.link.value] == Whole(s.written[|s.written| - 1].record)
    else
      s.Forked() && s.fs.link.Some? && s.fs.link.value in s.fs.inodes ==> Blank(s.fs.inodes[s.fs.link.value], s.pid)
  }

  predicate TempOk(s: System) {
    Temp(s).Some? ==>
      && Temp(s).value in s.fs.inodes && s.fs.link != Temp(s) && Fallback(s) != Temp(s)
      && (s.daemon.Replace? ==> s.fs.inodes[s.daemon.fd] == Whole(Record(s.pid, s.state)))
  }

  predicate FallbackOk(s: System) {
    Fallback(s).Some? ==>
      && Fallback(s).value in s.fs.inodes && s.fs.inodes[Fallback(s).value] == Torn
      && (s.fs.link == Fallback(s) ==> !s.Persisted())
  }

  ghost predicate PollOk(s: System, poll: Poll) {
    poll.Open? ==>
      && poll.fd in s.fs.inodes && Temp(s) != Some(poll.fd)
      && if poll.early then Blank(s.fs.inodes[poll.fd], s.pid)
         else s.Persisted() && Fallback(s) != Some(poll.fd)
              && s.fs.inodes[poll.fd].Whole? && InWritten(s.written, s.fs.inodes[poll.fd].record)
  }

  ghost predicate FilesOk(s: System) {
    && InodesOk(s.fs) && LinkOk(s) && TempOk(s) && FallbackOk(s)
    && PollOk(s, s.reader)
    && (s.attach.PollRead? ==> PollOk(s, s.attach.poll))
    && (!s.Forked() ==> s.reader == Closed)
  }

  // --- The attaching process ---

  /** No readable record lies at the path. */
  predicate NoRecord(s: System) {
    s.fs.link.Some? && s.fs.link.value in s.fs.inodes ==> s.fs.inodes[s.fs.link.value] == Torn
  }

  /** A live session that is not over already answers to this id. */
  predicate Answered(s: System) {
    s.existing.Some? && s.existingAlive && !Terminal(s.existing.value.state)
  }

  ghost predicate AttachOk(s: System) {
    && (s.Forked() ==> !s.checkMode && !Answered(s))
    && match s.attach
       case OpenExisting => !s.Forked()
       case ReadExisting(fd) => !s.Forked() && s.fs.link == Some(fd)
       case Decide => !s.Forked() && (s.existing == None ==> NoRecord(s))
       case Validate => !s.Forked() && NoRecord(s) && !Answered(s)
       case Fork => !s.Forked() && NoRecord(s) && !s.checkMode && !Answered(s)
       case CreateFallback => s.Forked()
       case WriteFallback(_) => s.Forked()
       case PollOpen => s.Forked()
       case PollRead(_) => s.Forked()
       case Conclude(observed) =>
         s.Forked() && (observed.Some? ==> observed.value == Record(s.pid, Starting) || InWritten(s.written, observed.value))
       case Done(result) =>
         (match result
          case Unchanged(r) => !s.Forked() && s.existing == Some(r) && s.existingAlive && !Terminal(r.state)
          case Planned => !s.Forked() && s.checkMode && !Answered(s)
          case Changed(r) => s.Forked() && r.state == Attached && InWritten(s.written, r)
          case Failed(_) => !Answered(s))
  }

  // --- What other processes have read ---

  ghost predicate EntryOk(s: System, e: ReadLog) {
    match e.result
    case Missing => e.early
    case Unparsable => e.early
    case Got(r) => if e.early then r == Record(s.pid, Starting) else InWritten(s.written, r)
  }

  /** What has been read so far never runs ahead of `rank`. */
  ghost predicate Below(log: seq<ReadLog>, rank: nat) {
    forall i :: 0 <= i < |log| && log[i].result.Got? ==> Rank(log[i].result.record.state) <= rank
  }

  /** Successive reads never go backwards. */
  ghost predicate Forward(log: seq<ReadLog>) {
    forall i, j :: 0 <= i <= j < |log| && log[i].result.Got? && log[j].result.Got? ==>
      Rank(log[i].result.record.state) <= Rank(log[j].result.record.state)
  }

  ghost predicate LogOk(s: System) {
    && (forall i :: 0 <= i < |s.log| ==> EntryOk(s, s.log[i]))
    && Forward(s.log)
    && (s.reader.Open? && s.reader.early ==> forall i :: 0 <= i < |s.log| ==> s.log[i].early)
    && (s.reader.Open? && !s.reader.early && s.reader.fd in s.fs.inodes && s.fs.inodes[s.reader.fd].Whole? ==>
          Below(s.log, Rank(s.fs.inodes[s.reader.fd].record.state)))
  }

  ghost predicate Safe(s: System) {
    DaemonOk(s) && FilesOk(s) && AttachOk(s) && LogOk(s)
  }

  // --- Initially ---

  lemma StartSafe(leftover: Option<Content>, pid: nat, checkMode: bool, prepared: IderTarget.Engine)
    requires prepared.target.session.toggleOk == None && !prepared.target.session.isOpen
    ensures Safe(Start(leftover, pid, checkMode, prepared))
  {
  }

  // --- Steps that do not touch the file ---


  lemma DaemonOnlyFiles(s: System, t: System)
    requires FilesOk(s) && AttachOk(s) && LogOk(s) && s.Forked() && Untouched(s, t)
    ensures FilesOk(t) && AttachOk(t) && LogOk(t)
  {
    assert Temp(t) == None && Fallback(t) == Fallback(s);
  }

  lemma CreateTempFiles(s: System)
    requires Safe(s) && s.daemon.CreateTemp?
    ensures FilesOk(PersistNext(s)) && AttachOk(PersistNext(s)) && LogOk(PersistNext(s))
  {
    hide DaemonOk;
    var t := PersistNext(s);
    assert s.fs.next !in s.fs.inodes;
    forall fd | fd in s.fs.inodes ensures fd in t.fs.inodes && t.fs.inodes[fd] == s.fs.inodes[fd] && fd != s.fs.next {}
  }

  lemma WriteTempFiles(s: System)
    requires Safe(s) && s.daemon.WriteTemp?
    ensures FilesOk(PersistNext(s)) && AttachOk(PersistNext(s)) && LogOk(PersistNext(s))
  {
    hide DaemonOk;
    var t := PersistNext(s);
    forall fd | fd in s.fs.inodes && fd != s.daemon.fd ensures fd in t.fs.inodes && t.fs.inodes[fd] == s.fs.inodes[fd] {}
  }

  lemma ReplaceFiles(s: System)
    requires Safe(s) && s.daemon.Replace?
    ensures FilesOk(PersistNext(s)) && AttachOk(PersistNext(s)) && LogOk(PersistNext(s))
  {
    hide DaemonOk;
    var t := PersistNext(s);
    var w := Write(Record(s.pid, s.state), s.handed);
    assert t.written == s.written + [w] && t.written[|s.written|] == w;
    forall r | InWritten(s.written, r) ensures InWritten(t.written, r) {
      var i :| 0 <= i < |s.written| && s.written[i].record == r;
      assert t.written[i].record == r;
    }
    assert Temp(t) == None;
    forall e | EntryOk(s, e) ensures EntryOk(t, e) {}
  }

  /** A daemon step that makes no system call on the state file. */
  lemma QuietDaemonFiles(s: System, c: Choice)
    requires Safe(s) && !s.daemon.CreateTemp? && !s.daemon.WriteTemp? && !s.daemon.Replace?
    ensures var t := DaemonNext(s, c); FilesOk(t) && AttachOk(t) && LogOk(t)
  {
    hide DaemonOk, FilesOk, AttachOk, LogOk, Gate, ConnectNext, ReceiveNext, Persist, Fail;
    if s.Forked() {
      DaemonOnlyFiles(s, DaemonNext(s, c));
    }
  }

  lemma DaemonSafe(s: System, c: Choice)
    requires Safe(s)
    ensures Safe(DaemonNext(s, c))
  {
    hide DaemonOk, FilesOk, AttachOk, LogOk, PersistNext, ConnectNext, ReceiveNext, Gate;
    DaemonStepOk(s, c);
    match s.daemon
    case CreateTemp(_) => CreateTempFiles(s);
    case WriteTemp(_, _) => WriteTempFiles(s);
    case Replace(_, _) => ReplaceFiles(s);
    case _ => QuietDaemonFiles(s, c);
  }

  lemma SignalSafe(s: System, e: Event)
    requires Safe(s) && (e == Sigterm || e == Sigkill)
    ensures Safe(Next(s, e))
  {
    hide FilesOk, AttachOk, LogOk, Tracks, Accepted, Orderly, WriteOk;
    if e == Sigkill && s.Forked() && s.daemon != Exited {
      KilledFiles(s);
    } else if e == Sigterm && s.Forked() {
      TermFiles(s);
    }
  }

  lemma KilledFiles(s: System)
    requires FilesOk(s) && AttachOk(s) && LogOk(s) && s.Forked()
    ensures var t := s.(daemon := Killed); FilesOk(t) && AttachOk(t) && LogOk(t)
  {
    DaemonOnlyFiles(s, s.(daemon := Killed));
  }

  lemma TermFiles(s: System)
    requires FilesOk(s) && AttachOk(s) && LogOk(s)
    ensures var t := s.(stopFlag := true); FilesOk(t) && AttachOk(t) && LogOk(t)
  {
  }

  // --- Steps of a reader ---

  /** What a finished poll has read is what its descriptor promised. */
  lemma PollReads(s: System, poll: Poll)
    requires PollOk(s, poll) && poll.Open?
    ensures var seen := Parse(s.fs, poll.fd);
            && (seen == None ==> poll.early)
            && (seen.Some? ==> if poll.early then seen.value == Record(s.pid, Starting) else InWritten(s.written, seen.value))
  {
  }

  /** Opening the path while the session runs. */
  lemma PollOpens(s: System)
    requires FilesOk(s) && s.Forked() && s.fs.link.Some?
    ensures PollOk(s, Open(s.fs.link.value, !s.Persisted()))
  {
    if s.Persisted() {
      assert s.written[|s.written| - 1].record == s.fs.inodes[s.fs.link.value].record;
    }
  }

  lemma BelowLatest(s: System)
    requires Orderly(s.written) && forall i :: 0 <= i < |s.log| ==> EntryOk(s, s.log[i])
    ensures Below(s.log, LatestRank(s.written))
  {
    forall i | 0 <= i < |s.log| && s.log[i].result.Got? ensures Rank(s.log[i].result.record.state) <= LatestRank(s.written) {
      if !s.log[i].early {
        var k :| 0 <= k < |s.written| && s.written[k].record == s.log[i].result.record;
      }
    }
  }

  lemma ReaderOpens(s: System)
    requires Safe(s) && s.Forked() && s.reader == Closed && s.fs.link.Some?
    ensures Safe(ReaderNext(s))
  {
    hide DaemonOk, AttachOk;
    var t := ReaderNext(s);
    OthersKept(s, t.reader, t.log);
    OrderlyOf(s);
    PollOpens(s);
    BelowLatest(s);
    assert LinkOk(s);
    forall i | 0 <= i < |s.log| && !s.log[i].early ensures s.Persisted() {
      assert EntryOk(s, s.log[i]);
    }
    forall e | EntryOk(s, e) ensures EntryOk(t, e) {}
    assert Temp(t) == Temp(s) && Fallback(t) == Fallback(s);
  }

  lemma OrderlyOf(s: System)
    requires DaemonOk(s)
    ensures Orderly(s.written)
  {
  }

  /** The other processes do not notice a reader. */
  lemma OthersKept(s: System, reader: Poll, log: seq<ReadLog>)
    requires DaemonOk(s) && AttachOk(s)
    ensures var t := s.(reader := reader, log := log); DaemonOk(t) && AttachOk(t)
  {
    hide Tracks, Accepted;
  }

  lemma ReaderFinds(s: System, entry: ReadLog)
    requires LogOk(s) && EntryOk(s, entry)
    requires entry.result.Got? ==> Below(s.log, Rank(entry.result.record.state))
    ensures LogOk(s.(reader := Closed, log := s.log + [entry]))
  {
    var t := s.(reader := Closed, log := s.log + [entry]);
    forall e | EntryOk(s, e) ensures EntryOk(t, e) {}
    assert Forward(t.log);
  }

  lemma ReaderFiles(s: System, log: seq<ReadLog>)
    requires DaemonOk(s) && FilesOk(s) && AttachOk(s)
    ensures var t := s.(reader := Closed, log := log); DaemonOk(t) && FilesOk(t) && AttachOk(t)
  {
  }

  lemma EarlyBelow(s: System, rank: nat)
    requires forall i :: 0 <= i < |s.log| ==> EntryOk(s, s.log[i]) && s.log[i].early
    ensures Below(s.log, rank)
  {
  }

  lemma ReaderSafe(s: System)
    requires Safe(s)
    ensures Safe(ReaderNext(s))
  {
    hide DaemonOk, FilesOk, AttachOk, LogOk, PollOk;
    if s.Forked() && s.reader == Closed && s.fs.link == None {
      assert !s.Persisted() by { LinkMissing(s); }
      var entry := ReadLog(Missing, true);
      ReaderFinds(s, entry);
      ReaderFiles(s, s.log + [entry]);
    } else if s.Forked() && s.reader == Closed {
      ReaderOpens(s);
    } else if s.Forked() {
      ReaderReads(s);
    }
  }

  lemma LinkMissing(s: System)
    requires FilesOk(s) && s.fs.link == None
    ensures !s.Persisted()
  {
  }

  lemma ReaderReads(s: System)
    requires Safe(s) && s.Forked() && s.reader.Open?
    ensures Safe(ReaderNext(s))
  {
    hide DaemonOk;
    var seen := Parse(s.fs, s.reader.fd);
    var entry := ReadLog(if seen.Some? then Got(seen.value) else Unparsable, s.reader.early);
    PollReads(s, s.reader);
    if seen.Some? && s.reader.early {
      EarlyBelow(s, Rank(seen.value.state));
    }
    ReaderFinds(s, entry);
    ReaderFiles(s, s.log + [entry]);
  }

  // --- Steps of the attaching process ---

  predicate BeforeFork(pc: AttachPc) {
    pc in {OpenExisting, Decide, Validate, Fork} || pc.ReadExisting?
  }

  /** The daemon's invariant is about the daemon's own fields. */
  lemma DaemonFrame(s: System, t: System)
    requires DaemonOk(s)
    requires t.daemon == s.daemon && t.pid == s.pid && t.state == s.state && t.written == s.written
    requires t.engine == s.engine && t.handed == s.handed && t.prepared == s.prepared
    ensures DaemonOk(t)
  {
    hide Tracks, Accepted, Orderly, WriteOk, LatestRank;
  }

  lemma DecideKeepsDaemon(s: System, c: Choice)
    requires DaemonOk(s) && s.attach == Decide
    ensures DaemonOk(AttachNext(s, c))
  {
    hide DaemonOk;
    DaemonFrame(s, AttachNext(s, c));
  }

  lemma DecideKeepsLog(s: System, c: Choice)
    requires LogOk(s) && s.attach == Decide
    ensures LogOk(AttachNext(s, c))
  {
    hide InWritten, Forward, Below;
  }

  lemma DecideKeepsFiles(s: System, c: Choice)
    requires FilesOk(s) && AttachOk(s) && s.attach == Decide && !s.Persisted() && Temp(s) == None
    ensures FilesOk(AttachNext(s, c)) && AttachOk(AttachNext(s, c))
  {
    hide InWritten;
  }

  lemma DecideSafe(s: System, c: Choice)
    requires Safe(s) && s.attach == Decide
    ensures Safe(AttachNext(s, c))
  {
    hide LogOk, Tracks, Accepted, Orderly, AttachNext, FilesOk;
    assert !s.Forked();
    DecideKeepsDaemon(s, c);
    DecideKeepsLog(s, c);
    DecideKeepsFiles(s, c);
  }

  lemma BeforeForkSafe(s: System, c: Choice)
    requires Safe(s) && BeforeFork(s.attach) && s.attach != Fork
    ensures Safe(AttachNext(s, c))
  {
    if s.attach == Decide {
      DecideSafe(s, c);
    } else {
      BeforeDecisionSafe(s, c);
    }
  }

  lemma BeforeDecisionSafe(s: System, c: Choice)
    requires Safe(s) && (s.attach.OpenExisting? || s.attach.ReadExisting? || s.attach.Validate?)
    ensures Safe(AttachNext(s, c))
  {
    hide Tracks, Accepted, Orderly;
    assert !s.Forked();
  }

  lemma ForkSafe(s: System, c: Choice)
    requires Safe(s) && s.attach == Fork
    ensures Safe(AttachNext(s, c))
  {
    hide Tracks, Accepted;
    assert !s.Forked();
  }

  /** The daemon and the log do not notice what the attaching process decides. */
  lemma AttachPcOnly(s: System, pc: AttachPc)
    requires DaemonOk(s) && FilesOk(s) && LogOk(s) && s.Forked() && !pc.WriteFallback?
    requires pc.PollRead? ==> PollOk(s, pc.poll)
    ensures var t := s.(attach := pc); DaemonOk(t) && FilesOk(t) && LogOk(t)
  {
    hide Tracks, Accepted, Orderly, WriteOk;
    var t := s.(attach := pc);
    assert Temp(t) == Temp(s) && Fallback(t) == None;
    forall poll | PollOk(s, poll) ensures PollOk(t, poll) {}
  }

  lemma DaemonFields(s: System, t: System)
    requires DaemonOk(s) && t == s.(attach := t.attach, fs := t.fs)
    ensures DaemonOk(t)
  {
    hide Tracks, Accepted, Orderly, WriteOk;
  }

  lemma CreateFallbackSafe(s: System, c: Choice)
    requires Safe(s) && s.attach == CreateFallback
    ensures Safe(AttachNext(s, c))
  {
    hide DaemonOk;
    var t := AttachNext(s, c);
    if s.fs.link.Some? {
      AttachPcOnly(s, PollOpen);
    } else {
      DaemonFields(s, t);
      LinkMissing(s);
      assert s.fs.next !in s.fs.inodes;
      forall fd | fd in s.fs.inodes ensures fd in t.fs.inodes && t.fs.inodes[fd] == s.fs.inodes[fd] && fd != s.fs.next {}
      forall e | EntryOk(s, e) ensures EntryOk(t, e) {}
    }
  }

  lemma WriteFallbackSafe(s: System, c: Choice)
    requires Safe(s) && s.attach.WriteFallback?
    ensures Safe(AttachNext(s, c))
  {
    hide DaemonOk;
    var t := AttachNext(s, c);
    DaemonFields(s, t);
    forall fd | fd in s.fs.inodes && fd != s.attach.fd ensures fd in t.fs.inodes && t.fs.inodes[fd] == s.fs.inodes[fd] {}
    forall e | EntryOk(s, e) ensures EntryOk(t, e) {}
    assert Temp(t) == Temp(s) && Fallback(t) == None;
  }

  lemma PollSafe(s: System, c: Choice)
    requires Safe(s) && (s.attach == PollOpen || s.attach.PollRead? || s.attach.Conclude?)
    ensures Safe(AttachNext(s, c))
  {
    hide DaemonOk, FilesOk, LogOk, PollOk;
    var t := AttachNext(s, c);
    if s.attach == PollOpen && s.fs.link.Some? {
      PollOpens(s);
    }
    if s.attach.PollRead? && s.attach.poll.Open? {
      PollHeld(s);
      PollReads(s, s.attach.poll);
    }
    AttachPcOnly(s, t.attach);
  }

  lemma PollHeld(s: System)
    requires FilesOk(s) && s.attach.PollRead?
    ensures PollOk(s, s.attach.poll)
  {
  }

  lemma AttachSafe(s: System, c: Choice)
    requires Safe(s)
    ensures Safe(AttachNext(s, c))
  {
    hide Safe, AttachNext;
    match s.attach
    case CreateFallback => CreateFallbackSafe(s, c);
    case WriteFallback(_) => WriteFallbackSafe(s, c);
    case PollOpen => PollSafe(s, c);
    case PollRead(_) => PollSafe(s, c);
    case Conclude(_) => PollSafe(s, c);
    case Done(_) => DoneStays(s, c);
    case Fork => ForkSafe(s, c);
    case _ => BeforeForkSafe(s, c);
  }

  lemma DoneStays(s: System, c: Choice)
    requires s.attach.Done?
    ensures AttachNext(s, c) == s
  {
  }

  // --- Every run ---

  lemma NextSafe(s: System, e: Event)
    requires Safe(s)
    ensures Safe(Next(s, e))
  {
    hide Safe, AttachNext, DaemonNext, ReaderNext;
    match e
    case AttachStep(c) => AttachSafe(s, c);
    case DaemonStep(c) => DaemonSafe(s, c);
    case ReaderStep => ReaderSafe(s);
    case Sigterm => SignalSafe(s, e);
    case Sigkill => SignalSafe(s, e);
  }

  lemma {:induction false} RunSafe(s: System, events: seq<Event>)
    requires Safe(s)
    ensures Safe(MediaSession.Run(s, events))
    decreases |events|
  {
    hide Safe, Next;
    if events != [] {
      NextSafe(s, events[0]);
      RunSafe(Next(s, events[0]), events[1..]);
    }
  }

  // --- What follows, for every run from every start ---

  /** The engine a daemon builds: nothing heard from firmware yet. */
  predicate Unheard(prepared: IderTarget.Engine) {
    prepared.target.session.toggleOk == None && !prepared.target.session.isOpen
  }

  lemma AnyRunSafe(leftover: Option<Content>, pid: nat, checkMode: bool, prepared: IderTarget.Engine, events: seq<Event>)
    requires Unheard(prepared)
    ensures Safe(MediaSession.Run(Start(leftover, pid, checkMode, prepared), events))
  {
    hide Safe, Start;
    StartSafe(leftover, pid, checkMode, prepared);
    RunSafe(Start(leftover, pid, checkMode, prepared), events);
  }

  /** Once the daemon has persisted, the path always holds its latest record, whole. */
  lemma PathHoldsLatest(leftover: Option<Content>, pid: nat, checkMode: bool, prepared: IderTarget.Engine, events: seq<Event>)
    requires Unheard(prepared)
    ensures var s := MediaSession.Run(Start(leftover, pid, checkMode, prepared), events);
            s.written != [] ==>
              s.fs.link.Some? && Parse(s.fs, s.fs.link.value) == Some(s.written[|s.written| - 1].record)
  {
    AnyRunSafe(leftover, pid, checkMode, prepared, events);
    hide MediaSession.Run, Start, DaemonOk, AttachOk, LogOk;
  }

  /**
    Successive reads never go backwards in starting, connecting, attached, over;
    a read that finds nothing, or nothing that parses, opened the path before the
    daemon's first write; every other read returns a record the daemon wrote.
    */
  lemma ReadersMoveForward(leftover: Option<Content>, pid: nat, checkMode: bool, prepared: IderTarget.Engine, events: seq<Event>)
    requires Unheard(prepared)
    ensures var s := MediaSession.Run(Start(leftover, pid, checkMode, prepared), events);
            && Forward(s.log)
            && (forall i :: 0 <= i < |s.log| && !s.log[i].early ==>
                  s.log[i].result.Got? && InWritten(s.written, s.log[i].result.record))
            && (forall i :: 0 <= i < |s.log| && s.log[i].early && s.log[i].result.Got? ==>
                  s.log[i].result.record == Record(s.pid, Starting))
  {
    AnyRunSafe(leftover, pid, checkMode, prepared, events);
    hide MediaSession.Run, Start, DaemonOk, AttachOk, FilesOk;
    var s := MediaSession.Run(Start(leftover, pid, checkMode, prepared), events);
    forall i | 0 <= i < |s.log| ensures EntryOk(s, s.log[i]) {}
  }

  /** Success is reported only for a record this daemon wrote after firmware accepted the toggle on an open session. */
  lemma ChangedMeansAccepted(leftover: Option<Content>, pid: nat, checkMode: bool, prepared: IderTarget.Engine, events: seq<Event>)
    requires Unheard(prepared)
    ensures var s := MediaSession.Run(Start(leftover, pid, checkMode, prepared), events);
            s.attach.Done? && s.attach.result.Changed? ==>
              && s.attach.result.record.state == Attached
              && exists i :: 0 <= i < |s.written| && s.written[i].record == s.attach.result.record && Accepted(s.written[i].handed)
  {
    AnyRunSafe(leftover, pid, checkMode, prepared, events);
    hide MediaSession.Run, Start, FilesOk, LogOk, Accepted;
    var s := MediaSession.Run(Start(leftover, pid, checkMode, prepared), events);
    if s.attach.Done? && s.attach.result.Changed? {
      var i :| 0 <= i < |s.written| && s.written[i].record == s.attach.result.record;
      assert WriteOk(s.written[i], s.pid);
    }
  }

  /** A terminal record is the daemon's last, and a daemon that runs to its end writes one. */
  lemma TerminalIsLast(leftover: Option<Content>, pid: nat, checkMode: bool, prepared: IderTarget.Engine, events: seq<Event>)
    requires Unheard(prepared)
    ensures var s := MediaSession.Run(Start(leftover, pid, checkMode, prepared), events);
            && (forall i :: 0 <= i < |s.written| - 1 ==> !Terminal(s.written[i].record.state))
            && (s.daemon == Exited ==> s.written != [] && Terminal(s.written[|s.written| - 1].record.state))
            && (forall i :: 0 <= i < |s.written| && s.written[i].record.state == Attached ==> Accepted(s.written[i].handed))
  {
    AnyRunSafe(leftover, pid, checkMode, prepared, events);
    hide MediaSession.Run, Start, FilesOk, LogOk, AttachOk, Accepted;
    var s := MediaSession.Run(Start(leftover, pid, checkMode, prepared), events);
    forall i | 0 <= i < |s.written| && s.written[i].record.state == Attached ensures Accepted(s.written[i].handed) {
      assert WriteOk(s.written[i], s.pid);
    }
  }

  /** A live session that is not over is reported unchanged and never forked beside; check mode forks nothing. */
  lemma NoSecondFork(leftover: Option<Content>, pid: nat, checkMode: bool, prepared: IderTarget.Engine, events: seq<Event>)
    requires Unheard(prepared)
    ensures var s := MediaSession.Run(Start(leftover, pid, checkMode, prepared), events);
            && (s.Forked() ==> !s.checkMode && !Answered(s))
            && (s.attach.Done? && s.attach.result.Unchanged? ==>
                  !s.Forked() && s.existing == Some(s.attach.result.record) && s.existingAlive && !Terminal(s.attach.result.record.state))
            && (s.attach.Done? && Answered(s) ==>
                  s.attach.result == Unchanged(s.existing.value))
            && (s.attach.Done? && s.attach.result.Planned? ==> !s.Forked())
  {
    AnyRunSafe(leftover, pid, checkMode, prepared, events);
    hide MediaSession.Run, Start, FilesOk, LogOk, DaemonOk;
  }

  // --- A read that is torn although the daemon has already written ---

  const GO: Choice := Choice(false, false, true, Timeout)

  lemma {:induction false} RunSnoc(s: System, events: seq<Event>, e: Event)
    ensures MediaSession.Run(s, events + [e]) == Next(MediaSession.Run(s, events), e)
    decreases |events|
  {
    hide Next;
    if events == [] {
      assert events + [e] == [e] && [e][1..] == [];
    } else {
      assert (events + [e])[0] == events[0] && (events + [e])[1..] == events[1..] + [e];
      RunSnoc(Next(s, events[0]), events[1..], e);
    }
  }

  /** One more event of a run under construction. */
  lemma Extend(start: System, events: seq<Event>, s: System, e: Event) returns (longer: seq<Event>, t: System)
    requires s == MediaSession.Run(start, events)
    ensures t == Next(s, e) && t == MediaSession.Run(start, longer)
  {
    hide Next;
    RunSnoc(start, events, e);
    longer, t := events + [e], Next(s, e);
  }

  /** The daemon is born and the fallback file is at the path, still empty. */
  lemma FallbackCreated(pid: nat, prepared: IderTarget.Engine) returns (events: seq<Event>, s: System)
    ensures s == MediaSession.Run(Start(None, pid, false, prepared), events)
    ensures s.daemon == CreateTemp(ToImages) && s.reader == Closed && s.written == [] && s.log == []
    ensures s.fs == FileSystem(map[0 := Torn], Some(0), 1)
    ensures s.attach == WriteFallback(0) && s.state == Starting && !s.stopFlag && s.engine == None
    ensures s.pid == pid && s.prepared == prepared
  {
    hide MediaSession.Run;
    var start := Start(None, pid, false, prepared);
    assert MediaSession.Run(start, []) == start by {
      RunNothing(start);
    }
    events, s := Extend(start, [], start, AttachStep(GO));
    events, s := Extend(start, events, s, AttachStep(GO));
    events, s := Extend(start, events, s, AttachStep(GO));
    events, s := Extend(start, events, s, AttachStep(GO));
    events, s := Extend(start, events, s, AttachStep(GO));
  }

  lemma RunNothing(s: System)
    ensures MediaSession.Run(s, []) == s
  {
  }

  /** A reader opens the path, then the daemon writes its first record. */
  lemma TornReadAfterWrite(pid: nat, prepared: IderTarget.Engine) returns (events: seq<Event>)
    ensures var s := MediaSession.Run(Start(None, pid, false, prepared), events);
            s.Persisted() && ReaderNext(s).log == [ReadLog(Unparsable, true)]
  {
    hide MediaSession.Run, Start, Gate, ConnectNext, ReceiveNext, AttachNext;
    var start := Start(None, pid, false, prepared);
    var s: System;
    events, s := FallbackCreated(pid, prepared);
    events, s := Extend(start, events, s, ReaderStep);
    events, s := Extend(start, events, s, DaemonStep(GO));
    events, s := Extend(start, events, s, DaemonStep(GO));
    events, s := Extend(start, events, s, DaemonStep(GO));
    assert s.fs.inodes[0] == Torn;
  }
}

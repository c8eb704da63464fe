// What a poll of the state file finds, exactly: when there is no file, and when
// there is one that does not parse.
module AttachReads {
  import opened Wrappers
  import opened MediaSession
  import opened StateFile
  import opened AttachSafety
  import IderTarget

  /** The file an earlier session left behind, if it does not parse; it gets the first inode. */
  predicate IsLeftover(fd: Inode, leftover: Option<Content>) {
    fd == 0 && leftover == Some(Torn)
  }

  /** What is torn behind `fd` is the fallback record still being written, or the leftover. */
  predicate TornAt(s: System, fd: Inode, leftover: Option<Content>) {
    fd in s.fs.inodes && s.fs.inodes[fd] == Torn ==> Fallback(s) == Some(fd) || IsLeftover(fd, leftover)
  }

  /** A leftover that does not parse stays what it is, and at the path until something replaces it. */
  predicate LeftoverKept(s: System, leftover: Option<Content>) {
    leftover == Some(Torn) ==>
      && 0 in s.fs.inodes && s.fs.inodes[0] == Torn && s.fs.next > 0
      && Fallback(s) != Some(0) && Temp(s) != Some(0) && s.existing == None
      && s.fs.link.Some? && (!s.Persisted() ==> s.fs.link == Some(0))
  }

  /** When nothing is at the path. */
  predicate LinkExact(s: System, leftover: Option<Content>) {
    && (s.attach in {Validate, Fork, CreateFallback} && !s.Persisted() && leftover != Some(Torn) ==> s.fs.link == None)
    && (s.Forked() && s.fs.link == None ==> s.attach == CreateFallback)
  }

  predicate Exact(s: System, leftover: Option<Content>) {
    && LeftoverKept(s, leftover) && LinkExact(s, leftover)
    && (leftover == None && !s.Forked() ==> s.fs.link == None)
    && (s.fs.link.Some? ==> TornAt(s, s.fs.link.value, leftover))
    && (s.reader.Open? ==> TornAt(s, s.reader.fd, leftover))
  }

  lemma StartExact(leftover: Option<Content>, pid: nat, checkMode: bool, prepared: IderTarget.Engine)
    ensures Exact(Start(leftover, pid, checkMode, prepared), leftover)
  {
  }

  /** Descriptors in use are different files. */
  predicate Apart(s: System) {
    && InodesOk(s.fs)
    && (Temp(s).Some? ==>
          && Temp(s).value in s.fs.inodes && s.fs.link != Temp(s) && Fallback(s) != Temp(s)
          && (s.daemon.Replace? ==> s.fs.inodes[s.daemon.fd].Whole?))
    && (Fallback(s).Some? ==> Fallback(s).value in s.fs.inodes && s.fs.inodes[Fallback(s).value] == Torn)
    && (s.reader.Open? ==> s.reader.fd in s.fs.inodes && Temp(s) != Some(s.reader.fd))
  }

  lemma FilesApart(s: System)
    requires FilesOk(s)
    ensures Apart(s)
  {
    hide InWritten;
  }

  /** Before the fork: the attach reads, decides, removes a record it has read, and validates. */
  lemma BeforeForkExact(s: System, c: Choice, leftover: Option<Content>)
    requires Apart(s) && AttachOk(s) && Exact(s, leftover) && BeforeFork(s.attach)
    requires !s.Persisted() && Temp(s) == None && s.reader == Closed
    ensures Exact(AttachNext(s, c), leftover)
  {
    hide Apart, AttachOk, Exact, AttachNext;
    match s.attach
    case OpenExisting => ReadingExact(s, c, leftover);
    case ReadExisting(_) => ReadingExact(s, c, leftover);
    case Decide => DecideExact(s, c, leftover);
    case _ => ForkingExact(s, c, leftover);
  }

  lemma ReadingExact(s: System, c: Choice, leftover: Option<Content>)
    requires AttachOk(s) && Exact(s, leftover) && !s.Persisted() && (s.attach.OpenExisting? || s.attach.ReadExisting?)
    ensures Exact(AttachNext(s, c), leftover)
  {
    hide InWritten, Terminal;
  }

  lemma DecideExact(s: System, c: Choice, leftover: Option<Content>)
    requires Apart(s) && AttachOk(s) && Exact(s, leftover) && s.attach == Decide && !s.Persisted() && Temp(s) == None && s.reader == Closed
    ensures Exact(AttachNext(s, c), leftover)
  {
    hide InWritten, Terminal;
    assert s.existing == None && s.fs.link.Some? ==> s.fs.inodes[s.fs.link.value] == Torn;
  }

  lemma ForkingExact(s: System, c: Choice, leftover: Option<Content>)
    requires AttachOk(s) && Exact(s, leftover) && (s.attach == Validate || s.attach == Fork) && Temp(s) == None
    ensures Exact(AttachNext(s, c), leftover)
  {
    hide InWritten, Terminal;
  }

  lemma FallbackExact(s: System, c: Choice, leftover: Option<Content>)
    requires Apart(s) && Exact(s, leftover) && s.Forked() && (s.attach == CreateFallback || s.attach.WriteFallback?)
    ensures Exact(AttachNext(s, c), leftover)
  {
    if s.attach == CreateFallback && s.fs.link.None? {
      assert s.fs.next !in s.fs.inodes;
    }
  }

  /** Polling and concluding change nothing but where the attach is. */
  lemma PollMoves(s: System, c: Choice)
    requires s.Forked() && !BeforeFork(s.attach) && s.attach != CreateFallback && !s.attach.WriteFallback?
    ensures var t := AttachNext(s, c);
            t == s.(attach := t.attach) && !BeforeFork(t.attach) && t.attach != CreateFallback && !t.attach.WriteFallback?
  {
    hide Parse;
  }

  lemma PollExact(s: System, t: System, leftover: Option<Content>)
    requires Exact(s, leftover) && s.Forked() && t == s.(attach := t.attach)
    requires !BeforeFork(s.attach) && s.attach != CreateFallback && !s.attach.WriteFallback?
    requires !BeforeFork(t.attach) && t.attach != CreateFallback && !t.attach.WriteFallback?
    ensures Exact(t, leftover)
  {
    assert Fallback(t) == None && Fallback(s) == None && Temp(t) == Temp(s);
  }

  lemma AttachExact(s: System, c: Choice, leftover: Option<Content>)
    requires DaemonOk(s) && FilesOk(s) && AttachOk(s) && Exact(s, leftover)
    ensures Exact(AttachNext(s, c), leftover)
  {
    hide Exact, AttachNext, DaemonOk;
    FilesApart(s);
    if BeforeFork(s.attach) {
      UnbornDaemon(s);
      BeforeForkExact(s, c, leftover);
    } else if s.attach.Done? {
      DoneStays(s, c);
    } else if s.attach == CreateFallback || s.attach.WriteFallback? {
      FallbackExact(s, c, leftover);
    } else {
      PollMoves(s, c);
      PollExact(s, AttachNext(s, c), leftover);
    }
  }

  lemma PersistExact(s: System, leftover: Option<Content>)
    requires Apart(s) && Exact(s, leftover)
    ensures Exact(PersistNext(s), leftover)
  {
    if s.daemon.CreateTemp? {
      TempCreated(s, leftover);
    } else if s.daemon.WriteTemp? {
      TempWritten(s, leftover);
    }
  }

  lemma TempCreated(s: System, leftover: Option<Content>)
    requires Apart(s) && Exact(s, leftover) && s.daemon.CreateTemp?
    ensures Exact(PersistNext(s), leftover)
  {
    assert s.fs.next !in s.fs.inodes;
  }

  lemma TempWritten(s: System, leftover: Option<Content>)
    requires Apart(s) && Exact(s, leftover) && s.daemon.WriteTemp?
    ensures Exact(PersistNext(s), leftover)
  {
  }

  /** The daemon's other steps leave alone what this is about. */
  lemma UntouchedExact(s: System, t: System, leftover: Option<Content>)
    requires Exact(s, leftover) && Untouched(s, t) && s.Forked()
    ensures Exact(t, leftover)
  {
  }

  lemma DaemonExact(s: System, c: Choice, leftover: Option<Content>)
    requires FilesOk(s) && Exact(s, leftover)
    ensures Exact(DaemonNext(s, c), leftover)
  {
    hide FilesOk, Exact, Apart, Persist, Fail, PersistNext, ConnectNext, ReceiveNext, Gate;
    FilesApart(s);
    match s.daemon
    case Unborn =>
    case CreateTemp(_) => PersistExact(s, leftover);
    case WriteTemp(_, _) => PersistExact(s, leftover);
    case Replace(_, _) => PersistExact(s, leftover);
    case Exited =>
    case Killed =>
    case _ =>
      if DaemonNext(s, c) != s {
        UntouchedExact(s, DaemonNext(s, c), leftover);
      }
  }

  lemma NextExact(s: System, e: Event, leftover: Option<Content>)
    requires Safe(s) && Exact(s, leftover)
    ensures Exact(Next(s, e), leftover)
  {
    hide DaemonOk, LogOk, AttachOk, FilesOk, Exact, AttachNext, DaemonNext, ReaderNext;
    match e
    case AttachStep(c) =>
      AttachExact(s, c, leftover);
    case DaemonStep(c) => DaemonExact(s, c, leftover);
    case ReaderStep => ReaderExact(s, leftover);
    case Sigterm => SignalExact(s, e, leftover);
    case Sigkill => SignalExact(s, e, leftover);
  }

  lemma UnbornDaemon(s: System)
    requires DaemonOk(s) && !s.Forked()
    ensures !s.Persisted() && Temp(s) == None
  {
  }

  lemma ReaderExact(s: System, leftover: Option<Content>)
    requires Exact(s, leftover)
    ensures Exact(ReaderNext(s), leftover)
  {
  }

  lemma SignalExact(s: System, e: Event, leftover: Option<Content>)
    requires Exact(s, leftover) && (e == Sigterm || e == Sigkill)
    ensures Exact(Next(s, e), leftover)
  {
  }

  lemma {:induction false} RunExact(s: System, events: seq<Event>, leftover: Option<Content>)
    requires Safe(s) && Exact(s, leftover)
    ensures Exact(MediaSession.Run(s, events), leftover)
    decreases |events|
  {
    hide Safe, Exact, Next;
    if events != [] {
      NextSafe(s, events[0]);
      NextExact(s, events[0], leftover);
      RunExact(Next(s, events[0]), events[1..], leftover);
    }
  }

  /**
    The next poll finds no file exactly while the fallback has still to be
    created, the daemon has persisted nothing, and no torn leftover is at the
    path. It finds a file that does not parse exactly if the one it opened is the
    fallback record still being written, or that leftover.
    */
  lemma NextReadIff(leftover: Option<Content>, pid: nat, checkMode: bool, prepared: IderTarget.Engine, events: seq<Event>)
    requires Unheard(prepared)
    ensures var s := MediaSession.Run(Start(leftover, pid, checkMode, prepared), events);
            && (s.Forked() && s.reader == Closed ==>
                  (ReaderNext(s).log == s.log + [ReadLog(Missing, true)] <==>
                   s.attach == CreateFallback && !s.Persisted() && leftover != Some(Torn)))
            && (s.Forked() && s.reader.Open? ==>
                  (ReaderNext(s).log == s.log + [ReadLog(Unparsable, true)] <==>
                   s.attach == WriteFallback(s.reader.fd) || (s.reader.fd == 0 && leftover == Some(Torn))))
  {
    hide MediaSession.Run, Start, Safe;
    var start := Start(leftover, pid, checkMode, prepared);
    var s := MediaSession.Run(start, events);
    StartSafe(leftover, pid, checkMode, prepared);
    StartExact(leftover, pid, checkMode, prepared);
    RunSafe(start, events);
    RunExact(start, events, leftover);
    if s.Forked() {
      ReadIff(s, leftover);
    }
  }

  lemma ReadIff(s: System, leftover: Option<Content>)
    requires Safe(s) && Exact(s, leftover) && s.Forked()
    ensures s.reader == Closed ==>
              (ReaderNext(s).log == s.log + [ReadLog(Missing, true)] <==>
               s.attach == CreateFallback && !s.Persisted() && leftover != Some(Torn))
    ensures s.reader.Open? ==>
              (ReaderNext(s).log == s.log + [ReadLog(Unparsable, true)] <==>
               s.attach == WriteFallback(s.reader.fd) || (s.reader.fd == 0 && leftover == Some(Torn)))
  {
    hide DaemonOk, AttachOk, LogOk, InWritten;
    var n, log := |s.log|, ReaderNext(s).log;
    if s.reader == Closed {
      assert log == s.log + [ReadLog(Missing, true)] <==> s.fs.link == None by {
        if |log| > n {
          assert log[n] == ReadLog(Missing, !s.Persisted());
        }
      }
    } else {
      assert log[n].result.Unparsable? <==> Parse(s.fs, s.reader.fd) == None;
      assert (s.log + [ReadLog(Unparsable, true)])[n] == ReadLog(Unparsable, true);
    }
  }
}

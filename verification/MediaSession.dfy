// The detached media session: the process that attaches, the daemon it forks,
// and any process that polls, all communicating through one state file. Every
// system call on that file is a step of its own, and steps interleave freely.
module MediaSession {
  import opened Wrappers
  import opened Bytes
  import opened StateFile
  import IderTarget
  import IderSession

  // --- The process that attaches ---

  datatype Result =
    | Unchanged(record: Record)   // a live session already answers
    | Planned                     // check mode
    | Changed(record: Record)
    | Failed(indeterminate: bool)

  /** A poll in progress: not reading, or holding a descriptor opened before or after the daemon's first write. */
  datatype Poll = Closed | Open(fd: Inode, early: bool)

  datatype AttachPc =
    | OpenExisting
    | ReadExisting(fd: Inode)
    | Decide
    | Validate
    | Fork
    | CreateFallback
    | WriteFallback(fd: Inode)
    | PollOpen
    | PollRead(poll: Poll)
    | Conclude(observed: Option<Record>)
    | Done(result: Result)

  // --- The daemon ---

  datatype Continuation = ToImages | ToConnect | ToReceive | ToExit

  datatype DaemonPc =
    | Unborn
    | CreateTemp(next: Continuation)
    | WriteTemp(fd: Inode, next: Continuation)
    | Replace(fd: Inode, next: Continuation)
    | OpenImages
    | Connect
    | LoopTop
    | Receive
    | Exited
    | Killed

  /** A record the daemon has put in place, and the messages the engine had handled by then. */
  datatype Write = Write(record: Record, handed: seq<seq<byte>>)

  datatype ReadResult = Missing | Unparsable | Got(record: Record)

  /** `early`: the file was opened before the daemon's first write. */
  datatype ReadLog = ReadLog(result: ReadResult, early: bool)

  datatype System = System(
    fs: FileSystem,
    // the attaching process
    attach: AttachPc, existing: Option<Record>, existingAlive: bool, checkMode: bool,
    // the daemon
    daemon: DaemonPc, pid: nat, state: SessionState, written: seq<Write>, stopFlag: bool,
    engine: Option<IderTarget.Engine>, handed: seq<seq<byte>>,
    // any other process polling the file
    reader: Poll, log: seq<ReadLog>,
    // the engine as the daemon will build it, after OPEN_SESSION has been sent
    prepared: IderTarget.Engine)
  {
    predicate Forked() {
      daemon != Unborn
    }

    predicate Persisted() {
      written != []
    }
  }

  /** What the environment decides; a step uses the part that concerns it. */
  datatype Choice = Choice(
    alive: bool,            // is_pid_alive
    deadline: bool,         // a deadline has passed
    ok: bool,               // a validation, an open or a connect succeeds
    received: Received)     // what recv gives

  datatype Received = Timeout | PeerClosed | Failure | Chunk(bytes: seq<byte>)

  datatype Event = AttachStep(choice: Choice) | DaemonStep(choice: Choice) | ReaderStep | Sigterm | Sigkill

  // --- Steps of the attaching process ---

  function AttachNext(s: System, c: Choice): System {
    match s.attach
    case OpenExisting =>
      (match s.fs.link
       case None => s.(attach := Decide, existing := None)
       case Some(fd) => s.(attach := ReadExisting(fd)))
    case ReadExisting(fd) =>
      s.(attach := Decide, existing := Parse(s.fs, fd))
    case Decide =>
      if s.existing.Some? && c.alive && !Terminal(s.existing.value.state) then
        s.(attach := Done(Unchanged(s.existing.value)), existingAlive := c.alive)
      else
        s.(attach := Validate, existingAlive := c.alive,
           fs := if s.existing.Some? then s.fs.(link := None) else s.fs)
    case Validate =>
      if !c.ok then s.(attach := Done(Failed(false)))
      else if s.checkMode then s.(attach := Done(Planned))
      else s.(attach := Fork)
    case Fork =>
      s.(attach := CreateFallback, daemon := CreateTemp(ToImages), state := Starting)
    case CreateFallback =>
      if s.fs.link.Some? then s.(attach := PollOpen)
      else s.(attach := WriteFallback(s.fs.next), fs := NewInode(s.fs).(link := Some(s.fs.next)))
    case WriteFallback(fd) =>
      s.(attach := PollOpen, fs := Fill(s.fs, fd, Record(s.pid, Starting)))
    case PollOpen =>
      (match s.fs.link
       case None => s.(attach := if c.deadline then Conclude(None) else PollOpen)
       case Some(fd) => s.(attach := PollRead(Open(fd, !s.Persisted()))))
    case PollRead(poll) =>
      if poll.Closed? then s.(attach := PollOpen)
      else
        var seen := Parse(s.fs, poll.fd);
        if seen.Some? && seen.value.state in {Attached, Errored, Detached} then s.(attach := Conclude(seen))
        else if c.deadline then s.(attach := Conclude(seen))
        else s.(attach := PollOpen)
    case Conclude(observed) =>
      if observed.Some? && observed.value.state == Attached then s.(attach := Done(Changed(observed.value)))
      else s.(attach := Done(Failed(observed.Some? && c.alive && !Terminal(observed.value.state))))
    case Done(_) => s
  }

  // --- Steps of the daemon ---

  /** Between two states of the daemon in which it has made no system call on the state file. */
  predicate Untouched(s: System, t: System) {
    && t.fs == s.fs && t.attach == s.attach && t.existing == s.existing && t.existingAlive == s.existingAlive
    && t.checkMode == s.checkMode && t.pid == s.pid && t.written == s.written && t.reader == s.reader && t.log == s.log
    && t.Forked() && !t.daemon.WriteTemp? && !t.daemon.Replace?
  }

  /** Persist the record for `state`, then go on. */
  function Persist(s: System, state: SessionState, next: Continuation): (t: System)
    ensures Untouched(s, t)
  {
    s.(state := state, daemon := CreateTemp(next))
  }

  function Fail(s: System): (t: System)
    ensures Untouched(s, t)
  {
    Persist(s, Errored, ToExit)
  }

  function Resume(next: Continuation): DaemonPc {
    match next
    case ToImages => OpenImages
    case ToConnect => Connect
    case ToReceive => Receive
    case ToExit => Exited
  }

  /** Bytes into the engine; an exception ends the session. */
  function FeedEngine(s: System, engine: IderTarget.Engine, bytes: seq<byte>): (t: System)
    ensures Untouched(s, t)
  {
    var (fed, outcome) := IderTarget.Feed(engine, bytes);
    var t := s.(engine := Some(fed), handed := s.handed + IderSession.FeedHanded(engine, bytes));
    if outcome.Raised? then Fail(t) else t.(daemon := LoopTop)
  }

  /** The attach gate. */
  function Gate(s: System, engine: IderTarget.Engine, deadline: bool): (t: System)
    ensures Untouched(s, t)
  {
    var session := engine.target.session;
    if engine.stopped || s.stopFlag then Persist(s, if s.stopFlag then Detached else Errored, ToExit)
    else if session.toggleOk == Some(false) then Fail(s)
    else if session.isOpen && session.toggleOk == Some(true) then Persist(s, Attached, ToReceive)
    else if session.isOpen && deadline then Fail(s)
    else Persist(s, s.state, ToReceive)
  }

  /** A temporary file is created, filled, and moved over the path. */
  function PersistNext(s: System): System {
    match s.daemon
    case CreateTemp(next) =>
      s.(daemon := WriteTemp(s.fs.next, next), fs := NewInode(s.fs))
    case WriteTemp(fd, next) =>
      s.(daemon := Replace(fd, next), fs := Fill(s.fs, fd, Record(s.pid, s.state)))
    case Replace(fd, next) =>
      s.(daemon := Resume(next), fs := s.fs.(link := Some(fd)), written := s.written + [Write(Record(s.pid, s.state), s.handed)])
    case _ => s
  }

  /** The handshake; bytes left over from it go straight to the engine. */
  function ConnectNext(s: System, c: Choice): (t: System)
    ensures Untouched(s, t)
  {
    if !c.ok then Fail(s)
    else if c.received.Chunk? && c.received.bytes != [] then FeedEngine(s, s.prepared, c.received.bytes)
    else s.(engine := Some(s.prepared), daemon := LoopTop)
  }

  function ReceiveNext(s: System, c: Choice): (t: System)
    requires s.daemon == Receive
    ensures Untouched(s, t)
  {
    match c.received
    case Timeout => s.(daemon := LoopTop)
    case PeerClosed => Persist(s, Detached, ToExit)
    case Failure => Fail(s)
    case Chunk(bytes) =>
      if bytes == [] then Persist(s, Detached, ToExit)
      else if s.engine.Some? then FeedEngine(s, s.engine.value, bytes) else s
  }

  function DaemonNext(s: System, c: Choice): System {
    match s.daemon
    case Unborn => s
    case CreateTemp(_) => PersistNext(s)
    case WriteTemp(_, _) => PersistNext(s)
    case Replace(_, _) => PersistNext(s)
    case OpenImages => if c.ok then Persist(s, Connecting, ToConnect) else Fail(s)
    case Connect => ConnectNext(s, c)
    case LoopTop => if s.engine.Some? then Gate(s, s.engine.value, c.deadline) else s
    case Receive => ReceiveNext(s, c)
    case Exited => s
    case Killed => s
  }

  // --- Any other process ---

  function ReaderNext(s: System): System {
    if !s.Forked() then s
    else
      match s.reader
      case Closed =>
        (match s.fs.link
         case None => s.(log := s.log + [ReadLog(Missing, !s.Persisted())])
         case Some(fd) => s.(reader := Open(fd, !s.Persisted())))
      case Open(fd, early) =>
        var seen := Parse(s.fs, fd);
        s.(reader := Closed, log := s.log + [ReadLog(if seen.Some? then Got(seen.value) else Unparsable, early)])
  }

  function Next(s: System, e: Event): System {
    match e
    case AttachStep(c) => AttachNext(s, c)
    case DaemonStep(c) => DaemonNext(s, c)
    case ReaderStep => ReaderNext(s)
    case Sigterm => if s.Forked() then s.(stopFlag := true) else s
    case Sigkill => if s.Forked() && s.daemon != Exited then s.(daemon := Killed) else s
  }

  function Run(s: System, events: seq<Event>): System
    decreases |events|
  {
    if events == [] then s else Run(Next(s, events[0]), events[1..])
  }

  /** Any file may be lying at the path: none, a torn one, or the record of an earlier session. */
  function Start(leftover: Option<Content>, pid: nat, checkMode: bool, prepared: IderTarget.Engine): System {
    var fs := match leftover
              case None => FileSystem(map[], None, 0)
              case Some(content) => FileSystem(map[0 := content], Some(0), 1);
    System(fs, OpenExisting, None, false, checkMode, Unborn, pid, Starting, [], false, None, [], Closed, [], prepared)
  }
}

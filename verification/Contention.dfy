// Any number of attaches for one session id, and the daemons they fork, over one
// state file: which of them are turned away, and when a second daemon can be
// forked beside a live one. Every system call on the file is a step of its own.
module Contention {
  import opened Wrappers
  import opened StateFile

  datatype Attach =
    | Opening
    | Reading(fd: Inode)
    | Deciding(existing: Option<Record>)
    | Removing                  // what it has read is over, or its process is gone
    | Validating
    | Forking
    | Falling                   // forked; about to create the fallback record
    | Filling(fd: Inode)      // has created it, empty so far
    | Waiting                   // spawned; polls until its deadline
    | TurnedAway                // a live session answers already
    | Refused                   // invalid media, or check mode

  datatype Daemon =
    | Unborn
    | Idle
    | Writing(fd: Inode, state: SessionState)   // a temporary file, empty so far
    | Moving(fd: Inode, state: SessionState)    // a temporary file with the record for `state`
    | Over                                          // its terminal record is in place
    | Gone

  /** One attach, and the daemon it may fork; `said` is the state of the daemon's latest record. */
  datatype Proc = Proc(attach: Attach, check: bool, daemon: Daemon, pid: nat, said: Option<SessionState>)

  datatype System = System(fs: FileSystem, procs: seq<Proc>)
  {
    predicate Forked(k: nat) {
      k < |procs| && procs[k].daemon != Unborn
    }
  }

  /** `ok`: the images validate. `alive`: a process that is none of the daemons has the pid in question. */
  datatype Event =
    | AttachStep(k: nat, ok: bool, alive: bool)
    | DaemonStep(k: nat, state: SessionState)
    | End(k: nat)

  predicate Runs(d: Daemon) {
    d != Unborn && d != Gone
  }

  ghost predicate IsDaemon(s: System, pid: nat) {
    exists k :: 0 <= k < |s.procs| && s.procs[k].pid == pid && Runs(s.procs[k].daemon)
  }

  ghost predicate Alive(s: System, pid: nat, alive: bool) {
    IsDaemon(s, pid) || (alive && forall k :: 0 <= k < |s.procs| && s.procs[k].pid == pid ==> s.procs[k].daemon == Unborn)
  }

  /** The state a daemon may report after `said`. */
  predicate Follows(said: Option<SessionState>, state: SessionState) {
    match said
    case None => state == Starting
    case Some(Starting) => state == Connecting || state == Errored
    case Some(Connecting) => state != Starting
    case Some(Attached) => state != Starting && state != Connecting
    case Some(_) => false
  }

  // --- Steps ---

  ghost function AttachNext(s: System, k: nat, ok: bool, alive: bool): System
    requires k < |s.procs|
  {
    var p := s.procs[k];
    var At := (pc: Attach) => s.(procs := s.procs[k := p.(attach := pc)]);
    match p.attach
    case Opening => At(if s.fs.link.Some? then Reading(s.fs.link.value) else Deciding(None))
    case Reading(fd) => At(Deciding(Parse(s.fs, fd)))
    case Deciding(existing) =>
      At(if existing.None? then Validating
         else if Alive(s, existing.value.pid, alive) && !Terminal(existing.value.state) then TurnedAway
         else Removing)
    case Removing => At(Validating).(fs := s.fs.(link := None))
    case Validating => At(if ok && !p.check then Forking else Refused)
    case Forking => s.(procs := s.procs[k := p.(attach := Falling, daemon := Idle)])
    case Falling =>
      if s.fs.link.Some? then At(Waiting)
      else At(Filling(s.fs.next)).(fs := NewInode(s.fs).(link := Some(s.fs.next)))
    case Filling(fd) => At(Waiting).(fs := Fill(s.fs, fd, Record(p.pid, Starting)))
    case _ => s
  }

  function DaemonNext(s: System, k: nat, state: SessionState): System
    requires k < |s.procs|
  {
    var p := s.procs[k];
    match p.daemon
    case Idle =>
      if Follows(p.said, state) then System(NewInode(s.fs), s.procs[k := p.(daemon := Writing(s.fs.next, state))]) else s
    case Writing(fd, st) =>
      System(Fill(s.fs, fd, Record(p.pid, st)), s.procs[k := p.(daemon := Moving(fd, st))])
    case Moving(fd, st) =>
      System(s.fs.(link := Some(fd)), s.procs[k := p.(daemon := if Terminal(st) then Over else Idle, said := Some(st))])
    case _ => s
  }

  ghost function Next(s: System, e: Event): System {
    if e.k >= |s.procs| then s
    else
      match e
      case AttachStep(k, ok, alive) => AttachNext(s, k, ok, alive)
      case DaemonStep(k, state) => DaemonNext(s, k, state)
      case End(k) => if Runs(s.procs[k].daemon) then s.(procs := s.procs[k := s.procs[k].(daemon := Gone)]) else s
  }

  ghost function Run(s: System, events: seq<Event>): System
    decreases |events|
  {
    if events == [] then s else Run(Next(s, events[0]), events[1..])
  }

  /** Attaches that have not begun, over whatever lies at the path. */
  function Start(leftover: Option<Content>, checks: seq<bool>, pids: seq<nat>): System
    requires |checks| == |pids|
  {
    System(match leftover
           case None => FileSystem(map[], None, 0)
           case Some(content) => FileSystem(map[0 := content], Some(0), 1),
           seq(|pids|, k requires 0 <= k < |pids| => Proc(Opening, checks[k], Unborn, pids[k], None)))
  }

  // --- What every run keeps ---

  function Temp(p: Proc): Option<Inode> {
    match p.daemon
    case Writing(fd, _) => Some(fd)
    case Moving(fd, _) => Some(fd)
    case _ => None
  }

  predicate BeforeFork(a: Attach) {
    !(a.Falling? || a.Filling? || a.Waiting?)
  }

  /** One process by itself. */
  predicate ProcOk(fs: FileSystem, p: Proc) {
    && (BeforeFork(p.attach) <==> p.daemon == Unborn)
    && (p.attach == Forking ==> !p.check)
    && (p.attach.Filling? ==> p.attach.fd in fs.inodes && fs.inodes[p.attach.fd] == Torn)
    && (p.attach.Reading? ==> p.attach.fd in fs.inodes)
    && (Temp(p).Some? ==> Temp(p).value in fs.inodes && fs.link != Temp(p))
    && (p.daemon.Moving? ==> fs.inodes[p.daemon.fd] == Whole(Record(p.pid, p.daemon.state)))
    && (p.daemon.Writing? || p.daemon.Moving? ==> Follows(p.said, p.daemon.state))
    && (p.daemon == Unborn ==> p.said == None)
    && (p.daemon == Idle ==> p.said.Some? ==> !Terminal(p.said.value))
  }

  /** Two processes never write the same file, and nobody reads a temporary one. */
  predicate PairOk(p: Proc, q: Proc) {
    && p.pid != q.pid
    && (Temp(p).Some? ==> Temp(q) != Temp(p))
    && (p.attach.Filling? ==> q.attach != p.attach)
  }

  predicate FilesApart(p: Proc, q: Proc) {
    Temp(p).Some? ==> q.attach != Filling(Temp(p).value) && q.attach != Reading(Temp(p).value)
  }

  predicate FsOk(fs: FileSystem) {
    && (forall fd :: fd in fs.inodes ==> fd < fs.next)
    && (fs.link.Some? ==> fs.link.value in fs.inodes)
  }

  ghost predicate Ok(s: System) {
    && FsOk(s.fs)
    && (forall k :: 0 <= k < |s.procs| ==> ProcOk(s.fs, s.procs[k]))
    && (forall k, m :: 0 <= k < |s.procs| && 0 <= m < |s.procs| && k != m ==> PairOk(s.procs[k], s.procs[m]))
    && (forall k, m :: 0 <= k < |s.procs| && 0 <= m < |s.procs| ==> FilesApart(s.procs[k], s.procs[m]))
  }

  lemma StartOk(leftover: Option<Content>, checks: seq<bool>, pids: seq<nat>)
    requires |checks| == |pids| && forall i, j :: 0 <= i < j < |pids| ==> pids[i] != pids[j]
    ensures Ok(Start(leftover, checks, pids))
  {
  }

  /** What the other processes need of a process that has moved. */
  predicate Fits(fs: FileSystem, p: Proc, q: Proc) {
    ProcOk(fs, q) && PairOk(p, q) && PairOk(q, p) && FilesApart(p, q) && FilesApart(q, p)
  }

  /** One process has moved, and the files with it. */
  lemma Moved(s: System, k: nat, p: Proc, fs: FileSystem)
    requires Ok(s) && k < |s.procs| && FsOk(fs) && ProcOk(fs, p) && FilesApart(p, p)
    requires forall m :: 0 <= m < |s.procs| && m != k ==> Fits(fs, p, s.procs[m])
    ensures Ok(System(fs, s.procs[k := p]))
  {
    hide ProcOk, PairOk, FilesApart, FsOk;
    var t := System(fs, s.procs[k := p]);
    forall m | 0 <= m < |t.procs| ensures ProcOk(t.fs, t.procs[m]) {
      assert m != k ==> Fits(fs, p, s.procs[m]);
    }
    forall a, b | 0 <= a < |t.procs| && 0 <= b < |t.procs|
      ensures (a != b ==> PairOk(t.procs[a], t.procs[b])) && FilesApart(t.procs[a], t.procs[b])
    {
      assert a != k ==> Fits(fs, p, s.procs[a]);
      assert b != k ==> Fits(fs, p, s.procs[b]);
    }
  }

  lemma Others(s: System, k: nat, m: nat)
    requires Ok(s) && k < |s.procs| && m < |s.procs| && m != k
    ensures Fits(s.fs, s.procs[k], s.procs[m]) && FilesApart(s.procs[k], s.procs[k]) && ProcOk(s.fs, s.procs[k])
  {
    hide ProcOk, PairOk, FilesApart, FsOk;
  }

  lemma Own(s: System, k: nat)
    requires Ok(s) && k < |s.procs|
    ensures FilesApart(s.procs[k], s.procs[k]) && ProcOk(s.fs, s.procs[k]) && FsOk(s.fs)
  {
    hide ProcOk, PairOk, FilesApart, FsOk;
  }

  lemma OkNew(s: System, k: nat, p: Proc, link: bool)
    requires Ok(s) && k < |s.procs|
    requires var fs := NewInode(s.fs);
             || (link && s.fs.link == None && s.procs[k].attach == Falling && p == s.procs[k].(attach := Filling(s.fs.next)))
             || (!link && s.procs[k].daemon == Idle && p.daemon.Writing? && p == s.procs[k].(daemon := Writing(s.fs.next, p.daemon.state))
                 && Follows(p.said, p.daemon.state))
    ensures Ok(System(if link then NewInode(s.fs).(link := Some(s.fs.next)) else NewInode(s.fs), s.procs[k := p]))
  {
    hide Ok;
    var fs := if link then NewInode(s.fs).(link := Some(s.fs.next)) else NewInode(s.fs);
    Own(s, k);
    forall m | 0 <= m < |s.procs| && m != k ensures Fits(fs, p, s.procs[m]) {
      Others(s, k, m);
    }
    Moved(s, k, p, fs);
  }

  lemma OkFill(s: System, k: nat, p: Proc)
    requires Ok(s) && k < |s.procs|
    requires var q := s.procs[k];
             || (q.attach.Filling? && p == q.(attach := Waiting))
             || (q.daemon.Writing? && p == q.(daemon := Moving(q.daemon.fd, q.daemon.state)))
    ensures var q := s.procs[k];
            Ok(System(if q.attach.Filling? && p == q.(attach := Waiting) then Fill(s.fs, q.attach.fd, Record(q.pid, Starting))
                      else Fill(s.fs, q.daemon.fd, Record(q.pid, q.daemon.state)), s.procs[k := p]))
  {
    hide Ok;
    var q := s.procs[k];
    var fs := if q.attach.Filling? && p == q.(attach := Waiting) then Fill(s.fs, q.attach.fd, Record(q.pid, Starting))
              else Fill(s.fs, q.daemon.fd, Record(q.pid, q.daemon.state));
    Own(s, k);
    forall m | 0 <= m < |s.procs| && m != k ensures Fits(fs, p, s.procs[m]) {
      Others(s, k, m);
    }
    Moved(s, k, p, fs);
  }

  /** A process that has only let go of what it held, or taken hold of the file at the path. */
  lemma OkPc(s: System, k: nat, p: Proc)
    requires Ok(s) && k < |s.procs| && p.pid == s.procs[k].pid && ProcOk(s.fs, p)
    requires Temp(p) == Temp(s.procs[k]) || Temp(p) == None
    requires p.attach.Filling? ==> p.attach == s.procs[k].attach
    requires p.attach.Reading? ==> p.attach == s.procs[k].attach || s.fs.link == Some(p.attach.fd)
    ensures Ok(System(s.fs, s.procs[k := p]))
  {
    hide Ok;
    Own(s, k);
    forall m | 0 <= m < |s.procs| && m != k ensures Fits(s.fs, p, s.procs[m]) {
      Others(s, k, m);
    }
    Moved(s, k, p, s.fs);
  }

  lemma OkLink(s: System, k: nat, p: Proc, link: Option<Inode>)
    requires Ok(s) && k < |s.procs| && p.pid == s.procs[k].pid && p.attach == (if link.None? then Validating else s.procs[k].attach)
    requires link.None? ==> s.procs[k].attach == Removing && p == s.procs[k].(attach := Validating)
    requires link.Some? ==> s.procs[k].daemon.Moving? && link.value == s.procs[k].daemon.fd && Temp(p) == None
                            && (p.daemon == Idle ==> p.said.Some? ==> !Terminal(p.said.value)) && p.daemon != Unborn && p.check == s.procs[k].check
    ensures Ok(System(s.fs.(link := link), s.procs[k := p]))
  {
    hide Ok;
    var fs := s.fs.(link := link);
    Own(s, k);
    forall m | 0 <= m < |s.procs| && m != k ensures Fits(fs, p, s.procs[m]) {
      Others(s, k, m);
    }
    Moved(s, k, p, fs);
  }

  lemma AttachOk(s: System, k: nat, ok: bool, alive: bool)
    requires Ok(s) && k < |s.procs|
    ensures Ok(AttachNext(s, k, ok, alive))
  {
    hide Ok, Alive;
    var p := s.procs[k];
    var t := AttachNext(s, k, ok, alive);
    Own(s, k);
    match p.attach
    case Removing => OkLink(s, k, p.(attach := Validating), None);
    case Falling =>
      if s.fs.link.Some? {
        OkPc(s, k, t.procs[k]);
      } else {
        OkNew(s, k, p.(attach := Filling(s.fs.next)), true);
      }
    case Filling(fd) => OkFill(s, k, p.(attach := Waiting));
    case Waiting =>
    case TurnedAway =>
    case Refused =>
    case _ => OkPc(s, k, t.procs[k]);
  }

  lemma DaemonOk(s: System, k: nat, state: SessionState)
    requires Ok(s) && k < |s.procs|
    ensures Ok(DaemonNext(s, k, state))
  {
    hide Ok;
    var p := s.procs[k];
    Own(s, k);
    match p.daemon
    case Idle =>
      if Follows(p.said, state) {
        OkNew(s, k, p.(daemon := Writing(s.fs.next, state)), false);
      }
    case Writing(fd, st) => OkFill(s, k, p.(daemon := Moving(fd, st)));
    case Moving(fd, st) => OkLink(s, k, p.(daemon := if Terminal(st) then Over else Idle, said := Some(st)), Some(fd));
    case _ =>
  }

  lemma NextOk(s: System, e: Event)
    requires Ok(s)
    ensures Ok(Next(s, e))
  {
    hide Ok, AttachNext, DaemonNext;
    if e.k < |s.procs| {
      match e
      case AttachStep(k, ok, alive) => AttachOk(s, k, ok, alive);
      case DaemonStep(k, state) => DaemonOk(s, k, state);
      case End(k) =>
        if Runs(s.procs[k].daemon) {
          Own(s, k);
          OkPc(s, k, s.procs[k].(daemon := Gone));
        }
    }
  }

  lemma {:induction false} RunOk(s: System, events: seq<Event>)
    requires Ok(s)
    ensures Ok(Run(s, events))
    decreases |events|
  {
    hide Ok, Next;
    if events != [] {
      NextOk(s, events[0]);
      RunOk(Next(s, events[0]), events[1..]);
    }
  }
}

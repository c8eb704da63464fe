// When a session stays the only one: exactly which states of any number of
// attaches for one session id let nobody fork a second daemon beside a live one.
module SingleDaemon {
  import opened Wrappers
  import opened StateFile
  import opened Contention

  /** The daemon runs and has not begun to report its end. */
  predicate Live(p: Proc) {
    match p.daemon
    case Idle => true
    case Writing(_, state) => !Terminal(state)
    case Moving(_, state) => !Terminal(state)
    case _ => false
  }

  /** The d-th daemon neither ends nor decides to. */
  predicate Spares(e: Event, d: nat) {
    match e
    case AttachStep(_, _, _) => true
    case DaemonStep(k, state) => k == d ==> !Terminal(state)
    case End(k) => k != d
  }

  predicate Undisturbed(events: seq<Event>, d: nat) {
    forall i :: 0 <= i < |events| ==> Spares(events[i], d)
  }

  /** A record that turns an attach away while the daemon of `p` runs. */
  predicate Holds(p: Proc, r: Record) {
    r.pid == p.pid && !Terminal(r.state)
  }

  predicate HoldsAt(fs: FileSystem, p: Proc, fd: Inode) {
    fd in fs.inodes && fs.inodes[fd].Whole? && Holds(p, fs.inodes[fd].record)
  }

  /** A file that reads as no record, and that nobody but the d-th attach will make one. */
  predicate Blank(s: System, d: nat, fd: Inode) {
    && fd in s.fs.inodes && s.fs.inodes[fd] == Torn
    && forall m :: 0 <= m < |s.procs| && m != d ==> s.procs[m].attach != Filling(fd)
  }

  /** An attach under way that will neither fork nor remove the d-th daemon's record. */
  predicate Harmless(s: System, d: nat, k: nat)
    requires d < |s.procs| && k < |s.procs|
  {
    var p, q := s.procs[d], s.procs[k];
    && (k != d ==> q.daemon == Unborn || q.daemon == Over || q.daemon == Gone)
    && match q.attach
       case Reading(fd) => HoldsAt(s.fs, p, fd) || (q.check && Blank(s, d, fd))
       case Deciding(existing) => if existing.Some? then Holds(p, existing.value) else q.check
       case Removing => false
       case Validating => q.check
       case Forking => false
       case _ => true
  }

  /** The d-th daemon's record lies at the path, no other daemon will replace it, and no attach is past reading anything else. */
  predicate Guarded(s: System, d: nat) {
    && d < |s.procs| && s.fs.link.Some? && HoldsAt(s.fs, s.procs[d], s.fs.link.value)
    && forall k :: 0 <= k < |s.procs| ==> Harmless(s, d, k)
  }

  // --- A guarded session stays the only one ---

  /** What the m-th process is reading stays what it was, or becomes the d-th daemon's record. */
  predicate ReadingKept(s: System, fs: FileSystem, d: nat, m: nat)
    requires d < |s.procs| && m < |s.procs|
  {
    s.procs[m].attach.Reading? ==>
      var fd := s.procs[m].attach.fd;
      && (HoldsAt(s.fs, s.procs[d], fd) ==> HoldsAt(fs, s.procs[d], fd))
      && (Blank(s, d, fd) ==> HoldsAt(fs, s.procs[d], fd) || (fd in fs.inodes && fs.inodes[fd] == Torn))
  }

  lemma HarmlessKept(s: System, k: nat, p: Proc, fs: FileSystem, d: nat, m: nat)
    requires Guarded(s, d) && k < |s.procs| && m < |s.procs| && m != k && p.pid == s.procs[k].pid
    requires p.attach.Filling? ==> p.attach == s.procs[k].attach
    requires ReadingKept(s, fs, d, m)
    ensures Harmless(System(fs, s.procs[k := p]), d, m)
  {
    assert Harmless(s, d, m);
    var t := System(fs, s.procs[k := p]);
    if s.procs[m].attach.Reading? && Blank(s, d, s.procs[m].attach.fd) {
      forall x | 0 <= x < |t.procs| && x != d ensures t.procs[x].attach != Filling(s.procs[m].attach.fd) {
        assert s.procs[x].attach != Filling(s.procs[m].attach.fd);
      }
    }
  }

  lemma GuardMoved(s: System, k: nat, p: Proc, fs: FileSystem, d: nat)
    requires Guarded(s, d) && k < |s.procs| && p.pid == s.procs[k].pid
    requires fs.link.Some? && HoldsAt(fs, s.procs[d], fs.link.value)
    requires p.attach.Filling? ==> p.attach == s.procs[k].attach
    requires forall m :: 0 <= m < |s.procs| && m != k ==> ReadingKept(s, fs, d, m)
    requires Harmless(System(fs, s.procs[k := p]), d, k)
    ensures Guarded(System(fs, s.procs[k := p]), d)
  {
    hide Harmless, ReadingKept;
    var t := System(fs, s.procs[k := p]);
    forall m | 0 <= m < |s.procs| ensures Harmless(t, d, m) {
      if m != k {
        HarmlessKept(s, k, p, fs, d, m);
      }
    }
  }

  /** Nobody has forked, and the d-th session is still on and guarded. */
  ghost predicate StillGuarded(s: System, t: System, d: nat) {
    && Guarded(t, d) && Live(t.procs[d]) && |t.procs| == |s.procs|
    && forall k :: 0 <= k < |s.procs| ==> t.Forked(k) == s.Forked(k)
  }

  lemma AliveOf(s: System, d: nat, alive: bool)
    requires d < |s.procs| && Live(s.procs[d])
    ensures Alive(s, s.procs[d].pid, alive)
  {
  }

  lemma FilledKept(s: System, k: nat, d: nat)
    requires Ok(s) && Guarded(s, d) && k < |s.procs| && s.procs[k].attach.Filling?
    ensures var p := s.procs[k].(attach := Waiting);
            Guarded(System(Fill(s.fs, s.procs[k].attach.fd, Record(p.pid, Starting)), s.procs[k := p]), d)
  {
    hide Ok;
    var p := s.procs[k].(attach := Waiting);
    var fs := Fill(s.fs, s.procs[k].attach.fd, Record(p.pid, Starting));
    Own(s, k);
    assert Harmless(s, d, k);
    forall m | 0 <= m < |s.procs| && m != k ensures ReadingKept(s, fs, d, m) {}
    GuardMoved(s, k, p, fs, d);
  }

  lemma AttachGuarded(s: System, k: nat, ok: bool, alive: bool, d: nat)
    requires Ok(s) && Guarded(s, d) && Live(s.procs[d]) && k < |s.procs|
    ensures StillGuarded(s, AttachNext(s, k, ok, alive), d)
  {
    hide Ok, Alive;
    var p := s.procs[k];
    var t := AttachNext(s, k, ok, alive);
    Own(s, k);
    AliveOf(s, d, alive);
    assert Harmless(s, d, k);
    if p.attach.Filling? {
      FilledKept(s, k, d);
    } else if t != s {
      GuardMoved(s, k, t.procs[k], s.fs, d);
    }
  }

  lemma TempKept(s: System, d: nat, p: Proc)
    requires Ok(s) && Guarded(s, d) && s.procs[d].daemon.Writing? && p == s.procs[d].(daemon := p.daemon)
    ensures Guarded(System(Fill(s.fs, s.procs[d].daemon.fd, Record(p.pid, s.procs[d].daemon.state)), s.procs[d := p]), d)
  {
    hide Ok;
    var fs := Fill(s.fs, s.procs[d].daemon.fd, Record(p.pid, s.procs[d].daemon.state));
    Own(s, d);
    assert Harmless(s, d, d);
    forall m | 0 <= m < |s.procs| && m != d ensures ReadingKept(s, fs, d, m) {
      Others(s, d, m);
    }
    GuardMoved(s, d, p, fs, d);
  }

  lemma DaemonGuarded(s: System, d: nat, state: SessionState)
    requires Ok(s) && Guarded(s, d) && Live(s.procs[d]) && !Terminal(state)
    ensures StillGuarded(s, DaemonNext(s, d, state), d)
  {
    hide Ok;
    var t := DaemonNext(s, d, state);
    Own(s, d);
    assert Harmless(s, d, d);
    if s.procs[d].daemon.Writing? {
      TempKept(s, d, t.procs[d]);
    } else if t != s {
      GuardMoved(s, d, t.procs[d], t.fs, d);
    }
  }

  lemma NextGuarded(s: System, e: Event, d: nat)
    requires Ok(s) && Guarded(s, d) && Live(s.procs[d]) && Spares(e, d)
    ensures StillGuarded(s, Next(s, e), d)
  {
    hide Ok, AttachNext, HoldsAt, Blank;
    if e.k < |s.procs| {
      assert Harmless(s, d, e.k);
      match e
      case AttachStep(k, ok, alive) => AttachGuarded(s, k, ok, alive, d);
      case DaemonStep(k, state) =>
        if k == d {
          DaemonGuarded(s, d, state);
        }
      case End(k) =>
        if Runs(s.procs[k].daemon) {
          EndGuarded(s, k, d);
        }
    }
  }

  lemma EndGuarded(s: System, k: nat, d: nat)
    requires Ok(s) && Guarded(s, d) && Live(s.procs[d]) && k < |s.procs| && k != d && Runs(s.procs[k].daemon)
    ensures StillGuarded(s, s.(procs := s.procs[k := s.procs[k].(daemon := Gone)]), d)
  {
    hide Ok;
    Own(s, k);
    assert Harmless(s, d, k);
    GuardMoved(s, k, s.procs[k].(daemon := Gone), s.fs, d);
  }

  lemma {:induction false} RunGuarded(s: System, events: seq<Event>, d: nat)
    requires Ok(s) && Guarded(s, d) && Live(s.procs[d]) && Undisturbed(events, d)
    ensures StillGuarded(s, Run(s, events), d)
    decreases |events|
  {
    hide Ok, Guarded, Next, Live;
    if events != [] {
      NextOk(s, events[0]);
      NextGuarded(s, events[0], d);
      RunGuarded(Next(s, events[0]), events[1..], d);
    }
  }

  // --- An unguarded one does not ---

  /** Some course of events, the d-th session going on, makes another attach fork. */
  ghost predicate CanFork(s: System, d: nat) {
    exists events, m: nat :: Undisturbed(events, d) && m < |s.procs| && !s.Forked(m) && Run(s, events).Forked(m)
  }

  lemma ForkedStays(s: System, e: Event)
    ensures |Next(s, e).procs| == |s.procs|
    ensures forall m: nat :: s.Forked(m) ==> Next(s, e).Forked(m)
  {
    hide Alive, Follows, Terminal, NewInode, Fill, Parse;
  }

  /** One event earlier. */
  lemma Before(s: System, e: Event, d: nat)
    requires Spares(e, d) && CanFork(Next(s, e), d)
    ensures CanFork(s, d)
  {
    hide Next, Spares;
    ForkedStays(s, e);
    var events, m: nat :| Undisturbed(events, d) && m < |Next(s, e).procs| && !Next(s, e).Forked(m) && Run(Next(s, e), events).Forked(m);
    var all := [e] + events;
    assert all[0] == e && all[1..] == events;
    assert Undisturbed(all, d);
    assert Run(s, all).Forked(m);
  }

  lemma ForkingForks(s: System, k: nat, d: nat)
    requires Ok(s) && k < |s.procs| && s.procs[k].attach == Forking
    ensures CanFork(s, d)
  {
    hide Ok;
    Own(s, k);
    var events := [AttachStep(k, true, false)];
    assert events[1..] == [];
    assert Run(s, events) == Next(s, events[0]);
    assert Undisturbed(events, d) && !s.Forked(k) && Run(s, events).Forked(k);
  }

  /** The attach takes its next step, and some attach forks after it. */
  lemma StepForks(s: System, k: nat, d: nat)
    requires k < |s.procs| && CanFork(AttachNext(s, k, true, false), d)
    ensures CanFork(s, d)
  {
    hide AttachNext, CanFork;
    Before(s, AttachStep(k, true, false), d);
  }

  lemma ValidatingForks(s: System, k: nat, d: nat)
    requires Ok(s) && k < |s.procs| && s.procs[k].attach == Validating && !s.procs[k].check
    ensures CanFork(s, d)
  {
    hide Ok, CanFork;
    AttachOk(s, k, true, false);
    ForkingForks(AttachNext(s, k, true, false), k, d);
    StepForks(s, k, d);
  }

  lemma NoneForks(s: System, k: nat, d: nat)
    requires Ok(s) && k < |s.procs| && s.procs[k].attach == Deciding(None) && !s.procs[k].check
    ensures CanFork(s, d)
  {
    hide Ok, CanFork;
    AttachOk(s, k, true, false);
    ValidatingForks(AttachNext(s, k, true, false), k, d);
    StepForks(s, k, d);
  }

  /** An attach that has not begun and means to fork. */
  predicate Fresh(s: System, i: nat) {
    i < |s.procs| && s.procs[i].attach == Opening && !s.procs[i].check
  }

  lemma EmptyForks(s: System, i: nat, d: nat)
    requires Ok(s) && Fresh(s, i) && s.fs.link == None
    ensures CanFork(s, d)
  {
    hide Ok, CanFork;
    AttachOk(s, i, true, false);
    NoneForks(AttachNext(s, i, true, false), i, d);
    StepForks(s, i, d);
  }

  /** Whoever removes a record forks itself, or lets one that has not begun fork. */
  lemma RemovingForks(s: System, k: nat, i: nat, d: nat)
    requires Ok(s) && k < |s.procs| && s.procs[k].attach == Removing && (!s.procs[k].check || Fresh(s, i))
    ensures CanFork(s, d)
  {
    hide Ok, CanFork;
    AttachOk(s, k, true, false);
    var t := AttachNext(s, k, true, false);
    if !s.procs[k].check {
      ValidatingForks(t, k, d);
    } else {
      EmptyForks(t, i, d);
    }
    StepForks(s, k, d);
  }

  lemma DeadForks(s: System, k: nat, r: Record, i: nat, d: nat)
    requires Ok(s) && k < |s.procs| && s.procs[k].attach == Deciding(Some(r)) && (!s.procs[k].check || Fresh(s, i))
    requires Terminal(r.state) || !Alive(s, r.pid, false)
    ensures CanFork(s, d)
  {
    hide Ok, CanFork, Alive;
    AttachOk(s, k, true, false);
    RemovingForks(AttachNext(s, k, true, false), k, i, d);
    StepForks(s, k, d);
  }

  /** The process of a record that is not the d-th daemon's can end first. */
  lemma StaleForks(s: System, k: nat, r: Record, i: nat, d: nat)
    requires Ok(s) && k < |s.procs| && s.procs[k].attach == Deciding(Some(r)) && (!s.procs[k].check || Fresh(s, i))
    requires d < |s.procs| && !Holds(s.procs[d], r)
    ensures CanFork(s, d)
  {
    hide Ok, CanFork;
    if Terminal(r.state) || !IsDaemon(s, r.pid) {
      DeadForks(s, k, r, i, d);
    } else {
      var e: nat :| e < |s.procs| && s.procs[e].pid == r.pid && Runs(s.procs[e].daemon);
      var t := Next(s, End(e));
      NextOk(s, End(e));
      NotDaemon(s, e);
      DeadForks(t, k, r, i, d);
      Before(s, End(e), d);
    }
  }

  lemma NotDaemon(s: System, e: nat)
    requires Ok(s) && e < |s.procs| && Runs(s.procs[e].daemon)
    ensures !IsDaemon(Next(s, End(e)), s.procs[e].pid)
  {
    var t := Next(s, End(e));
    forall m | 0 <= m < |s.procs| && m != e ensures t.procs[m].pid != s.procs[e].pid {
      DistinctPids(s, e, m);
    }
  }

  /** Reading a whole record that is not the d-th daemon's. */
  lemma ReadingWholeForks(s: System, k: nat, fd: Inode, i: nat, d: nat)
    requires Ok(s) && k < |s.procs| && s.procs[k].attach == Reading(fd) && (!s.procs[k].check || Fresh(s, i))
    requires d < |s.procs| && fd in s.fs.inodes && s.fs.inodes[fd].Whole? && !Holds(s.procs[d], s.fs.inodes[fd].record)
    ensures CanFork(s, d)
  {
    hide Ok, CanFork;
    AttachOk(s, k, true, false);
    StaleForks(AttachNext(s, k, true, false), k, s.fs.inodes[fd].record, i, d);
    StepForks(s, k, d);
  }

  lemma ReadingForks(s: System, k: nat, fd: Inode, i: nat, d: nat)
    requires Ok(s) && k < |s.procs| && s.procs[k].attach == Reading(fd) && (!s.procs[k].check || Fresh(s, i))
    requires d < |s.procs| && !HoldsAt(s.fs, s.procs[d], fd) && !(s.procs[k].check && Blank(s, d, fd))
    ensures CanFork(s, d)
  {
    hide Ok, CanFork;
    Own(s, k);
    if s.fs.inodes[fd].Whole? {
      ReadingWholeForks(s, k, fd, i, d);
    } else if !s.procs[k].check {
      AttachOk(s, k, true, false);
      NoneForks(AttachNext(s, k, true, false), k, d);
      StepForks(s, k, d);
    } else {
      var m: nat :| m < |s.procs| && m != d && s.procs[m].attach == Filling(fd);
      DistinctPids(s, m, d);
      AttachOk(s, m, true, false);
      ReadingWholeForks(AttachNext(s, m, true, false), k, fd, i, d);
      StepForks(s, m, d);
    }
  }

  lemma DistinctPids(s: System, a: nat, b: nat)
    requires Ok(s) && a < |s.procs| && b < |s.procs| && a != b
    ensures s.procs[a].pid != s.procs[b].pid
  {
    assert PairOk(s.procs[a], s.procs[b]);
  }

  /** Anything but the d-th daemon's record at the path lets an attach that begins now fork. */
  lemma LinkForks(s: System, i: nat, d: nat)
    requires Ok(s) && Fresh(s, i) && d < |s.procs| && s.fs.link.Some? && !HoldsAt(s.fs, s.procs[d], s.fs.link.value)
    ensures CanFork(s, d)
  {
    hide Ok, CanFork;
    AttachOk(s, i, true, false);
    ReadingForks(AttachNext(s, i, true, false), i, s.fs.link.value, i, d);
    StepForks(s, i, d);
  }

  /** Another daemon can put its record at the path. */
  lemma MovingForks(s: System, e: nat, i: nat, d: nat)
    requires Ok(s) && Fresh(s, i) && d < |s.procs| && e < |s.procs| && e != d && s.procs[e].daemon.Moving?
    ensures CanFork(s, d)
  {
    hide Ok, CanFork;
    Own(s, e);
    DistinctPids(s, e, d);
    DaemonOk(s, e, Starting);
    LinkForks(DaemonNext(s, e, Starting), i, d);
    Before(s, DaemonStep(e, Starting), d);
  }

  lemma WritingForks(s: System, e: nat, i: nat, d: nat)
    requires Ok(s) && Fresh(s, i) && d < |s.procs| && e < |s.procs| && e != d && s.procs[e].daemon.Writing?
    ensures CanFork(s, d)
  {
    hide Ok, CanFork;
    DaemonOk(s, e, Starting);
    MovingForks(DaemonNext(s, e, Starting), e, i, d);
    Before(s, DaemonStep(e, Starting), d);
  }

  lemma RivalForks(s: System, e: nat, i: nat, d: nat)
    requires Ok(s) && Fresh(s, i) && d < |s.procs| && e < |s.procs| && e != d
    requires Runs(s.procs[e].daemon) && s.procs[e].daemon != Over
    ensures CanFork(s, d)
  {
    hide Ok, CanFork;
    Own(s, e);
    if s.procs[e].daemon == Idle {
      var next := match s.procs[e].said
                  case None => Starting
                  case Some(Starting) => Connecting
                  case Some(state) => state;
      DaemonOk(s, e, next);
      WritingForks(DaemonNext(s, e, next), e, i, d);
      Before(s, DaemonStep(e, next), d);
    } else if s.procs[e].daemon.Writing? {
      WritingForks(s, e, i, d);
    } else {
      MovingForks(s, e, i, d);
    }
  }

  lemma HarmfulForks(s: System, k: nat, i: nat, d: nat)
    requires Ok(s) && Fresh(s, i) && d < |s.procs| && Live(s.procs[d]) && k < |s.procs| && !Harmless(s, d, k)
    ensures CanFork(s, d)
  {
    hide Ok, CanFork, HoldsAt, Blank, Holds;
    Own(s, k);
    if k != d && s.procs[k].daemon != Unborn && s.procs[k].daemon != Over && s.procs[k].daemon != Gone {
      RivalForks(s, k, i, d);
    } else {
      match s.procs[k].attach
      case Reading(fd) => ReadingForks(s, k, fd, i, d);
      case Deciding(existing) =>
        if existing.Some? {
          StaleForks(s, k, existing.value, i, d);
        } else {
          NoneForks(s, k, d);
        }
      case Removing => RemovingForks(s, k, i, d);
      case Validating => ValidatingForks(s, k, d);
      case Forking => ForkingForks(s, k, d);
      case _ => assert false;
    }
  }

  lemma UnguardedForks(s: System, i: nat, d: nat)
    requires Ok(s) && Fresh(s, i) && d < |s.procs| && Live(s.procs[d]) && !Guarded(s, d)
    ensures CanFork(s, d)
  {
    hide Ok, CanFork, Harmless, HoldsAt;
    if s.fs.link.None? {
      EmptyForks(s, i, d);
    } else if !HoldsAt(s.fs, s.procs[d], s.fs.link.value) {
      LinkForks(s, i, d);
    } else {
      var k: nat :| k < |s.procs| && !Harmless(s, d, k);
      HarmfulForks(s, k, i, d);
    }
  }

  // --- Both directions, in every reachable state ---

  /**
    Whenever an attach is about to begin while a daemon serves its session:
    whatever happens as long as that session goes on, no other attach forks,
    exactly if the session is guarded.
    */
  lemma OnlyDaemonIff(leftover: Option<Content>, checks: seq<bool>, pids: seq<nat>, past: seq<Event>, i: nat, d: nat)
    requires |checks| == |pids| && forall a, b :: 0 <= a < b < |pids| ==> pids[a] != pids[b]
    ensures var s := Run(Start(leftover, checks, pids), past);
            Fresh(s, i) && d < |s.procs| && Live(s.procs[d]) ==>
              (Guarded(s, d) <==>
               forall events, m: nat :: Undisturbed(events, d) && m < |s.procs| && Run(s, events).Forked(m) ==> s.Forked(m))
  {
    hide Ok, Start, Next, Run, Guarded, Live, Fresh;
    var s := Run(Start(leftover, checks, pids), past);
    StartOk(leftover, checks, pids);
    RunOk(Start(leftover, checks, pids), past);
    if Fresh(s, i) && d < |s.procs| && Live(s.procs[d]) {
      if Guarded(s, d) {
        forall events, m: nat | Undisturbed(events, d) && m < |s.procs| && Run(s, events).Forked(m) ensures s.Forked(m) {
          RunGuarded(s, events, d);
        }
      } else {
        UnguardedForks(s, i, d);
        var events, m: nat :| Undisturbed(events, d) && m < |s.procs| && !s.Forked(m) && Run(s, events).Forked(m);
      }
    }
  }

  // --- One attach after the other ---

  /** Only the d-th attach and its daemon have done anything. */
  predicate By(events: seq<Event>, d: nat) {
    forall i :: 0 <= i < |events| ==> events[i].k == d
  }

  /** The leftover is still at the path. */
  predicate LeftAlone(fs: FileSystem, leftover: Option<Content>) {
    match leftover
    case None => fs.link == None
    case Some(content) => fs.link == Some(0) && 0 in fs.inodes && fs.inodes[0] == content
  }

  function Readable(leftover: Option<Content>): Option<Record> {
    if leftover.Some? && leftover.value.Whole? then Some(leftover.value.record) else None
  }

  predicate LinkHolds(fs: FileSystem, r: Record) {
    fs.link.Some? && fs.link.value in fs.inodes && fs.inodes[fs.link.value] == Whole(r)
  }

  /** What lies at the path while an attach is the only one. */
  predicate AloneAt(fs: FileSystem, p: Proc, leftover: Option<Content>) {
    if p.said.Some? then LinkHolds(fs, Record(p.pid, p.said.value))
    else
      var kept := if leftover == Some(Torn) then leftover else None;
      match p.attach
      case Opening => LeftAlone(fs, leftover)
      case Reading(fd) => LeftAlone(fs, leftover) && fs.link == Some(fd)
      case Deciding(existing) => LeftAlone(fs, leftover) && existing == Readable(leftover)
      case Removing => leftover != Some(Torn)
      case Validating => LeftAlone(fs, kept)
      case Forking => LeftAlone(fs, kept)
      case Falling => LeftAlone(fs, kept)
      case Filling(fd) => leftover != Some(Torn) && fs.link == Some(fd)
      case Waiting => if leftover == Some(Torn) then LeftAlone(fs, leftover) else LinkHolds(fs, Record(p.pid, Starting))
      case _ => true
  }

  predicate Alone(s: System, d: nat, leftover: Option<Content>) {
    && d < |s.procs| && AloneAt(s.fs, s.procs[d], leftover)
    && forall k :: 0 <= k < |s.procs| && k != d ==> s.procs[k].attach == Opening && s.procs[k].daemon == Unborn
  }

  lemma AttachAlone(s: System, d: nat, ok: bool, alive: bool, leftover: Option<Content>)
    requires Ok(s) && Alone(s, d, leftover)
    ensures Alone(AttachNext(s, d, ok, alive), d, leftover)
  {
    hide Ok, Alive;
    Own(s, d);
  }

  lemma DaemonAlone(s: System, d: nat, state: SessionState, leftover: Option<Content>)
    requires Ok(s) && Alone(s, d, leftover)
    ensures Alone(DaemonNext(s, d, state), d, leftover)
  {
    hide Ok;
    Own(s, d);
  }

  lemma EndAlone(s: System, d: nat, leftover: Option<Content>)
    requires Alone(s, d, leftover)
    ensures Alone(Next(s, End(d)), d, leftover)
  {
  }

  lemma {:induction false} RunAlone(s: System, events: seq<Event>, d: nat, leftover: Option<Content>)
    requires Ok(s) && Alone(s, d, leftover) && By(events, d)
    ensures Ok(Run(s, events)) && Alone(Run(s, events), d, leftover)
    decreases |events|
  {
    hide Ok, AttachNext, DaemonNext, AloneAt;
    if events != [] {
      var e := events[0];
      NextOk(s, e);
      match e {
        case AttachStep(k, ok, alive) => AttachAlone(s, d, ok, alive, leftover);
        case DaemonStep(k, state) => DaemonAlone(s, d, state, leftover);
        case End(k) => EndAlone(s, d, leftover);
      }
      RunAlone(Next(s, e), events[1..], d, leftover);
    }
  }

  /**
    An attach that has spawned its daemon before any other began leaves a guarded
    session behind, unless a leftover that does not parse has kept the fallback
    record away and the daemon has reported nothing yet.
    */
  lemma SpawnedIsGuarded(leftover: Option<Content>, checks: seq<bool>, pids: seq<nat>, events: seq<Event>, d: nat)
    requires |checks| == |pids| && forall a, b :: 0 <= a < b < |pids| ==> pids[a] != pids[b]
    requires d < |pids| && By(events, d)
    ensures var s := Run(Start(leftover, checks, pids), events);
            && d < |s.procs|
            && (s.procs[d].attach == Waiting && Live(s.procs[d]) ==>
                  (Guarded(s, d) <==> leftover != Some(Torn) || s.procs[d].said != None))
  {
    hide Run, Start, Ok;
    var start := Start(leftover, checks, pids);
    var s := Run(start, events);
    StartOk(leftover, checks, pids);
    StartAlone(leftover, checks, pids, d);
    RunAlone(start, events, d, leftover);
    Own(s, d);
  }

  lemma StartAlone(leftover: Option<Content>, checks: seq<bool>, pids: seq<nat>, d: nat)
    requires |checks| == |pids| && d < |pids|
    ensures Alone(Start(leftover, checks, pids), d, leftover)
  {
  }

  // --- Two attaches at once ---

  /** One more event of a run under construction. */
  lemma {:induction false} Extend(start: System, events: seq<Event>, e: Event)
    ensures Run(start, events + [e]) == Next(Run(start, events), e)
    decreases |events|
  {
    hide Next;
    if events == [] {
      assert events + [e] == [e] && [e][1..] == [];
    } else {
      assert (events + [e])[0] == events[0] && (events + [e])[1..] == events[1..] + [e];
      Extend(Next(start, events[0]), events[1..], e);
    }
  }

  lemma Go(start: System, events: seq<Event>, s: System, e: Event) returns (longer: seq<Event>, t: System)
    requires s == Run(start, events)
    ensures longer == events + [e] && t == Next(s, e) && t == Run(start, longer)
  {
    hide Next, Run;
    Extend(start, events, e);
    longer, t := events + [e], Next(s, e);
  }

  /** Two attaches that read before either has forked both serve a session. */
  lemma BothFork(p: nat, q: nat) returns (events: seq<Event>)
    requires p != q
    ensures var s := Run(Start(None, [false, false], [p, q]), events);
            |s.procs| == 2 && Live(s.procs[0]) && Live(s.procs[1])
  {
    hide Run;
    var start := Start(None, [false, false], [p, q]);
    assert Run(start, []) == start by { RunNothing(start); }
    var a, b := AttachStep(0, true, false), AttachStep(1, true, false);
    var s: System;
    events, s := Go(start, [], start, a);
    events, s := Go(start, events, s, b);
    events, s := Go(start, events, s, a);
    events, s := Go(start, events, s, b);
    events, s := Go(start, events, s, a);
    events, s := Go(start, events, s, b);
    events, s := Go(start, events, s, a);
    events, s := Go(start, events, s, b);
  }

  lemma RunNothing(s: System)
    ensures Run(s, []) == s
  {
  }

  /**
    An attach that has read the record of a dead session, and is overtaken by
    another one, removes the live record the other's daemon has put in its place.
    */
  lemma LiveRecordRemoved(p: nat, q: nat, dead: nat) returns (events: seq<Event>)
    requires p != q && dead != p && dead != q
    ensures var s := Run(Start(Some(Whole(Record(dead, Attached))), [false, false], [p, q]), events);
            && |s.procs| == 2 && Live(s.procs[0]) && s.procs[0].said == Some(Starting)
            && s.fs.link == None && s.procs[1].attach == Validating
  {
    hide Run;
    var start := Start(Some(Whole(Record(dead, Attached))), [false, false], [p, q]);
    assert Run(start, []) == start by { RunNothing(start); }
    var s: System;
    events, s := ReadsDead(start, dead, p, q);
    events, s := Overtakes(start, events, s, dead);
    var b := AttachStep(1, true, false);
    events, s := Go(start, events, s, b);
    events, s := Go(start, events, s, b);
  }

  lemma ReadsDead(start: System, dead: nat, p: nat, q: nat) returns (events: seq<Event>, s: System)
    requires start == Start(Some(Whole(Record(dead, Attached))), [false, false], [p, q])
    ensures s == Run(start, events)
    ensures s == start.(procs := [start.procs[0], start.procs[1].(attach := Deciding(Some(Record(dead, Attached))))])
  {
    hide Run;
    assert Run(start, []) == start by { RunNothing(start); }
    var b := AttachStep(1, true, false);
    events, s := Go(start, [], start, b);
    events, s := Go(start, events, s, b);
  }

  /** The other attach runs until its daemon's first record is at the path. */
  lemma Overtakes(start: System, before: seq<Event>, r: System, dead: nat) returns (events: seq<Event>, s: System)
    requires r == Run(start, before) && |r.procs| == 2 && r.fs == FileSystem(map[0 := Whole(Record(dead, Attached))], Some(0), 1)
    requires r.procs[0].attach == Opening && !r.procs[0].check && r.procs[0].daemon == Unborn && r.procs[0].said == None
    requires r.procs[1].daemon == Unborn && r.procs[0].pid != dead && r.procs[1].pid != dead
    ensures s == Run(start, events) && |s.procs| == 2 && s.procs[1] == r.procs[1]
    ensures s.procs[0].daemon == Idle && s.procs[0].said == Some(Starting) && s.procs[0].pid == r.procs[0].pid
  {
    hide Run;
    var a, c := AttachStep(0, true, false), DaemonStep(0, Starting);
    events, s := Go(start, before, r, a);
    events, s := Go(start, events, s, a);
    events, s := Go(start, events, s, a);
    events, s := Go(start, events, s, a);
    events, s := Go(start, events, s, a);
    events, s := Go(start, events, s, a);
    events, s := Go(start, events, s, c);
    events, s := Go(start, events, s, c);
    events, s := Go(start, events, s, c);
  }
}

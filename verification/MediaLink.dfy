// Handshake and engine joined: what the daemon's receive loop does with the
// bytes of one connection.
module MediaLink {
  import opened Wrappers
  import opened Bytes
  import opened Framing
  import H = Handshake
  import opened Redirection
  import T = IderTarget
  import opened IderEngine
  import opened IderInvariants

  /** One feed more, when the engine still runs. */
  lemma FedOn(e: T.Engine, fed: seq<byte>, chunk: seq<byte>)
    requires !e.stopped && Live(T.Feed(e, fed))
    ensures T.Feed(e, fed + chunk) == T.Feed(T.Feed(e, fed).0, chunk)
  {
    FeedTwice(T.Dispatch, e, fed, chunk);
  }

  /** Once the engine has stopped or raised, later bytes would not have mattered. */
  lemma FedEnough(e: T.Engine, fed: seq<byte>, more: seq<byte>)
    requires !e.stopped
    ensures !Live(T.Feed(e, fed)) ==> SameRun(T.Feed(e, fed), T.Feed(e, fed + more))
  {
    FeedTwice(T.Dispatch, e, fed, more);
    var short, long := T.Feed(e, fed), T.Feed(e, fed + more);
    if !Live(short) {
      assert long.0.(buf := []) == short.0.(buf := []);
      assert long.0.(buf := []).target == short.0.(buf := []).target;
    }
  }

  lemma FedNothing(e: T.Engine)
    requires !e.stopped && Settled(e.buf)
    ensures T.Feed(e, []) == (e, Ok)
  {
    assert e.buf + [] == e.buf;
  }

  lemma AbsIs(engine: IderEngine)
    requires engine.Valid()
    ensures engine.Abs().stopped == engine.stopped && engine.Abs().buf == engine.buf
  {
  }

  /** What one turn of the daemon's loop meets: bytes to receive, a receive timeout, or a reason to leave it. */
  datatype Turn = Go | TimedOut | Leave

  /** How the loop was left: while it could have gone on, because the peer closed, or because the engine stopped or raised. */
  datatype Ending = Open | PeerClosed | Over

  /**
    Connect, feed the leftover, then take turn after turn: leave for a stop
    request or a failed attach gate, go round again after a timeout, or feed
    the next segment. At every ending the engine is as if fed, in one piece,
    the bytes of the stream behind the handshake that have been received; they
    are all of them if the peer closed, and more would have made no difference
    if the engine stopped or raised.
    */
  method Serve(session: RedirectionSession, engine: IderEngine, turns: seq<Turn>)
    returns (failure: Option<H.Failure>, outcome: Outcome, ending: Ending, ghost fed: seq<byte>)
    requires session.buf == [] && engine.Valid() && !engine.stopped && Settled(engine.buf)
    requires {session, session.sock} !! {engine, engine.fs} + engine.Images()
    modifies session, session.sock, engine, engine.Images(), engine.fs
    ensures engine.Valid()
    ensures var c := H.Connect(session.cfg, old(session.sock.Pending()));
            && (c.result.Failed? ==> failure == Some(c.result.failure) && engine.Abs() == old(engine.Abs()))
            && (c.result.Live? ==>
                  && failure == None
                  && fed + session.sock.Pending() == c.result.rest
                  && (engine.Abs(), outcome) == T.Feed(old(engine.Abs()), fed)
                  && (ending.Open? ==> outcome == Ok && !engine.stopped)
                  && (ending.PeerClosed? ==> fed == c.result.rest)
                  && (ending.Over? ==> SameRun((engine.Abs(), outcome), T.Feed(old(engine.Abs()), c.result.rest))))
  {
    hide H.Connect, T.Feed, SameRun, Settled, UpToClose, Quiet, IderEngine.Valid, IderEngine.State, IderEngine.Media, IderEngine.Wired, IderEngine.Images, IderEngine.Abs;
    outcome, ending, fed := Ok, Open, [];
    ghost var e := engine.Abs();
    AbsIs(engine);
    var leftover;
    failure, leftover := session.Connect();
    if failure.Some? {
      return;
    }
    ghost var rest := leftover + session.sock.Pending();
    fed := leftover;
    FedNothing(e);
    if leftover != [] {
      outcome := engine.Feed(leftover);
    }
    var i := 0;
    while outcome.Ok? && !engine.stopped && i < |turns|
      invariant engine.Valid() && i <= |turns|
      invariant fed + session.sock.Pending() == rest
      invariant (engine.Abs(), outcome) == T.Feed(e, fed)
    {
      if turns[i] == Leave {
        return;
      }
      if turns[i] == Go {
        var chunk := session.sock.Recv(RECV_CHUNK);
        if chunk == [] {
          ending := PeerClosed;
          assert fed == rest;
          return;
        }
        assert fed + (chunk + session.sock.Pending()) == (fed + chunk) + session.sock.Pending();
        AbsIs(engine);
        FedOn(e, fed, chunk);
        outcome := engine.Feed(chunk);
        fed := fed + chunk;
      }
      i := i + 1;
    }
    AbsIs(engine);
    if !outcome.Ok? || engine.stopped {
      ending := Over;
      FedEnough(e, fed, session.sock.Pending());
    }
  }

  /** However the same bytes are cut into segments, the handshake is the same, and so is what it leaves to the engine. */
  lemma CutAnywhere(cfg: H.Config, one: seq<seq<byte>>, other: seq<seq<byte>>)
    requires Concat(one) == Concat(other) && [] !in one && [] !in other
    ensures H.Connect(cfg, UpToClose(one)) == H.Connect(cfg, UpToClose(other))
  {
    hide H.Connect;
    NeverCloses(one);
    NeverCloses(other);
  }

  lemma {:induction false} NeverCloses(segments: seq<seq<byte>>)
    requires [] !in segments
    ensures UpToClose(segments) == Concat(segments)
    decreases |segments|
  {
    if segments != [] {
      NeverCloses(segments[1..]);
    }
  }
}

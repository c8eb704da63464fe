// Inbound framing of the IDE-R engine: variable-length messages are cut out of
// an accumulating buffer, each carrying the next 32-bit sequence number.
//
// The framer is generic in the handler that consumes a complete message, so
// nothing proved here depends on what a message means.
module Framing {
  import opened Bytes

  // Inbound command identifiers.
  const CMD_OPEN_SESSION_REPLY: byte := 0x41
  const CMD_CLOSE: byte := 0x43
  const CMD_KEEPALIVE_PING: byte := 0x44
  const CMD_KEEPALIVE_PONG: byte := 0x45
  const CMD_RESET_OCCURRED: byte := 0x46
  const CMD_STATUS_DATA: byte := 0x49
  const CMD_ERROR_OCCURRED: byte := 0x4A
  const CMD_HEARTBEAT: byte := 0x4B
  const CMD_COMMAND_WRITTEN: byte := 0x50
  const CMD_DATA_FROM_HOST: byte := 0x53

  /** Why `feed` raised. Only the first four tear the session down. */
  datatype Error =
    | AfterTeardown      // feed() called on a stopped engine
    | SequenceMismatch
    | UnknownCommand
    | BadOpenReply
    | StructError        // READ_CAPACITY of an image whose block count does not fit
    | WriteGuard         // a guard of MediaImage.write fired

  datatype Outcome = Ok | Raised(error: Error)

  /** What a handler asks of the framer after one message. */
  datatype Verdict = Continue | Close | Raise(error: Error, teardown: bool)

  type Handler<!T> = (T, seq<byte>) -> (T, Verdict)

  datatype Framer<T> = Framer(buf: seq<byte>, inSeq: nat, stopped: bool, target: T)

  datatype PeekResult = Unknown | NeedMore | Length(n: nat)

  function Peek(buf: seq<byte>): (r: PeekResult)
    requires |buf| >= 8
    ensures r.Length? ==> r.n >= 8
  {
    var cmd := buf[0];
    if cmd == CMD_CLOSE || cmd == CMD_KEEPALIVE_PING || cmd == CMD_KEEPALIVE_PONG || cmd == CMD_HEARTBEAT then Length(8)
    else if cmd == CMD_RESET_OCCURRED then Length(9)
    else if cmd == CMD_STATUS_DATA then Length(13)
    else if cmd == CMD_ERROR_OCCURRED then Length(11)
    else if cmd == CMD_COMMAND_WRITTEN then Length(28)
    else if cmd == CMD_OPEN_SESSION_REPLY then
      if |buf| < 30 then NeedMore else Length(30 + buf[29] as int)
    else if cmd == CMD_DATA_FROM_HOST then
      if |buf| < 14 then NeedMore else Length(14 + FromLE(buf[9..11]))
    else Unknown
  }

  /** No complete message, and no unknown command, is waiting in the buffer. */
  predicate Settled(buf: seq<byte>) {
    |buf| < 8 || match Peek(buf)
                 case Unknown => false
                 case NeedMore => true
                 case Length(n) => |buf| < n
  }

  /** What the receive loop does next with the bytes it holds. */
  datatype Step = Wait | Refuse(error: Error) | TakeNext(n: nat)

  /** An unknown command or a wrong sequence number is refused; a complete message is taken. */
  function Next(buf: seq<byte>, inSeq: nat): (s: Step)
    ensures s.TakeNext? ==> 8 <= s.n <= |buf|
    ensures s.Wait? <==> Settled(buf)
  {
    if Settled(buf) then Wait
    else if Peek(buf).Unknown? then Refuse(UnknownCommand)
    else if FromLE(buf[4..8]) != inSeq then Refuse(SequenceMismatch)
    else TakeNext(Peek(buf).n)
  }

  function Advance(inSeq: nat): nat {
    (inSeq + 1) % TWO32
  }

  /** Hand the first `n` bytes over as one message. */
  function Take<T>(h: Handler<T>, f: Framer<T>, n: nat): (Framer<T>, Verdict)
    requires n <= |f.buf|
  {
    var (t, verdict) := h(f.target, f.buf[..n]);
    (Framer(f.buf[n..], Advance(f.inSeq), f.stopped, t), verdict)
  }

  /** Consume every complete message in the buffer. */
  function Drain<T>(h: Handler<T>, f: Framer<T>): (Framer<T>, Outcome)
    decreases |f.buf|
  {
    match Next(f.buf, f.inSeq)
    case Wait => (f, Ok)
    case Refuse(e) => (f.(stopped := true, buf := []), Raised(e))
    case TakeNext(n) =>
      var (g, verdict) := Take(h, f, n);
      match verdict
      case Continue => Drain(h, g)
      case Close => (g.(stopped := true), Ok)
      case Raise(e, teardown) => (g.(stopped := g.stopped || teardown), Raised(e))
  }

  function FeedWith<T>(h: Handler<T>, f: Framer<T>, data: seq<byte>): (Framer<T>, Outcome) {
    if f.stopped then (f, Raised(AfterTeardown))
    else Drain(h, f.(buf := f.buf + data))
  }

  /** The session's receive loop: feed chunk after chunk until the engine stops or raises. */
  function RunWith<T>(h: Handler<T>, f: Framer<T>, chunks: seq<seq<byte>>): (Framer<T>, Outcome)
    decreases |chunks|
  {
    if chunks == [] || f.stopped then (f, Ok)
    else
      var (g, o) := FeedWith(h, f, chunks[0]);
      if o.Raised? then (g, o) else RunWith(h, g, chunks[1..])
  }

  /** Equal in everything but the bytes left over once a session has ended. */
  ghost predicate SameRun<T(!new)>(a: (Framer<T>, Outcome), b: (Framer<T>, Outcome)) {
    && a.1 == b.1
    && a.0.target == b.0.target
    && a.0.inSeq == b.0.inSeq
    && a.0.stopped == b.0.stopped
    && (Live(a) ==> a.0.buf == b.0.buf)
  }

  /** The session goes on. */
  predicate Live<T>(r: (Framer<T>, Outcome)) {
    r.1.Ok? && !r.0.stopped
  }

  // --- Peek only looks at bytes that are already there ---

  lemma PeekStable(buf: seq<byte>, more: seq<byte>)
    requires |buf| >= 8
    requires !Peek(buf).NeedMore?
    ensures Peek(buf + more) == Peek(buf)
  {
    if |buf| >= 14 {
      assert (buf + more)[9..11] == buf[9..11];
    }
  }

  lemma PeekPrefix(buf: seq<byte>, n: nat)
    requires 8 <= n <= |buf| && Peek(buf) == Length(n)
    ensures Peek(buf[..n]) == Length(n)
  {
    if n >= 14 {
      assert buf[..n][9..11] == buf[9..11];
    }
  }

  // --- One complete message at the head of the buffer ---

  /** `m` is exactly one message, carrying sequence number `seqno`. */
  predicate IsMessage(m: seq<byte>, seqno: nat) {
    |m| >= 8 && Peek(m) == Length(|m|) && FromLE(m[4..8]) == seqno
  }

  lemma DrainMessage<T>(h: Handler<T>, f: Framer<T>, m: seq<byte>, rest: seq<byte>)
    requires f.buf == m + rest
    requires IsMessage(m, f.inSeq)
    requires h(f.target, m).1.Continue?
    ensures Drain(h, f) == Drain(h, Framer(rest, Advance(f.inSeq), f.stopped, h(f.target, m).0))
  {
    PeekStable(m, rest);
    assert f.buf[..|m|] == m && f.buf[|m|..] == rest;
    assert f.buf[4..8] == m[4..8];
  }

  // --- Segmentation invariance ---

  lemma NextStable(buf: seq<byte>, inSeq: nat, more: seq<byte>)
    requires !Next(buf, inSeq).Wait?
    ensures Next(buf + more, inSeq) == Next(buf, inSeq)
  {
    PeekStable(buf, more);
    assert (buf + more)[4..8] == buf[4..8];
  }

  lemma {:induction false} DrainSettles<T>(h: Handler<T>, f: Framer<T>)
    requires !f.stopped
    ensures Live(Drain(h, f)) ==> Settled(Drain(h, f).0.buf)
    decreases |f.buf|
  {
    if Next(f.buf, f.inSeq).TakeNext? {
      var n := Next(f.buf, f.inSeq).n;
      var (t, verdict) := h(f.target, f.buf[..n]);
      if verdict.Continue? {
        DrainSettles(h, Framer(f.buf[n..], Advance(f.inSeq), f.stopped, t));
      }
    }
  }

  /** `long` carries on where `short` left off once `more` arrives, or ended where `short` ended. */
  ghost predicate Continues<T(!new)>(h: Handler<T>, short: (Framer<T>, Outcome), long: (Framer<T>, Outcome), more: seq<byte>) {
    if Live(short) then long == Drain(h, short.0.(buf := short.0.buf + more))
    else long.1 == short.1 && long.0.(buf := []) == short.0.(buf := [])
  }

  /** Draining a longer buffer is draining the shorter one and carrying on. */
  lemma {:induction false} DrainExtend<T(!new)>(h: Handler<T>, f: Framer<T>, more: seq<byte>)
    requires !f.stopped
    ensures Continues(h, Drain(h, f), Drain(h, f.(buf := f.buf + more)), more)
    decreases |f.buf|
  {
    if !Next(f.buf, f.inSeq).Wait? {
      NextStable(f.buf, f.inSeq, more);
    }
    if Next(f.buf, f.inSeq).TakeNext? {
      var n := Next(f.buf, f.inSeq).n;
      assert (f.buf + more)[..n] == f.buf[..n];
      assert (f.buf + more)[n..] == f.buf[n..] + more;
      var (t, verdict) := h(f.target, f.buf[..n]);
      var g := Framer(f.buf[n..], Advance(f.inSeq), f.stopped, t);
      if verdict.Continue? {
        DrainExtend(h, g, more);
        assert Drain(h, f.(buf := f.buf + more)) == Drain(h, g.(buf := g.buf + more));
      }
    }
  }

  /** Two feeds in a row are one feed of both chunks. */
  lemma FeedTwice<T(!new)>(h: Handler<T>, f: Framer<T>, a: seq<byte>, b: seq<byte>)
    requires !f.stopped
    ensures Continues(h, FeedWith(h, f, a), FeedWith(h, f, a + b), b)
  {
    DrainExtend(h, f.(buf := f.buf + a), b);
    assert f.buf + (a + b) == (f.buf + a) + b;
  }

  /** Any split of the inbound stream into chunks gives the run of one feed of all of it. */
  lemma {:induction false} Segmentation<T(!new)>(h: Handler<T>, f: Framer<T>, chunks: seq<seq<byte>>)
    requires !f.stopped
    requires Settled(f.buf)
    ensures SameRun(RunWith(h, f, chunks), FeedWith(h, f, Concat(chunks)))
    decreases |chunks|
  {
    if chunks == [] {
      assert f.buf + [] == f.buf;
    } else {
      var (g, o) := FeedWith(h, f, chunks[0]);
      FeedTwice(h, f, chunks[0], Concat(chunks[1..]));
      if o.Ok? && !g.stopped {
        DrainSettles(h, f.(buf := f.buf + chunks[0]));
        Segmentation(h, g, chunks[1..]);
      }
    }
  }

  lemma SegmentationInvariance<T(!new)>(h: Handler<T>, f: Framer<T>, one: seq<seq<byte>>, other: seq<seq<byte>>)
    requires !f.stopped && Settled(f.buf)
    requires Concat(one) == Concat(other)
    ensures SameRun(RunWith(h, f, one), RunWith(h, f, other))
  {
    Segmentation(h, f, one);
    Segmentation(h, f, other);
  }

  lemma RunCons<T>(h: Handler<T>, f: Framer<T>, chunk: seq<byte>, chunks: seq<seq<byte>>)
    requires !f.stopped && FeedWith(h, f, chunk).1.Ok?
    ensures RunWith(h, f, [chunk] + chunks) == RunWith(h, FeedWith(h, f, chunk).0, chunks)
  {
    assert ([chunk] + chunks)[0] == chunk && ([chunk] + chunks)[1..] == chunks;
  }

  // --- A stream made of whole messages ---

  function Fold<T>(h: Handler<T>, t: T, messages: seq<seq<byte>>): T
    decreases |messages|
  {
    if messages == [] then t else Fold(h, h(t, messages[0]).0, messages[1..])
  }

  /** Every message is handled and the session goes on. */
  predicate Calm<T>(h: Handler<T>, t: T, messages: seq<seq<byte>>)
    decreases |messages|
  {
    messages == [] || (h(t, messages[0]).1.Continue? && Calm(h, h(t, messages[0]).0, messages[1..]))
  }

  lemma FeedMessage<T(!new)>(h: Handler<T>, f: Framer<T>, m: seq<byte>, rest: seq<byte>)
    requires !f.stopped && f.buf == []
    requires IsMessage(m, f.inSeq) && h(f.target, m).1.Continue?
    ensures FeedWith(h, f, m + rest) == FeedWith(h, Framer([], Advance(f.inSeq), false, h(f.target, m).0), rest)
  {
    hide Drain, Peek;
    assert f.buf + (m + rest) == m + rest && [] + rest == rest;
    DrainMessage(h, f.(buf := m + rest), m, rest);
  }

  /** The number of the i-th message behind one numbered `seqno`; it wraps at 32 bits. */
  function NumberAfter(seqno: nat, i: nat): nat {
    (seqno + i) % TWO32
  }

  lemma NumberAfterNext(seqno: nat, i: nat)
    ensures NumberAfter(Advance(seqno), i) == NumberAfter(seqno, i + 1)
    ensures seqno < TWO32 ==> NumberAfter(seqno, 0) == seqno
  {
  }

  lemma {:induction false} FeedMessages<T(!new)>(h: Handler<T>, f: Framer<T>, messages: seq<seq<byte>>)
    requires !f.stopped && f.buf == [] && f.inSeq < TWO32
    requires forall i :: 0 <= i < |messages| ==> IsMessage(messages[i], NumberAfter(f.inSeq, i))
    requires Calm(h, f.target, messages)
    ensures FeedWith(h, f, Concat(messages))
         == (Framer([], NumberAfter(f.inSeq, |messages|), false, Fold(h, f.target, messages)), Ok)
    decreases |messages|
  {
    if messages == [] {
      assert f.buf + [] == [];
    } else {
      forall i | 0 <= i < |messages[1..]| ensures IsMessage(messages[1..][i], NumberAfter(Advance(f.inSeq), i)) {
        assert messages[1..][i] == messages[i + 1];
        NumberAfterNext(f.inSeq, i);
      }
      NumberAfterNext(f.inSeq, |messages| - 1);
      FeedMessage(h, f, messages[0], Concat(messages[1..]));
      FeedMessages(h, Framer([], Advance(f.inSeq), false, h(f.target, messages[0]).0), messages[1..]);
    }
  }

  // --- No resynchronisation ---

  /** A raise of the framer itself empties the buffer, and nothing fed later has any effect. */
  lemma {:induction false} NoResync<T>(h: Handler<T>, f: Framer<T>, later: seq<byte>)
    requires !f.stopped
    requires forall t, m :: h(t, m).1.Raise? ==> h(t, m).1.error !in {SequenceMismatch, UnknownCommand}
    ensures var r := Drain(h, f);
            r.1 in {Raised(SequenceMismatch), Raised(UnknownCommand)} ==>
              r.0.stopped && r.0.buf == [] && FeedWith(h, r.0, later) == (r.0, Raised(AfterTeardown))
    decreases |f.buf|
  {
    if Next(f.buf, f.inSeq).TakeNext? {
      var n := Next(f.buf, f.inSeq).n;
      var (t, verdict) := h(f.target, f.buf[..n]);
      if verdict.Continue? {
        NoResync(h, Framer(f.buf[n..], Advance(f.inSeq), f.stopped, t), later);
      }
    }
  }
}

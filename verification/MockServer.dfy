// The mock firmware endpoint after the handshake: it sends SCSI commands and
// write payloads, cuts the frames it receives out of the stream, and
// reassembles the data of a read.
module MockServer {
  import opened Bytes
  import opened Framing
  import opened MockCodec

  /** What the reader loop has made of a stream. `rest` is an incomplete frame, not yet counted in `expected`. */
  datatype Reading = Reading(events: seq<Event>, expected: nat, rest: seq<byte>, ended: bool, pongs: nat)

  /** Commands the reader consumes without reporting anything; the first of them is answered. */
  predicate Silent(cmd: byte) {
    cmd == 0x43 || cmd == 0x44 || cmd == 0x45
  }

  /** What the reader loop does with the head of the stream. */
  datatype Turn = Idle | Stop(events: seq<Event>, counted: bool) | Frame(length: nat)

  const PING: byte := 0x44
  const PONG: byte := 0x45

  function NextFrame(stream: seq<byte>, expected: nat): (t: Turn)
    ensures t.Frame? ==> 8 <= t.length <= |stream|
  {
    if |stream| < 8 then Idle
    else if FromLE(stream[4..8]) != expected then Stop([Violation], false)
    else if stream[0] != 0x54 && FixedPayload(stream[0]).None? then Stop([UnknownFrame(stream[0])], true)
    else if FrameLength(stream).None? || |stream| < FrameLength(stream).value then Idle
    else if stream[0] == 0x43 then Stop([], true)
    else if DecodeFrame(stream[..FrameLength(stream).value]) == Violation then Stop([], true)  // the reader dies
    else Frame(FrameLength(stream).value)
  }

  function Reported(frame: seq<byte>): seq<Event> {
    if |frame| > 0 && Silent(frame[0]) then [] else [DecodeFrame(frame)]
  }

  function Pings(frame: seq<byte>): nat {
    if |frame| > 0 && frame[0] == PING then 1 else 0
  }

  function Read(stream: seq<byte>, expected: nat): Reading
    decreases |stream|
  {
    match NextFrame(stream, expected)
    case Idle => Reading([], expected, stream, false, 0)
    case Stop(events, counted) => Reading(events, if counted then expected + 1 else expected, [], true, 0)
    case Frame(n) =>
      var later := Read(stream[n..], expected + 1);
      later.(events := Reported(stream[..n]) + later.events, pongs := Pings(stream[..n]) + later.pongs)
  }

  /** A reading continued after `events` were reported and `pongs` answers sent. */
  function After(events: seq<Event>, pongs: nat, r: Reading): Reading {
    r.(events := events + r.events, pongs := pongs + r.pongs)
  }

  lemma NextTurn(events: seq<Event>, pongs: nat, stream: seq<byte>, expected: nat)
    ensures After(events, pongs, Read(stream, expected)) ==
              match NextFrame(stream, expected)
              case Idle => Reading(events, expected, stream, false, pongs)
              case Stop(last, counted) => Reading(events + last, if counted then expected + 1 else expected, [], true, pongs)
              case Frame(n) => After(events + Reported(stream[..n]), pongs + Pings(stream[..n]), Read(stream[n..], expected + 1))
  {
    hide NextFrame, Reported, Pings;
    match NextFrame(stream, expected)
    case Frame(n) =>
      var later := Read(stream[n..], expected + 1);
      assert events + (Reported(stream[..n]) + later.events) == events + Reported(stream[..n]) + later.events;
    case _ =>
  }

  /** The result of reassembling consecutive DATA_TO_HOST events. */
  datatype Reassembly =
    | Stream(data: seq<byte>, completed: seq<bool>)
    | Unexpected(event: Event)
    | TimedOut

  function Reassemble(events: seq<Event>): (r: (Reassembly, seq<Event>))
    decreases |events|
  {
    if events == [] then (TimedOut, [])
    else if !events[0].DataToHost? then (Unexpected(events[0]), events[1..])
    else if events[0].completed then (Stream(events[0].data, [true]), events[1..])
    else
      var (more, left) := Reassemble(events[1..]);
      if more.Stream? then (Stream(events[0].data + more.data, [false] + more.completed), left) else (more, left)
  }

  /** The payload split every `size` bytes; an empty payload is one empty frame. */
  function Cut(data: seq<byte>, size: nat): (pieces: seq<seq<byte>>)
    requires size > 0
    ensures pieces != []
    ensures forall i :: 0 <= i < |pieces| ==> |pieces[i]| <= size
    decreases |data|
  {
    if |data| <= size then [data] else [data[..size]] + Cut(data[size..], size)
  }

  lemma {:induction false} CutWhole(data: seq<byte>, size: nat)
    requires size > 0
    ensures Concat(Cut(data, size)) == data
    ensures data != [] ==> Cut(data, size)[|Cut(data, size)| - 1] != []
    decreases |data|
  {
    if |data| <= size {
      ConcatOne(data);
    } else {
      CutWhole(data[size..], size);
      assert Cut(data, size)[1..] == Cut(data[size..], size);
    }
  }

  /** One frame as the mock puts it on the wire. */
  function WireFrame(cmd: byte, seqno: nat, payload: seq<byte>): seq<byte>
    requires seqno < TWO32
  {
    EncodeHeader(cmd, seqno) + payload
  }

  /** `n` keepalive answers, numbered from `seqno`. */
  function PongFrames(seqno: nat, n: nat): seq<byte>
    requires seqno + n <= TWO32
  {
    if n == 0 then [] else PongFrames(seqno, n - 1) + WireFrame(PONG, seqno + n - 1, [])
  }

  lemma NextPong(sent: seq<byte>, seqno: nat, n: nat)
    requires seqno + n < TWO32
    ensures sent + PongFrames(seqno, n + 1) == sent + PongFrames(seqno, n) + WireFrame(PONG, seqno + n, [])
  {
    hide WireFrame;
    assert sent + (PongFrames(seqno, n) + WireFrame(PONG, seqno + n, [])) == sent + PongFrames(seqno, n) + WireFrame(PONG, seqno + n, []);
  }

  /** DATA_FROM_HOST frames for the pieces, numbered consecutively. */
  function DataFrames(pieces: seq<seq<byte>>, seqno: nat): (frames: seq<seq<byte>>)
    requires seqno + |pieces| <= TWO32
    requires forall i :: 0 <= i < |pieces| ==> |pieces[i]| < 65536
    ensures |frames| == |pieces|
    decreases |pieces|
  {
    if pieces == [] then []
    else [WireFrame(0x53, seqno, EncodeDataFromHost(pieces[0]))] + DataFrames(pieces[1..], seqno + 1)
  }

  /** The piece at `offset`, as a slice of the payload. */
  function Piece(data: seq<byte>, offset: nat, size: nat): seq<byte>
    requires offset < |data|
  {
    if offset + size < |data| then data[offset..offset + size] else data[offset..]
  }

  /** The pieces from `offset` on. */
  function Pieces(data: seq<byte>, offset: nat, size: nat): (pieces: seq<seq<byte>>)
    requires size > 0
    ensures forall i :: 0 <= i < |pieces| ==> |pieces[i]| <= size
  {
    if offset < |data| then Cut(data[offset..], size) else []
  }

  lemma NextPiece(data: seq<byte>, offset: nat, size: nat)
    requires size > 0 && offset < |data|
    ensures Pieces(data, offset, size) == [Piece(data, offset, size)] + Pieces(data, offset + size, size)
  {
    if offset + size < |data| {
      assert data[offset..][size..] == data[offset + size..];
      assert data[offset..][..size] == data[offset..offset + size];
    } else if offset + size == |data| {
      assert data[offset..] == Piece(data, offset, size);
    }
  }

  /** The wire bytes of the pieces from `offset` on, the first numbered `seqno`. */
  function WireFrom(data: seq<byte>, offset: nat, size: nat, seqno: nat): seq<byte>
    requires 0 < size < 65536
    requires seqno + |Pieces(data, offset, size)| <= TWO32
  {
    Concat(DataFrames(Pieces(data, offset, size), seqno))
  }

  /** What is still to be sent is the next frame and then the rest. */
  lemma NextDataFrame(sent: seq<byte>, data: seq<byte>, offset: nat, size: nat, seqno: nat)
    requires 0 < size < 65536 && offset < |data|
    requires seqno + |Pieces(data, offset, size)| <= TWO32
    ensures |Piece(data, offset, size)| <= size
    ensures |Pieces(data, offset, size)| == 1 + |Pieces(data, offset + size, size)|
    ensures sent + WireFrom(data, offset, size, seqno) ==
              sent + WireFrame(0x53, seqno, EncodeDataFromHost(Piece(data, offset, size))) + WireFrom(data, offset + size, size, seqno + 1)
  {
    NextPiece(data, offset, size);
    var frame := WireFrame(0x53, seqno, EncodeDataFromHost(Piece(data, offset, size)));
    var rest := WireFrom(data, offset + size, size, seqno + 1);
    assert Pieces(data, offset, size)[1..] == Pieces(data, offset + size, size);
    assert sent + (frame + rest) == sent + frame + rest;
  }

  lemma NoMorePieces(sent: seq<byte>, data: seq<byte>, offset: nat, size: nat, seqno: nat)
    requires 0 < size < 65536 && offset >= |data| && seqno <= TWO32
    ensures Pieces(data, offset, size) == [] && sent + WireFrom(data, offset, size, seqno) == sent
  {
  }

  // --- Payload frames through any framer ---

  lemma DataIsMessage(seqno: nat, chunk: seq<byte>)
    requires seqno < TWO32 && |chunk| < 65536
    ensures var m := WireFrame(0x53, seqno, EncodeDataFromHost(chunk));
            IsMessage(m, seqno) && m[0] == CMD_DATA_FROM_HOST && m[14..14 + FromLE(m[9..11])] == chunk
  {
    var m := WireFrame(0x53, seqno, EncodeDataFromHost(chunk));
    LE32(seqno);
    LE16(|chunk|);
    assert m[4..8] == LE(seqno, 4);
    assert m[9..11] == LE(|chunk|, 2);
  }

  function FoldPieces<T>(store: (T, seq<byte>) -> T, t: T, pieces: seq<seq<byte>>): T
    decreases |pieces|
  {
    if pieces == [] then t else FoldPieces(store, store(t, pieces[0]), pieces[1..])
  }

  /** While `good` holds, this payload frame is handled by storing its payload, and `good` goes on holding. */
  predicate StoresOne<T(==)>(h: Handler<T>, store: (T, seq<byte>) -> T, good: T -> bool, t: T, piece: seq<byte>, seqno: nat) {
    good(t) && |piece| < 65536 && seqno < TWO32 ==>
      good(store(t, piece)) && h(t, WireFrame(0x53, seqno, EncodeDataFromHost(piece))) == (store(t, piece), Continue)
  }

  ghost predicate Stores<T(!new)>(h: Handler<T>, store: (T, seq<byte>) -> T, good: T -> bool) {
    forall t, piece, seqno :: StoresOne(h, store, good, t, piece, seqno)
  }

  lemma PieceFed<T(!new)>(h: Handler<T>, store: (T, seq<byte>) -> T, good: T -> bool, f: Framer<T>, piece: seq<byte>, rest: seq<byte>)
    requires Stores(h, store, good) && good(f.target)
    requires !f.stopped && f.buf == [] && f.inSeq + 1 < TWO32 && |piece| < 65536
    ensures good(store(f.target, piece))
    ensures FeedWith(h, f, WireFrame(0x53, f.inSeq, EncodeDataFromHost(piece)) + rest)
         == FeedWith(h, Framer([], f.inSeq + 1, false, store(f.target, piece)), rest)
  {
    hide FeedWith, WireFrame, EncodeDataFromHost;
    DataIsMessage(f.inSeq, piece);
    assert StoresOne(h, store, good, f.target, piece, f.inSeq);
    FeedMessage(h, f, WireFrame(0x53, f.inSeq, EncodeDataFromHost(piece)), rest);
  }

  lemma DataFramesHead(pieces: seq<seq<byte>>, seqno: nat)
    requires pieces != [] && seqno + |pieces| <= TWO32
    requires forall i :: 0 <= i < |pieces| ==> |pieces[i]| < 65536
    ensures Concat(DataFrames(pieces, seqno))
         == WireFrame(0x53, seqno, EncodeDataFromHost(pieces[0])) + Concat(DataFrames(pieces[1..], seqno + 1))
  {
    assert DataFrames(pieces, seqno)[1..] == DataFrames(pieces[1..], seqno + 1);
  }

  lemma FeedNothing<T(!new)>(h: Handler<T>, f: Framer<T>)
    requires !f.stopped && f.buf == []
    ensures FeedWith(h, f, []) == (f, Ok)
  {
    assert f.buf + [] == [];
  }

  lemma {:induction false} PiecesFed<T(!new)>(h: Handler<T>, store: (T, seq<byte>) -> T, good: T -> bool, f: Framer<T>, pieces: seq<seq<byte>>)
    requires Stores(h, store, good) && good(f.target)
    requires !f.stopped && f.buf == [] && f.inSeq + |pieces| < TWO32
    requires forall i :: 0 <= i < |pieces| ==> |pieces[i]| < 65536
    ensures FeedWith(h, f, Concat(DataFrames(pieces, f.inSeq)))
         == (Framer([], f.inSeq + |pieces|, false, FoldPieces(store, f.target, pieces)), Ok)
    decreases |pieces|
  {
    hide FeedWith, WireFrame;
    if pieces == [] {
      FeedNothing(h, f);
    } else {
      DataFramesHead(pieces, f.inSeq);
      PieceFed(h, store, good, f, pieces[0], Concat(DataFrames(pieces[1..], f.inSeq + 1)));
      PiecesFed(h, store, good, Framer([], f.inSeq + 1, false, store(f.target, pieces[0])), pieces[1..]);
    }
  }

  /** A whole payload, cut at any frame size and delivered in any chunks. */
  lemma PayloadRun<T(!new)>(h: Handler<T>, store: (T, seq<byte>) -> T, good: T -> bool, f: Framer<T>,
                            data: seq<byte>, frameSize: nat, chunks: seq<seq<byte>>)
    requires Stores(h, store, good) && good(f.target)
    requires !f.stopped && f.buf == [] && 0 < frameSize < 65536
    requires f.inSeq + |Cut(data, frameSize)| < TWO32
    requires Concat(chunks) == Concat(DataFrames(Cut(data, frameSize), f.inSeq))
    ensures RunWith(h, f, chunks)
         == (Framer([], f.inSeq + |Cut(data, frameSize)|, false, FoldPieces(store, f.target, Cut(data, frameSize))), Ok)
  {
    hide Drain, DataFrames, WireFrame;
    PiecesFed(h, store, good, f, Cut(data, frameSize));
    assert Settled(f.buf);
    Segmentation(h, f, chunks);
  }

  class IderMockServer {
    var outSeq: nat
    var expectedInSeq: nat
    var events: seq<Event>
    var closed: bool
    /** Everything handed to the connection. */
    var wire: seq<byte>

    constructor ()
      ensures outSeq == 0 && expectedInSeq == 0 && events == [] && !closed && wire == []
    {
      outSeq, expectedInSeq, events, closed, wire := 0, 0, [], false, [];
    }

    /** The mock's own counter does not wrap; a 33-bit number does not fit the header. */
    method SendFrame(cmd: byte, payload: seq<byte>)
      requires outSeq < TWO32
      modifies this`outSeq, this`wire
      ensures wire == old(wire) + WireFrame(cmd, old(outSeq), payload) && outSeq == old(outSeq) + 1
    {
      wire := wire + (EncodeHeader(cmd, outSeq) + payload);
      outSeq := outSeq + 1;
    }

    method IssueScsi(cdb: seq<byte>, device: byte, feature: byte)
      requires |cdb| == 12 && outSeq < TWO32
      modifies this`outSeq, this`wire
      ensures wire == old(wire) + WireFrame(0x50, old(outSeq), EncodeCommandWritten(cdb, if device == 0xB0 then 0x10 else 0, feature))
      ensures outSeq == old(outSeq) + 1
    {
      var flags: byte := if device == 0xB0 then 0x10 else 0;
      SendFrame(0x50, EncodeCommandWritten(cdb, flags, feature));
    }

    /** The payload in one or more DATA_FROM_HOST frames. */
    method SendDataFromHost(data: seq<byte>, frameSize: nat)
      requires 0 < frameSize < 65536
      requires outSeq + |Cut(data, frameSize)| <= TWO32
      modifies this`outSeq, this`wire
      ensures wire == old(wire) + Concat(DataFrames(Cut(data, frameSize), old(outSeq)))
      ensures outSeq == old(outSeq) + |Cut(data, frameSize)|
    {
      if data == [] {
        ConcatOne(WireFrame(0x53, outSeq, EncodeDataFromHost([])));
        SendFrame(0x53, EncodeDataFromHost([]));
      } else {
        assert data[0..] == data;
        SendPieces(data, frameSize);
      }
    }

    method SendPieces(data: seq<byte>, frameSize: nat)
      requires 0 < frameSize < 65536
      requires outSeq + |Pieces(data, 0, frameSize)| <= TWO32
      modifies this`outSeq, this`wire
      ensures wire == old(wire) + WireFrom(data, 0, frameSize, old(outSeq))
      ensures outSeq == old(outSeq) + |Pieces(data, 0, frameSize)|
    {
      hide WireFrom, Pieces, Piece, EncodeDataFromHost, WireFrame;
      ghost var total := outSeq + |Pieces(data, 0, frameSize)|;
      ghost var end := wire + WireFrom(data, 0, frameSize, outSeq);
      var offset := 0;
      while offset < |data|
        invariant outSeq + |Pieces(data, offset, frameSize)| == total
        invariant wire + WireFrom(data, offset, frameSize, outSeq) == end
        decreases |data| - offset
      {
        NextDataFrame(wire, data, offset, frameSize, outSeq);
        SendFrame(0x53, EncodeDataFromHost(Piece(data, offset, frameSize)));
        offset := offset + frameSize;
      }
      NoMorePieces(wire, data, offset, frameSize, outSeq);
    }

    /** Cut complete frames off the stream until it runs dry or the session ends; answer every ping. */
    method ReaderLoop(stream: seq<byte>) returns (rest: seq<byte>)
      requires !closed
      requires outSeq + Read(stream, expectedInSeq).pongs <= TWO32
      modifies this`events, this`expectedInSeq, this`closed, this`outSeq, this`wire
      ensures var r := Read(stream, old(expectedInSeq));
              && events == old(events) + r.events && expectedInSeq == r.expected && rest == r.rest && closed == r.ended
              && outSeq == old(outSeq) + r.pongs && wire == old(wire) + PongFrames(old(outSeq), r.pongs)
    {
      hide Read, NextFrame, Reported, WireFrame;
      rest := stream;
      ghost var goal := Read(stream, expectedInSeq);
      ghost var before, pongs: nat := events, 0;
      assert wire == old(wire) + PongFrames(outSeq, 0);
      while true
        invariant !closed
        invariant After(events, pongs, Read(rest, expectedInSeq)) == After(before, 0, goal)
        invariant outSeq == old(outSeq) + pongs && wire == old(wire) + PongFrames(old(outSeq), pongs)
        decreases |rest|
      {
        NextTurn(events, pongs, rest, expectedInSeq);
        match NextFrame(rest, expectedInSeq) {
          case Idle =>
            return;
          case Stop(last, counted) =>
            events := events + last;
            rest := [];
            if counted {
              expectedInSeq := expectedInSeq + 1;
            }
            closed := true;
            return;
          case Frame(n) =>
            expectedInSeq := expectedInSeq + 1;
            events := events + Reported(rest[..n]);
            if rest[0] == PING {
              NextPong(old(wire), old(outSeq), pongs);
              SendFrame(PONG, []);
              pongs := pongs + 1;
            }
            rest := rest[n..];
        }
      }
    }

    /** Pop events until a completed DATA_TO_HOST has been seen. */
    method ReadDataToHostStream() returns (r: Reassembly)
      modifies this`events
      ensures (r, events) == Reassemble(old(events))
    {
      var data, flags := [], [];
      while events != []
        invariant var all := Reassemble(old(events));
                  var left := Reassemble(events);
                  all.1 == left.1 &&
                  all.0 == if left.0.Stream? then Stream(data + left.0.data, flags + left.0.completed) else left.0
        decreases |events|
      {
        var event := events[0];
        events := events[1..];
        if !event.DataToHost? {
          return Unexpected(event);
        }
        data := data + event.data;
        flags := flags + [event.completed];
        if event.completed {
          return Stream(data, flags);
        }
      }
      return TimedOut;
    }
  }
}

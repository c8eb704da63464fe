// The read pump when the transport re-enters: every DATA_TO_HOST send may
// deliver further READ and RESET_OCCURRED messages.
module IderReentry {
  import opened Wrappers
  import opened Bytes
  import opened IderFrames
  import opened IderTarget
  import opened IderInvariants
  import opened MockCodec
  import opened IderReads
  import opened IderService

  // --- What the environment delivered ---

  /** The request an arriving READ is queued as; nothing if it is answered at once. */
  function Admitted(m: Media, e: Reentry): seq<ReadRequest> {
    match e
    case ResetArrives => []
    case ReadArrives(device, lba, length, dma) =>
      match Slot(m, device)
      case None => []
      case Some(image) =>
        if length == 0 || lba + length > image.Blocks() then []
        else [ReadRequest(device, lba * image.SectorSize(), length * image.SectorSize(), dma)]
  }

  function Arrivals(m: Media, batch: seq<Reentry>): seq<ReadRequest> {
    if batch == [] then [] else Admitted(m, batch[0]) + Arrivals(m, batch[1..])
  }

  function AllArrivals(m: Media, batches: seq<seq<Reentry>>): seq<ReadRequest> {
    if batches == [] then [] else Arrivals(m, batches[0]) + AllArrivals(m, batches[1..])
  }

  predicate HasReset(batches: seq<seq<Reentry>>) {
    exists i :: 0 <= i < |batches| && ResetArrives in batches[i]
  }

  lemma {:induction false} ArrivalsSame(m: Media, n: Media, batch: seq<Reentry>)
    requires SameImage(m.floppy, n.floppy) && SameImage(m.cdrom, n.cdrom)
    ensures Arrivals(m, batch) == Arrivals(n, batch)
  {
    if batch != [] {
      ArrivalsSame(m, n, batch[1..]);
    }
  }

  lemma {:induction false} AllArrivalsSame(m: Media, n: Media, batches: seq<seq<Reentry>>)
    requires SameImage(m.floppy, n.floppy) && SameImage(m.cdrom, n.cdrom)
    ensures AllArrivals(m, batches) == AllArrivals(n, batches)
  {
    if batches != [] {
      ArrivalsSame(m, n, batches[0]);
      AllArrivalsSame(m, n, batches[1..]);
    }
  }

  // --- What firmware sees ---

  /** Data and medium errors: the events that serve a queued read. */
  predicate Serves(e: Event) {
    e.DataToHost? || (e.CommandEnd? && !e.error)
  }

  function Service(es: seq<Event>): seq<Event> {
    if es == [] then [] else (if Serves(es[0]) then [es[0]] else []) + Service(es[1..])
  }

  function Acks(es: seq<Event>): nat {
    if es == [] then 0 else (if es[0].ResetAck? then 1 else 0) + Acks(es[1..])
  }

  lemma {:induction false} ServiceAppend(a: seq<Event>, b: seq<Event>)
    ensures Service(a + b) == Service(a) + Service(b)
  {
    hide Serves;
    if a == [] {
      assert a + b == b;
    } else {
      assert (a + b)[0] == a[0] && (a + b)[1..] == a[1..] + b;
      ServiceAppend(a[1..], b);
      var first := if Serves(a[0]) then [a[0]] else [];
      assert first + (Service(a[1..]) + Service(b)) == (first + Service(a[1..])) + Service(b);
    }
  }

  lemma {:induction false} AcksAppend(a: seq<Event>, b: seq<Event>)
    ensures Acks(a + b) == Acks(a) + Acks(b)
  {
    if a == [] {
      assert a + b == b;
    } else {
      assert (a + b)[0] == a[0] && (a + b)[1..] == a[1..] + b;
      AcksAppend(a[1..], b);
    }
  }

  lemma {:induction false} RejectionsServeNothing(es: seq<Event>)
    requires forall e :: e in es ==> e.CommandEnd? && e.error
    ensures Service(es) == [] && Acks(es) == 0
  {
    if es != [] {
      assert es[0] in es && forall e :: e in es[1..] ==> e in es;
      RejectionsServeNothing(es[1..]);
    }
  }

  // --- One delivery ---

  /** `u` is `t` after the environment has delivered `batch` during a send. */
  ghost predicate Delivered(t: Target, u: Target, batch: seq<Reentry>) {
    && t.Reading() && u.pump.reading == t.pump.reading
    && u.pump.queue == t.pump.queue + Arrivals(t.media, batch)
    && u.pump.resetPending == (t.pump.resetPending || ResetArrives in batch)
    && u.media == t.media && u.session == t.session && u.reentry == t.reentry
    && t.out.sent <= u.out.sent
    && (forall e :: e in Emitted(t, u) ==> e.CommandEnd? && e.error)
  }

  lemma RejectedEvent(t: Target, device: byte)
    ensures forall sense, asc :: var u := SendEnd(t, true, sense, device, asc, 0);
                                 t.out.sent <= u.out.sent && Emitted(t, u) == [CommandEnd(true, device, 0, 0, 0)]
  {
    forall sense, asc ensures var u := SendEnd(t, true, sense, device, asc, 0);
                              t.out.sent <= u.out.sent && Emitted(t, u) == [CommandEnd(true, device, 0, 0, 0)] {
      DecodeEnd(t.out.seqno, true, sense, device, asc, 0);
      SentEvent(t, CMD_COMMAND_END_RESPONSE, EndPayload(true, sense, device, asc, 0), true, false, SendEnd(t, true, sense, device, asc, 0));
    }
  }

  lemma DeliverOne(t: Target, e: Reentry)
    requires t.Reading()
    ensures Delivered(t, Deliver(t, e), [e])
  {
    assert [e][1..] == [];
    assert Arrivals(t.media, [e]) == Admitted(t.media, e);
    match e
    case ResetArrives =>
      assert Emitted(t, Deliver(t, e)) == [];
    case ReadArrives(device, lba, length, dma) =>
      RejectedEvent(t, device);
      if Admitted(t.media, e) != [] {
        assert Emitted(t, Deliver(t, e)) == [];
      }
  }

  lemma {:induction false} ArrivalsAppend(m: Media, a: seq<Reentry>, b: seq<Reentry>)
    ensures Arrivals(m, a + b) == Arrivals(m, a) + Arrivals(m, b)
  {
    if a == [] {
      assert a + b == b;
    } else {
      assert (a + b)[0] == a[0] && (a + b)[1..] == a[1..] + b;
      ArrivalsAppend(m, a[1..], b);
    }
  }

  lemma DeliveredChain(t: Target, u: Target, v: Target, a: seq<Reentry>, b: seq<Reentry>)
    requires Delivered(t, u, a) && Delivered(u, v, b)
    ensures Delivered(t, v, a + b)
  {
    ArrivalsAppend(t.media, a, b);
    EmittedChain(t, u, v);
  }

  lemma {:induction false} DeliverBatch(t: Target, batch: seq<Reentry>)
    requires t.Reading()
    ensures Delivered(t, DeliverAll(t, batch), batch)
    decreases |batch|
  {
    if batch == [] {
      assert Emitted(t, t) == [];
    } else {
      var u := Deliver(t, batch[0]);
      DeliverOne(t, batch[0]);
      DeliverBatch(u, batch[1..]);
      DeliveredChain(t, u, DeliverAll(t, batch), [batch[0]], batch[1..]);
      assert [batch[0]] + batch[1..] == batch;
    }
  }

  // --- One iteration of the pump ---

  /** Every read the environment will ask for can be framed. */
  predicate ReentryGood(t: Target) {
    forall i :: 0 <= i < |t.reentry| ==> AllGood(t.media, Arrivals(t.media, t.reentry[i]), t.session.info.readbfr)
  }

  /** The reads the pump still owes an answer. */
  function Pending(t: Target): seq<ReadRequest> {
    if t.Reading() then [t.Current()] + t.pump.queue else []
  }

  /** Between two steps of the pump, without a reset so far: everything pending, or still to come, can be framed. */
  predicate Ready(t: Target) {
    && (t.Reading() || t.pump == IDLE) && !t.pump.resetPending
    && t.session.info.readbfr <= MAX_READ_WRITE_BUFFER
    && AllGood(t.media, Pending(t), t.session.info.readbfr)
    && ReentryGood(t)
  }

  lemma CurrentGood(t: Target)
    requires Ready(t) && t.Reading()
    ensures Good(t.media, t.Current(), t.session.info.readbfr)
    ensures t.Current().remaining > 0 && Slot(t.media, t.Current().device).Some?
    ensures |ChunkData(t)| < 65536
  {
    assert Pending(t)[0] == t.Current();
    assert Good(t.media, Pending(t)[0], t.session.info.readbfr);
  }

  /** Counters apart, the same media over the same files. */
  predicate SameMedia(m: Media, n: Media) {
    SameImage(m.floppy, n.floppy) && SameImage(m.cdrom, n.cdrom) && n.files == m.files
  }

  lemma SameBacking(m: Media, n: Media)
    requires SameMedia(m, n)
    ensures forall device: byte :: Backing(m, device) == Backing(n, device)
    ensures forall r, readbfr :: Good(m, r, readbfr) ==> Good(n, r, readbfr)
  {
  }

  /** With a buffer size every accepted read can be framed. */
  lemma {:induction false} ArrivalsGood(m: Media, batch: seq<Reentry>, readbfr: nat)
    requires readbfr > 0
    ensures AllGood(m, Arrivals(m, batch), readbfr)
  {
    if batch != [] {
      ArrivalsGood(m, batch[1..], readbfr);
    }
  }

  /** What is still to come is good as well. */
  lemma LaterGood(t: Target, u: Target)
    requires ReentryGood(t) && SameMedia(t.media, u.media) && u.session == t.session
    requires u.reentry == t.reentry || u.reentry == LaterBatches(t)
    ensures ReentryGood(u)
  {
    SameBacking(t.media, u.media);
    forall i | 0 <= i < |u.reentry|
      ensures AllGood(u.media, Arrivals(u.media, u.reentry[i]), u.session.info.readbfr)
    {
      ArrivalsSame(t.media, u.media, u.reentry[i]);
      if u.reentry != t.reentry {
        assert u.reentry[i] == t.reentry[i + 1];
      }
    }
  }

  lemma NextBatchGood(t: Target)
    requires ReentryGood(t)
    ensures AllGood(t.media, Arrivals(t.media, NextBatch(t)), t.session.info.readbfr)
  {
  }

  /** What the environment does during the next DATA_TO_HOST. */
  function NextBatch(t: Target): seq<Reentry> {
    if t.reentry == [] then [] else t.reentry[0]
  }

  function LaterBatches(t: Target): seq<seq<Reentry>> {
    if t.reentry == [] then [] else t.reentry[1..]
  }

  /** The data of the next chunk of the current read. */
  function ChunkData(t: Target): (data: seq<byte>)
    requires t.Reading()
    ensures |data| <= t.Current().remaining
  {
    NextData(t.media, t.Current(), t.session.info.readbfr)
  }

  function ChunkEvent(t: Target): Event
    requires t.Reading()
  {
    DataEvent(t.media, t.Current(), t.session.info.readbfr)
  }

  lemma MediaReadSame(m: Media, device: byte, offset: nat, length: nat)
    requires Slot(m, device).Some?
    ensures SameMedia(m, MediaRead(m, device, offset, length).1)
    ensures MediaRead(m, device, offset, length).0 == ReadAt(Backing(m, device), offset, length)
  {
  }

  /** `s` is `t` after a chunk went out: what arrived meanwhile is queued, what was refused is answered. */
  ghost predicate SentChunk(t: Target, s: Target)
    requires t.Reading()
  {
    && s.pump == Pump(Some(After(t.Current(), |ChunkData(t)|)), t.pump.queue + Arrivals(t.media, NextBatch(t)), ResetArrives in NextBatch(t))
    && s.reentry == LaterBatches(t) && s.session == t.session && SameMedia(t.media, s.media)
    && t.out.sent <= s.out.sent
    && Service(Emitted(t, s)) == [ChunkEvent(t)] && Acks(Emitted(t, s)) == 0
  }

  /** The current read has moved past its next chunk, whose frame has been handed to the transport. */
  function Moved(t: Target): Target
    requires t.Reading()
  {
    var r, data := After(t.Current(), |ChunkData(t)|), ChunkData(t);
    SendData(t.(media := NextChunk(t).1, pump := t.pump.(reading := Some(r))), r.device, r.remaining == 0, data, r.dma)
  }

  lemma ChunkFramed(t: Target)
    requires Ready(t) && t.Reading() && ChunkData(t) != []
    ensures NextChunk(t).0 == ChunkData(t) && SameMedia(t.media, NextChunk(t).1)
    ensures t.out.sent <= Moved(t).out.sent && Emitted(t, Moved(t)) == [ChunkEvent(t)]
  {
    hide Ready, SameMedia, DecodeFrame, Header, DataPayload;
    var r := t.Current();
    var rest := After(r, |ChunkData(t)|);
    CurrentGood(t);
    MediaReadSame(t.media, r.device, r.byteOffset, ChunkSize(t));
    DecodeData(t.out.seqno, r.device, rest.remaining == 0, ChunkData(t), r.dma);
    SentEvent(t, CMD_DATA_TO_HOST, DataPayload(r.device, rest.remaining == 0, ChunkData(t), r.dma), rest.remaining == 0, r.dma, Moved(t));
  }

  lemma ChunkSent(t: Target)
    requires Ready(t) && t.Reading() && ChunkData(t) != []
    ensures NextChunk(t).0 == ChunkData(t)
    ensures SentChunk(t, SendChunk(t.(media := NextChunk(t).1), NextChunk(t).0))
  {
    hide AllGood, ReentryGood, Emitted, ChunkData, NextData, Service, Acks, NextChunk, Arrivals;
    var sent := Moved(t);
    var s := Reenter(sent);
    ChunkFramed(t);
    assert s == SendChunk(t.(media := NextChunk(t).1), NextChunk(t).0);
    ArrivalsSame(t.media, sent.media, NextBatch(t));
    ReentryDelivers(sent);
    EmittedChain(t, sent, s);
    ServiceAppend(Emitted(t, sent), Emitted(sent, s));
    AcksAppend(Emitted(t, sent), Emitted(sent, s));
    RejectionsServeNothing(Emitted(sent, s));
    OneData(ChunkEvent(t));
    assert [ChunkEvent(t)] + [] == [ChunkEvent(t)];
  }

  lemma ReentryDelivers(t: Target)
    requires t.Reading()
    ensures Delivered(t.(reentry := LaterBatches(t)), Reenter(t), NextBatch(t))
    ensures Emitted(t, Reenter(t)) == Emitted(t.(reentry := LaterBatches(t)), Reenter(t))
  {
    if t.reentry == [] {
      assert Emitted(t, t) == [];
    } else {
      DeliverBatch(t.(reentry := t.reentry[1..]), t.reentry[0]);
    }
  }

  // --- The law of one step, and of the whole pump ---

  function Consumed(t: Target, u: Target): seq<seq<Reentry>> {
    if |u.reentry| <= |t.reentry| then t.reentry[..|t.reentry| - |u.reentry|] else []
  }

  predicate Suffix(t: Target, u: Target) {
    |u.reentry| <= |t.reentry| && t.reentry[|t.reentry| - |u.reentry|..] == u.reentry
  }

  /** The batches before the one that brings a reset. */
  function Heard(batches: seq<seq<Reentry>>): seq<seq<Reentry>> {
    if HasReset(batches) then batches[..|batches| - 1] else batches
  }

  /** The reads pending at `t` and those the batches bring. */
  function Asked(t: Target, batches: seq<seq<Reentry>>): seq<ReadRequest> {
    Pending(t) + AllArrivals(t.media, batches)
  }

  /** Everything owed to the reads asked for before the reset, if any, came. */
  function Owed(t: Target, u: Target): seq<Event> {
    ServeAll(t.media, Asked(t, Heard(Consumed(t, u))), t.session.info.readbfr)
  }

  /** Resets arrive during the last of these sends only. */
  predicate ResetLast(batches: seq<seq<Reentry>>) {
    forall i :: 0 <= i < |batches| - 1 ==> ResetArrives !in batches[i]
  }

  /**
    From `t` the pump has come to rest in `u`. Without a reset, what it sent in
    answer to reads is exactly what all of them are owed, in the order in which
    they arrived. With a reset it is what the reads before it are owed, up to and
    including the frame during which the reset came, the last of one frame for
    each batch delivered; then comes one acknowledgement, and nothing else.
    */
  ghost predicate PumpLaw(t: Target, u: Target) {
    && t.out.sent <= u.out.sent && Suffix(t, u) && u.pump == IDLE && SameMedia(t.media, u.media)
    && var es := Emitted(t, u);
       var reset := HasReset(Consumed(t, u));
       && Service(es) == (if reset then UpTo(Owed(t, u), |Consumed(t, u)|) else Owed(t, u))
       && Acks(es) == (if reset then 1 else 0)
       && (reset ==> es != [] && es[|es| - 1].ResetAck? && ResetLast(Consumed(t, u))
                     && DataCount(Service(es)) == |Consumed(t, u)|)
  }

  /** The acknowledgement of a pending reset, after which nothing is left to do. */
  lemma ResetAcknowledged(s: Target)
    requires s.Reading() && s.pump.resetPending
    ensures var u := FinishRead(s);
            && u.pump == IDLE && u.reentry == s.reentry && u.media == s.media
            && s.out.sent <= u.out.sent && Emitted(s, u) == [ResetAck]
  {
    SentEvent(s, CMD_RESET_OCCURRED_RESPONSE, [], false, false, FinishRead(s));
    var frame := Header(CMD_RESET_OCCURRED_RESPONSE, s.out.seqno, false, false) + [];
    assert DecodeFrame(frame) == ResetAck;
  }

  lemma ResetConsumed(t: Target, u: Target)
    requires u.reentry == LaterBatches(t) && ResetArrives in NextBatch(t)
    ensures var batches := Consumed(t, u);
            Suffix(t, u) && |batches| == 1 && HasReset(batches) && ResetLast(batches) && Heard(batches) == []
  {
    assert Consumed(t, u) == [t.reentry[0]];
    assert ResetArrives in Consumed(t, u)[0];
  }

  lemma UpToOne(e: Event, es: seq<Event>)
    requires e.DataToHost?
    ensures UpTo([e] + es, 1) == [e]
  {
    UpToCons(e, es, 1);
    assert [e] + [] == [e];
  }

  /** One frame is all that is sent of what is owed. */
  lemma StoppedOwed(t: Target, u: Target)
    requires t.Reading() && ChunkData(t) != [] && t.Current().remaining > 0 && Heard(Consumed(t, u)) == []
    ensures var e := ChunkEvent(t);
            UpTo(Owed(t, u), 1) == [e] && DataCount([e]) == 1
  {
    hide ServeAll, AllArrivals, ChunkData, ChunkEvent, Consumed, UpTo;
    NothingArrives(t.media);
    assert Asked(t, []) == [t.Current()] + t.pump.queue;
    FirstOwed(t, t.pump.queue);
    UpToOne(ChunkEvent(t), Owed(t, u)[1..]);
    OneData(ChunkEvent(t));
  }

  /** The reset came while this chunk was going out. */
  lemma StopsByReset(t: Target, s: Target, u: Target)
    requires t.Reading() && SentChunk(t, s) && s.pump.resetPending && ChunkData(t) != [] && t.Current().remaining > 0
    requires u.pump == IDLE && u.reentry == s.reentry && u.media == s.media
    requires s.out.sent <= u.out.sent && Emitted(s, u) == [ResetAck]
    ensures PumpLaw(t, u)
  {
    hide Emitted, Service, Acks, DataCount, Owed, UpTo, Consumed, HasReset, ResetLast, Suffix, ChunkEvent;
    ResetConsumed(t, u);
    StoppedOwed(t, u);
    EmittedChain(t, s, u);
    ServiceAppend(Emitted(t, s), [ResetAck]);
    AcksAppend(Emitted(t, s), [ResetAck]);
    AckOnly();
    assert [ChunkEvent(t)] + [] == [ChunkEvent(t)];
    assert Emitted(t, u)[|Emitted(t, u)| - 1] == ResetAck;
  }

  lemma AckOnly()
    ensures Service([ResetAck]) == [] && Acks([ResetAck]) == 1
  {
    assert [ResetAck][1..] == [];
  }

  lemma OneData(e: Event)
    ensures DataCount([e]) == (if e.DataToHost? then 1 else 0) && Service([e]) == (if Serves(e) then [e] else [])
    ensures Acks([e]) == (if e.ResetAck? then 1 else 0)
  {
    assert [e][1..] == [];
  }

  lemma FirstOwed(t: Target, later: seq<ReadRequest>)
    requires t.Reading() && ChunkData(t) != [] && t.Current().remaining > 0
    ensures var all := ServeAll(t.media, [t.Current()] + later, t.session.info.readbfr);
            all != [] && all == [ChunkEvent(t)] + all[1..] && ChunkEvent(t).DataToHost?
  {
    hide ServeAll, NextData;
    ServeFirst(t.media, t.Current(), later, t.session.info.readbfr);
  }

  // --- Steps that do not meet a reset ---

  /** One step of the pump: one event, and with it exactly that much less is owed. */
  ghost predicate Advances(t: Target, u: Target, e: Event) {
    && t.out.sent <= u.out.sent && Suffix(t, u) && SameMedia(t.media, u.media) && u.session == t.session
    && !HasReset(Consumed(t, u))
    && Service(Emitted(t, u)) == [e] && Acks(Emitted(t, u)) == 0
    && |Consumed(t, u)| == (if e.DataToHost? && t.reentry != [] then 1 else 0)
    && Owed(t, u) == [e] + ServeAll(t.media, Pending(u), t.session.info.readbfr)
  }

  lemma PendingNext(p: Pump)
    requires p.reading.Some?
    ensures var n := NextRead(p);
            && (if n.reading.Some? then [n.reading.value] + n.queue else []) == p.queue
            && n.resetPending == p.resetPending && (n.reading.None? ==> n.queue == [])
  {
  }

  /** A medium error ends a read the file no longer holds. */
  lemma ShortStep(t: Target)
    requires Ready(t) && t.Reading() && ChunkData(t) == []
    ensures var u := PumpStep(t); Advances(t, u, MediumError(t.Current())) && Ready(u)
  {
    hide Emitted, ServeAll, Good, AllGood, AllArrivals, PumpStep, NextChunk, ReentryGood, Service, Acks;
    var r := t.Current();
    var u := PumpStep(t);
    ShortSends(t);
    PendingNext(t.pump);
    assert Pending(u) == t.pump.queue;
    assert Consumed(t, u) == [];
    NothingArrives(t.media);
    assert Asked(t, []) == [r] + t.pump.queue;
    CurrentGood(t);
    TailGood(t);
    ServeFirst(t.media, r, t.pump.queue, t.session.info.readbfr);
    ReadyNext(t, u, t.pump.queue);
  }

  lemma NothingArrives(m: Media)
    ensures AllArrivals(m, []) == []
  {
  }

  lemma ShortSends(t: Target)
    requires Ready(t) && t.Reading() && ChunkData(t) == []
    ensures var u := PumpStep(t);
            && u.pump == NextRead(t.pump) && u.reentry == t.reentry && u.session == t.session && SameMedia(t.media, u.media)
            && t.out.sent <= u.out.sent
            && Service(Emitted(t, u)) == [MediumError(t.Current())] && Acks(Emitted(t, u)) == 0
  {
    hide DecodeFrame, Header, EndPayload, AllGood, ReentryGood, Good;
    var r := t.Current();
    var u := PumpStep(t);
    CurrentGood(t);
    MediaReadSame(t.media, r.device, r.byteOffset, ChunkSize(t));
    DecodeEnd(t.out.seqno, false, 0x03, r.device, 0x11, 0);
    SentEvent(t, CMD_COMMAND_END_RESPONSE, EndPayload(false, 0x03, r.device, 0x11, 0), true, false, u);
    OneData(MediumError(r));
  }

  /** What is pending next is good if it comes from what was pending and what arrived. */
  lemma ReadyNext(t: Target, u: Target, pending: seq<ReadRequest>)
    requires Ready(t) && SameMedia(t.media, u.media) && u.session == t.session
    requires u.reentry == t.reentry || u.reentry == LaterBatches(t)
    requires (u.Reading() || u.pump == IDLE) && !u.pump.resetPending && Pending(u) == pending
    requires AllGood(t.media, pending, t.session.info.readbfr)
    ensures Ready(u)
  {
    hide Good;
    SameBacking(t.media, u.media);
    LaterGood(t, u);
  }

  lemma AfterGood(m: Media, r: ReadRequest, readbfr: nat)
    requires Good(m, r, readbfr) && |NextData(m, r, readbfr)| < r.remaining
    ensures Good(m, After(r, |NextData(m, r, readbfr)|), readbfr)
  {
    ReadAtSplit(Backing(m, r.device), r.byteOffset, ChunkOf(r, readbfr), r.remaining);
  }

  /** The shape of one pump step that sends data, whatever the environment does during it. */
  lemma BusyStep(t: Target)
    requires Ready(t) && t.Reading() && ChunkData(t) != []
    ensures var s := SendChunk(t.(media := NextChunk(t).1), NextChunk(t).0);
            && SentChunk(t, s)
            && (s.pump.resetPending ==> PumpStep(t) == FinishRead(s))
            && (!s.pump.resetPending && s.Current().remaining > 0 ==> PumpStep(t) == s)
            && (!s.pump.resetPending && s.Current().remaining == 0 ==> PumpStep(t) == s.(pump := NextRead(s.pump)))
  {
    ChunkSent(t);
  }

  /** What is pending once a chunk is out and no reset came: the rest of the read, if any, and what was and is queued. */
  function Left(t: Target): seq<ReadRequest>
    requires t.Reading()
  {
    var rest := After(t.Current(), |ChunkData(t)|);
    (if rest.remaining > 0 then [rest] else []) + (t.pump.queue + Arrivals(t.media, NextBatch(t)))
  }

  /** A pump step that sends data, without a reset. */
  lemma QuietStep(t: Target)
    requires Ready(t) && t.Reading() && ChunkData(t) != [] && ResetArrives !in NextBatch(t)
    ensures var u := PumpStep(t);
            && Pending(u) == Left(t) && (u.Reading() || u.pump == IDLE) && !u.pump.resetPending
            && u.reentry == LaterBatches(t) && u.session == t.session && SameMedia(t.media, u.media)
            && t.out.sent <= u.out.sent
            && Service(Emitted(t, u)) == [ChunkEvent(t)] && Acks(Emitted(t, u)) == 0
  {
    hide Ready, SameMedia, LaterBatches, NextBatch, Arrivals, PumpStep, FinishRead, NextRead, NextChunk, SendChunk, ChunkData, ChunkEvent, Service, Acks;
    var s := SendChunk(t.(media := NextChunk(t).1), NextChunk(t).0);
    BusyStep(t);
    if s.Current().remaining == 0 {
      PendingNext(s.pump);
    }
  }

  lemma LeftGood(t: Target)
    requires Ready(t) && t.Reading() && ChunkData(t) != []
    ensures AllGood(t.media, Left(t), t.session.info.readbfr)
  {
    hide Good, NextData, Arrivals;
    var readbfr := t.session.info.readbfr;
    var rest := After(t.Current(), |ChunkData(t)|);
    CurrentGood(t);
    NextBatchGood(t);
    TailGood(t);
    if rest.remaining > 0 {
      AfterGood(t.media, t.Current(), readbfr);
    }
  }

  /** What is owed before a chunk is the chunk and what is owed after it. */
  lemma LeftOwed(t: Target, u: Target)
    requires Ready(t) && t.Reading() && ChunkData(t) != [] && ResetArrives !in NextBatch(t)
    requires u.reentry == LaterBatches(t)
    ensures Owed(t, u) == [ChunkEvent(t)] + ServeAll(t.media, Left(t), t.session.info.readbfr)
  {
    hide ServeAll, Arrivals, AllArrivals, NextData, DataEvent, AllGood, Good, Consumed;
    var later := t.pump.queue + Arrivals(t.media, NextBatch(t));
    CurrentGood(t);
    ChunkConsumed(t, u);
    assert Asked(t, Consumed(t, u)) == [t.Current()] + later;
    ServeFirst(t.media, t.Current(), later, t.session.info.readbfr);
    if |ChunkData(t)| == t.Current().remaining {
      assert Left(t) == later;
    } else {
      assert Left(t) == [After(t.Current(), |ChunkData(t)|)] + later;
    }
  }

  /** One more chunk; the read goes on, or the next one follows. */
  lemma ChunkStep(t: Target)
    requires Ready(t) && t.Reading() && ChunkData(t) != [] && ResetArrives !in NextBatch(t)
    ensures var u := PumpStep(t); Advances(t, u, ChunkEvent(t)) && Ready(u)
  {
    hide Emitted, ServeAll, Good, AllGood, ReentryGood, AllArrivals, Arrivals, NextData, PumpStep, Left, Owed, Consumed, Service, Acks, ChunkData;
    var u := PumpStep(t);
    QuietStep(t);
    ChunkConsumed(t, u);
    LeftOwed(t, u);
    LeftGood(t);
    ReadyNext(t, u, Left(t));
  }

  lemma TailGood(t: Target)
    requires Ready(t) && t.Reading()
    ensures AllGood(t.media, t.pump.queue, t.session.info.readbfr)
  {
    hide Good;
    assert forall i :: 0 <= i < |t.pump.queue| ==> Pending(t)[i + 1] == t.pump.queue[i];
  }

  /** The batches a chunk used up, and the reads they brought. */
  lemma ChunkConsumed(t: Target, u: Target)
    requires u.reentry == LaterBatches(t) && ResetArrives !in NextBatch(t)
    ensures Suffix(t, u) && !HasReset(Consumed(t, u)) && AllArrivals(t.media, Consumed(t, u)) == Arrivals(t.media, NextBatch(t))
    ensures |Consumed(t, u)| == if t.reentry != [] then 1 else 0
  {
    if t.reentry != [] {
      assert Consumed(t, u) == [t.reentry[0]];
      assert [t.reentry[0]][1..] == [];
      assert AllArrivals(t.media, [t.reentry[0]]) == Arrivals(t.media, t.reentry[0]) + AllArrivals(t.media, []);
    }
  }

  // --- From one step to the whole run ---

  lemma ConsumedChain(t: Target, u: Target, w: Target)
    requires Suffix(t, u) && Suffix(u, w)
    ensures Suffix(t, w) && Consumed(t, w) == Consumed(t, u) + Consumed(u, w)
  {
  }

  lemma {:induction false} AllArrivalsAppend(m: Media, a: seq<seq<Reentry>>, b: seq<seq<Reentry>>)
    ensures AllArrivals(m, a + b) == AllArrivals(m, a) + AllArrivals(m, b)
  {
    if a == [] {
      assert a + b == b;
    } else {
      assert (a + b)[0] == a[0] && (a + b)[1..] == a[1..] + b;
      AllArrivalsAppend(m, a[1..], b);
    }
  }

  lemma ResetChain(a: seq<seq<Reentry>>, b: seq<seq<Reentry>>)
    requires !HasReset(a)
    ensures HasReset(a + b) == HasReset(b) && Heard(a + b) == a + Heard(b)
    ensures ResetLast(b) ==> ResetLast(a + b)
  {
    if HasReset(b) {
      var i :| 0 <= i < |b| && ResetArrives in b[i];
      assert (a + b)[|a| + i] == b[i];
    }
    forall i | 0 <= i < |a| + |b| ensures (a + b)[i] == if i < |a| then a[i] else b[i - |a|] {}
  }

  lemma {:induction false} ServeSame(m: Media, n: Media, r: ReadRequest, readbfr: nat)
    requires forall device: byte :: Backing(m, device) == Backing(n, device)
    ensures Serve(m, r, readbfr) == Serve(n, r, readbfr)
    decreases r.remaining
  {
    hide Backing, ReadAt;
    assert NextData(m, r, readbfr) == NextData(n, r, readbfr);
    if r.remaining > 0 && NextData(m, r, readbfr) != [] {
      ServeSame(m, n, After(r, |NextData(m, r, readbfr)|), readbfr);
    }
  }

  lemma {:induction false} ServeAllSame(m: Media, n: Media, requests: seq<ReadRequest>, readbfr: nat)
    requires forall device: byte :: Backing(m, device) == Backing(n, device)
    ensures ServeAll(m, requests, readbfr) == ServeAll(n, requests, readbfr)
  {
    hide Serve;
    if requests != [] {
      ServeSame(m, n, requests[0], readbfr);
      ServeAllSame(m, n, requests[1..], readbfr);
    }
  }

  /** What was owed at `t`, in terms of the step's event and what was owed at `u`. */
  lemma OwedOn(t: Target, u: Target, w: Target, e: Event)
    requires Advances(t, u, e) && Suffix(u, w)
    ensures Suffix(t, w) && Owed(t, w) == [e] + Owed(u, w)
  {
    hide ServeAll, AllArrivals, HasReset, Heard, Service, Acks, Emitted, Pending, Consumed, Suffix, Backing;
    var readbfr := t.session.info.readbfr;
    var heard := Heard(Consumed(u, w));
    var before, more := Asked(t, Consumed(t, u)), AllArrivals(t.media, heard);
    ConsumedChain(t, u, w);
    ResetChain(Consumed(t, u), Consumed(u, w));
    NoReset(Consumed(t, u));
    AllArrivalsAppend(t.media, Consumed(t, u), heard);
    AllArrivalsSame(t.media, u.media, heard);
    assert Asked(t, Consumed(t, u) + heard) == before + more;
    ServeAllAppend(t.media, before, more, readbfr);
    ServeAllAppend(t.media, Pending(u), more, readbfr);
    SameBacking(t.media, u.media);
    ServeAllSame(t.media, u.media, Pending(u) + more, readbfr);
    var first, rest := ServeAll(t.media, Pending(u), readbfr), ServeAll(t.media, more, readbfr);
    assert ([e] + first) + rest == [e] + (first + rest);
  }

  lemma NoReset(batches: seq<seq<Reentry>>)
    requires !HasReset(batches)
    ensures Heard(batches) == batches
  {
  }

  /** A reset behind a step takes a batch that was still to come at it. */
  lemma ResetToCome(t: Target, u: Target, w: Target)
    requires Suffix(t, u) && HasReset(Consumed(u, w))
    ensures t.reentry != [] && Consumed(u, w) != []
  {
  }

  /** A step's event in front of a cut-off service; its frame, if it is one, is counted. */
  lemma CutOn(e: Event, owed: seq<Event>, n: nat)
    requires n > 0 && DataCount(UpTo(owed, n)) == n
    ensures var all := n + (if e.DataToHost? then 1 else 0);
            UpTo([e] + owed, all) == [e] + UpTo(owed, n) && DataCount([e] + UpTo(owed, n)) == all
  {
    UpToCons(e, owed, n + (if e.DataToHost? then 1 else 0));
    OneData(e);
    DataCountAppend([e], UpTo(owed, n));
  }

  lemma LawOn(t: Target, u: Target, w: Target, e: Event)
    requires Advances(t, u, e) && PumpLaw(u, w)
    ensures PumpLaw(t, w)
  {
    hide Emitted, Service, Acks, Owed, UpTo, DataCount, HasReset, ResetLast, Consumed, Suffix, Pending, ServeAll;
    EmittedChain(t, u, w);
    ServiceAppend(Emitted(t, u), Emitted(u, w));
    AcksAppend(Emitted(t, u), Emitted(u, w));
    ConsumedChain(t, u, w);
    ResetChain(Consumed(t, u), Consumed(u, w));
    OwedOn(t, u, w, e);
    if HasReset(Consumed(u, w)) {
      ResetToCome(t, u, w);
      CutOn(e, Owed(u, w), |Consumed(u, w)|);
    }
  }

  lemma IdleLaw(t: Target)
    requires t.pump == IDLE
    ensures PumpLaw(t, t)
  {
    assert Emitted(t, t) == [];
    assert Consumed(t, t) == [];
  }

  lemma PumpOn(t: Target)
    ensures t.Reading() ==> PumpAll(t) == PumpAll(PumpStep(t))
    ensures !t.Reading() ==> PumpAll(t) == t
  {
    hide PumpStep;
  }

  /** However the environment re-enters, the pump comes to rest as the law says. */
  lemma {:induction false} PumpObeysLaw(t: Target)
    requires Ready(t)
    ensures PumpLaw(t, PumpAll(t))
    decreases |t.reentry|, Outstanding(t.pump)
  {
    hide PumpLaw, Advances, PumpStep, SendChunk, NextChunk, Outstanding, Reenter, ChunkData, ChunkEvent, AllGood, ReentryGood;
    PumpOn(t);
    if !t.Reading() {
      IdleLaw(t);
    } else {
      var u := PumpStep(t);
      if ChunkData(t) == [] {
        ShortStep(t);
        PumpObeysLaw(u);
        LawOn(t, u, PumpAll(u), MediumError(t.Current()));
      } else if ResetArrives !in NextBatch(t) {
        ChunkStep(t);
        PumpObeysLaw(u);
        LawOn(t, u, PumpAll(u), ChunkEvent(t));
      } else {
        ResetStep(t);
        PumpOn(u);
      }
    }
  }

  lemma ResetStep(t: Target)
    requires Ready(t) && t.Reading() && ChunkData(t) != [] && ResetArrives in NextBatch(t)
    ensures PumpLaw(t, PumpStep(t)) && PumpStep(t).pump == IDLE
  {
    hide PumpLaw, PumpStep, SendChunk, NextChunk, Reenter, ReentryGood;
    var s := SendChunk(t.(media := NextChunk(t).1), NextChunk(t).0);
    BusyStep(t);
    ResetAcknowledged(s);
    CurrentGood(t);
    StopsByReset(t, s, PumpStep(t));
  }

  /** A READ accepted while nothing else is going on starts a pump run that obeys the law. */
  lemma ReadObeysLaw(t: Target, device: byte, lba: nat, length: nat, dma: bool)
    requires Quiet(t) && Framable(t.session.info.readbfr, Available(t.media, device, lba, length))
    requires t.session.info.readbfr == 0 ==> ReentryGood(t)
    requires Slot(t.media, device).Some? && length > 0 && lba + length <= Slot(t.media, device).value.Blocks()
    ensures var admitted := AdmitRead(t, device, lba, length, dma);
            && Pending(admitted) == Admitted(t.media, ReadArrives(device, lba, length, dma))
            && PumpLaw(admitted, ScsiRead(t, device, lba, length, dma))
  {
    hide PumpLaw;
    var admitted := AdmitRead(t, device, lba, length, dma);
    if t.session.info.readbfr > 0 {
      forall i | 0 <= i < |t.reentry|
        ensures AllGood(t.media, Arrivals(t.media, t.reentry[i]), t.session.info.readbfr)
      {
        ArrivalsGood(t.media, t.reentry[i], t.session.info.readbfr);
      }
    }
    assert Pending(admitted) == [admitted.Current()];
    assert Wanted(t.media, admitted.Current()) == Available(t.media, device, lba, length);
    PumpObeysLaw(admitted);
  }

  // --- Which reads are answered ---

  /** Everything the environment asked for by the time the pump rests is good. */
  lemma {:induction false} AskedGood(t: Target, batches: seq<seq<Reentry>>)
    requires Ready(t) && batches <= t.reentry
    ensures AllGood(t.media, Asked(t, batches), t.session.info.readbfr)
    decreases |batches|
  {
    hide Good, Arrivals;
    if batches == [] {
      assert Asked(t, []) == Pending(t);
    } else {
      var before, last := batches[..|batches| - 1], batches[|batches| - 1];
      assert batches == before + [last] && last == t.reentry[|batches| - 1];
      AskedGood(t, before);
      AllArrivalsAppend(t.media, before, [last]);
      assert [last][1..] == [];
      assert Asked(t, batches) == Asked(t, before) + Arrivals(t.media, last);
    }
  }

  /** What the batches behind a shorter list bring comes behind what that list brings. */
  lemma AskedAppend(t: Target, a: seq<seq<Reentry>>, b: seq<seq<Reentry>>)
    ensures Asked(t, a + b) == Asked(t, a) + AllArrivals(t.media, b)
  {
    hide AllArrivals, Pending;
    AllArrivalsAppend(t.media, a, b);
  }

  lemma HeardFirst(batches: seq<seq<Reentry>>)
    ensures var late := batches[|Heard(batches)|..];
            batches == Heard(batches) + late && (!HasReset(batches) ==> late == [])
  {
  }

  /** In terms of everything asked for: a cut-off service stops before it comes to what arrived with the reset. */
  lemma LawOfAll(t: Target, u: Target)
    requires PumpLaw(t, u)
    ensures var all := ServeAll(t.media, Asked(t, Consumed(t, u)), t.session.info.readbfr);
            Service(Emitted(t, u)) == if HasReset(Consumed(t, u)) then UpTo(all, |Consumed(t, u)|) else all
  {
    hide Emitted, ServeAll, Asked, HasReset, AllArrivals, Service, DataCount, UpTo;
    var batches, readbfr := Consumed(t, u), t.session.info.readbfr;
    HeardFirst(batches);
    if HasReset(batches) {
      var late := batches[|Heard(batches)|..];
      AskedAppend(t, Heard(batches), late);
      ServeAllAppend(t.media, Asked(t, Heard(batches)), AllArrivals(t.media, late), readbfr);
      UpToExtends(Owed(t, u), ServeAll(t.media, AllArrivals(t.media, late), readbfr), |batches|);
    }
  }

  /** All events owed up to and including the i-th read have been sent. */
  ghost predicate Answered(t: Target, u: Target, i: nat)
    requires t.out.sent <= u.out.sent && i < |Asked(t, Consumed(t, u))|
  {
    ServeAll(t.media, Asked(t, Consumed(t, u))[..i + 1], t.session.info.readbfr) <= Service(Emitted(t, u))
  }

  /** The frames it takes to serve the reads up to and including the i-th. */
  function FramesUpTo(t: Target, batches: seq<seq<Reentry>>, i: nat): nat
    requires i < |Asked(t, batches)|
  {
    AllFrames(t.media, Asked(t, batches)[..i + 1], t.session.info.readbfr)
  }

  /**
    Which accepted reads are answered: all of them without a reset; with one,
    exactly those whose frames, and all frames before them, fit into the frames
    sent by the time the reset came, one for each batch delivered. A read the
    file does not hold completely needs a frame more to be sent behind it.
    */
  lemma AnsweredExactly(t: Target, i: nat)
    requires Ready(t) && i < |Asked(t, Consumed(t, PumpAll(t)))|
    ensures var u := PumpAll(t);
            var batches := Consumed(t, u);
            && t.out.sent <= u.out.sent
            && (Answered(t, u, i) <==>
                || !HasReset(batches)
                || FramesUpTo(t, batches, i) < |batches|
                || (FramesUpTo(t, batches, i) == |batches| && Whole(t.media, Asked(t, batches)[i])))
  {
    hide Emitted, ServeAll, AllFrames, Whole, Good, AllGood, Asked, Ready, HasReset, Service, UpTo, Consumed, PumpLaw;
    var u := PumpAll(t);
    PumpObeysLaw(t);
    LawSends(t, u);
    LawOfAll(t, u);
    AskedGood(t, Consumed(t, u));
    AnsweredIff(t.media, Asked(t, Consumed(t, u)), t.session.info.readbfr, HasReset(Consumed(t, u)), |Consumed(t, u)|, i);
  }

  lemma LawSends(t: Target, u: Target)
    requires PumpLaw(t, u)
    ensures t.out.sent <= u.out.sent && Consumed(t, u) <= t.reentry
  {
    hide Emitted, Service, Owed, UpTo, HasReset, ResetLast, Acks, DataCount, SameMedia;
  }

  /** A read that arrives during the same send as the reset is accepted, and never answered. */
  lemma LateReadsAreDropped(t: Target, i: nat)
    requires Ready(t) && HasReset(Consumed(t, PumpAll(t)))
    requires |Asked(t, Heard(Consumed(t, PumpAll(t))))| <= i < |Asked(t, Consumed(t, PumpAll(t)))|
    ensures var u := PumpAll(t); t.out.sent <= u.out.sent && !Answered(t, u, i)
  {
    hide Emitted, ServeAll, AllFrames, Whole, Good, Asked, Ready, HasReset, Service, UpTo, DataCount, Answered, AllGood, SameMedia, Suffix, ResetLast, Acks, AllArrivals;
    var u := PumpAll(t);
    var batches, readbfr := Consumed(t, u), t.session.info.readbfr;
    PumpObeysLaw(t);
    AnsweredExactly(t, i);
    AskedGood(t, batches);
    HeardFirst(batches);
    AskedAppend(t, Heard(batches), batches[|Heard(batches)|..]);
    ServeAllFrames(t.media, Asked(t, Heard(batches)), readbfr);
    UpToCounts(Owed(t, u), |batches|);
    LateFrames(t.media, Asked(t, Heard(batches)), AllArrivals(t.media, batches[|Heard(batches)|..]), readbfr, i);
  }
}

// The mock firmware's event log, and the exact result of reading it.
module MockLog {
  import opened Wrappers
  import opened Bytes
  import opened WsmanValues
  import opened MessageLog

  /** Base64 of an all-zero record. */
  const EMPTY_SLOT: string := "AAAAAAAAAAAAAAAAAAAAAAAAAAAA"

  function Slots(n: nat): (slots: seq<string>)
    ensures |slots| == n
  {
    seq(n, i => EMPTY_SLOT)
  }

  /** Real records first, then the padding. */
  function Served(records: seq<string>, emptySlots: int): seq<string> {
    if emptySlots <= 0 then records else records + Slots(emptySlots)
  }

  function PositionToFirstRecord(served: seq<string>): Reply {
    Reply(if served == [] then 2 else 0, false, Some(1), [])
  }

  function Max(a: int, b: int): int {
    if a < b then b else a
  }

  /** The output document: other properties before and after the repeated element. */
  function GetRecordsOutput(batch: seq<string>): seq<Element> {
    [Element("IterationIdentifier", "", []), Element("NoMoreRecords", "", [])]
    + Render("RecordArray", batch) + [Element("ReturnValue", "", [])]
  }

  /** One batch from a 1-based position; at most `cap` records whatever the client asks for. */
  function GetRecords(served: seq<string>, cap: nat, identifier: int, maxRead: int): Reply {
    var start := identifier - 1;
    if served == [] then Reply(3, true, Some(1), [])
    else if start < 0 || start >= |served| then Reply(2, false, None, [])
    else
      var batch := served[start..MessageLog.Min(start + Max(1, MessageLog.Min(cap, maxRead)), |served|)];
      var next := identifier + |batch|;
      Reply(0, next > |served|, Some(next), GetRecordsOutput(batch))
  }

  /** Reading this log with these parameters. */
  function Reading(decode: Base64, served: seq<string>, cap: nat, maxRecords: int, batchSize: int): Iteration {
    Iteration(decode, (call: nat, id: int, maxRead: int) => GetRecords(served, cap, id, maxRead), maxRecords, batchSize)
  }

  /** How many rounds it takes to fetch `todo` elements, `per` at a time. */
  function Rounds(todo: nat, per: nat): nat
    requires per >= 1
  {
    if todo == 0 then 0 else if todo <= per then 1 else 1 + Rounds(todo - per, per)
  }

  /** Records on the wire are base64 text: never blank, no white space at the ends. */
  predicate OnTheWire(served: seq<string>) {
    forall i :: 0 <= i < |served| ==> served[i] != "" && Trimmed(served[i])
  }

  lemma BatchArrives(batch: seq<string>)
    requires OnTheWire(batch)
    ensures RecordArray(Lookup(Fields(GetRecordsOutput(batch)), "RecordArray")) == batch
  {
    var tag := "RecordArray";
    var front := [Element("IterationIdentifier", "", []), Element("NoMoreRecords", "", [])];
    var back := [Element("ReturnValue", "", [])];
    var middle := Render(tag, batch);
    assert TagTexts(front[..1], tag) == TagTexts(front[..1][..0], tag) == [];
    assert TagTexts(front, tag) == [];
    assert TagTexts(back, tag) == TagTexts(back[..0], tag) == [];
    TagTextsAppend(front, middle, tag);
    TagTextsAppend(front + middle, back, tag);
    RenderTexts(tag, batch);
    assert [] + batch + [] == batch;
    RepeatedElement(GetRecordsOutput(batch), tag);
    SurvivorsIff(batch);
  }

  /** The elements per round. */
  function PerRound(cap: nat, batchSize: int): nat {
    Max(1, MessageLog.Min(cap, MessageLog.Min(batchSize, MAX_READ_RECORDS)))
  }

  function Goal(served: seq<string>, maxRecords: nat): (n: nat)
    ensures n <= |served| && n <= maxRecords
  {
    MessageLog.Min(maxRecords, |served|)
  }

  /** What reading `served` must return, with the number of round trips. */
  function Expected(decode: Base64, served: seq<string>, cap: nat, maxRecords: nat, batchSize: int): LogRead {
    if served == [] then LogRead([], false, true, NoRecordExists, 0, 0)
    else
      var goal := Goal(served, maxRecords);
      var records := Kept(decode, served[..goal]);
      LogRead(records, maxRecords < |served|, maxRecords >= |served|, if maxRecords < |served| then MaxRecords else NoMoreRecords,
              Rounds(goal, PerRound(cap, batchSize)), goal - |records|)
  }

  /** The client's state after consuming the first `n` served elements. */
  ghost predicate At(decode: Base64, served: seq<string>, st: State, n: nat) {
    && n <= |served|
    && st.consumed == n && st.id == n + 1
    && st.records == Kept(decode, served[..n])
    && st.emptySlots == n - |st.records|
  }

  /** One round over this log. */
  lemma Round(decode: Base64, served: seq<string>, cap: nat, maxRecords: nat, batchSize: int, st: State, n: nat)
    requires OnTheWire(served) && At(decode, served, st, n) && n < Goal(served, maxRecords)
    ensures var it := Reading(decode, served, cap, maxRecords, batchSize);
            var m := n + MessageLog.Min(PerRound(cap, batchSize), Goal(served, maxRecords) - n);
            var records := Kept(decode, served[..m]);
            Step(it, st) == if m == |served| then Stopped(Read(LogRead(records, false, true, NoMoreRecords, st.calls + 1, m - |records|)))
                            else Running(State(st.calls + 1, m + 1, m, records, m - |records|))
  {
    hide Kept, RecordArray, Fields, Lookup, GetRecordsOutput;
    var it := Reading(decode, served, cap, maxRecords, batchSize);
    var m := n + MessageLog.Min(PerRound(cap, batchSize), Goal(served, maxRecords) - n);
    var reply := Ask(it, st);
    var batch := served[n..m];
    assert reply == Reply(0, m + 1 > |served|, Some(m + 1), GetRecordsOutput(batch));
    BatchArrives(batch);
    assert batch[..|batch|] == batch;
    assert Batch(it, st, reply) == batch;
    assert served[..n] + batch == served[..m];
    KeptAppend(decode, served[..n], batch);
  }

  /** The end of a read that made `batches` round trips in all. */
  function Finish(decode: Base64, served: seq<string>, maxRecords: nat, batches: nat): Progress {
    var goal := Goal(served, maxRecords);
    var records := Kept(decode, served[..goal]);
    Stopped(Read(LogRead(records, maxRecords < |served|, maxRecords >= |served|,
                         if maxRecords < |served| then MaxRecords else NoMoreRecords, batches, goal - |records|)))
  }

  /** The budget is used up while firmware promises more. */
  lemma OutOfBudget(decode: Base64, served: seq<string>, cap: nat, maxRecords: nat, batchSize: int, st: State)
    requires At(decode, served, st, maxRecords) && maxRecords < |served|
    ensures Step(Reading(decode, served, cap, maxRecords, batchSize), st) == Finish(decode, served, maxRecords, st.calls)
  {
  }

  lemma OneMore(it: Iteration, st: State, n: nat)
    ensures After(it, Running(st), n + 1) == After(it, Step(it, st), n)
    ensures Step(it, st).Stopped? ==> After(it, Running(st), n + 1) == Step(it, st)
  {
    hide Step;
  }

  lemma {:induction false} ReadOn(decode: Base64, served: seq<string>, cap: nat, maxRecords: nat, batchSize: int, st: State, n: nat)
    returns (rounds: nat)
    requires OnTheWire(served) && At(decode, served, st, n) && n < |served| && n <= maxRecords
    ensures After(Reading(decode, served, cap, maxRecords, batchSize), Running(st), rounds)
         == Finish(decode, served, maxRecords, st.calls + Rounds(Goal(served, maxRecords) - n, PerRound(cap, batchSize)))
    decreases |served| - n
  {
    hide Kept, GetRecords, Step, After;
    var it := Reading(decode, served, cap, maxRecords, batchSize);
    var goal, per := Goal(served, maxRecords), PerRound(cap, batchSize);
    if n == goal {
      OutOfBudget(decode, served, cap, maxRecords, batchSize, st);
      OneMore(it, st, 0);
      rounds := 1;
    } else {
      Round(decode, served, cap, maxRecords, batchSize, st, n);
      var m := n + MessageLog.Min(per, goal - n);
      var next := Step(it, st);
      if m == |served| {
        OneMore(it, st, 0);
        rounds := 1;
      } else {
        var later := ReadOn(decode, served, cap, maxRecords, batchSize, next.state, m);
        OneMore(it, st, later);
        rounds := later + 1;
      }
    }
  }

  lemma KeptNone(decode: Base64, served: seq<string>)
    ensures Kept(decode, served[..0]) == []
  {
  }

  /**
    For every log, every cap, batch size and budget, the read ends with exactly
    the real records among the first `maxRecords` served elements, in order;
    it is truncated exactly when the budget is smaller than what is served.
    */
  lemma ReadExact(decode: Base64, served: seq<string>, cap: nat, maxRecords: nat, batchSize: int) returns (rounds: nat)
    requires OnTheWire(served)
    ensures After(Reading(decode, served, cap, maxRecords, batchSize), Begin(PositionToFirstRecord(served)), rounds)
         == Stopped(Read(Expected(decode, served, cap, maxRecords, batchSize)))
  {
    hide Kept, GetRecords, Step, After, Rounds;
    rounds := 0;
    if served == [] {
      BeginsStopped(Reading(decode, served, cap, maxRecords, batchSize), Begin(PositionToFirstRecord(served)), rounds);
    } else {
      KeptNone(decode, served);
      rounds := ReadOn(decode, served, cap, maxRecords, batchSize, State(0, 1, 0, [], 0), 0);
    }
  }

  lemma {:induction false} KeptSlots(decode: Base64, n: nat)
    requires decode(EMPTY_SLOT) == Some(Zeros(RECORD_SIZE))
    ensures Kept(decode, Slots(n)) == []
    decreases n
  {
    if n > 0 {
      assert Slots(n)[..n - 1] == Slots(n - 1);
      KeptSlots(decode, n - 1);
    }
  }

  /** No record of the log is itself all zero. */
  ghost predicate NoSlots(decode: Base64, records: seq<string>) {
    forall i :: 0 <= i < |records| ==> !IsEmptyRecordSlot(DecodeRecord(decode, records[i]))
  }

  lemma {:induction false} KeptAll(decode: Base64, records: seq<string>)
    requires NoSlots(decode, records)
    ensures |Kept(decode, records)| == |records|
    ensures forall i :: 0 <= i < |records| ==> Kept(decode, records)[i] == DecodeRecord(decode, records[i])
    decreases |records|
  {
    if records != [] {
      KeptAll(decode, records[..|records| - 1]);
    }
  }

  /** A budget that covers the padded log returns every real record once, and counts the padding. */
  lemma WholeLog(decode: Base64, records: seq<string>, emptySlots: nat, cap: nat, maxRecords: nat, batchSize: int)
    requires decode(EMPTY_SLOT) == Some(Zeros(RECORD_SIZE)) && NoSlots(decode, records)
    requires |records| + emptySlots <= maxRecords
    ensures var log := Expected(decode, Served(records, emptySlots), cap, maxRecords, batchSize);
            && |log.records| == |records| && log.emptySlots == emptySlots
            && (forall i :: 0 <= i < |records| ==> log.records[i] == DecodeRecord(decode, records[i]))
            && log.complete && !log.truncated
  {
    var served := Served(records, emptySlots);
    assert records + Slots(0) == records;
    assert served == records + Slots(emptySlots);
    assert served[..|served|] == served;
    KeptAppend(decode, records, Slots(emptySlots));
    KeptSlots(decode, emptySlots);
    KeptAll(decode, records);
  }
}

// Reading the event log: the GetRecords iteration against arbitrary firmware,
// and against the mock firmware's own log.
module MessageLog {
  import opened Wrappers
  import opened Bytes
  import opened WsmanValues

  // --- Records ---

  /** What a RecordArray element decodes to; `raw` is None when it is not base64. */
  datatype EventRecord = EventRecord(base64: string, raw: Option<seq<byte>>, undecodable: bool)

  const RECORD_SIZE := 21

  type Base64 = string -> Option<seq<byte>>

  function DecodeRecord(decode: Base64, text: string): EventRecord {
    var raw := decode(text);
    EventRecord(text, raw, raw.None? || |raw.value| < RECORD_SIZE)
  }

  predicate IsEmptyRecordSlot(r: EventRecord) {
    !r.undecodable && r.raw == Some(Zeros(RECORD_SIZE))
  }

  /** The real records among a list of elements, in order. */
  function Kept(decode: Base64, texts: seq<string>): (records: seq<EventRecord>)
    ensures |records| <= |texts|
  {
    if texts == [] then []
    else
      var last := DecodeRecord(decode, texts[|texts| - 1]);
      Kept(decode, texts[..|texts| - 1]) + if IsEmptyRecordSlot(last) then [] else [last]
  }

  lemma {:induction false} KeptAppend(decode: Base64, a: seq<string>, b: seq<string>)
    ensures Kept(decode, a + b) == Kept(decode, a) + Kept(decode, b)
    decreases |b|
  {
    if b == [] {
      assert a + b == a;
    } else {
      assert (a + b)[..|a + b| - 1] == a + b[..|b| - 1];
      KeptAppend(decode, a, b[..|b| - 1]);
    }
  }

  // --- The protocol ---

  /** A method's answer; Broken is any failure of the exchange itself. */
  datatype Reply = Broken | Reply(rv: int, noMore: bool, nextId: Option<int>, children: seq<Element>)

  datatype Reason = NoMoreRecords | MaxRecords | NoRecordExists | NoRecordExistsInLog
                  | InvalidRecordPointed | NoIterationIdentifier | IterationStalled

  datatype LogRead = LogRead(records: seq<EventRecord>, truncated: bool, complete: bool, reason: Reason,
                             batches: nat, emptySlots: nat)

  datatype Outcome = Raised | Unsupported | Read(log: LogRead)

  const MAX_READ_RECORDS := 390

  /**
    The client's parameters and one run of a firmware: its answer to the k-th
    GetRecords may depend on anything, the request's two arguments included.
    */
  datatype Iteration = Iteration(decode: Base64, firmware: (nat, int, int) -> Reply, maxRecords: int, batchSize: int)

  datatype State = State(calls: nat, id: int, consumed: nat, records: seq<EventRecord>, emptySlots: nat)

  datatype Progress = Running(state: State) | Stopped(outcome: Outcome)

  function Min(a: int, b: int): int {
    if a < b then a else b
  }

  function Ask(it: Iteration, st: State): Reply {
    it.firmware(st.calls, st.id, Min(it.batchSize, Min(it.maxRecords - st.consumed, MAX_READ_RECORDS)))
  }

  /** The elements of a reply that fit in what is left of the budget. */
  function Batch(it: Iteration, st: State, reply: Reply): (batch: seq<string>)
    requires reply.Reply? && st.consumed < it.maxRecords
    ensures |batch| <= it.maxRecords - st.consumed
  {
    var texts := RecordArray(Lookup(Fields(reply.children), "RecordArray"));
    texts[..Min(|texts|, it.maxRecords - st.consumed)]
  }

  function Stop(st: State, reason: Reason): Progress {
    Stopped(Read(LogRead(st.records, reason == MaxRecords, reason in {NoMoreRecords, NoRecordExists, NoRecordExistsInLog},
                         reason, st.calls, st.emptySlots)))
  }

  /** One round of the loop. */
  function Step(it: Iteration, st: State): Progress {
    if st.consumed >= it.maxRecords then Stop(st, MaxRecords)
    else
      var reply := Ask(it, st);
      var asked := st.(calls := st.calls + 1);
      if reply.Broken? || reply.rv !in {0, 2, 3} then Stopped(Raised)
      else if reply.rv == 3 then Stop(asked, NoRecordExistsInLog)
      else if reply.rv == 2 then Stop(asked, InvalidRecordPointed)
      else
        var batch := Batch(it, st, reply);
        var kept := Kept(it.decode, batch);
        var got := asked.(consumed := st.consumed + |batch|, records := st.records + kept,
                          emptySlots := st.emptySlots + |batch| - |kept|);
        if reply.noMore then Stop(got, NoMoreRecords)
        else if reply.nextId.None? then Stop(got, NoIterationIdentifier)
        else if reply.nextId.value == st.id then Stop(got, IterationStalled)
        else Running(got.(id := reply.nextId.value))
  }

  /** PositionToFirstRecord decides where the iteration starts, if it does. */
  function Begin(position: Reply): Progress {
    if position.Broken? || position.rv !in {0, 1, 2} then Stopped(Raised)
    else if position.rv == 1 then Stopped(Unsupported)
    else if position.rv == 2 then Stop(State(0, 1, 0, [], 0), NoRecordExists)
    else
      var id := if position.nextId.Some? && position.nextId.value >= 1 then position.nextId.value else 1;
      Running(State(0, id, 0, [], 0))
  }

  /** At most n rounds further. */
  function After(it: Iteration, p: Progress, n: nat): Progress
    decreases n
  {
    if p.Stopped? || n == 0 then p else After(it, Step(it, p.state), n - 1)
  }

  ghost predicate Halts(it: Iteration, p: Progress) {
    exists n: nat :: After(it, p, n).Stopped?
  }

  lemma BeginsStopped(it: Iteration, p: Progress, n: nat)
    ensures p.Stopped? ==> After(it, p, n) == p
  {
  }

  lemma NoRoundsLeft(it: Iteration, st: State)
    ensures After(it, Running(st), 0) == Running(st)
  {
  }

  lemma NextRound(it: Iteration, st: State, n: nat)
    requires n > 0
    ensures After(it, Running(st), n) == After(it, Step(it, st), n - 1)
    ensures Step(it, st).Stopped? ==> After(it, Running(st), n) == Step(it, st)
  {
    hide Step;
  }

  // --- The loop as it runs ---

  /**
    The loop on any firmware, stopped after `limit` rounds if it has not ended
    by itself; `position` is the answer to PositionToFirstRecord.
    */
  method ReadRecords(it: Iteration, position: Reply, limit: nat) returns (p: Progress)
    ensures p == After(it, Begin(position), limit)
  {
    hide After, Kept, RecordArray, Fields, Lookup, DecodeRecord;
    BeginsStopped(it, Begin(position), limit);
    if position.Broken? || position.rv !in {0, 1, 2} {
      return Stopped(Raised);
    }
    if position.rv == 1 {
      return Stopped(Unsupported);
    }
    if position.rv == 2 {
      return Stopped(Read(LogRead([], false, true, NoRecordExists, 0, 0)));
    }
    var identifier := if position.nextId.Some? && position.nextId.value >= 1 then position.nextId.value else 1;
    var records: seq<EventRecord> := [];
    var consumed: nat, emptySlots: nat, batches: nat := 0, 0, 0;
    var left := limit;
    while left > 0
      invariant After(it, Running(State(batches, identifier, consumed, records, emptySlots)), left) == After(it, Begin(position), limit)
    {
      ghost var st := State(batches, identifier, consumed, records, emptySlots);
      NextRound(it, st, left);
      left := left - 1;
      if consumed >= it.maxRecords {
        return Stopped(Read(LogRead(records, true, false, MaxRecords, batches, emptySlots)));
      }
      var remaining := it.maxRecords - consumed;
      var reply := it.firmware(batches, identifier, Min(it.batchSize, Min(remaining, MAX_READ_RECORDS)));
      if reply.Broken? || reply.rv !in {0, 2, 3} {
        return Stopped(Raised);
      }
      batches := batches + 1;
      if reply.rv == 3 {
        return Stopped(Read(LogRead(records, false, true, NoRecordExistsInLog, batches, emptySlots)));
      }
      if reply.rv == 2 {
        return Stopped(Read(LogRead(records, false, false, InvalidRecordPointed, batches, emptySlots)));
      }
      var batch := RecordArray(Lookup(Fields(reply.children), "RecordArray"));
      batch := batch[..Min(|batch|, remaining)];
      consumed := consumed + |batch|;
      var slots: nat;
      records, slots := KeepRecords(it.decode, batch, records);
      emptySlots := emptySlots + slots;
      if reply.noMore {
        return Stopped(Read(LogRead(records, false, true, NoMoreRecords, batches, emptySlots)));
      }
      if reply.nextId.None? {
        return Stopped(Read(LogRead(records, false, false, NoIterationIdentifier, batches, emptySlots)));
      }
      if reply.nextId.value == identifier {
        return Stopped(Read(LogRead(records, false, false, IterationStalled, batches, emptySlots)));
      }
      identifier := reply.nextId.value;
    }
    NoRoundsLeft(it, State(batches, identifier, consumed, records, emptySlots));
    return Running(State(batches, identifier, consumed, records, emptySlots));
  }

  method KeepRecords(decode: Base64, batch: seq<string>, before: seq<EventRecord>) returns (records: seq<EventRecord>, slots: nat)
    ensures records == before + Kept(decode, batch) && slots == |batch| - |Kept(decode, batch)|
  {
    records, slots := before, 0;
    for i := 0 to |batch|
      invariant records == before + Kept(decode, batch[..i]) && slots == i - |Kept(decode, batch[..i])|
    {
      assert batch[..i + 1][..i] == batch[..i];
      var record := DecodeRecord(decode, batch[i]);
      if IsEmptyRecordSlot(record) {
        slots := slots + 1;
      } else {
        records := records + [record];
      }
    }
    assert batch[..|batch|] == batch;
  }

  // --- What any firmware can and cannot make it report ---

  /** The elements one round takes from firmware. */
  function Took(it: Iteration, st: State): seq<string> {
    var reply := if st.consumed < it.maxRecords then Ask(it, st) else Broken;
    if reply.Reply? && reply.rv == 0 then Batch(it, st, reply) else []
  }

  /** Every element taken from firmware along a run, in order. */
  function Taken(it: Iteration, p: Progress, n: nat): seq<string>
    decreases n
  {
    if p.Stopped? || n == 0 then []
    else Took(it, p.state) + Taken(it, Step(it, p.state), n - 1)
  }

  /** `records`, `emptySlots` account for exactly `texts` on top of `st`. */
  ghost predicate Accounts(it: Iteration, st: State, texts: seq<string>, records: seq<EventRecord>, emptySlots: int) {
    records == st.records + Kept(it.decode, texts) && emptySlots == st.emptySlots + |texts| - |Kept(it.decode, texts)|
  }

  lemma AccountsTrans(it: Iteration, st: State, a: seq<string>, mid: State, b: seq<string>, records: seq<EventRecord>, emptySlots: int)
    requires Accounts(it, st, a, mid.records, mid.emptySlots) && Accounts(it, mid, b, records, emptySlots)
    ensures Accounts(it, st, a + b, records, emptySlots)
  {
    KeptAppend(it.decode, a, b);
    assert st.records + (Kept(it.decode, a) + Kept(it.decode, b)) == (st.records + Kept(it.decode, a)) + Kept(it.decode, b);
  }

  lemma KeptNone(decode: Base64)
    ensures Kept(decode, []) == []
  {
  }

  /** A round that goes on accounts for its batch, and asks once. */
  lemma StepAccounts(it: Iteration, st: State)
    requires st.consumed <= Max0(it.maxRecords)
    ensures var p := Step(it, st);
            var took := Taken(it, Running(st), 1);
            && (p.Running? ==>
                  && Accounts(it, st, took, p.state.records, p.state.emptySlots)
                  && p.state.consumed == st.consumed + |took| <= Max0(it.maxRecords)
                  && p.state.calls == st.calls + 1)
            && (p.Stopped? && p.outcome.Read? ==>
                  && Accounts(it, st, took, p.outcome.log.records, p.outcome.log.emptySlots)
                  && st.consumed + |took| <= Max0(it.maxRecords))
  {
    hide Kept, Ask, Batch;
    KeptNone(it.decode);
    var p := Step(it, st);
    var took := Taken(it, Running(st), 1);
    assert Taken(it, p, 0) == [];
    if st.consumed < it.maxRecords && Ask(it, st).Reply? && Ask(it, st).rv == 0 {
      var batch := Batch(it, st, Ask(it, st));
      assert took == batch + [] == batch;
    } else {
      assert took == [];
    }
  }

  function Max0(x: int): nat {
    if x < 0 then 0 else x
  }

  /**
    Conservation, for every firmware and every number of rounds: real records
    and empty slots are together exactly what was taken from firmware, in
    order, and never more than the budget.
    */
  lemma {:induction false} Conservation(it: Iteration, st: State, n: nat)
    requires st.consumed <= Max0(it.maxRecords)
    ensures var p := After(it, Running(st), n);
            var texts := Taken(it, Running(st), n);
            && st.consumed + |texts| <= Max0(it.maxRecords)
            && (p.Running? ==> Accounts(it, st, texts, p.state.records, p.state.emptySlots)
                               && p.state.consumed == st.consumed + |texts|)
            && (p.Stopped? && p.outcome.Read? ==> Accounts(it, st, texts, p.outcome.log.records, p.outcome.log.emptySlots))
    decreases n
  {
    hide Step, Batch, Kept, Ask;
    if n == 0 {
      KeptNothing(it, st);
    } else {
      var next := Step(it, st);
      var took := Taken(it, Running(st), 1);
      StepAccounts(it, st);
      TakenStep(it, st, n);
      var texts := Taken(it, Running(st), n);
      if next.Running? {
        Conservation(it, next.state, n - 1);
        var later := Taken(it, next, n - 1);
        var p := After(it, Running(st), n);
        if p.Running? {
          AccountsTrans(it, st, took, next.state, later, p.state.records, p.state.emptySlots);
        } else if p.outcome.Read? {
          AccountsTrans(it, st, took, next.state, later, p.outcome.log.records, p.outcome.log.emptySlots);
        }
      } else {
        assert texts == took + [];
        StepTakes(it, st);
      }
    }
  }

  lemma KeptNothing(it: Iteration, st: State)
    ensures Accounts(it, st, [], st.records, st.emptySlots)
  {
    assert st.records + [] == st.records;
  }

  lemma TakenStep(it: Iteration, st: State, n: nat)
    requires n > 0
    ensures Taken(it, Running(st), n) == Taken(it, Running(st), 1) + Taken(it, Step(it, st), n - 1)
  {
    hide Step, Took;
    assert Taken(it, Step(it, st), 0) == [];
    assert Taken(it, Running(st), 1) == Took(it, st) + [] == Took(it, st);
  }

  lemma StepTakes(it: Iteration, st: State)
    requires st.consumed <= Max0(it.maxRecords)
    ensures st.consumed + |Taken(it, Running(st), 1)| <= Max0(it.maxRecords)
  {
    assert Taken(it, Step(it, st), 0) == [];
  }

  /** How a read may describe itself: truncated only for the budget, complete only for the three clean ends. */
  lemma {:induction false} SelfDescription(it: Iteration, p: Progress, n: nat)
    requires p.Stopped? && p.outcome.Read? ==> Described(p.outcome.log)
    ensures var r := After(it, p, n);
            r.Stopped? && r.outcome.Read? ==> Described(r.outcome.log)
    decreases n
  {
    if p.Running? && n > 0 {
      SelfDescription(it, Step(it, p.state), n - 1);
    }
  }

  predicate Described(log: LogRead) {
    && (log.truncated <==> log.reason == MaxRecords)
    && (log.complete <==> log.reason == NoMoreRecords || log.reason == NoRecordExists || log.reason == NoRecordExistsInLog)
  }

  /** What a caller may rely on for every firmware the read ends with. */
  lemma AnyFirmware(it: Iteration, position: Reply, n: nat, r: Outcome)
    requires After(it, Begin(position), n) == Stopped(r) && r.Read?
    ensures Described(r.log)
    ensures var texts := Taken(it, Begin(position), n);
            && r.log.records == Kept(it.decode, texts)
            && |r.log.records| + r.log.emptySlots == |texts| <= Max0(it.maxRecords)
  {
    SelfDescription(it, Begin(position), n);
    if Begin(position).Running? {
      Conservation(it, Begin(position).state, n);
      var kept := Kept(it.decode, Taken(it, Begin(position), n));
      assert [] + kept == kept;
    }
  }

  /** However many rounds are allowed, a finished read has one result. */
  lemma {:induction false} OneOutcome(it: Iteration, p: Progress, m: nat, n: nat)
    requires After(it, p, m).Stopped? && m <= n
    ensures After(it, p, n) == After(it, p, m)
    decreases m
  {
    hide Step;
    if p.Running? && m > 0 {
      OneOutcome(it, Step(it, p.state), m - 1, n - 1);
    }
  }

  // --- Termination ---

  lemma {:induction false} AfterPlus(it: Iteration, p: Progress, m: nat, n: nat)
    ensures After(it, p, m + n) == After(it, After(it, p, m), n)
    decreases m
  {
    hide Step;
    if p.Running? && m > 0 {
      AfterPlus(it, Step(it, p.state), m - 1, n);
    }
  }

  /** At this state the firmware promises more, moves the identifier, and sends nothing. */
  ghost predicate Empty(it: Iteration, st: State) {
    var p := Step(it, st);
    p.Running? && p.state.consumed == st.consumed
  }

  /** Firmware none of whose continuing batches is empty. */
  ghost predicate Progressive(it: Iteration) {
    forall st: State :: !Empty(it, st)
  }

  lemma StepGrows(it: Iteration, st: State)
    ensures Step(it, st).Running? ==> st.consumed <= Step(it, st).state.consumed <= Max0(it.maxRecords)
    ensures st.consumed >= it.maxRecords ==> Step(it, st).Stopped?
  {
  }

  /** With the measure max_records - consumed: at most one round more than the budget. */
  lemma {:induction false} ProgressHalts(it: Iteration, st: State)
    requires Progressive(it) && st.consumed <= Max0(it.maxRecords)
    ensures After(it, Running(st), Max0(it.maxRecords) - st.consumed + 1).Stopped?
    decreases Max0(it.maxRecords) - st.consumed
  {
    hide Step;
    StepGrows(it, st);
    assert !Empty(it, st);
    var p := Step(it, st);
    if p.Running? {
      ProgressHalts(it, p.state);
      AfterMore(it, p, Max0(it.maxRecords) - p.state.consumed + 1, Max0(it.maxRecords) - st.consumed);
    }
  }

  lemma AfterMore(it: Iteration, p: Progress, m: nat, n: nat)
    requires After(it, p, m).Stopped? && m <= n
    ensures After(it, p, n).Stopped?
  {
    OneOutcome(it, p, m, n);
  }

  /** An answer that promises more under another identifier, and brings nothing. */
  predicate EmptyAnswer(reply: Reply, id: int) {
    && reply.Reply? && reply.rv == 0 && !reply.noMore
    && reply.nextId.Some? && reply.nextId.value != id
    && RecordArray(Lookup(Fields(reply.children), "RecordArray")) == []
  }

  /** Where the client asks next after `n` such answers: one call later each time, at the identifier it was given. */
  function Drift(it: Iteration, st: State, n: nat): State {
    if n == 0 then st
    else
      var before := Drift(it, st, n - 1);
      var reply := Ask(it, before);
      before.(calls := before.calls + 1, id := if reply.Reply? && reply.nextId.Some? then reply.nextId.value else before.id)
  }

  /** From here on firmware has nothing but empty answers. */
  ghost predicate OnlyEmpty(it: Iteration, st: State) {
    st.consumed < it.maxRecords && forall n: nat :: EmptyAnswer(Ask(it, Drift(it, st, n)), Drift(it, st, n).id)
  }

  /** An empty answer is what keeps the loop going without progress. */
  lemma EmptyIff(it: Iteration, st: State)
    ensures Empty(it, st) <==> st.consumed < it.maxRecords && EmptyAnswer(Ask(it, st), st.id)
    ensures Empty(it, st) ==> Step(it, st) == Running(Drift(it, st, 1))
  {
    hide RecordArray, Fields, Lookup, Ask;
    assert Drift(it, st, 0) == st;
    assert Kept(it.decode, []) == [] && st.records + [] == st.records;
  }

  lemma {:induction false} DriftKeeps(it: Iteration, st: State, n: nat)
    ensures Drift(it, st, n).consumed == st.consumed
    decreases n
  {
    if n > 0 {
      DriftKeeps(it, st, n - 1);
    }
  }

  /** With nothing but empty answers the loop drifts for ever. */
  lemma {:induction false} DriftsOn(it: Iteration, st: State, n: nat)
    requires OnlyEmpty(it, st)
    ensures After(it, Running(st), n) == Running(Drift(it, st, n))
    decreases n
  {
    hide Step, EmptyAnswer, Ask;
    if n > 0 {
      DriftsOn(it, st, n - 1);
      var before := Drift(it, st, n - 1);
      assert EmptyAnswer(Ask(it, before), before.id);
      DriftKeeps(it, st, n - 1);
      EmptyIff(it, before);
      AfterPlus(it, Running(st), n - 1, 1);
      DriftStep(it, st, n - 1);
      assert After(it, Running(before), 1) == Step(it, before);
    }
  }

  lemma DriftStep(it: Iteration, st: State, n: nat)
    ensures Drift(it, Drift(it, st, n), 1) == Drift(it, st, n + 1)
  {
    hide Ask;
    assert Drift(it, Drift(it, st, n), 0) == Drift(it, st, n);
  }

  /** From `p` on the loop never stops and never makes progress. */
  ghost predicate Spins(it: Iteration, p: Progress) {
    forall n: nat :: After(it, p, n).Running? && Empty(it, After(it, p, n).state)
  }

  lemma {:induction false} SpinsDrifts(it: Iteration, st: State, n: nat)
    requires Spins(it, Running(st))
    ensures After(it, Running(st), n) == Running(Drift(it, st, n))
    decreases n
  {
    hide Step, Empty;
    if n > 0 {
      SpinsDrifts(it, st, n - 1);
      EmptyIff(it, Drift(it, st, n - 1));
      AfterPlus(it, Running(st), n - 1, 1);
      DriftStep(it, st, n - 1);
      assert After(it, Running(Drift(it, st, n - 1)), 1) == Step(it, Drift(it, st, n - 1));
    }
  }

  lemma SpinsIsOnlyEmpty(it: Iteration, st: State)
    requires Spins(it, Running(st))
    ensures OnlyEmpty(it, st)
  {
    hide Step, EmptyAnswer, Ask, Empty;
    assert After(it, Running(st), 0) == Running(st);
    EmptyIff(it, st);
    forall n: nat ensures EmptyAnswer(Ask(it, Drift(it, st, n)), Drift(it, st, n).id) {
      SpinsDrifts(it, st, n);
      EmptyIff(it, Drift(it, st, n));
    }
  }

  /**
    Exactly when the read never ends: after finitely many rounds, with the
    budget not used up, firmware has nothing left but empty answers that
    promise more under a moved identifier.
    */
  lemma NeverEndsIff(it: Iteration, position: Reply)
    ensures !Halts(it, Begin(position)) <==>
            exists k: nat :: After(it, Begin(position), k).Running? && OnlyEmpty(it, After(it, Begin(position), k).state)
  {
    hide Step, EmptyAnswer, Ask, Drift;
    var p := Begin(position);
    if !Halts(it, p) {
      var k := Settles(it, p, 0);
      SpinsIsOnlyEmpty(it, After(it, p, k).state);
    }
    if k: nat :| After(it, p, k).Running? && OnlyEmpty(it, After(it, p, k).state) {
      forall n: nat ensures After(it, p, n).Running? {
        if After(it, p, n).Stopped? {
          if n <= k {
            OneOutcome(it, p, n, k);
          } else {
            AfterPlus(it, p, k, n - k);
            DriftsOn(it, After(it, p, k).state, n - k);
          }
        }
      }
    }
  }

  lemma {:induction false} Settles(it: Iteration, p: Progress, m: nat) returns (k: nat)
    requires !Halts(it, p)
    ensures After(it, p, k).Running? && Spins(it, After(it, p, k))
    decreases Max0(it.maxRecords) - After(it, p, m).state.consumed
  {
    hide Step;
    var q := After(it, p, m);
    if Spins(it, q) {
      k := m;
    } else {
      var n: nat :| !(After(it, q, n).Running? && Empty(it, After(it, q, n).state));
      AfterPlus(it, p, m, n);
      AfterPlus(it, p, m + n, 1);
      assert After(it, p, m + n + 1).Running?;
      var before, next := After(it, p, m + n), After(it, p, m + n + 1);
      assert next == After(it, before, 1) == Step(it, before.state);
      Grows(it, p, m, n);
      StepGrows(it, before.state);
      k := Settles(it, p, m + n + 1);
    }
  }

  lemma {:induction false} Grows(it: Iteration, p: Progress, m: nat, n: nat)
    requires After(it, p, m + n).Running?
    ensures After(it, p, m).Running?
    ensures After(it, p, m).state.consumed <= After(it, p, m + n).state.consumed
    decreases n
  {
    hide Step;
    if n > 0 {
      AfterPlus(it, p, m + n - 1, 1);
      var before := After(it, p, m + n - 1);
      assert before.Running?;
      assert After(it, before, 1) == Step(it, before.state);
      Grows(it, p, m, n - 1);
      StepGrows(it, before.state);
    }
  }

  // --- A read that never ends ---

  /** Two identifiers in turn, never a record, always more to come. */
  function Alternating(call: nat, id: int, maxRead: int): Reply {
    Reply(0, false, Some(if id == 1 then 2 else 1), [])
  }

  /** The stall check compares an identifier with the one before it only. */
  lemma AlternatingNeverEnds(decode: Base64, maxRecords: int, batchSize: int)
    requires maxRecords >= 1
    ensures !Halts(Iteration(decode, Alternating, maxRecords, batchSize), Begin(Reply(0, false, Some(1), [])))
  {
    var it := Iteration(decode, Alternating, maxRecords, batchSize);
    forall n: nat ensures After(it, Begin(Reply(0, false, Some(1), [])), n).Running? {
      AlternatingRuns(it, State(0, 1, 0, [], 0), n);
    }
  }

  lemma {:induction false} AlternatingRuns(it: Iteration, st: State, n: nat)
    requires it.firmware == Alternating && it.maxRecords >= 1 && st.consumed == 0
    ensures After(it, Running(st), n).Running?
    decreases n
  {
    if n > 0 {
      var reply := Ask(it, st);
      assert reply == Alternating(st.calls, st.id, Min(it.batchSize, Min(it.maxRecords - st.consumed, MAX_READ_RECORDS)));
      assert RecordArray(Lookup(Fields(reply.children), "RecordArray")) == [];
      var p := Step(it, st);
      assert p.Running? && p.state.consumed == 0;
      AlternatingRuns(it, p.state, n - 1);
    }
  }
}

// A WRITE whose payload arrives in any number of fragments.
module IderWrites {
  import opened Wrappers
  import opened Bytes
  import opened IderFrames
  import opened IderTarget
  import opened IderInvariants
  import opened MockCodec
  import opened IderReads

  /** The engine after a list of DATA_FROM_HOST payloads. */
  function Arrive(t: Target, fragments: seq<seq<byte>>): Target
    decreases |fragments|
  {
    if fragments == [] then t else Arrive(OnDataFromHost(t, fragments[0]).0, fragments[1..])
  }

  lemma {:induction false} ArriveAppend(t: Target, a: seq<seq<byte>>, b: seq<seq<byte>>)
    ensures Arrive(t, a + b) == Arrive(Arrive(t, a), b)
    decreases |a|
  {
    if a == [] {
      assert a + b == b;
    } else {
      assert (a + b)[0] == a[0] && (a + b)[1..] == a[1..] + b;
      ArriveAppend(OnDataFromHost(t, a[0]).0, a[1..], b);
    }
  }

  lemma WriteAtCompose(file: seq<byte>, offset: nat, a: seq<byte>, b: seq<byte>)
    ensures WriteAt(WriteAt(file, offset, a), offset + |a|, b) == WriteAt(file, offset, a + b)
  {
    if a == [] {
      assert a + b == b;
    } else if b == [] {
      assert a + b == a;
    } else {
      var once := WriteAt(file, offset, a + b);
      var twice := WriteAt(WriteAt(file, offset, a), offset + |a|, b);
      var padded := if |file| < offset then file + Zeros(offset - |file|) else file;
      assert WriteAt(file, offset, a)[..offset + |a|] == padded[..offset] + a;
      assert twice == once;
    }
  }

  /** In a file long enough, one slice is replaced and everything else stays. */
  lemma WriteAtInside(file: seq<byte>, offset: nat, data: seq<byte>)
    requires offset + |data| <= |file|
    ensures WriteAt(file, offset, data) == file[..offset] + data + file[offset + |data|..]
  {
    if data == [] {
      assert file == file[..offset] + [] + file[offset..];
    }
  }

  predicate Pending(t: Target) {
    t.pending.Some?
  }

  /** Bytes the pending write still waits for. */
  function Room(t: Target): int {
    if t.pending.Some? then t.pending.value.expected - t.pending.value.received else 0
  }

  /** Where the next byte of the pending write goes. */
  function Cursor(t: Target): nat
    requires Pending(t)
  {
    t.pending.value.byteOffset + t.pending.value.received
  }

  /** `u` has taken `data` into the floppy's file and changed no other file. */
  ghost predicate Written(t: Target, u: Target, offset: nat, data: seq<byte>)
    requires t.media.floppy.Some?
  {
    && SameImage(t.media.floppy, u.media.floppy) && u.media.cdrom == t.media.cdrom
    && u.media.floppy.value.bytesWritten == t.media.floppy.value.bytesWritten + |data|
    && u.media.files == t.media.files[t.media.floppy.value.file := WriteAt(Content(t.media, t.media.floppy.value), offset, data)]
    && u.session == t.session && u.reentry == t.reentry
  }

  lemma WrittenChain(t: Target, u: Target, v: Target, offset: nat, a: seq<byte>, b: seq<byte>)
    requires t.media.floppy.Some? && Written(t, u, offset, a) && Written(u, v, offset + |a|, b)
    ensures Written(t, v, offset, a + b)
  {
    WriteAtCompose(Content(t.media, t.media.floppy.value), offset, a, b);
  }

  /** A fragment that leaves the write incomplete is stored and not answered. */
  lemma FragmentStored(t: Target, data: seq<byte>)
    requires Quiet(t) && Pending(t) && |data| < Room(t)
    ensures var u := OnDataFromHost(t, data).0;
            && Quiet(u) && u.out == t.out && Written(t, u, Cursor(t), data)
            && u.pending == Some(t.pending.value.(received := t.pending.value.received + |data|))
  {
    DataFromHostStep(t, data);
  }

  const SUCCESS: Event := CommandEnd(false, DEVICE_FLOPPY, 0, 0, 0)
  const OVERRUN: Event := CommandEnd(false, DEVICE_FLOPPY, 0x05, 0x21, 0)
  const UNASKED: Event := CommandEnd(false, DEVICE_FLOPPY, 0x05, 0x20, 0)

  lemma EndEvent(t: Target, u: Target, sense: byte, asc: byte)
    requires u.out == SendEnd(t, false, sense, DEVICE_FLOPPY, asc, 0).out
    ensures t.out.sent <= u.out.sent && Emitted(t, u) == [CommandEnd(false, DEVICE_FLOPPY, sense, asc, 0)]
  {
    DecodeEnd(t.out.seqno, false, sense, DEVICE_FLOPPY, asc, 0);
    SentEvent(t, CMD_COMMAND_END_RESPONSE, EndPayload(false, sense, DEVICE_FLOPPY, asc, 0), true, false, u);
  }

  /** The fragment that fills the write is stored and answered with success. */
  lemma FragmentCompletes(t: Target, data: seq<byte>)
    requires Quiet(t) && Pending(t) && |data| == Room(t)
    ensures var u := OnDataFromHost(t, data).0;
            && Quiet(u) && u.pending == None && Written(t, u, Cursor(t), data)
            && t.out.sent <= u.out.sent && Emitted(t, u) == [SUCCESS]
  {
    DataFromHostStep(t, data);
    EndEvent(t, OnDataFromHost(t, data).0, 0, 0);
  }

  /** A fragment larger than what is left writes nothing, drops the write and is answered once. */
  lemma FragmentOverruns(t: Target, data: seq<byte>)
    requires Quiet(t) && Pending(t) && |data| > Room(t)
    ensures var u := OnDataFromHost(t, data).0;
            && Quiet(u) && u.pending == None && u.media == t.media && u.session == t.session && u.reentry == t.reentry
            && t.out.sent <= u.out.sent && Emitted(t, u) == [OVERRUN]
  {
    DataFromHostStep(t, data);
    EndEvent(t, OnDataFromHost(t, data).0, 0x05, 0x21);
  }

  /** Payload nobody asked for is refused fragment by fragment. */
  lemma {:induction false} Unasked(t: Target, fragments: seq<seq<byte>>)
    requires Quiet(t) && !Pending(t)
    ensures var u := Arrive(t, fragments);
            && Quiet(u) && u.pending == None && u.media == t.media && u.session == t.session && u.reentry == t.reentry
            && t.out.sent <= u.out.sent && Emitted(t, u) == seq(|fragments|, _ => UNASKED)
    decreases |fragments|
  {
    hide DecodeFrame, Numbered, MediaKept;
    if fragments == [] {
      assert Emitted(t, t) == [];
    } else {
      var u := OnDataFromHost(t, fragments[0]).0;
      DataFromHostStep(t, fragments[0]);
      EndEvent(t, u, 0x05, 0x20);
      Unasked(u, fragments[1..]);
      EmittedChain(t, u, Arrive(t, fragments));
    }
  }

  /** Any fragments that do not fill the write. */
  lemma {:induction false} PartialWrite(t: Target, fragments: seq<seq<byte>>)
    requires Quiet(t) && Pending(t) && |Concat(fragments)| < Room(t)
    ensures var u := Arrive(t, fragments);
            && Quiet(u) && u.out == t.out && Written(t, u, Cursor(t), Concat(fragments))
            && u.pending == Some(t.pending.value.(received := t.pending.value.received + |Concat(fragments)|))
    decreases |fragments|
  {
    if fragments != [] {
      var u := OnDataFromHost(t, fragments[0]).0;
      FragmentStored(t, fragments[0]);
      PartialWrite(u, fragments[1..]);
      WrittenChain(t, u, Arrive(t, fragments), Cursor(t), fragments[0], Concat(fragments[1..]));
    }
  }

  /**
    Fragmentation does not matter: however the bytes are cut, the file ends up
    with that one slice replaced and success is reported once. Empty fragments
    after the last byte are not part of the transfer any more; each is refused.
    */
  lemma WriteCompletes(t: Target, body: seq<seq<byte>>, last: seq<byte>, empties: nat)
    requires Quiet(t) && Pending(t) && last != []
    requires |Concat(body)| + |last| == Room(t)
    ensures var u := Arrive(t, body + [last] + seq(empties, _ => []));
            && Quiet(u) && u.pending == None && Written(t, u, Cursor(t), Concat(body) + last)
            && t.out.sent <= u.out.sent && Emitted(t, u) == [SUCCESS] + seq(empties, _ => UNASKED)
  {
    hide DecodeFrame, Quiet, OnDataFromHost;
    var stored := Arrive(t, body);
    var done := OnDataFromHost(stored, last).0;
    var trailing: seq<seq<byte>> := seq(empties, _ => []);
    PartialWrite(t, body);
    FragmentCompletes(stored, last);
    WrittenChain(t, stored, done, Cursor(t), Concat(body), last);
    Unasked(done, trailing);
    ArriveAppend(t, body, [last]);
    ArriveAppend(t, body + [last], trailing);
    assert Arrive(stored, [last]) == done by {
      assert [last][1..] == [];
    }
    assert Emitted(t, done) == [SUCCESS];
    EmittedChain(t, done, Arrive(done, trailing));
  }

  /** Every list of fragments with some byte in it has that form. */
  lemma {:induction false} SplitTrailing(fragments: seq<seq<byte>>) returns (body: seq<seq<byte>>, last: seq<byte>, empties: nat)
    requires Concat(fragments) != []
    ensures fragments == body + [last] + seq(empties, _ => []) && last != []
    ensures Concat(fragments) == Concat(body) + last
    ensures empties == 0 <==> fragments[|fragments| - 1] != []
    decreases |fragments|
  {
    var front, end := fragments[..|fragments| - 1], fragments[|fragments| - 1];
    assert fragments == front + [end];
    ConcatAppend(front, [end]);
    ConcatOne(end);
    if end != [] {
      return front, end, 0;
    }
    body, last, empties := SplitTrailing(front);
    empties := empties + 1;
  }

  /** For any split of exactly the expected bytes; success alone is reported iff the last fragment carries data. */
  lemma FragmentationInvariance(t: Target, fragments: seq<seq<byte>>)
    requires Quiet(t) && Pending(t) && |Concat(fragments)| == Room(t)
    ensures var u := Arrive(t, fragments);
            && Quiet(u) && u.pending == None && Written(t, u, Cursor(t), Concat(fragments))
            && t.out.sent <= u.out.sent
            && (Emitted(t, u) == [SUCCESS] <==> fragments[|fragments| - 1] != [])
            && Emitted(t, u) != [] && Emitted(t, u)[0] == SUCCESS
            && (forall i :: 0 < i < |Emitted(t, u)| ==> Emitted(t, u)[i] == UNASKED)
  {
    var body, last, empties := SplitTrailing(fragments);
    WriteCompletes(t, body, last, empties);
  }

  /** The frame that overruns writes nothing; what came before it stays, what comes after is refused. */
  lemma OverrunRefused(t: Target, before: seq<seq<byte>>, over: seq<byte>, after: seq<seq<byte>>)
    requires Quiet(t) && Pending(t)
    requires |Concat(before)| < Room(t) < |Concat(before)| + |over|
    ensures var u := Arrive(t, before + [over] + after);
            && Quiet(u) && u.pending == None && Written(t, u, Cursor(t), Concat(before))
            && t.out.sent <= u.out.sent && Emitted(t, u) == [OVERRUN] + seq(|after|, _ => UNASKED)
  {
    var stored := Arrive(t, before);
    var refused := OnDataFromHost(stored, over).0;
    PartialWrite(t, before);
    FragmentOverruns(stored, over);
    Unasked(refused, after);
    ArriveAppend(t, before, [over]);
    ArriveAppend(t, before + [over], after);
    assert Arrive(stored, [over]) == refused by {
      assert [over][1..] == [];
    }
    assert Emitted(t, refused) == [OVERRUN];
    EmittedChain(t, refused, Arrive(refused, after));
  }
}

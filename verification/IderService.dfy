// What a list of reads is owed: the exact events, one read after the other, and
// which reads are answered when the service is cut off after a number of frames.
module IderService {
  import opened Bytes
  import opened IderTarget
  import opened MockCodec
  import opened IderReads

  /** The file content a read asks for. */
  function Wanted(m: Media, r: ReadRequest): seq<byte> {
    ReadAt(Backing(m, r.device), r.byteOffset, r.remaining)
  }

  /** There is something to read, and what the file holds of it can be framed. */
  predicate Good(m: Media, r: ReadRequest, readbfr: nat) {
    Slot(m, r.device).Some? && r.remaining > 0 && Framable(readbfr, Wanted(m, r))
  }

  predicate AllGood(m: Media, requests: seq<ReadRequest>, readbfr: nat) {
    forall i :: 0 <= i < |requests| ==> Good(m, requests[i], readbfr)
  }

  function ChunkOf(r: ReadRequest, readbfr: nat): (n: nat)
    ensures n <= r.remaining
  {
    if 0 < readbfr < r.remaining then readbfr else r.remaining
  }

  /** The data of the next frame. */
  function NextData(m: Media, r: ReadRequest, readbfr: nat): (data: seq<byte>)
    ensures |data| <= r.remaining
  {
    ReadAt(Backing(m, r.device), r.byteOffset, ChunkOf(r, readbfr))
  }

  function MediumError(r: ReadRequest): Event {
    CommandEnd(false, r.device, 0x03, 0x11, 0)
  }

  function DataEvent(m: Media, r: ReadRequest, readbfr: nat): Event {
    var data := NextData(m, r, readbfr);
    DataToHost(r.device, data, |data| == r.remaining, r.dma)
  }

  /** The events that answer one read. */
  function Serve(m: Media, r: ReadRequest, readbfr: nat): seq<Event>
    decreases r.remaining
  {
    if r.remaining == 0 then []
    else
      var data := NextData(m, r, readbfr);
      if data == [] then [MediumError(r)]
      else [DataEvent(m, r, readbfr)] + Serve(m, After(r, |data|), readbfr)
  }

  function ServeAll(m: Media, requests: seq<ReadRequest>, readbfr: nat): seq<Event> {
    if requests == [] then [] else Serve(m, requests[0], readbfr) + ServeAll(m, requests[1..], readbfr)
  }

  lemma {:induction false} ServeAllAppend(m: Media, a: seq<ReadRequest>, b: seq<ReadRequest>, readbfr: nat)
    ensures ServeAll(m, a + b, readbfr) == ServeAll(m, a, readbfr) + ServeAll(m, b, readbfr)
  {
    hide Serve;
    if a == [] {
      assert a + b == b;
    } else {
      assert (a + b)[0] == a[0] && (a + b)[1..] == a[1..] + b;
      ServeAllAppend(m, a[1..], b, readbfr);
    }
  }

  /** The first event owed to a list of reads, and what is owed after it. */
  lemma ServeFirst(m: Media, r: ReadRequest, later: seq<ReadRequest>, readbfr: nat)
    requires r.remaining > 0
    ensures var data := NextData(m, r, readbfr);
            ServeAll(m, [r] + later, readbfr) ==
            if data == [] then [MediumError(r)] + ServeAll(m, later, readbfr)
            else if |data| == r.remaining then [DataEvent(m, r, readbfr)] + ServeAll(m, later, readbfr)
            else [DataEvent(m, r, readbfr)] + ServeAll(m, [After(r, |data|)] + later, readbfr)
  {
    hide NextData, DataEvent, MediumError;
    var data := NextData(m, r, readbfr);
    assert ([r] + later)[1..] == later;
    if data != [] {
      var rest := After(r, |data|);
      assert ([rest] + later)[0] == rest && ([rest] + later)[1..] == later;
      var e := DataEvent(m, r, readbfr);
      assert ([e] + Serve(m, rest, readbfr)) + ServeAll(m, later, readbfr) == [e] + (Serve(m, rest, readbfr) + ServeAll(m, later, readbfr));
      if |data| == r.remaining {
        assert Serve(m, rest, readbfr) == [];
        assert [e] + [] == [e];
      }
    }
  }

  // --- An answer is what firmware can reassemble ---

  /** The events of one read deliver what the file holds of it, completely or with a medium error. */
  lemma {:induction false} ServeDelivers(m: Media, r: ReadRequest, readbfr: nat)
    requires Good(m, r, readbfr)
    ensures Delivers(Serve(m, r, readbfr), Wanted(m, r), r.remaining, r.device, r.dma, readbfr)
    decreases r.remaining
  {
    var data := NextData(m, r, readbfr);
    ReadAtSplit(Backing(m, r.device), r.byteOffset, ChunkOf(r, readbfr), r.remaining);
    if data == [] {
      assert Wanted(m, r) == [];
      assert Payload([MediumError(r)]) == [] + Payload([]);
    } else {
      var e, rest := DataEvent(m, r, readbfr), After(r, |data|);
      assert Wanted(m, r) == data + Wanted(m, rest);
      if |data| == r.remaining {
        assert [e] + [] == [e];
        assert Payload([e]) == data + Payload([]);
        assert Wanted(m, rest) == [];
      } else {
        ServeDelivers(m, rest, readbfr);
        DeliversMore(e, Serve(m, rest, readbfr), Wanted(m, rest), rest.remaining, r.device, r.dma, readbfr);
      }
    }
  }

  /** The file still holds all of it. */
  predicate Whole(m: Media, r: ReadRequest) {
    |Wanted(m, r)| == r.remaining
  }

  /** The last event of an answer is data exactly if all of it was there. */
  lemma ServeLast(m: Media, r: ReadRequest, readbfr: nat)
    requires Good(m, r, readbfr)
    ensures var es := Serve(m, r, readbfr);
            es != [] && (es[|es| - 1].DataToHost? <==> Whole(m, r))
  {
    hide Serve, Payload;
    ServeDelivers(m, r, readbfr);
  }

  // --- Counting frames ---

  function DataCount(es: seq<Event>): nat {
    if es == [] then 0 else (if es[0].DataToHost? then 1 else 0) + DataCount(es[1..])
  }

  lemma {:induction false} DataCountAppend(a: seq<Event>, b: seq<Event>)
    ensures DataCount(a + b) == DataCount(a) + DataCount(b)
  {
    if a == [] {
      assert a + b == b;
    } else {
      assert (a + b)[0] == a[0] && (a + b)[1..] == a[1..] + b;
      DataCountAppend(a[1..], b);
    }
  }

  /** How many frames `n` bytes take. */
  function Frames(n: nat, readbfr: nat): nat
    decreases n
  {
    if n == 0 then 0 else if readbfr == 0 || n <= readbfr then 1 else 1 + Frames(n - readbfr, readbfr)
  }

  /** One frame takes its data off what is wanted. */
  lemma OneFrame(m: Media, r: ReadRequest, readbfr: nat)
    ensures var data := NextData(m, r, readbfr);
            && (r.remaining > 0 && data == [] ==> Wanted(m, r) == [])
            && (data != [] ==> Frames(|Wanted(m, r)|, readbfr) == 1 + Frames(|Wanted(m, After(r, |data|))|, readbfr))
  {
    ReadAtSplit(Backing(m, r.device), r.byteOffset, ChunkOf(r, readbfr), r.remaining);
  }

  lemma {:induction false} ServeFrames(m: Media, r: ReadRequest, readbfr: nat)
    ensures DataCount(Serve(m, r, readbfr)) == Frames(|Wanted(m, r)|, readbfr)
    decreases r.remaining
  {
    hide NextData, ReadAt, Backing, Frames, Wanted;
    OneFrame(m, r, readbfr);
    NoFrames(m, r, readbfr);
    if r.remaining > 0 {
      var data := NextData(m, r, readbfr);
      if data == [] {
        assert [MediumError(r)][1..] == [];
      } else {
        var e, rest := DataEvent(m, r, readbfr), After(r, |data|);
        ServeFrames(m, rest, readbfr);
        assert ([e] + Serve(m, rest, readbfr))[1..] == Serve(m, rest, readbfr);
      }
    }
  }

  lemma NoFrames(m: Media, r: ReadRequest, readbfr: nat)
    ensures Frames(0, readbfr) == 0
    ensures r.remaining == 0 ==> Wanted(m, r) == []
  {
  }

  /** The frames a list of reads takes. */
  function AllFrames(m: Media, requests: seq<ReadRequest>, readbfr: nat): nat {
    if requests == [] then 0 else Frames(|Wanted(m, requests[0])|, readbfr) + AllFrames(m, requests[1..], readbfr)
  }

  lemma {:induction false} AllFramesAppend(m: Media, a: seq<ReadRequest>, b: seq<ReadRequest>, readbfr: nat)
    ensures AllFrames(m, a + b, readbfr) == AllFrames(m, a, readbfr) + AllFrames(m, b, readbfr)
    decreases |a|
  {
    hide Frames, Wanted;
    if a == [] {
      assert a + b == b;
    } else {
      assert (a + b)[0] == a[0] && (a + b)[1..] == a[1..] + b;
      AllFramesAppend(m, a[1..], b, readbfr);
    }
  }

  /** A read the file holds completely takes at least one frame. */
  lemma WholeTakesFrames(m: Media, r: ReadRequest, readbfr: nat)
    requires Good(m, r, readbfr) && Whole(m, r)
    ensures AllFrames(m, [r], readbfr) > 0
  {
    assert [r][1..] == [];
    assert Frames(|Wanted(m, r)|, readbfr) > 0;
  }

  /** Reads behind the first ones take the frames of those, and more if the file holds the last of them. */
  lemma LateFrames(m: Media, early: seq<ReadRequest>, late: seq<ReadRequest>, readbfr: nat, i: nat)
    requires |early| <= i < |early + late| && AllGood(m, early + late, readbfr)
    ensures var frames, all := AllFrames(m, early, readbfr), early + late;
            && AllFrames(m, all[..i + 1], readbfr) >= frames
            && (Whole(m, all[i]) ==> AllFrames(m, all[..i + 1], readbfr) > frames)
  {
    hide AllFrames, Good, Whole;
    var all := early + late;
    assert all[..i + 1] == early + (late[..i - |early|] + [all[i]]);
    AllFramesAppend(m, early, late[..i - |early|] + [all[i]], readbfr);
    AllFramesAppend(m, late[..i - |early|], [all[i]], readbfr);
    assert Good(m, all[i], readbfr);
    if Whole(m, all[i]) {
      WholeTakesFrames(m, all[i], readbfr);
    }
  }

  lemma {:induction false} ServeAllFrames(m: Media, requests: seq<ReadRequest>, readbfr: nat)
    ensures DataCount(ServeAll(m, requests, readbfr)) == AllFrames(m, requests, readbfr)
    decreases |requests|
  {
    hide Serve, Frames;
    if requests != [] {
      ServeFrames(m, requests[0], readbfr);
      ServeAllFrames(m, requests[1..], readbfr);
      DataCountAppend(Serve(m, requests[0], readbfr), ServeAll(m, requests[1..], readbfr));
    }
  }

  // --- A service that is cut off ---

  /** Everything up to and including the n-th data frame. */
  function UpTo(es: seq<Event>, n: nat): seq<Event> {
    if es == [] || n == 0 then [] else [es[0]] + UpTo(es[1..], if es[0].DataToHost? then n - 1 else n)
  }

  lemma UpToCons(e: Event, es: seq<Event>, n: nat)
    ensures UpTo([e] + es, n) == if n == 0 then [] else [e] + UpTo(es, if e.DataToHost? then n - 1 else n)
  {
    assert ([e] + es)[1..] == es;
  }

  /** A cut that falls into the list does not see what comes behind it. */
  lemma {:induction false} UpToExtends(es: seq<Event>, more: seq<Event>, n: nat)
    requires DataCount(UpTo(es, n)) == n
    ensures UpTo(es + more, n) == UpTo(es, n)
    decreases |es|
  {
    if n > 0 && es != [] {
      var e, rest := es[0], es[1..];
      var m := if e.DataToHost? then n - 1 else n;
      assert es + more == [e] + (rest + more);
      UpToCons(e, rest + more, n);
      assert ([e] + UpTo(rest, m))[1..] == UpTo(rest, m);
      UpToExtends(rest, more, m);
    }
  }

  lemma {:induction false} UpToCounts(es: seq<Event>, n: nat)
    ensures DataCount(UpTo(es, n)) <= DataCount(es)
    decreases |es|
  {
    if n > 0 && es != [] {
      var m := if es[0].DataToHost? then n - 1 else n;
      UpToCounts(es[1..], m);
      assert ([es[0]] + UpTo(es[1..], m))[1..] == UpTo(es[1..], m);
    }
  }

  /** How much of a list survives the cut: `a` does so exactly if its last event comes no later than the n-th frame. */
  lemma {:induction false} UpToReaches(a: seq<Event>, b: seq<Event>, n: nat)
    requires a != []
    ensures a <= UpTo(a + b, n) <==> if a[|a| - 1].DataToHost? then DataCount(a) <= n else DataCount(a) < n
    decreases |a|
  {
    var e, rest := a[0], a[1..];
    assert a == [e] + rest && a + b == [e] + (rest + b);
    UpToCons(e, rest + b, n);
    var m := if e.DataToHost? && n > 0 then n - 1 else n;
    if rest == [] {
      assert DataCount(rest) == 0;
    } else {
      UpToReaches(rest, b, m);
      LastCounts(rest);
      if n > 0 {
        assert a <= UpTo(a + b, n) <==> rest <= UpTo(rest + b, m) by {
          var all := UpTo(a + b, n);
          assert all == [e] + UpTo(rest + b, m);
          assert all[1..] == UpTo(rest + b, m);
        }
      }
    }
  }

  lemma {:induction false} LastCounts(es: seq<Event>)
    requires es != []
    ensures es[|es| - 1].DataToHost? ==> DataCount(es) > 0
  {
    if |es| > 1 {
      LastCounts(es[1..]);
    }
  }

  /** An answered read is one whose last event is sent before the cut. */
  lemma ReachedIff(m: Media, requests: seq<ReadRequest>, readbfr: nat, n: nat, i: nat)
    requires i < |requests| && AllGood(m, requests, readbfr)
    ensures var frames := AllFrames(m, requests[..i + 1], readbfr);
            ServeAll(m, requests[..i + 1], readbfr) <= UpTo(ServeAll(m, requests, readbfr), n) <==>
            if Whole(m, requests[i]) then frames <= n else frames < n
  {
    hide Serve, Frames, Whole, Good;
    var upTo, later := requests[..i + 1], requests[i + 1..];
    assert requests == upTo + later;
    ServeAllAppend(m, upTo, later, readbfr);
    assert upTo == requests[..i] + [requests[i]];
    ServeAllAppend(m, requests[..i], [requests[i]], readbfr);
    ServeOne(m, requests[i], readbfr);
    assert Good(m, requests[i], readbfr);
    ServeLast(m, requests[i], readbfr);
    ServeAllFrames(m, upTo, readbfr);
    var a := ServeAll(m, upTo, readbfr);
    assert a[|a| - 1] == Serve(m, requests[i], readbfr)[|Serve(m, requests[i], readbfr)| - 1];
    UpToReaches(a, ServeAll(m, later, readbfr), n);
  }

  /**
    Which reads are answered: all of them unless the service is cut off; if it
    stops behind its n-th frame, those up to which all frames fit, where a read
    the file does not hold completely needs the service to go on for its medium
    error.
    */
  lemma AnsweredIff(m: Media, requests: seq<ReadRequest>, readbfr: nat, cut: bool, n: nat, i: nat)
    requires i < |requests| && AllGood(m, requests, readbfr)
    ensures var frames, all := AllFrames(m, requests[..i + 1], readbfr), ServeAll(m, requests, readbfr);
            ServeAll(m, requests[..i + 1], readbfr) <= (if cut then UpTo(all, n) else all) <==>
            !cut || frames < n || (frames == n && Whole(m, requests[i]))
  {
    hide ServeAll, AllFrames, AllGood, Whole, UpTo;
    ReachedIff(m, requests, readbfr, n, i);
    assert requests == requests[..i + 1] + requests[i + 1..];
    ServeAllAppend(m, requests[..i + 1], requests[i + 1..], readbfr);
  }

  lemma ServeOne(m: Media, r: ReadRequest, readbfr: nat)
    ensures ServeAll(m, [r], readbfr) == Serve(m, r, readbfr)
  {
    assert [r][1..] == [];
    assert Serve(m, r, readbfr) + [] == Serve(m, r, readbfr);
  }
}

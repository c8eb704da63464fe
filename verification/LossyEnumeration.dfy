// Enumeration over a connection that can break after the server has answered:
// every request goes through the client's retry loop, and a Pull takes its page
// off the server's list each time it is handled.
module LossyEnumeration {
  import opened Wrappers
  import opened WsmanValues
  import opened Enumeration
  import opened Requests

  /** What the i-th attempt at the k-th request comes to; request 0 is the Enumerate. */
  type Net = (nat, nat) -> Attempt

  function Attempts(net: Net, k: nat): nat -> Attempt {
    (i: nat) => net(k, i)
  }

  /** How often the k-th request goes out. */
  function Made(net: Net, k: nat, maxRetries: int): (sent: nat)
    ensures 1 <= sent <= Allowed(true, maxRetries)
  {
    Sent(Attempts(net, k), 0, Allowed(true, maxRetries))
  }

  predicate Answered(net: Net, k: nat, maxRetries: int) {
    net(k, Made(net, k, maxRetries) - 1).Replied?
  }

  /** How often the server had handled the k-th request before the last attempt. */
  function LostAnswers(net: Net, k: nat, maxRetries: int): nat {
    Lost(Attempts(net, k), Made(net, k, maxRetries))
  }

  /** The retry loop makes exactly these attempts. */
  lemma MadeIsExecuted(net: Net, k: nat, maxRetries: int)
    ensures Executed(Attempts(net, k), true, maxRetries, Made(net, k, maxRetries))
    ensures LostAnswers(net, k, maxRetries) == 0 <==>
            forall i :: 0 <= i < Made(net, k, maxRetries) - 1 ==> net(k, i) != Dropped(true)
  {
    OneResult(Attempts(net, k), true, maxRetries, Made(net, k, maxRetries));
    NoneLost(Attempts(net, k), Made(net, k, maxRetries) - 1);
    assert forall i: nat :: Attempts(net, k)(i) == net(k, i);
  }

  // --- The server ---

  /** What the server holds of an enumeration after `n` more pulls have been handled. */
  function Advance(left: Option<seq<Element>>, n: nat, pageSize: nat): (rest: Option<seq<Element>>)
    requires pageSize >= 1
    ensures rest.Some? ==> left.Some? && |rest.value| <= |left.value| && (n > 0 && left.value != [] ==> |rest.value| < |left.value|)
    decreases n
  {
    if n == 0 || left.None? then left
    else
      var rest := left.value[Min(pageSize, |left.value|)..];
      Advance(if rest == [] then None else Some(rest), n - 1, pageSize)
  }

  /** The response around a body. */
  function Ok200(body: Element): Response {
    Response(200, Some(Document(Element("Envelope", "", [Element("Header", "", []), body]), true)))
  }

  lemma Ok200Handled(body: Element)
    requires body.name == "Body"
    ensures HandleResponse(Ok200(body)).Body? <==> Find(body, "Fault").None?
    ensures HandleResponse(Ok200(body)).Body? ==> HandleResponse(Ok200(body)) == Requests.Body(body)
  {
    var children := [Element("Header", "", []), body];
    assert children[1..] == [body];
    assert Child(children, "Body") == Child(children[1..], "Body") == Some(body);
  }

  /** The fault for a context the server does not know. */
  const UNKNOWN_CONTEXT: Response := Response(500, None)

  // --- The client's loop over the network ---

  datatype Outcome = Got(values: seq<Value>) | Failed(failure: Failure)

  /** The outcome, and what the server holds of the enumeration afterwards. */
  function CollectOver(left: Option<seq<Element>>, own: string, asked: string, pageSize: nat, net: Net, k: nat, maxRetries: int)
    : (Outcome, Option<seq<Element>>)
    requires pageSize >= 1
    decreases if left.Some? then 1 + |left.value| else 0
  {
    if asked == "" then (Got([]), left)
    else if !Answered(net, k, maxRetries) then
      var sent := Made(net, k, maxRetries);
      var handled := HandledIn(Attempts(net, k), sent);
      (Failed(Verdict(net(k, sent - 1), UNKNOWN_CONTEXT).failure), if asked == own then Advance(left, handled, pageSize) else left)
    else
      var now := if asked == own then Advance(left, LostAnswers(net, k, maxRetries), pageSize) else None;
      if now.None? then (Failed(HandleResponse(UNKNOWN_CONTEXT).failure), if asked == own then None else left)
      else
        var n := Min(pageSize, |now.value|);
        var page, rest := now.value[..n], now.value[n..];
        var more := if rest == [] then None else Some(own);
        var held := if rest == [] then None else Some(rest);
        match HandleResponse(Ok200(PullBody(page, more)))
        case Raised(failure) => (Failed(failure), held)
        case Body(_) =>
          var (later, end) := CollectOver(held, own, NextContext(page, more), pageSize, net, k + 1, maxRetries);
          (if later.Failed? then later else Got(Values(page) + later.values), end)
  }

  /** The contexts made by attempts at the Enumerate that nobody will ever pull from. */
  function Orphans(items: seq<Element>, contexts: nat -> string, net: Net, n: nat): map<string, seq<Element>> {
    map i: nat | 0 <= i < n && Handled(net(0, i)) :: contexts(i) := items
  }

  /** The whole enumeration; `contexts(i)` is what the server draws if it handles the i-th attempt at the Enumerate. */
  function EnumerateOver(items: seq<Element>, contexts: nat -> string, pageSize: nat, net: Net, maxRetries: int)
    : (Outcome, map<string, seq<Element>>)
    requires pageSize >= 1
  {
    var sent := Made(net, 0, maxRetries);
    if !Answered(net, 0, maxRetries) then
      (Failed(Verdict(net(0, sent - 1), UNKNOWN_CONTEXT).failure), Orphans(items, contexts, net, sent))
    else
      var own := contexts(sent - 1);
      var (outcome, left) := CollectOver(Some(items), own, own, pageSize, net, 1, maxRetries);
      (outcome, Orphans(items, contexts, net, sent - 1) + Holding(left, own))
  }

  // --- When the whole list arrives ---

  lemma {:induction false} AtMost(left: Option<seq<Element>>, own: string, asked: string, pageSize: nat, net: Net, k: nat, maxRetries: int)
    requires pageSize >= 1
    ensures var r := CollectOver(left, own, asked, pageSize, net, k, maxRetries).0;
            r.Got? ==> |r.values| <= if left.Some? then |left.value| else 0
    decreases if left.Some? then 1 + |left.value| else 0
  {
    hide PullBody, NextContext, HandleResponse, Ok200, LostAnswers, Made, HandledIn;
    if asked != "" && asked == own && Answered(net, k, maxRetries) && Advance(left, LostAnswers(net, k, maxRetries), pageSize).Some? {
      var now := Advance(left, LostAnswers(net, k, maxRetries), pageSize).value;
      var n := Min(pageSize, |now|);
      var page, rest := now[..n], now[n..];
      var more := if rest == [] then None else Some(own);
      AtMost(if rest == [] then None else Some(rest), own, NextContext(page, more), pageSize, net, k + 1, maxRetries);
    }
  }

  /** Every pull it takes to fetch `items` is answered, and no answer to one was lost before. */
  predicate NoAnswerLost(items: seq<Element>, pageSize: nat, net: Net, k: nat, maxRetries: int)
    requires pageSize >= 1
    decreases |items|
  {
    var rest := items[Min(pageSize, |items|)..];
    && Answered(net, k, maxRetries) && LostAnswers(net, k, maxRetries) == 0
    && (rest != [] ==> NoAnswerLost(rest, pageSize, net, k + 1, maxRetries))
  }

  /** After an answer is lost the page is gone: fewer items come back, or none. */
  lemma LossShows(items: seq<Element>, own: string, pageSize: nat, net: Net, k: nat, maxRetries: int)
    requires pageSize >= 1 && own != ""
    requires !Answered(net, k, maxRetries) || LostAnswers(net, k, maxRetries) > 0
    ensures CollectOver(Some(items), own, own, pageSize, net, k, maxRetries).0 != Got(Values(items))
  {
    hide PullBody, NextContext, HandleResponse, Ok200, Made, HandledIn, LostAnswers, Answered;
    if Answered(net, k, maxRetries) {
      var now := Advance(Some(items), LostAnswers(net, k, maxRetries), pageSize);
      if now.Some? {
        AdvanceEmpty(LostAnswers(net, k, maxRetries), pageSize);
        var n := Min(pageSize, |now.value|);
        var page, rest := now.value[..n], now.value[n..];
        var more := if rest == [] then None else Some(own);
        AtMost(if rest == [] then None else Some(rest), own, NextContext(page, more), pageSize, net, k + 1, maxRetries);
      }
    }
  }

  lemma AdvanceEmpty(n: nat, pageSize: nat)
    requires pageSize >= 1 && n > 0
    ensures Advance(Some([]), n, pageSize) == None
  {
  }

  lemma {:induction false} PullsIff(items: seq<Element>, own: string, pageSize: nat, net: Net, k: nat, maxRetries: int)
    requires pageSize >= 1 && own != "" && Plain(items)
    ensures CollectOver(Some(items), own, own, pageSize, net, k, maxRetries).0 == Got(Values(items))
       <==> NoAnswerLost(items, pageSize, net, k, maxRetries)
    ensures NoAnswerLost(items, pageSize, net, k, maxRetries) ==>
              CollectOver(Some(items), own, own, pageSize, net, k, maxRetries).1 == None
    decreases |items|
  {
    hide Find, FindAmong, PullBody, NextContext, Values, HandleResponse, Ok200, Made, HandledIn, LostAnswers, Answered;
    if !Answered(net, k, maxRetries) || LostAnswers(net, k, maxRetries) > 0 {
      LossShows(items, own, pageSize, net, k, maxRetries);
    } else {
      var n := Min(pageSize, |items|);
      var page, rest := items[..n], items[n..];
      var more := if rest == [] then None else Some(own);
      PlainParts(items, n);
      PlainPage(page, own, more);
      ValuesSplit(items, n);
      assert Advance(Some(items), 0, pageSize) == Some(items);
      if rest == [] {
        assert page == items;
        assert Values(page) + [] == Values(page);
      } else {
        PullsIff(rest, own, pageSize, net, k + 1, maxRetries);
        var later := CollectOver(Some(rest), own, own, pageSize, net, k + 1, maxRetries).0;
        if later.Got? && Values(page) + later.values == Values(items) {
          assert later.values == (Values(page) + later.values)[|page|..];
          assert later.values == Values(rest);
        }
      }
    }
  }

  lemma PlainPage(page: seq<Element>, own: string, more: Option<string>)
    requires Plain(page) && own != "" && (more == None || more == Some(own))
    ensures HandleResponse(Ok200(PullBody(page, more))) == Requests.Body(PullBody(page, more))
    ensures NextContext(page, more) == if more.Some? then own else ""
  {
    FindInPull(page, more, "Fault");
    Ok200Handled(PullBody(page, more));
    NextIs(page, own, more.None?);
  }

  /**
    For plain items the client gets the whole list exactly when the Enumerate
    was answered and no answer to a Pull was lost before one arrived: repeating
    a Pull is not safe. The enumeration itself is then released; what stays on
    the server are the contexts of the Enumerates whose answers were lost, one
    for each of them if the server never draws a context twice.
    */
  lemma WholeListIff(items: seq<Element>, contexts: nat -> string, pageSize: nat, net: Net, maxRetries: int)
    requires pageSize >= 1 && Plain(items) && forall i :: contexts(i) != ""
    ensures var (outcome, held) := EnumerateOver(items, contexts, pageSize, net, maxRetries);
            var whole := Answered(net, 0, maxRetries) && NoAnswerLost(items, pageSize, net, 1, maxRetries);
            && (outcome == Got(Values(items)) <==> whole)
            && (whole ==> held == Orphans(items, contexts, net, Made(net, 0, maxRetries) - 1))
            && (whole ==> (held == map[] <==> LostAnswers(net, 0, maxRetries) == 0))
            && (whole && Distinct(contexts) ==> |held| == LostAnswers(net, 0, maxRetries))
  {
    hide Made, CollectOver, Answered, NoAnswerLost, LostAnswers;
    if Answered(net, 0, maxRetries) {
      PullsIff(items, contexts(Made(net, 0, maxRetries) - 1), pageSize, net, 1, maxRetries);
    }
    var n := Made(net, 0, maxRetries) - 1;
    NoOrphans(items, contexts, net, n, maxRetries);
    if Distinct(contexts) {
      CountOrphans(items, contexts, net, n);
      LostIs(net, maxRetries);
    }
    assert Orphans(items, contexts, net, n) + map[] == Orphans(items, contexts, net, n);
  }

  lemma LostIs(net: Net, maxRetries: int)
    ensures LostAnswers(net, 0, maxRetries) == HandledIn(Attempts(net, 0), Made(net, 0, maxRetries) - 1)
  {
  }

  ghost predicate Distinct(contexts: nat -> string) {
    forall i, j :: contexts(i) == contexts(j) ==> i == j
  }

  lemma {:induction false} CountOrphans(items: seq<Element>, contexts: nat -> string, net: Net, n: nat)
    requires Distinct(contexts)
    ensures |Orphans(items, contexts, net, n)| == HandledIn(Attempts(net, 0), n)
  {
    hide Distinct, Orphans, Handled;
    if n == 0 {
      FirstOrphans(items, contexts, net);
    } else {
      CountOrphans(items, contexts, net, n - 1);
      DistinctAt(contexts, n - 1);
      MoreOrphans(items, contexts, net, n - 1);
      assert Attempts(net, 0)(n - 1) == net(0, n - 1);
    }
  }

  lemma FirstOrphans(items: seq<Element>, contexts: nat -> string, net: Net)
    ensures Orphans(items, contexts, net, 0) == map[]
  {
  }

  lemma DistinctAt(contexts: nat -> string, n: nat)
    requires Distinct(contexts)
    ensures forall i :: 0 <= i < n ==> contexts(i) != contexts(n)
  {
  }

  /** Another attempt adds a context if the server handled it. */
  lemma MoreOrphans(items: seq<Element>, contexts: nat -> string, net: Net, n: nat)
    requires forall i :: 0 <= i < n ==> contexts(i) != contexts(n)
    ensures var before, after := Orphans(items, contexts, net, n), Orphans(items, contexts, net, n + 1);
            && contexts(n) !in before
            && after == if Handled(net(0, n)) then before[contexts(n) := items] else before
  {
    hide Handled;
    var before, after := Orphans(items, contexts, net, n), Orphans(items, contexts, net, n + 1);
    forall key | key in before ensures key in after && key != contexts(n) {
      var i: nat :| 0 <= i < n && Handled(net(0, i)) && key == contexts(i);
    }
    forall key | key in after ensures key in before || (Handled(net(0, n)) && key == contexts(n)) {
      var i: nat :| 0 <= i < n + 1 && Handled(net(0, i)) && key == contexts(i);
      assert i < n ==> key in before;
    }
    assert Handled(net(0, n)) ==> contexts(n) in after;
  }

  lemma NoOrphans(items: seq<Element>, contexts: nat -> string, net: Net, n: nat, maxRetries: int)
    requires n == Made(net, 0, maxRetries) - 1
    ensures Orphans(items, contexts, net, n) == map[] <==> LostAnswers(net, 0, maxRetries) == 0
  {
    MadeIsExecuted(net, 0, maxRetries);
    var orphans := Orphans(items, contexts, net, n);
    if orphans == map[] {
      forall i: nat | 0 <= i < n ensures net(0, i) != Dropped(true) {
        if Handled(net(0, i)) {
          assert contexts(i) in orphans;
        }
      }
    } else {
      var key :| key in orphans;
      var i: nat :| 0 <= i < n && Handled(net(0, i)) && key == contexts(i);
      assert Transient(Attempts(net, 0)(i));
    }
  }

  /** Where nothing is lost and everything answered this is the plain loop. */
  lemma {:induction false} PlainLoop(left: Option<seq<Element>>, own: string, asked: string, pageSize: nat, net: Net, k: nat, maxRetries: int)
    requires pageSize >= 1 && forall i, j :: net(i, j) == Replied
    ensures var over, plain := CollectOver(left, own, asked, pageSize, net, k, maxRetries), Collect(left, own, asked, pageSize);
            && (over.0.Got? <==> plain.0.Items?) && (over.0.Got? ==> over.0.values == plain.0.values)
            && over.1 == plain.1
    decreases if left.Some? then 1 + |left.value| else 0
  {
    hide Find, PullBody, NextContext, Values, HandleResponse, Ok200;
    assert Made(net, k, maxRetries) == 1;
    assert LostAnswers(net, k, maxRetries) == 0;
    if asked != "" && asked == own && left.Some? {
      var n := Min(pageSize, |left.value|);
      var page, rest := left.value[..n], left.value[n..];
      var more := if rest == [] then None else Some(own);
      BodyName(page, more);
      Ok200Handled(PullBody(page, more));
      PlainLoop(if rest == [] then None else Some(rest), own, NextContext(page, more), pageSize, net, k + 1, maxRetries);
    }
  }

  lemma BodyName(page: seq<Element>, more: Option<string>)
    ensures PullBody(page, more).name == "Body"
  {
  }
}

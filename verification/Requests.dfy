// One WS-Man request: the client's retry loop over a connection that may fail
// before or after firmware has handled what was sent, and what it makes of the
// response.
module Requests {
  import opened Wrappers
  import opened WsmanValues

  /**
    What one attempt comes to. A connection error may strike after firmware has
    already handled the request; a read timeout always leaves that open.
    */
  datatype Attempt =
    | Replied
    | ReadTimedOut(handled: bool)
    | TlsFailed
    | ConnectTimedOut
    | Dropped(handled: bool)

  /** The HTTP status, and the document if the body parses; `soap` says that its root is in the SOAP namespace. */
  datatype Response = Response(status: nat, document: Option<Document>)

  datatype Document = Document(root: Element, soap: bool)

  datatype Failure =
    | Timeout(indeterminate: bool)
    | TlsError
    | Disconnected
    | Unauthorized
    | BadStatus(status: nat)
    | Malformed
    | NotAnEnvelope
    | NoBody
    | Fault(code: string, reason: string)

  datatype Result = Body(body: Element) | Raised(failure: Failure)

  // --- The response ---

  /** The first direct child called `name`. */
  function Child(children: seq<Element>, name: string): Option<Element> {
    if children == [] then None
    else if children[0].name == name then Some(children[0])
    else Child(children[1..], name)
  }

  function TextOr(e: Option<Element>, default: string): string {
    if e.Some? then e.value.text else default
  }

  function HandleResponse(r: Response): Result {
    if r.status == 401 then Raised(Unauthorized)
    else if r.status >= 400 then Raised(BadStatus(r.status))
    else if r.document.None? then Raised(Malformed)
    else if r.document.value.root.name != "Envelope" || !r.document.value.soap then Raised(NotAnEnvelope)
    else
      match Child(r.document.value.root.children, "Body")
      case None => Raised(NoBody)
      case Some(body) =>
        (match Find(body, "Fault")
         case None => Body(body)
         case Some(fault) => Raised(Fault(TextOr(Find(fault, "Value"), "unknown"), TextOr(Find(fault, "Text"), "unknown"))))
  }

  /** A body is returned exactly from a successful SOAP envelope in which no fault can be found. */
  lemma BodyIff(r: Response, body: Element)
    ensures HandleResponse(r) == Body(body) <==>
            && r.status < 400 && r.document.Some? && r.document.value.soap && r.document.value.root.name == "Envelope"
            && Child(r.document.value.root.children, "Body") == Some(body) && Find(body, "Fault") == None
  {
  }

  lemma {:induction false} ChildIsFirst(children: seq<Element>, name: string)
    ensures Child(children, name).None? <==> forall i :: 0 <= i < |children| ==> children[i].name != name
    ensures Child(children, name).Some? ==>
              exists i :: 0 <= i < |children| && children[i] == Child(children, name).value && children[i].name == name
                          && forall j :: 0 <= j < i ==> children[j].name != name
    decreases |children|
  {
    if children != [] {
      ChildIsFirst(children[1..], name);
      assert children == [children[0]] + children[1..];
      if children[0].name != name && Child(children[1..], name).Some? {
        var i :| 0 <= i < |children[1..]| && children[1..][i] == Child(children, name).value && children[1..][i].name == name
                 && forall j :: 0 <= j < i ==> children[1..][j].name != name;
        assert children[i + 1] == children[1..][i];
        assert forall j :: 0 < j < i + 1 ==> children[j] == children[1..][j - 1];
      }
    }
  }

  // --- The loop ---

  predicate Handled(a: Attempt) {
    a.Replied? || (a.ReadTimedOut? && a.handled) || (a.Dropped? && a.handled)
  }

  /** The two failures after which the same request may be sent again. */
  predicate Transient(a: Attempt) {
    a.ConnectTimedOut? || a.Dropped?
  }

  function Verdict(a: Attempt, answer: Response): Result {
    match a
    case Replied => HandleResponse(answer)
    case ReadTimedOut(_) => Raised(Timeout(true))
    case TlsFailed => Raised(TlsError)
    case ConnectTimedOut => Raised(Timeout(false))
    case Dropped(_) => Raised(Disconnected)
  }

  /** How many attempts are allowed; only requests that change nothing are repeated. */
  function Allowed(retryable: bool, maxRetries: int): (n: nat)
    ensures n >= 1
  {
    if retryable && maxRetries > 0 then maxRetries + 1 else 1
  }

  /** How often firmware has handled the request in the first `n` attempts. */
  function HandledIn(attempts: nat -> Attempt, n: nat): (h: nat)
    ensures h <= n
  {
    if n == 0 then 0 else HandledIn(attempts, n - 1) + if Handled(attempts(n - 1)) then 1 else 0
  }

  /** `sent` attempts were made: every one but the last failed transiently, and the last decides. */
  ghost predicate Executed(attempts: nat -> Attempt, retryable: bool, maxRetries: int, sent: nat) {
    && 1 <= sent <= Allowed(retryable, maxRetries)
    && (forall i :: 0 <= i < sent - 1 ==> Transient(attempts(i)))
    && (Transient(attempts(sent - 1)) ==> sent == Allowed(retryable, maxRetries))
  }

  /** `answers(i)` is the response that arrives if the i-th attempt is answered. */
  method Execute(attempts: nat -> Attempt, answers: nat -> Response, retryable: bool, maxRetries: int) returns (r: Result, sent: nat)
    ensures Executed(attempts, retryable, maxRetries, sent)
    ensures r == Verdict(attempts(sent - 1), answers(sent - 1))
  {
    var allowed: nat := if retryable then (if maxRetries > 0 then maxRetries else 0) + 1 else 1;
    sent := 0;
    while true
      invariant sent < allowed
      invariant forall i :: 0 <= i < sent ==> Transient(attempts(i))
      decreases allowed - sent
    {
      var a := attempts(sent);
      sent := sent + 1;
      if !Transient(a) || sent >= allowed {
        return Verdict(a, answers(sent - 1)), sent;
      }
    }
  }

  /** How many attempts are made, as a function. */
  function Sent(attempts: nat -> Attempt, made: nat, allowed: nat): (sent: nat)
    requires made < allowed
    ensures made < sent <= allowed
    decreases allowed - made
  {
    if !Transient(attempts(made)) || made + 1 >= allowed then made + 1 else Sent(attempts, made + 1, allowed)
  }

  lemma {:induction false} SentTransients(attempts: nat -> Attempt, made: nat, allowed: nat)
    requires made < allowed
    ensures var sent := Sent(attempts, made, allowed);
            && (forall i :: made <= i < sent - 1 ==> Transient(attempts(i)))
            && (Transient(attempts(sent - 1)) ==> sent == allowed)
    decreases allowed - made
  {
    if Transient(attempts(made)) && made + 1 < allowed {
      SentTransients(attempts, made + 1, allowed);
    }
  }

  /** The attempts determine how many are made. */
  lemma OneResult(attempts: nat -> Attempt, retryable: bool, maxRetries: int, sent: nat)
    ensures Executed(attempts, retryable, maxRetries, sent) <==> sent == Sent(attempts, 0, Allowed(retryable, maxRetries))
  {
    var allowed := Allowed(retryable, maxRetries);
    var made := Sent(attempts, 0, allowed);
    SentTransients(attempts, 0, allowed);
    if Executed(attempts, retryable, maxRetries, sent) {
      var i: nat, j: nat := sent - 1, made - 1;
      assert i < j ==> Transient(attempts(i));
      assert j < i ==> Transient(attempts(j));
    }
  }

  /** A request that changes something goes out once, is handled at most once, and surely was if a reply came. */
  lemma MutationsAreNotRepeated(attempts: nat -> Attempt, answer: Response, maxRetries: int, sent: nat)
    requires Executed(attempts, false, maxRetries, sent)
    ensures sent == 1 && HandledIn(attempts, sent) <= 1
    ensures var r := Verdict(attempts(sent - 1), answer);
            && (attempts(0).Replied? ==> HandledIn(attempts, sent) == 1)
            && (r.Body? ==> attempts(0).Replied?)
            && (r == Raised(Timeout(false)) || r == Raised(TlsError) ==> HandledIn(attempts, sent) == 0)
  {
    assert HandledIn(attempts, 1) == HandledIn(attempts, 0) + if Handled(attempts(0)) then 1 else 0;
    if attempts(0).Replied? {
      NoTransportFailure(answer);
    }
  }

  /** A response never reads as a failure of the transport. */
  lemma NoTransportFailure(answer: Response)
    ensures var r := HandleResponse(answer);
            r.Raised? ==> !r.failure.Timeout? && !r.failure.TlsError? && !r.failure.Disconnected?
  {
  }

  /** Attempts handled by firmware whose answers never arrived, before the last one. */
  function Lost(attempts: nat -> Attempt, sent: nat): nat
    requires sent >= 1
  {
    HandledIn(attempts, sent - 1)
  }

  /** A read that is answered was handled once for the answer, and once more for every connection lost too late. */
  lemma {:induction false} HandledMoreThanOnce(attempts: nat -> Attempt, maxRetries: int, sent: nat)
    requires Executed(attempts, true, maxRetries, sent) && attempts(sent - 1).Replied?
    ensures HandledIn(attempts, sent) == 1 + Lost(attempts, sent)
    ensures Lost(attempts, sent) == 0 <==> forall i :: 0 <= i < sent - 1 ==> attempts(i) != Dropped(true)
    ensures Lost(attempts, sent) < Allowed(true, maxRetries)
  {
    NoneLost(attempts, sent - 1);
  }

  lemma {:induction false} NoneLost(attempts: nat -> Attempt, n: nat)
    requires forall i :: 0 <= i < n ==> Transient(attempts(i))
    ensures HandledIn(attempts, n) == 0 <==> forall i :: 0 <= i < n ==> attempts(i) != Dropped(true)
  {
    if n > 0 {
      NoneLost(attempts, n - 1);
    }
  }
}

// Enumerate and Pull: the client's loop against the paging server, composed
// through the response documents the server builds and the client searches.
module Enumeration {
  import opened Wrappers
  import opened WsmanValues

  // --- The server's documents ---

  function EnumerateBody(ctx: string): Element {
    Element("Body", "", [Element("EnumerateResponse", "", [Element("EnumerationContext", ctx, [])])])
  }

  /** One page of items, then the context to go on with, or the end. */
  function PullBody(page: seq<Element>, more: Option<string>): Element {
    Element("Body", "", [Element("PullResponse", "", [
      Element("Items", "", page),
      if more.Some? then Element("EnumerationContext", more.value, []) else Element("EndOfSequence", "", [])])])
  }

  /** What a search of a pull response finds: inside the items first, then the server's own marker. */
  lemma FindInPull(page: seq<Element>, more: Option<string>, name: string)
    requires name in {"Fault", "EndOfSequence", "EnumerationContext"}
    ensures Find(PullBody(page, more), name) ==
              if FindAmong(page, name).Some? then FindAmong(page, name)
              else if more.Some? && name == "EnumerationContext" then Some(Element("EnumerationContext", more.value, []))
              else if more.None? && name == "EndOfSequence" then Some(Element("EndOfSequence", "", []))
              else None
  {
    var marker := if more.Some? then Element("EnumerationContext", more.value, []) else Element("EndOfSequence", "", []);
    var items := Element("Items", "", page);
    var response := Element("PullResponse", "", [items, marker]);
    assert [items, marker] == [items] + [marker];
    FindAmongAppend([items], [marker], name);
    FindAmongOne(items, name);
    FindAmongOne(marker, name);
    FindAmongOne(response, name);
  }

  lemma ItemsInPull(page: seq<Element>, more: Option<string>)
    ensures Find(PullBody(page, more), "Items") == Some(Element("Items", "", page))
  {
    var items := Element("Items", "", page);
    var marker := if more.Some? then Element("EnumerationContext", more.value, []) else Element("EndOfSequence", "", []);
    var response := Element("PullResponse", "", [items, marker]);
    FindAmongOne(response, "Items");
    assert Find(items, "Items") == Some(items);
  }

  // --- The server ---

  function Min(a: nat, b: nat): nat {
    if a < b then a else b
  }

  class WsmanServer {
    const pageSize: nat
    /** What is left of every enumeration in progress. */
    var contexts: map<string, seq<Element>>

    constructor (pageSize: nat)
      ensures this.pageSize == pageSize && contexts == map[]
    {
      this.pageSize := pageSize;
      contexts := map[];
    }

    /** `ctx` is the fresh identifier the server draws. */
    method HandleEnumerate(items: seq<Element>, ctx: string) returns (body: Element)
      requires ctx !in contexts
      modifies this`contexts
      ensures contexts == old(contexts)[ctx := items] && body == EnumerateBody(ctx)
    {
      contexts := contexts[ctx := items];
      body := EnumerateBody(ctx);
    }

    /** None is the fault for an unknown context. */
    method HandlePull(ctx: string) returns (body: Option<Element>)
      modifies this`contexts
      ensures ctx !in old(contexts) ==> body == None && contexts == old(contexts)
      ensures ctx in old(contexts) ==>
                var left := old(contexts)[ctx];
                var n := Min(pageSize, |left|);
                if n < |left| then body == Some(PullBody(left[..n], Some(ctx))) && contexts == old(contexts)[ctx := left[n..]]
                else body == Some(PullBody(left, None)) && contexts == old(contexts) - {ctx}
    {
      if ctx !in contexts {
        return None;
      }
      var n := Min(pageSize, |contexts[ctx]|);
      var page, remaining := contexts[ctx][..n], contexts[ctx][n..];
      if remaining != [] {
        contexts := contexts[ctx := remaining];
        body := Some(PullBody(page, Some(ctx)));
      } else {
        assert page == contexts[ctx];
        contexts := contexts - {ctx};
        body := Some(PullBody(page, None));
      }
    }
  }

  // --- The client ---

  datatype Outcome = Items(values: seq<Value>) | Faulted

  function Values(es: seq<Element>): (vs: seq<Value>)
    ensures |vs| == |es|
  {
    seq(|es|, i requires 0 <= i < |es| => ToValue(es[i]))
  }

  /** The context the client goes on with; empty text ends its loop. */
  function NextContext(page: seq<Element>, more: Option<string>): string {
    var body := PullBody(page, more);
    var next := Find(body, "EnumerationContext");
    if Find(body, "EndOfSequence").None? && next.Some? then next.value.text else ""
  }

  /** `asked` is pulled while the server holds `left` under `own`; the second result is what it holds afterwards. */
  function Collect(left: Option<seq<Element>>, own: string, asked: string, pageSize: nat): (r: (Outcome, Option<seq<Element>>))
    requires pageSize >= 1
    decreases if left.Some? then 1 + |left.value| else 0
  {
    if asked == "" then (Items([]), left)
    else if asked != own || left.None? then (Faulted, left)
    else
      var n := Min(pageSize, |left.value|);
      var page, rest := left.value[..n], left.value[n..];
      var more := if rest == [] then None else Some(own);
      var held := if rest == [] then None else Some(rest);
      if Find(PullBody(page, more), "Fault").Some? then (Faulted, held)
      else
        After(Values(page), Collect(held, own, NextContext(page, more), pageSize))
  }

  /** A run continued after `values` were collected. */
  function After(values: seq<Value>, r: (Outcome, Option<seq<Element>>)): (Outcome, Option<seq<Element>>) {
    (if r.0.Faulted? then Faulted else Items(values + r.0.values), r.1)
  }

  lemma After0(r: (Outcome, Option<seq<Element>>))
    ensures After([], r) == r
  {
    if r.0.Items? {
      assert [] + r.0.values == r.0.values;
    }
  }

  lemma AfterPage(values: seq<Value>, page: seq<Value>, r: (Outcome, Option<seq<Element>>))
    ensures After(values, After(page, r)) == After(values + page, r)
  {
    if r.0.Items? {
      assert values + (page + r.0.values) == (values + page) + r.0.values;
    }
  }

  /** The contexts of a server that runs this enumeration only. */
  function Holding(left: Option<seq<Element>>, own: string): map<string, seq<Element>> {
    if left.Some? then map[own := left.value] else map[]
  }

  /** The client's loop; the server draws `own` for the new enumeration. */
  method Enumerate(server: WsmanServer, items: seq<Element>, own: string) returns (r: Outcome)
    requires server.pageSize >= 1 && server.contexts == map[] && own != ""
    modifies server
    ensures r == Collect(Some(items), own, own, server.pageSize).0
    ensures server.contexts == Holding(Collect(Some(items), own, own, server.pageSize).1, own)
  {
    var body := server.HandleEnumerate(items, own);
    FindOwnContext(own);
    var contextEl := Find(body, "EnumerationContext");
    var context := if contextEl.Some? then contextEl.value.text else "";
    var values: seq<Value> := [];
    ghost var left := Some(items);
    ghost var goal := Collect(Some(items), own, own, server.pageSize);
    After0(goal);
    while context != ""
      invariant server.contexts == Holding(left, own)
      invariant goal == After(values, Collect(left, own, context, server.pageSize))
      decreases if left.Some? then 1 + |left.value| else 0
    {
      var response := server.HandlePull(context);
      if response.None? {
        return Faulted;
      }
      ghost var n := Min(server.pageSize, |left.value|);
      ghost var page, rest := left.value[..n], left.value[n..];
      ghost var more := if rest == [] then None else Some(own);
      assert rest == [] ==> page == left.value;
      assert response.value == PullBody(page, more);
      AfterPage(values, Values(page), Collect(if rest == [] then None else Some(rest), own, NextContext(page, more), server.pageSize));
      left := if rest == [] then None else Some(rest);
      if Find(response.value, "Fault").Some? {
        return Faulted;
      }
      var itemsEl := Find(response.value, "Items");
      ItemsInPull(page, more);
      if itemsEl.Some? {
        values := values + Values(itemsEl.value.children);
      }
      var nextEl := Find(response.value, "EnumerationContext");
      context := if Find(response.value, "EndOfSequence").None? && nextEl.Some? then nextEl.value.text else "";
    }
    return Items(values);
  }

  lemma FindOwnContext(own: string)
    ensures Find(EnumerateBody(own), "EnumerationContext") == Some(Element("EnumerationContext", own, []))
  {
    var leaf := Element("EnumerationContext", own, []);
    FindAmongOne(leaf, "EnumerationContext");
    FindAmongOne(Element("EnumerateResponse", "", [leaf]), "EnumerationContext");
  }

  // --- When the loop returns the whole list ---

  /**
    No page contains an element the client would take for a fault; no page but
    the last contains one it would take for the end, or for another context.
    */
  predicate Harmless(items: seq<Element>, own: string, pageSize: nat)
    requires pageSize >= 1
    decreases |items|
  {
    var n := Min(pageSize, |items|);
    var page, rest := items[..n], items[n..];
    && FindAmong(page, "Fault").None?
    && (rest != [] ==>
          && FindAmong(page, "EndOfSequence").None?
          && (FindAmong(page, "EnumerationContext").Some? ==> FindAmong(page, "EnumerationContext").value.text == own)
          && Harmless(rest, own, pageSize))
  }

  lemma {:induction false} CollectAtMost(left: Option<seq<Element>>, own: string, asked: string, pageSize: nat)
    requires pageSize >= 1
    ensures var r := Collect(left, own, asked, pageSize).0;
            r.Items? ==> |r.values| <= if left.Some? then |left.value| else 0
    decreases if left.Some? then 1 + |left.value| else 0
  {
    if asked != "" && asked == own && left.Some? {
      var n := Min(pageSize, |left.value|);
      var page, rest := left.value[..n], left.value[n..];
      var more := if rest == [] then None else Some(own);
      CollectAtMost(if rest == [] then None else Some(rest), own, NextContext(page, more), pageSize);
    }
  }

  /** Where the client goes after a page. */
  lemma NextIs(page: seq<Element>, own: string, last: bool)
    ensures NextContext(page, if last then None else Some(own)) ==
              if last || FindAmong(page, "EndOfSequence").Some? then ""
              else if FindAmong(page, "EnumerationContext").Some? then FindAmong(page, "EnumerationContext").value.text
              else own
  {
    var more := if last then None else Some(own);
    FindInPull(page, more, "EndOfSequence");
    FindInPull(page, more, "EnumerationContext");
  }

  lemma ValuesSplit(items: seq<Element>, n: nat)
    requires n <= |items|
    ensures Values(items) == Values(items[..n]) + Values(items[n..])
  {
  }

  lemma {:induction false} CollectIff(items: seq<Element>, own: string, pageSize: nat)
    requires pageSize >= 1 && own != ""
    ensures Collect(Some(items), own, own, pageSize).0 == Items(Values(items)) <==> Harmless(items, own, pageSize)
    ensures Harmless(items, own, pageSize) ==> Collect(Some(items), own, own, pageSize).1 == None
    decreases |items|
  {
    hide Find, FindAmong, PullBody, NextContext, Values;
    var n := Min(pageSize, |items|);
    var page, rest := items[..n], items[n..];
    var more := if rest == [] then None else Some(own);
    FindInPull(page, more, "Fault");
    NextIs(page, own, rest == []);
    ValuesSplit(items, n);
    var next := NextContext(page, more);
    if rest == [] {
      assert page == items;
    } else {
      CollectIff(rest, own, pageSize);
      CollectAtMost(Some(rest), own, next, pageSize);
      var later := Collect(Some(rest), own, next, pageSize).0;
      if later.Items? && Values(page) + later.values == Values(items) {
        assert later.values == (Values(page) + later.values)[|page|..];
        assert later.values == Values(rest);
      }
    }
  }

  // --- Items no client can misread ---

  /** None of the reserved names occurs anywhere in the items. */
  predicate Plain(items: seq<Element>) {
    FindAmong(items, "Fault").None? && FindAmong(items, "EndOfSequence").None? && FindAmong(items, "EnumerationContext").None?
  }

  lemma PlainParts(items: seq<Element>, n: nat)
    requires Plain(items) && n <= |items|
    ensures Plain(items[..n]) && Plain(items[n..])
  {
    assert items == items[..n] + items[n..];
    FindAmongAppend(items[..n], items[n..], "Fault");
    FindAmongAppend(items[..n], items[n..], "EndOfSequence");
    FindAmongAppend(items[..n], items[n..], "EnumerationContext");
  }

  lemma {:induction false} PlainIsHarmless(items: seq<Element>, own: string, pageSize: nat)
    requires pageSize >= 1 && Plain(items)
    ensures Harmless(items, own, pageSize)
    decreases |items|
  {
    var n := Min(pageSize, |items|);
    PlainParts(items, n);
    if items[n..] != [] {
      PlainIsHarmless(items[n..], own, pageSize);
    }
  }

  /** For every list of plain items and every page size, the client gets the whole list and the server is left empty. */
  lemma WholeList(items: seq<Element>, own: string, pageSize: nat)
    requires pageSize >= 1 && own != "" && Plain(items)
    ensures Collect(Some(items), own, own, pageSize) == (Items(Values(items)), None)
  {
    PlainIsHarmless(items, own, pageSize);
    CollectIff(items, own, pageSize);
  }

  /** A property called EndOfSequence on any page but the last loses the rest of the list. */
  lemma LostItems(own: string)
    requires own != ""
    ensures var odd := Element("Item", "", [Element("EndOfSequence", "x", [])]);
            var items := [odd, Element("Item", "y", [])];
            Collect(Some(items), own, own, 1).0 == Items([ToValue(odd)])
  {
    var odd := Element("Item", "", [Element("EndOfSequence", "x", [])]);
    var items := [odd, Element("Item", "y", [])];
    var leaf := Element("EndOfSequence", "x", []);
    assert items[..1] == [odd] && items[1..] != [];
    FindAmongOne(odd, "Fault");
    FindAmongOne(odd, "EndOfSequence");
    FindAmongOne(leaf, "Fault");
    FindAmongOne(leaf, "EndOfSequence");
    FindInPull([odd], Some(own), "Fault");
    NextIs([odd], own, false);
    assert Values([odd]) + [] == [ToValue(odd)];
  }
}

// XML elements as WS-Man properties: how firmware renders a property, how the
// client turns an element into a value, and how a repeated element is read back.
module WsmanValues {
  import opened Wrappers

  datatype Element = Element(name: string, text: string, children: seq<Element>)

  datatype Value = Text(text: string) | Dict(fields: map<string, Value>) | List(items: seq<Value>)

  predicate IsSpace(c: char) {
    c == ' ' || c == '\t' || c == '\n' || c == '\r' || c == '\U{000b}' || c == '\U{000c}'
  }

  function TrimLeft(s: string): (t: string)
    ensures |t| <= |s| && (t != "" ==> !IsSpace(t[0]))
  {
    if s != "" && IsSpace(s[0]) then TrimLeft(s[1..]) else s
  }

  function TrimRight(s: string): (t: string)
    ensures |t| <= |s| && t == s[..|t|] && (t != "" ==> !IsSpace(t[|t| - 1]))
  {
    if s != "" && IsSpace(s[|s| - 1]) then TrimRight(s[..|s| - 1]) else s
  }

  /** str.strip */
  function Strip(s: string): (t: string)
    ensures t != "" ==> !IsSpace(t[0]) && !IsSpace(t[|t| - 1])
  {
    TrimRight(TrimLeft(s))
  }

  /** Neither end is white space. */
  predicate Trimmed(s: string) {
    s != "" ==> !IsSpace(s[0]) && !IsSpace(s[|s| - 1])
  }

  lemma TrimmedIsFixed(s: string)
    ensures Strip(s) == s <==> Trimmed(s)
  {
  }

  lemma StripTwice(s: string)
    ensures Strip(Strip(s)) == Strip(s)
  {
    TrimmedIsFixed(Strip(s));
  }

  // --- Searching a document ---

  /** The first element called `name` in document order, the root included. */
  function Find(e: Element, name: string): Option<Element>
    decreases e, 0
  {
    if e.name == name then Some(e) else FindAmong(e.children, name)
  }

  function FindAmong(es: seq<Element>, name: string): Option<Element>
    decreases es, 1
  {
    if es == [] then None
    else
      var first := Find(es[0], name);
      if first.Some? then first else FindAmong(es[1..], name)
  }

  lemma {:induction false} FindAmongAppend(a: seq<Element>, b: seq<Element>, name: string)
    ensures FindAmong(a + b, name) == if FindAmong(a, name).Some? then FindAmong(a, name) else FindAmong(b, name)
    decreases |a|
  {
    if a == [] {
      assert a + b == b;
    } else {
      assert (a + b)[0] == a[0] && (a + b)[1..] == a[1..] + b;
      FindAmongAppend(a[1..], b, name);
    }
  }

  lemma FindAmongOne(e: Element, name: string)
    ensures FindAmong([e], name) == Find(e, name)
  {
    assert [e][1..] == [];
  }

  // --- From elements to values ---

  /** One more occurrence of a child: a scalar first, a list from the second on. */
  function Add(fields: map<string, Value>, key: string, value: Value): map<string, Value> {
    if key !in fields then fields[key := value]
    else if fields[key].List? then fields[key := List(fields[key].items + [value])]
    else fields[key := List([fields[key], value])]
  }

  function ToValue(e: Element): (v: Value)
    ensures !v.List?
    decreases e, 0
  {
    if e.children == [] then Text(Strip(e.text)) else Dict(Fields(e.children))
  }

  function Fields(children: seq<Element>): map<string, Value>
    decreases children, 1
  {
    if children == [] then map[]
    else
      var last := children[|children| - 1];
      Add(Fields(children[..|children| - 1]), last.name, ToValue(last))
  }

  /** The conversion as it runs: a loop over the children filling a dictionary. */
  method ElementToValue(e: Element) returns (v: Value)
    ensures v == ToValue(e)
    decreases e
  {
    if e.children == [] {
      return Text(Strip(e.text));
    }
    var result: map<string, Value> := map[];
    for i := 0 to |e.children|
      invariant result == Fields(e.children[..i])
    {
      var child := e.children[i];
      var value := ElementToValue(child);
      assert e.children[..i + 1][..i] == e.children[..i];
      if child.name !in result {
        result := result[child.name := value];
      } else if result[child.name].List? {
        result := result[child.name := List(result[child.name].items + [value])];
      } else {
        result := result[child.name := List([result[child.name], value])];
      }
    }
    assert e.children[..|e.children|] == e.children;
    v := Dict(result);
  }

  /** The values of the children called `key`, in document order. */
  function Named(children: seq<Element>, key: string): (values: seq<Value>)
    ensures forall i :: 0 <= i < |values| ==> !values[i].List?
  {
    if children == [] then []
    else
      var last := children[|children| - 1];
      Named(children[..|children| - 1], key) + if last.name == key then [ToValue(last)] else []
  }

  function Lookup(fields: map<string, Value>, key: string): Option<Value> {
    if key in fields then Some(fields[key]) else None
  }

  /** Absent, scalar or list, by how often the child occurs. */
  function Collapse(values: seq<Value>): Option<Value> {
    if values == [] then None
    else if |values| == 1 then Some(values[0])
    else Some(List(values))
  }

  /** Whatever siblings are interleaved, a key holds exactly its own occurrences in order. */
  lemma {:induction false} FieldsCollapse(children: seq<Element>, key: string)
    ensures Lookup(Fields(children), key) == Collapse(Named(children, key))
    decreases |children|
  {
    if children != [] {
      var front, last := children[..|children| - 1], children[|children| - 1];
      FieldsCollapse(front, key);
      var values := Named(front, key);
      if last.name == key {
        assert Named(children, key) == values + [ToValue(last)];
        if |values| == 1 {
          assert values + [ToValue(last)] == [values[0], ToValue(last)];
        }
      } else {
        assert Named(children, key) == values;
      }
    }
  }

  // --- Reading a repeated element back ---

  /** optional_str: the trimmed text, unless it is blank or not text at all. */
  function OptionalStr(v: Value): Option<string> {
    if !v.Text? || Strip(v.text) == "" then None else Some(Strip(v.text))
  }

  function Texts(values: seq<Value>): seq<string> {
    if values == [] then []
    else
      var last := OptionalStr(values[|values| - 1]);
      Texts(values[..|values| - 1]) + if last.Some? then [last.value] else []
  }

  /** _record_array: a single occurrence arrives as a bare value, several as a list. */
  function RecordArray(raw: Option<Value>): seq<string> {
    match raw
    case None => []
    case Some(v) => Texts(if v.List? then v.items else [v])
  }

  /** _value_to_xml of a list property: one element per item. */
  function Render(tag: string, items: seq<string>): (es: seq<Element>)
    ensures |es| == |items|
  {
    seq(|items|, i requires 0 <= i < |items| => Element(tag, items[i], []))
  }

  /** What survives of rendered items: the trimmed non-blank ones. */
  function Survivors(items: seq<string>): seq<string> {
    if items == [] then []
    else
      var last := Strip(items[|items| - 1]);
      Survivors(items[..|items| - 1]) + if last == "" then [] else [last]
  }

  /** The texts of the children called `tag` that have no children themselves. */
  function TagTexts(children: seq<Element>, tag: string): seq<string> {
    if children == [] then []
    else
      var last := children[|children| - 1];
      TagTexts(children[..|children| - 1], tag) + if last.name == tag && last.children == [] then [last.text] else []
  }

  lemma TextsSnoc(values: seq<Value>, v: Value)
    ensures Texts(values + [v]) == Texts(values) + if OptionalStr(v).Some? then [OptionalStr(v).value] else []
  {
    assert (values + [v])[..|values|] == values;
  }

  lemma SurvivorsSnoc(items: seq<string>, item: string)
    ensures Survivors(items + [item]) == Survivors(items) + if Strip(item) == "" then [] else [Strip(item)]
  {
    assert (items + [item])[..|items|] == items;
  }

  /** Text is read back trimmed; blank text and anything with children is not text. */
  lemma ValueText(e: Element)
    ensures OptionalStr(ToValue(e)) == if e.children == [] && Strip(e.text) != "" then Some(Strip(e.text)) else None
  {
    StripTwice(e.text);
  }

  lemma {:induction false} NamedTexts(children: seq<Element>, tag: string)
    ensures Texts(Named(children, tag)) == Survivors(TagTexts(children, tag))
    decreases |children|
  {
    hide ToValue, OptionalStr, Strip;
    if children != [] {
      var front, last := children[..|children| - 1], children[|children| - 1];
      NamedTexts(front, tag);
      if last.name == tag {
        ValueText(last);
        TextsSnoc(Named(front, tag), ToValue(last));
        assert Named(children, tag) == Named(front, tag) + [ToValue(last)];
        if last.children == [] {
          SurvivorsSnoc(TagTexts(front, tag), last.text);
          assert TagTexts(children, tag) == TagTexts(front, tag) + [last.text];
        } else {
          assert TagTexts(children, tag) == TagTexts(front, tag);
        }
      } else {
        assert Named(children, tag) == Named(front, tag) && TagTexts(children, tag) == TagTexts(front, tag);
      }
    }
  }

  lemma TextsOfCollapse(values: seq<Value>)
    requires forall i :: 0 <= i < |values| ==> !values[i].List?
    ensures RecordArray(Collapse(values)) == Texts(values)
  {
    if |values| == 1 {
      assert values == [values[0]];
    }
  }

  /**
    Collapsing and reading back, whatever the children: exactly the trimmed
    non-blank texts of that tag, in order; an occurrence that is not plain text
    is passed over.
    */
  lemma RepeatedElement(children: seq<Element>, tag: string)
    ensures RecordArray(Lookup(Fields(children), tag)) == Survivors(TagTexts(children, tag))
  {
    FieldsCollapse(children, tag);
    TextsOfCollapse(Named(children, tag));
    NamedTexts(children, tag);
  }

  lemma {:induction false} SurvivorsLength(items: seq<string>)
    ensures |Survivors(items)| <= |items|
    decreases |items|
  {
    if items != [] {
      SurvivorsLength(items[..|items| - 1]);
    }
  }

  /** Nothing is lost or altered exactly when every item is trimmed and not blank. */
  lemma {:induction false} SurvivorsIff(items: seq<string>)
    ensures Survivors(items) == items <==> forall i :: 0 <= i < |items| ==> items[i] != "" && Trimmed(items[i])
    decreases |items|
  {
    hide Strip, Trimmed;
    if items != [] {
      var front, last := items[..|items| - 1], items[|items| - 1];
      SurvivorsIff(front);
      SurvivorsLength(front);
      TrimmedIsFixed(last);
      assert items == front + [last];
      if Survivors(items) == items {
        assert |Survivors(front)| == |front| && Survivors(items)[..|front|] == front;
        assert Survivors(front) == front;
        forall i | 0 <= i < |items| ensures items[i] != "" && Trimmed(items[i]) {
          if i < |front| {
            assert items[i] == front[i];
          }
        }
      }
    }
  }

  lemma {:induction false} RenderTexts(tag: string, items: seq<string>)
    ensures TagTexts(Render(tag, items), tag) == items
    decreases |items|
  {
    if items != [] {
      var front := items[..|items| - 1];
      RenderTexts(tag, front);
      assert Render(tag, items)[..|items| - 1] == Render(tag, front);
    }
  }

  /** Siblings of other names change nothing. */
  lemma {:induction false} TagTextsAppend(a: seq<Element>, b: seq<Element>, tag: string)
    ensures TagTexts(a + b, tag) == TagTexts(a, tag) + TagTexts(b, tag)
    decreases |b|
  {
    if b == [] {
      assert a + b == a;
    } else {
      assert (a + b)[..|a + b| - 1] == a + b[..|b| - 1];
      TagTextsAppend(a, b[..|b| - 1], tag);
    }
  }

  /** The round trip is the identity exactly on lists of trimmed, non-blank strings. */
  lemma RoundTrip(tag: string, items: seq<string>)
    ensures RecordArray(Lookup(Fields(Render(tag, items)), tag)) == items
       <==> forall i :: 0 <= i < |items| ==> items[i] != "" && Trimmed(items[i])
  {
    RepeatedElement(Render(tag, items), tag);
    RenderTexts(tag, items);
    SurvivorsIff(items);
  }
}

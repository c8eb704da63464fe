// Optional values, and lists that are collected while a parser may still fail.
module Wrappers {
  datatype Option<+T> = None | Some(value: T)

  /** `items` in front of the rest, if the rest can be had. */
  function Prepend<T>(items: seq<T>, rest: Option<seq<T>>): Option<seq<T>> {
    if rest.Some? then Some(items + rest.value) else None
  }

  lemma PrependNone<T>(items: seq<T>, rest: Option<seq<T>>)
    ensures Prepend([], rest) == rest
    ensures Prepend(items, Some([])) == Some(items)
  {
    assert items + [] == items;
    if rest.Some? {
      assert [] + rest.value == rest.value;
    }
  }

  lemma PrependTwice<T>(items: seq<T>, more: seq<T>, rest: Option<seq<T>>)
    ensures Prepend(items, Prepend(more, rest)) == Prepend(items + more, rest)
  {
    if rest.Some? {
      assert items + (more + rest.value) == items + more + rest.value;
    }
  }
}

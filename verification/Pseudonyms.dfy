// Pseudonyms as a function of the requests made so far: numbering per
// category in first-seen order, and tokens that never collide or change.
module Pseudonyms {

  /** A value to hide, and the category it was recognised as. */
  datatype Request = Request(category: string, value: string)

  /** Every request of a run so far. */
  type Log = seq<Request>

  /** The distinct values of a category, in the order of their first request. */
  function FirstSeen(log: Log, category: string): seq<string> {
    if log == [] then []
    else
      var front, last := FirstSeen(log[..|log| - 1], category), log[|log| - 1];
      if last.category == category && last.value !in front then front + [last.value] else front
  }

  function Occurrences(log: Log, category: string): nat {
    if log == [] then 0
    else Occurrences(log[..|log| - 1], category) + if log[|log| - 1].category == category then 1 else 0
  }

  function Index(values: seq<string>, value: string): (i: nat)
    requires value in values
    ensures i < |values| && values[i] == value && value !in values[..i]
  {
    if values[0] == value then 0
    else
      assert values == [values[0]] + values[1..];
      var i := Index(values[1..], value);
      assert values[..i + 1] == [values[0]] + values[1..][..i];
      1 + i
  }

  function Decimal(n: nat): (s: string)
    ensures s != "" && forall i :: 0 <= i < |s| ==> '0' <= s[i] <= '9'
  {
    if n < 10 then ['0' + n as char] else Decimal(n / 10) + ['0' + (n % 10) as char]
  }

  function Token(category: string, n: nat): string {
    "<redacted-" + category + "-" + Decimal(n) + ">"
  }

  /** The token of a value that has been requested. */
  function TokenIn(log: Log, category: string, value: string): string
    requires value in FirstSeen(log, category)
  {
    Token(category, 1 + Index(FirstSeen(log, category), value))
  }

  // --- Decimal numerals and token texts ---

  function FromDecimal(s: string): int {
    if s == "" then 0 else 10 * FromDecimal(s[..|s| - 1]) + (s[|s| - 1] as int - '0' as int)
  }

  lemma {:induction false} DecimalRoundTrip(n: nat)
    ensures FromDecimal(Decimal(n)) == n
  {
    if n < 10 {
      assert Decimal(n)[..0] == "";
    } else {
      DecimalRoundTrip(n / 10);
      assert Decimal(n)[..|Decimal(n)| - 1] == Decimal(n / 10);
    }
  }

  lemma NoHyphenAfter(a: string, x: string)
    requires '-' !in x
    ensures forall i :: |a| < i < |a + "-" + x| ==> (a + "-" + x)[i] != '-'
  {
    var s := a + "-" + x;
    forall i | |a| < i < |s| ensures s[i] != '-' {
      assert s[i] == x[i - |a| - 1];
    }
  }

  /** Text after the last hyphen is determined by the whole. */
  lemma LastHyphen(a: string, b: string, x: string, y: string)
    requires a + "-" + x == b + "-" + y && '-' !in x && '-' !in y
    ensures a == b && x == y
  {
    var s := a + "-" + x;
    var t := b + "-" + y;
    NoHyphenAfter(a, x);
    NoHyphenAfter(b, y);
    assert s[|a|] == '-' && t[|b|] == '-';
    assert |a| == |b|;
    assert a == s[..|a|] == t[..|a|] == b;
    assert x == s[|a| + 1..] == t[|a| + 1..] == y;
  }

  /** Whatever the categories contain, a token names one category and one number. */
  lemma TokenInjective(c: string, m: nat, d: string, n: nat)
    ensures Token(c, m) == Token(d, n) <==> c == d && m == n
  {
    if Token(c, m) == Token(d, n) {
      var prefix := "<redacted-";
      var s, t := Token(c, m), Token(d, n);
      assert s == prefix + (c + "-" + Decimal(m)) + ">" && t == prefix + (d + "-" + Decimal(n)) + ">";
      assert s[|prefix|..|s| - 1] == c + "-" + Decimal(m);
      assert t[|prefix|..|t| - 1] == d + "-" + Decimal(n);
      LastHyphen(c, d, Decimal(m), Decimal(n));
      DecimalRoundTrip(m);
      DecimalRoundTrip(n);
    }
  }

  // --- Numbering over a whole run ---

  lemma {:induction false} FirstSeenIff(log: Log, category: string, value: string)
    ensures value in FirstSeen(log, category) <==> Request(category, value) in log
    decreases |log|
  {
    if log != [] {
      FirstSeenIff(log[..|log| - 1], category, value);
      assert log == log[..|log| - 1] + [log[|log| - 1]];
    }
  }

  predicate Distinct(values: seq<string>) {
    forall i, j :: 0 <= i < j < |values| ==> values[i] != values[j]
  }

  lemma DistinctAdd(values: seq<string>, value: string)
    requires Distinct(values) && value !in values
    ensures Distinct(values + [value])
  {
    var more := values + [value];
    forall i, j | 0 <= i < j < |more| ensures more[i] != more[j] {
      assert i < |values| && more[i] == values[i] && values[i] in values;
    }
  }

  lemma {:induction false} FirstSeenDistinct(log: Log, category: string)
    ensures Distinct(FirstSeen(log, category))
    decreases |log|
  {
    if log != [] {
      var front, last := FirstSeen(log[..|log| - 1], category), log[|log| - 1];
      FirstSeenDistinct(log[..|log| - 1], category);
      if last.category == category && last.value !in front {
        DistinctAdd(front, last.value);
      }
    }
  }

  lemma {:induction false} FirstSeenGrows(log: Log, more: Log, category: string)
    ensures FirstSeen(log, category) <= FirstSeen(log + more, category)
    decreases |more|
  {
    if more == [] {
      assert log + more == log;
    } else {
      assert (log + more)[..|log + more| - 1] == log + more[..|more| - 1];
      FirstSeenGrows(log, more[..|more| - 1], category);
    }
  }

  lemma IndexOf(values: seq<string>, i: nat)
    requires i < |values| && Distinct(values)
    ensures Index(values, values[i]) == i
  {
  }

  /** Numbering is dense: in every category the tokens are exactly those numbered 1 to the count, in first-seen order. */
  lemma Dense(log: Log, category: string, n: nat)
    requires 1 <= n <= |FirstSeen(log, category)|
    ensures TokenIn(log, category, FirstSeen(log, category)[n - 1]) == Token(category, n)
  {
    FirstSeenDistinct(log, category);
    IndexOf(FirstSeen(log, category), n - 1);
  }

  /** A token once given never changes. */
  lemma Stable(log: Log, more: Log, category: string, value: string)
    requires Request(category, value) in log
    ensures value in FirstSeen(log, category) && value in FirstSeen(log + more, category)
    ensures TokenIn(log + more, category, value) == TokenIn(log, category, value)
  {
    hide FirstSeen, Distinct, Token;
    FirstSeenIff(log, category, value);
    FirstSeenIff(log + more, category, value);
    FirstSeenGrows(log, more, category);
    FirstSeenDistinct(log + more, category);
    var i := Index(FirstSeen(log, category), value);
    IndexOf(FirstSeen(log + more, category), i);
  }

  /** Over a whole run, two requests share a token exactly when they are the same value in the same category. */
  lemma Injective(log: Log, one: Request, other: Request)
    requires one in log && other in log
    ensures one.value in FirstSeen(log, one.category) && other.value in FirstSeen(log, other.category)
    ensures TokenIn(log, one.category, one.value) == TokenIn(log, other.category, other.value) <==> one == other
  {
    FirstSeenIff(log, one.category, one.value);
    FirstSeenIff(log, other.category, other.value);
    TokenInjective(one.category, 1 + Index(FirstSeen(log, one.category), one.value),
                   other.category, 1 + Index(FirstSeen(log, other.category), other.value));
  }

  lemma {:induction false} AtMostOccurrences(log: Log, category: string)
    ensures |FirstSeen(log, category)| <= Occurrences(log, category)
    decreases |log|
  {
    if log != [] {
      AtMostOccurrences(log[..|log| - 1], category);
    }
  }
}

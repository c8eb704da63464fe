// Redaction of JSON trees as a function of the requests made so far, and what
// of a tree it keeps.
module Redaction {
  import opened Pseudonyms

  /** `Scalar` is any value that is not text and holds none. */
  datatype Json = Obj(entries: seq<Entry>) | Arr(items: seq<Json>) | Str(text: string) | Scalar(id: int)

  datatype Entry = Entry(key: string, value: Json)

  /** A text as one pattern cuts it up: passages to keep, and values to replace. */
  datatype Piece = Keep(text: string) | Hit(value: string)

  datatype Pattern = Pattern(category: string, split: string -> seq<Piece>)

  /** The tables and the patterns, with matching and lower-casing left open. */
  datatype Config = Config(patterns: seq<Pattern>, isToken: string -> bool, lower: string -> string,
                           exemptKeys: set<string>, identifyingKeys: map<string, string>, shapes: set<string>)

  const PROPERTY_SHAPES_KEY := "property_shapes"

  /** The key a value was found under, if any. */
  datatype Key = NoKey | Under(name: string)

  // --- Redaction as a function of the requests made so far ---

  function TokenFor(log: Log, category: string, value: string): (r: (string, Log))
    ensures r.1 == log + [Request(category, value)]
  {
    var later := log + [Request(category, value)];
    assert Request(category, value) in later;
    FirstSeenIff(later, category, value);
    (TokenIn(later, category, value), later)
  }

  function JoinPieces(log: Log, category: string, pieces: seq<Piece>): (string, Log)
    decreases pieces
  {
    if pieces == [] then ("", log)
    else
      var front := JoinPieces(log, category, pieces[..|pieces| - 1]);
      match pieces[|pieces| - 1]
      case Keep(text) => (front.0 + text, front.1)
      case Hit(value) =>
        var t := TokenFor(front.1, category, value);
        (front.0 + t.0, t.1)
  }

  function RedactText(patterns: seq<Pattern>, log: Log, text: string): (string, Log)
    decreases |patterns|
  {
    if patterns == [] then (text, log)
    else
      var front := RedactText(patterns[..|patterns| - 1], log, text);
      var last := patterns[|patterns| - 1];
      JoinPieces(front.1, last.category, last.split(front.0))
  }

  predicate Exempt(cfg: Config, key: Key) {
    key.Under? && cfg.lower(key.name) in cfg.exemptKeys
  }

  function RedactString(cfg: Config, log: Log, text: string, key: Key): (string, Log) {
    if Exempt(cfg, key) then (text, log)
    else
      var r := RedactText(cfg.patterns, log, text);
      if r.0 != text then r
      else if key.Under? && text != "" && !cfg.isToken(text) && cfg.lower(key.name) in cfg.identifyingKeys then
        TokenFor(r.1, cfg.identifyingKeys[cfg.lower(key.name)], text)
      else r
  }

  function RedactValue(cfg: Config, log: Log, value: Json, key: Key): (Json, Log)
    decreases value, 1
  {
    match value
    case Obj(entries) => var r := RedactEntries(cfg, log, entries, false); (Obj(r.0), r.1)
    case Arr(items) => var r := RedactItems(cfg, log, items); (Arr(r.0), r.1)
    case Str(text) => var r := RedactString(cfg, log, text, key); (Str(r.0), r.1)
    case Scalar(_) => (value, log)
  }

  /** The entries of an ordinary mapping, or of a census of property shapes. */
  function RedactEntries(cfg: Config, log: Log, entries: seq<Entry>, census: bool): (seq<Entry>, Log)
    decreases entries, 0
  {
    if entries == [] then ([], log)
    else
      var front := RedactEntries(cfg, log, entries[..|entries| - 1], census);
      var last := entries[|entries| - 1];
      var r := RedactEntry(cfg, front.1, last, census);
      (front.0 + [Entry(last.key, r.0)], r.1)
  }

  function RedactEntry(cfg: Config, log: Log, entry: Entry, census: bool): (Json, Log)
    decreases entry, 0
  {
    if census && entry.value.Str? && entry.value.text in cfg.shapes then (entry.value, log)
    else if !census && entry.key == PROPERTY_SHAPES_KEY && entry.value.Obj? then
      var r := RedactEntries(cfg, log, entry.value.entries, true);
      (Obj(r.0), r.1)
    else RedactValue(cfg, log, entry.value, Under(entry.key))
  }

  function RedactItems(cfg: Config, log: Log, items: seq<Json>): (seq<Json>, Log)
    decreases items, 0
  {
    if items == [] then ([], log)
    else
      var front := RedactItems(cfg, log, items[..|items| - 1]);
      var r := RedactValue(cfg, front.1, items[|items| - 1], NoKey);
      (front.0 + [r.0], r.1)
  }

  // --- What a redacted tree keeps ---

  /** Same keys in the same order, same nesting, same lengths, same non-text leaves. */
  predicate SameShape(a: Json, b: Json)
    decreases a, 1
  {
    match (a, b)
    case (Obj(x), Obj(y)) => SameEntries(x, y)
    case (Arr(x), Arr(y)) => SameItems(x, y)
    case (Str(_), Str(_)) => true
    case (Scalar(m), Scalar(n)) => m == n
    case _ => false
  }

  predicate SameEntries(x: seq<Entry>, y: seq<Entry>)
    decreases x, 0
  {
    |x| == |y| &&
    forall i :: 0 <= i < |x| ==> x[i].key == y[i].key && SameShape(x[i].value, y[i].value)
  }

  predicate SameItems(x: seq<Json>, y: seq<Json>)
    decreases x, 0
  {
    |x| == |y| && forall i :: 0 <= i < |x| ==> SameShape(x[i], y[i])
  }

  /** Structure survives redaction, and requests are only ever added. */
  lemma {:induction false} KeepsShape(cfg: Config, log: Log, value: Json, key: Key)
    ensures SameShape(value, RedactValue(cfg, log, value, key).0)
    ensures log <= RedactValue(cfg, log, value, key).1
    decreases value, 1
  {
    match value
    case Obj(entries) => KeepsEntries(cfg, log, entries, false);
    case Arr(items) => KeepsItems(cfg, log, items);
    case Str(text) => StringGrows(cfg, log, text, key);
    case Scalar(_) =>
  }

  lemma {:induction false} KeepsEntries(cfg: Config, log: Log, entries: seq<Entry>, census: bool)
    ensures SameEntries(entries, RedactEntries(cfg, log, entries, census).0)
    ensures log <= RedactEntries(cfg, log, entries, census).1
    decreases entries, 0
  {
    if entries != [] {
      var last := entries[|entries| - 1];
      KeepsEntries(cfg, log, entries[..|entries| - 1], census);
      KeepsEntry(cfg, RedactEntries(cfg, log, entries[..|entries| - 1], census).1, last, census);
    }
  }

  lemma {:induction false} KeepsEntry(cfg: Config, log: Log, entry: Entry, census: bool)
    ensures SameShape(entry.value, RedactEntry(cfg, log, entry, census).0)
    ensures log <= RedactEntry(cfg, log, entry, census).1
    decreases entry, 0
  {
    if census && entry.value.Str? && entry.value.text in cfg.shapes {
    } else if !census && entry.key == PROPERTY_SHAPES_KEY && entry.value.Obj? {
      KeepsEntries(cfg, log, entry.value.entries, true);
    } else {
      KeepsShape(cfg, log, entry.value, Under(entry.key));
    }
  }

  lemma {:induction false} KeepsItems(cfg: Config, log: Log, items: seq<Json>)
    ensures SameItems(items, RedactItems(cfg, log, items).0)
    ensures log <= RedactItems(cfg, log, items).1
    decreases items, 0
  {
    if items != [] {
      KeepsItems(cfg, log, items[..|items| - 1]);
      KeepsShape(cfg, RedactItems(cfg, log, items[..|items| - 1]).1, items[|items| - 1], NoKey);
    }
  }

  lemma {:induction false} PiecesGrow(log: Log, category: string, pieces: seq<Piece>)
    ensures log <= JoinPieces(log, category, pieces).1
    decreases |pieces|
  {
    if pieces != [] {
      PiecesGrow(log, category, pieces[..|pieces| - 1]);
    }
  }

  lemma {:induction false} TextGrows(patterns: seq<Pattern>, log: Log, text: string)
    ensures log <= RedactText(patterns, log, text).1
    decreases |patterns|
  {
    if patterns != [] {
      var front := RedactText(patterns[..|patterns| - 1], log, text);
      var last := patterns[|patterns| - 1];
      TextGrows(patterns[..|patterns| - 1], log, text);
      PiecesGrow(front.1, last.category, last.split(front.0));
    }
  }

  lemma StringGrows(cfg: Config, log: Log, text: string, key: Key)
    ensures log <= RedactString(cfg, log, text, key).1
  {
    TextGrows(cfg.patterns, log, text);
  }

  // --- A whole run ---

  /** An evidence file: nothing but white space, a JSON document, or text that does not parse. */
  datatype File = Blank | Document(tree: Json) | Text(text: string)

  function RedactFile(cfg: Config, log: Log, file: File): (File, Log) {
    match file
    case Blank => (file, log)
    case Document(tree) => var r := RedactValue(cfg, log, tree, NoKey); (Document(r.0), r.1)
    case Text(text) => var r := RedactText(cfg.patterns, log, text); (Text(r.0), r.1)
  }

  /** File after file through one redactor. */
  function RedactAll(cfg: Config, log: Log, files: seq<File>): (seq<File>, Log) {
    if files == [] then ([], log)
    else
      var front := RedactAll(cfg, log, files[..|files| - 1]);
      var r := RedactFile(cfg, front.1, files[|files| - 1]);
      (front.0 + [r.0], r.1)
  }

  predicate SameKind(a: File, b: File) {
    match (a, b)
    case (Document(x), Document(y)) => SameShape(x, y)
    case (Text(_), Text(_)) => true
    case (Blank, Blank) => true
    case _ => false
  }

  lemma KeepsFile(cfg: Config, log: Log, file: File)
    ensures SameKind(file, RedactFile(cfg, log, file).0) && log <= RedactFile(cfg, log, file).1
  {
    match file
    case Blank =>
    case Document(tree) => KeepsShape(cfg, log, tree, NoKey);
    case Text(text) => TextGrows(cfg.patterns, log, text);
  }

  /** Every file keeps its kind and shape, and what was requested in earlier files stays requested in all later ones. */
  lemma {:induction false} WholeRun(cfg: Config, log: Log, files: seq<File>, n: nat)
    requires n <= |files|
    ensures var r := RedactAll(cfg, log, files);
            && |r.0| == |files| && (forall i :: 0 <= i < |files| ==> SameKind(files[i], r.0[i]))
            && RedactAll(cfg, log, files[..n]).1 <= r.1
    decreases |files|, n < |files|
  {
    hide RedactFile, SameKind;
    if files == [] {
      assert files[..n] == files;
    } else {
      var last := |files| - 1;
      var front := files[..last];
      var m := if n < last then n else last;
      WholeRun(cfg, log, front, m);
      assert front[..m] == files[..m];
      KeepsFile(cfg, RedactAll(cfg, log, front).1, files[last]);
      if n == |files| {
        assert files[..n] == files;
      }
    }
  }

  /** The token a value has after any part of a run is its token at the end, and nobody else's. */
  lemma OneTokenForever(cfg: Config, files: seq<File>, n: nat, one: Request, other: Request)
    requires n <= |files|
    requires one in RedactAll(cfg, [], files[..n]).1 && other in RedactAll(cfg, [], files).1
    ensures var early, late := RedactAll(cfg, [], files[..n]).1, RedactAll(cfg, [], files).1;
            && one.value in FirstSeen(early, one.category) && one.value in FirstSeen(late, one.category)
            && other.value in FirstSeen(late, other.category)
            && TokenIn(late, one.category, one.value) == TokenIn(early, one.category, one.value)
            && (TokenIn(late, one.category, one.value) == TokenIn(late, other.category, other.value) <==> one == other)
  {
    hide RedactAll, FirstSeen;
    var early, late := RedactAll(cfg, [], files[..n]).1, RedactAll(cfg, [], files).1;
    WholeRun(cfg, [], files, n);
    var more := late[|early|..];
    assert late == early + more;
    Stable(early, more, one.category, one.value);
    FirstSeenIff(late, other.category, other.value);
    Injective(late, one, other);
  }

  // --- What redaction hides ---

  /** The key says that the value identifies the machine, whatever it looks like. */
  predicate Identifying(cfg: Config, key: Key) {
    key.Under? && cfg.lower(key.name) in cfg.identifyingKeys && !Exempt(cfg, key)
  }

  /** Every token minted for an identifying key is recognised as one. */
  ghost predicate RecognisesTokens(cfg: Config) {
    forall key, n: nat :: key in cfg.identifyingKeys ==> cfg.isToken(Token(cfg.identifyingKeys[key], n))
  }

  /** When a text stays as it is: under a key that says nothing, if no pattern finds anything in it; under an identifying one, only if it is empty or a token already. */
  lemma UnchangedIff(cfg: Config, log: Log, text: string, key: Key)
    requires RecognisesTokens(cfg)
    ensures RedactString(cfg, log, text, key).0 == text <==>
            || Exempt(cfg, key)
            || (RedactText(cfg.patterns, log, text).0 == text && (Identifying(cfg, key) ==> text == "" || cfg.isToken(text)))
  {
    hide RedactText;
    if Identifying(cfg, key) {
      var later := RedactText(cfg.patterns, log, text).1;
      var category := cfg.identifyingKeys[cfg.lower(key.name)];
      assert cfg.isToken(TokenFor(later, category, text).0) by {
        FirstSeenIff(later + [Request(category, text)], category, text);
      }
    }
  }

  /** Every text under an identifying key has changed, but for empty ones, tokens, and the shapes of a census. */
  ghost predicate Hides(cfg: Config, a: Json, b: Json, key: Key)
    decreases a, 1
  {
    match (a, b)
    case (Obj(x), Obj(y)) => HidesEntries(cfg, x, y, false)
    case (Arr(x), Arr(y)) => |x| == |y| && forall i :: 0 <= i < |x| ==> Hides(cfg, x[i], y[i], NoKey)
    case (Str(x), Str(y)) => Identifying(cfg, key) && x != "" && !cfg.isToken(x) ==> x != y
    case (Scalar(_), Scalar(_)) => true
    case _ => false
  }

  ghost predicate HidesEntries(cfg: Config, x: seq<Entry>, y: seq<Entry>, census: bool)
    decreases x, 0
  {
    |x| == |y| && forall i :: 0 <= i < |x| ==> HidesEntry(cfg, x[i], y[i], census)
  }

  ghost predicate HidesEntry(cfg: Config, x: Entry, y: Entry, census: bool)
    decreases x, 0
  {
    if census && x.value.Str? && x.value.text in cfg.shapes then y == x
    else if !census && x.key == PROPERTY_SHAPES_KEY && x.value.Obj? then
      y.value.Obj? && HidesEntries(cfg, x.value.entries, y.value.entries, true)
    else Hides(cfg, x.value, y.value, Under(x.key))
  }

  /** Redaction hides, wherever in a tree. */
  lemma {:induction false} ValueHidden(cfg: Config, log: Log, value: Json, key: Key)
    requires RecognisesTokens(cfg)
    ensures Hides(cfg, value, RedactValue(cfg, log, value, key).0, key)
    decreases value, 1
  {
    hide RecognisesTokens;
    match value
    case Obj(entries) => EntriesHidden(cfg, log, entries, false);
    case Arr(items) => ItemsHidden(cfg, log, items);
    case Str(text) => UnchangedIff(cfg, log, text, key);
    case Scalar(_) =>
  }

  lemma {:induction false} EntriesHidden(cfg: Config, log: Log, entries: seq<Entry>, census: bool)
    requires RecognisesTokens(cfg)
    ensures HidesEntries(cfg, entries, RedactEntries(cfg, log, entries, census).0, census)
    decreases entries, 0
  {
    hide RecognisesTokens, HidesEntry;
    if entries != [] {
      var n := |entries| - 1;
      EntriesHidden(cfg, log, entries[..n], census);
      EntryHidden(cfg, RedactEntries(cfg, log, entries[..n], census).1, entries[n], census);
      assert forall i :: 0 <= i < n ==> entries[..n][i] == entries[i];
    }
  }

  lemma {:induction false} EntryHidden(cfg: Config, log: Log, entry: Entry, census: bool)
    requires RecognisesTokens(cfg)
    ensures HidesEntry(cfg, entry, Entry(entry.key, RedactEntry(cfg, log, entry, census).0), census)
    decreases entry, 0
  {
    hide RecognisesTokens;
    if census && entry.value.Str? && entry.value.text in cfg.shapes {
    } else if !census && entry.key == PROPERTY_SHAPES_KEY && entry.value.Obj? {
      EntriesHidden(cfg, log, entry.value.entries, true);
    } else {
      ValueHidden(cfg, log, entry.value, Under(entry.key));
    }
  }

  lemma {:induction false} ItemsHidden(cfg: Config, log: Log, items: seq<Json>)
    requires RecognisesTokens(cfg)
    ensures var y := RedactItems(cfg, log, items).0;
            |y| == |items| && forall i :: 0 <= i < |items| ==> Hides(cfg, items[i], y[i], NoKey)
    decreases items, 0
  {
    hide RecognisesTokens, Hides;
    if items != [] {
      var n := |items| - 1;
      ItemsHidden(cfg, log, items[..n]);
      ValueHidden(cfg, RedactItems(cfg, log, items[..n]).1, items[n], NoKey);
      assert forall i :: 0 <= i < n ==> items[..n][i] == items[i];
    }
  }

  /** In every document of a run no identifying text is left as it was. */
  lemma {:induction false} RunHides(cfg: Config, log: Log, files: seq<File>)
    requires RecognisesTokens(cfg)
    ensures var r := RedactAll(cfg, log, files).0;
            && |r| == |files|
            && forall i :: 0 <= i < |files| && files[i].Document? ==>
                 r[i].Document? && Hides(cfg, files[i].tree, r[i].tree, NoKey)
    decreases |files|
  {
    hide RecognisesTokens, Hides;
    if files != [] {
      var n := |files| - 1;
      RunHides(cfg, log, files[..n]);
      if files[n].Document? {
        ValueHidden(cfg, RedactAll(cfg, log, files[..n]).1, files[n].tree, NoKey);
      }
      assert forall i :: 0 <= i < n ==> files[..n][i] == files[i];
    }
  }

  // --- A second pass ---

  /** The patterns find nothing more in a text they have been through, nor in a token of an identifying key. */
  ghost predicate Settled(cfg: Config) {
    && (forall log, later, text :: var once := RedactText(cfg.patterns, log, text).0; RedactText(cfg.patterns, later, once).0 == once)
    && (forall log, key, n: nat :: key in cfg.identifyingKeys ==>
          RedactText(cfg.patterns, log, Token(cfg.identifyingKeys[key], n)).0 == Token(cfg.identifyingKeys[key], n))
  }

  /**
    A second pass leaves a text alone exactly if its key does not identify, or
    the patterns found nothing in it the first time, or they replaced the whole
    of it by a token.
    */
  lemma SecondPassIff(cfg: Config, log: Log, later: Log, text: string, key: Key)
    requires RecognisesTokens(cfg) && Settled(cfg)
    ensures var once := RedactString(cfg, log, text, key).0;
            RedactString(cfg, later, once, key).0 == once <==>
            || !Identifying(cfg, key)
            || RedactText(cfg.patterns, log, text).0 == text
            || once == "" || cfg.isToken(once)
  {
    hide RedactText, RecognisesTokens, RedactString;
    UnchangedIff(cfg, later, RedactString(cfg, log, text, key).0, key);
    FirstPass(cfg, log, text, key);
  }

  /** What the first pass makes of a text is left alone by the patterns, and is a token if the key made it one. */
  lemma FirstPass(cfg: Config, log: Log, text: string, key: Key)
    requires RecognisesTokens(cfg) && Settled(cfg)
    ensures var once, found := RedactString(cfg, log, text, key).0, RedactText(cfg.patterns, log, text).0;
            && (!Exempt(cfg, key) ==> forall later :: RedactText(cfg.patterns, later, once).0 == once)
            && (Identifying(cfg, key) && found == text ==> once == "" || cfg.isToken(once))
            && (Exempt(cfg, key) ==> once == text)
  {
    hide RedactText;
    var r := RedactText(cfg.patterns, log, text);
    if Identifying(cfg, key) && r.0 == text && text != "" && !cfg.isToken(text) {
      var category := cfg.identifyingKeys[cfg.lower(key.name)];
      FirstSeenIff(r.1 + [Request(category, text)], category, text);
    }
  }

  // --- Which tokens are recognised ---

  predicate CategoryChar(c: char) {
    'a' <= c <= 'z' || '0' <= c <= '9' || c == '_'
  }

  /** A token text: a category of lower-case letters, digits and underscores, and a number. */
  predicate IsTokenText(s: string) {
    |s| > 12 && s[..10] == "<redacted-" && s[|s| - 1] == '>' &&
    exists i :: 10 < i < |s| - 2 && s[i] == '-'
                && (forall j :: 10 <= j < i ==> CategoryChar(s[j]))
                && (forall j :: i < j < |s| - 1 ==> '0' <= s[j] <= '9')
  }

  /** Where the parts of a token are. */
  lemma TokenParts(category: string, n: nat)
    ensures var s, at := Token(category, n), 10 + |category|;
            && |s| > at + 2 && s[..10] == "<redacted-" && s[|s| - 1] == '>' && s[at] == '-'
            && (forall j :: 0 <= j < |category| ==> s[10 + j] == category[j])
            && (forall j :: at < j < |s| - 1 ==> '0' <= s[j] <= '9')
  {
    hide Decimal;
    var s, digits := Token(category, n), Decimal(n);
    var at := 10 + |category|;
    assert s == "<redacted-" + (category + ("-" + (digits + ">")));
    forall j | at < j < |s| - 1 ensures '0' <= s[j] <= '9' {
      assert s[j] == digits[j - at - 1];
    }
  }

  /** With that test exactly those tokens are recognised whose category is spelled in those characters. */
  lemma TokensRecognised(category: string, n: nat)
    ensures IsTokenText(Token(category, n)) <==> category != "" && forall j :: 0 <= j < |category| ==> CategoryChar(category[j])
  {
    hide Token, CategoryChar;
    var s, at := Token(category, n), 10 + |category|;
    TokenParts(category, n);
    if category != "" && forall j :: 0 <= j < |category| ==> CategoryChar(category[j]) {
      forall j | 10 <= j < at ensures CategoryChar(s[j]) {
        assert s[10 + (j - 10)] == category[j - 10];
      }
      assert 10 < at < |s| - 2 && s[at] == '-';
    }
    if IsTokenText(s) {
      var i :| 10 < i < |s| - 2 && s[i] == '-' && (forall j :: 10 <= j < i ==> CategoryChar(s[j]))
               && (forall j :: i < j < |s| - 1 ==> '0' <= s[j] <= '9');
      HyphenApart();
      assert i == at;
      forall j | 0 <= j < |category| ensures CategoryChar(category[j]) {
        assert s[10 + j] == category[j] && CategoryChar(s[10 + j]);
      }
    }
  }

  lemma HyphenApart()
    ensures !CategoryChar('-')
  {
  }

  // --- A text that a second pass does change ---

  /** One pattern, which finds one address, and one identifying key. */
  function OneAddress(address: string): Config {
    Config([Pattern("ipv4", text => if text == "lab " + address then [Keep("lab "), Hit(address)] else [Keep(text)])],
           IsTokenText, text => text, {}, map["host" := "hostname"], {})
  }

  lemma JoinKept(log: Log, category: string, text: string)
    ensures JoinPieces(log, category, [Keep(text)]) == (text, log)
  {
    var pieces := [Keep(text)];
    assert pieces[..|pieces| - 1] == [];
    assert "" + text == text;
  }

  lemma JoinFound(log: Log, category: string, text: string, value: string)
    ensures JoinPieces(log, category, [Keep(text), Hit(value)]).0 == text + TokenFor(log, category, value).0
  {
    var pieces := [Keep(text), Hit(value)];
    assert pieces[..|pieces| - 1] == [Keep(text)];
    JoinKept(log, category, text);
  }

  /** An address inside a longer host name: the second pass takes what the first made of it for a new host name. */
  lemma SecondPassRenames(address: string)
    requires address != Token("ipv4", 1)
    ensures var cfg, key := OneAddress(address), Under("host");
            var once := RedactString(cfg, [], "lab " + address, key).0;
            once == "lab " + Token("ipv4", 1) && RedactString(cfg, [], once, key).0 == Token("hostname", 1)
  {
    hide Token, IsTokenText, JoinPieces, TokenFor, RedactText;
    var cfg, key, text := OneAddress(address), Under("host"), "lab " + address;
    var once := "lab " + Token("ipv4", 1);
    FirstToken("ipv4", address);
    FirstToken("hostname", once);
    JoinFound([], "ipv4", "lab ", address);
    JoinKept([], "ipv4", once);
    OnePattern(cfg.patterns[0], text);
    OnePattern(cfg.patterns[0], once);
    assert once[4..] == Token("ipv4", 1) && text[4..] == address;
    NotAToken(once);
  }

  lemma NotAToken(text: string)
    requires text != "" && text[0] != '<'
    ensures !IsTokenText(text)
  {
    if |text| >= 10 {
      assert text[..10][0] == text[0];
    }
  }

  lemma OnePattern(pattern: Pattern, text: string)
    ensures RedactText([pattern], [], text) == JoinPieces([], pattern.category, pattern.split(text))
  {
    assert [pattern][..0] == [];
  }

  lemma FirstToken(category: string, value: string)
    ensures TokenFor([], category, value).0 == Token(category, 1)
  {
    var log := [Request(category, value)];
    assert log[..0] == [];
    assert FirstSeen(log, category) == [value];
  }
}

// The redactor as it runs: one object that mints tokens while it rebuilds JSON trees.
module Redactor {
  import opened Pseudonyms
  import opened Redaction
  import R = Redaction

  class Redactor {
    const cfg: Config
    var tokens: map<(string, string), string>
    var counts: map<string, nat>
    var occurrences: map<string, nat>
    ghost var log: Log

    /** Tokens, counts and occurrences are what the requests so far say they are. */
    ghost predicate Valid()
      reads this
    {
      && (forall c, v :: (c, v) in tokens <==> Request(c, v) in log)
      && (forall c, v :: (c, v) in tokens ==> v in FirstSeen(log, c) && tokens[(c, v)] == TokenIn(log, c, v))
      && (forall c :: (if c in counts then counts[c] else 0) == |FirstSeen(log, c)|)
      && (forall c :: (if c in occurrences then occurrences[c] else 0) == Pseudonyms.Occurrences(log, c))
    }

    constructor (cfg: Config)
      ensures Valid() && log == [] && this.cfg == cfg
    {
      this.cfg := cfg;
      tokens, counts, occurrences, log := map[], map[], map[], [];
    }

    method TokenFor(category: string, value: string) returns (token: string)
      requires Valid()
      modifies this`tokens, this`counts, this`occurrences, this`log
      ensures Valid()
      ensures (token, log) == R.TokenFor(old(log), category, value)
    {
      hide FirstSeen, TokenIn, Pseudonyms.Occurrences, Token;
      var key := (category, value);
      ghost var request := Request(category, value);
      ghost var before := log;
      CategoryGrows(before, request, category);
      TokenGrows(before, request, category, value);
      if key in tokens {
        token := tokens[key];
      } else {
        counts := counts[category := (if category in counts then counts[category] else 0) + 1];
        token := Token(category, counts[category]);
        tokens := tokens[key := token];
      }
      occurrences := occurrences[category := (if category in occurrences then occurrences[category] else 0) + 1];
      log := log + [request];
      forall c
        ensures (if c in counts then counts[c] else 0) == |FirstSeen(log, c)|
        ensures (if c in occurrences then occurrences[c] else 0) == Pseudonyms.Occurrences(log, c)
      {
        CategoryGrows(before, request, c);
      }
      forall c, v | (c, v) in tokens
        ensures v in FirstSeen(log, c) && tokens[(c, v)] == TokenIn(log, c, v)
      {
        TokenGrows(before, request, c, v);
      }
    }

    /** One pattern's substitution over a text. */
    method Substitute(pattern: Pattern, text: string) returns (result: string)
      requires Valid()
      modifies this`tokens, this`counts, this`occurrences, this`log
      ensures Valid()
      ensures (result, log) == JoinPieces(old(log), pattern.category, pattern.split(text))
    {
      hide R.TokenFor, Redactor.Valid;
      var pieces := pattern.split(text);
      result := "";
      for i := 0 to |pieces|
        invariant Valid()
        invariant (result, log) == JoinPieces(old(log), pattern.category, pieces[..i])
      {
        assert pieces[..i + 1][..i] == pieces[..i];
        match pieces[i]
        case Keep(kept) =>
          result := result + kept;
        case Hit(value) =>
          var token := TokenFor(pattern.category, value);
          result := result + token;
      }
      assert pieces[..|pieces|] == pieces;
    }

    method RedactText(text: string) returns (result: string)
      requires Valid()
      modifies this`tokens, this`counts, this`occurrences, this`log
      ensures Valid()
      ensures (result, log) == R.RedactText(cfg.patterns, old(log), text)
    {
      result := text;
      for i := 0 to |cfg.patterns|
        invariant Valid()
        invariant (result, log) == R.RedactText(cfg.patterns[..i], old(log), text)
      {
        assert cfg.patterns[..i + 1][..i] == cfg.patterns[..i];
        result := Substitute(cfg.patterns[i], result);
      }
      assert cfg.patterns[..|cfg.patterns|] == cfg.patterns;
    }

    method RedactString(text: string, key: Key) returns (result: string)
      requires Valid()
      modifies this`tokens, this`counts, this`occurrences, this`log
      ensures Valid()
      ensures (result, log) == R.RedactString(cfg, old(log), text, key)
    {
      if key.Under? && cfg.lower(key.name) in cfg.exemptKeys {
        return text;
      }
      result := RedactText(text);
      if result != text {
        return;
      }
      if key.Under? && text != "" && !cfg.isToken(text) && cfg.lower(key.name) in cfg.identifyingKeys {
        result := TokenFor(cfg.identifyingKeys[cfg.lower(key.name)], text);
      }
    }

    method RedactValue(value: Json, key: Key) returns (result: Json)
      requires Valid()
      modifies this`tokens, this`counts, this`occurrences, this`log
      ensures Valid()
      ensures (result, log) == R.RedactValue(cfg, old(log), value, key)
      decreases value, 1
    {
      match value
      case Obj(entries) =>
        var redacted := RedactEntries(entries, false);
        result := Obj(redacted);
      case Arr(items) =>
        var redacted: seq<Json> := [];
        for i := 0 to |items|
          invariant Valid()
          invariant (redacted, log) == RedactItems(cfg, old(log), items[..i])
        {
          assert items[..i + 1][..i] == items[..i];
          var item := RedactValue(items[i], NoKey);
          redacted := redacted + [item];
        }
        assert items[..|items|] == items;
        result := Arr(redacted);
      case Str(text) =>
        var redacted := RedactString(text, key);
        result := Str(redacted);
      case Scalar(_) =>
        result := value;
    }

    /** One file's content. */
    method RedactFile(file: File) returns (result: File)
      requires Valid()
      modifies this`tokens, this`counts, this`occurrences, this`log
      ensures Valid()
      ensures (result, log) == R.RedactFile(cfg, old(log), file)
    {
      match file
      case Blank =>
        result := file;
      case Document(tree) =>
        var redacted := RedactValue(tree, NoKey);
        result := Document(redacted);
      case Text(text) =>
        var redacted := RedactText(text);
        result := Text(redacted);
    }

    /** The run over all files, with one set of tokens. */
    method RedactAll(files: seq<File>) returns (result: seq<File>)
      requires Valid()
      modifies this`tokens, this`counts, this`occurrences, this`log
      ensures Valid()
      ensures (result, log) == R.RedactAll(cfg, old(log), files)
    {
      result := [];
      for i := 0 to |files|
        invariant Valid()
        invariant (result, log) == R.RedactAll(cfg, old(log), files[..i])
      {
        assert files[..i + 1][..i] == files[..i];
        var redacted := RedactFile(files[i]);
        result := result + [redacted];
      }
      assert files[..|files|] == files;
    }

    /** The loop over a mapping; `census` is the mapping of property shapes. */
    method RedactEntries(entries: seq<Entry>, census: bool) returns (result: seq<Entry>)
      requires Valid()
      modifies this`tokens, this`counts, this`occurrences, this`log
      ensures Valid()
      ensures (result, log) == R.RedactEntries(cfg, old(log), entries, census)
      decreases entries, 0
    {
      result := [];
      for i := 0 to |entries|
        invariant Valid()
        invariant (result, log) == R.RedactEntries(cfg, old(log), entries[..i], census)
      {
        assert entries[..i + 1][..i] == entries[..i];
        var value := entries[i].value;
        if census && value.Str? && value.text in cfg.shapes {
        } else if !census && entries[i].key == PROPERTY_SHAPES_KEY && value.Obj? {
          var shapes := RedactEntries(value.entries, true);
          value := Obj(shapes);
        } else {
          value := RedactValue(value, Under(entries[i].key));
        }
        result := result + [Entry(entries[i].key, value)];
      }
      assert entries[..|entries|] == entries;
    }
  }

  /** What one more request changes in a category. */
  lemma CategoryGrows(log: Log, request: Request, c: string)
    ensures var later := log + [request];
            && Pseudonyms.Occurrences(later, c) == Pseudonyms.Occurrences(log, c) + (if c == request.category then 1 else 0)
            && |FirstSeen(later, c)| == |FirstSeen(log, c)| + (if c == request.category && request !in log then 1 else 0)
  {
    assert (log + [request])[..|log|] == log;
    FirstSeenIff(log, request.category, request.value);
  }

  /** What it changes for a value. */
  lemma TokenGrows(log: Log, request: Request, c: string, v: string)
    ensures var later := log + [request];
            && (Request(c, v) in log ==> v in FirstSeen(log, c) && v in FirstSeen(later, c) && TokenIn(later, c, v) == TokenIn(log, c, v))
            && (request !in log && request == Request(c, v) ==>
                  v in FirstSeen(later, c) && TokenIn(later, c, v) == Token(c, 1 + |FirstSeen(log, c)|))
  {
    var later := log + [request];
    if Request(c, v) in log {
      Stable(log, [request], c, v);
    } else if request == Request(c, v) {
      assert later[..|log|] == log;
      FirstSeenIff(log, c, v);
      FirstSeenDistinct(later, c);
      IndexOf(FirstSeen(later, c), |FirstSeen(log, c)|);
    }
  }
}

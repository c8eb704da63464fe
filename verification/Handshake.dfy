// The redirection handshake over a byte stream that arrives in arbitrary
// pieces: session start, digest authentication, and what is left for the
// protocol engine.
module Handshake {
  import opened Wrappers
  import opened Bytes

  /** The 32 hexadecimal digits of a digest. */
  type Digest = s: seq<byte> | |s| == 32 witness Zeros(32)

  /** What the caller supplies, with the digest algorithm and UTF-8 validity left open. */
  datatype Config = Config(startFrame: seq<byte>, username: seq<byte>, password: seq<byte>, cnonce: Digest,
                           md5: seq<byte> -> Digest, utf8: seq<byte> -> bool)

  datatype Failure =
    | Starved          // the peer closed, or timed out, before the message was complete
    | UnexpectedReply  // not the message that was due
    | StartRejected
    | NoDigestOffered  // authentication type 4 is not on offer
    | InsecureType     // types 1 and 3 are refused
    | BadChallenge     // a field ends past the challenge, or is not UTF-8
    | TooLong          // a value that one length byte cannot describe
    | AuthRejected

  function Ascii(s: string): (b: seq<byte>)
    ensures |b| == |s|
  {
    seq(|s|, i requires 0 <= i < |s| => (s[i] as int) % 256)
  }

  const AUTH_URI: seq<byte> := Ascii("/RedirectionService")
  const SNC: seq<byte> := Ascii("00000002")
  const AUTH_TYPE_QUERY: seq<byte> := [0x13, 0, 0, 0, 0, 0, 0, 0, 0]

  // --- Length-prefixed fields ---

  function LengthPrefixed(value: seq<byte>): Option<seq<byte>> {
    if |value| > 255 then None else Some([|value|] + value)
  }

  function AllPrefixed(fields: seq<seq<byte>>): Option<seq<byte>> {
    if fields == [] then Some([])
    else
      var first := LengthPrefixed(fields[0]);
      var rest := AllPrefixed(fields[1..]);
      if first.Some? && rest.Some? then Some(first.value + rest.value) else None
  }

  /** Reading `count` fields; a missing length byte is an error, a short last field is clipped. */
  function ParseFields(data: seq<byte>, count: nat): (fields: Option<seq<seq<byte>>>)
    ensures fields.Some? ==> |fields.value| == count
    decreases count
  {
    if count == 0 then Some([])
    else if data == [] then None
    else
      var n := Clip(1 + data[0] as int, |data|);
      var rest := ParseFields(data[n..], count - 1);
      if rest.Some? then Some([data[1..n]] + rest.value) else None
  }

  function Clip(n: nat, limit: nat): nat {
    if n < limit then n else limit
  }

  /** The parser of both sides as it runs: a position that moves over the data. */
  method ReadFields(data: seq<byte>, count: nat) returns (r: Option<seq<seq<byte>>>)
    ensures r == ParseFields(data, count)
  {
    hide ParseFields;
    var fields: seq<seq<byte>> := [];
    var pos: nat := 0;
    ghost var goal := ParseFields(data, count);
    assert data[0..] == data;
    PrependNone([], goal);
    for i := 0 to count
      invariant pos <= |data| && |fields| == i
      invariant goal == Prepend(fields, ParseFields(data[pos..], count - i))
    {
      FieldAt(data, pos, count - i - 1);
      if pos >= |data| {
        return None;
      }
      var length := data[pos];
      pos := pos + 1;
      var end := Clip(pos + length as int, |data|);
      PrependTwice(fields, [data[pos..end]], ParseFields(data[end..], count - i - 1));
      fields := fields + [data[pos..end]];
      pos := end;
    }
    NoFields(data[pos..]);
    assert fields + [] == fields;
    return Some(fields);
  }

  lemma NoFields(data: seq<byte>)
    ensures ParseFields(data, 0) == Some([])
  {
  }

  /** One step of the position. */
  lemma FieldAt(data: seq<byte>, pos: nat, more: nat)
    requires pos <= |data|
    ensures ParseFields(data[pos..], more + 1) ==
              if pos == |data| then None
              else var end := Clip(pos + 1 + data[pos] as int, |data|);
                   Prepend([data[pos + 1..end]], ParseFields(data[end..], more))
  {
    if pos < |data| {
      var tail := data[pos..];
      var n := Clip(1 + tail[0] as int, |tail|);
      assert tail[n..] == data[pos + n..];
      assert tail[1..n] == data[pos + 1..pos + n];
    }
  }

  /** Whatever follows them, prefixed fields are read back as they were written. */
  lemma {:induction false} FieldsRoundTrip(fields: seq<seq<byte>>, more: seq<byte>)
    requires AllPrefixed(fields).Some?
    ensures ParseFields(AllPrefixed(fields).value + more, |fields|) == Some(fields)
    decreases |fields|
  {
    if fields != [] {
      var rest := AllPrefixed(fields[1..]).value;
      var data := AllPrefixed(fields).value + more;
      assert data == [|fields[0]|] + fields[0] + (rest + more);
      assert data[1 + |fields[0]|..] == rest + more;
      assert data[0] == |fields[0]| && data[1..1 + |fields[0]|] == fields[0];
      assert fields == [fields[0]] + fields[1..];
      FieldsRoundTrip(fields[1..], more);
    }
  }

  lemma {:induction false} PrefixedIff(fields: seq<seq<byte>>)
    ensures AllPrefixed(fields).Some? <==> forall i :: 0 <= i < |fields| ==> |fields[i]| <= 255
    decreases |fields|
  {
    if fields != [] {
      PrefixedIff(fields[1..]);
      assert fields == [fields[0]] + fields[1..];
    }
  }

  // --- Messages ---

  /** What one message of the stream turns out to be. */
  datatype Parse = Bad(failure: Failure) | Got(status: byte, kind: byte, data: seq<byte>, rest: seq<byte>)

  function StartReply(s: seq<byte>): (p: Parse)
    ensures p.Got? ==> |p.rest| <= |s| && p.rest == s[|s| - |p.rest|..]
  {
    if |s| < 13 then Bad(Starved)
    else if s[0] != 0x11 then Bad(UnexpectedReply)
    else if s[1] != 0 then Bad(StartRejected)
    else
      var total := 13 + s[12] as int;
      if |s| < total then Bad(Starved) else Got(0, 0, s[13..total], s[total..])
  }

  function AuthReply(s: seq<byte>): (p: Parse)
    ensures p.Got? ==> |p.rest| <= |s| && p.rest == s[|s| - |p.rest|..]
  {
    if |s| < 9 then Bad(Starved)
    else if s[0] != 0x14 then Bad(UnexpectedReply)
    else
      var total := 9 + FromLE(s[5..9]);
      if |s| < total then Bad(Starved) else Got(s[1], s[4], s[9..total], s[total..])
  }

  function AuthRequest(payload: seq<byte>, declared: nat): seq<byte> {
    [0x13, 0, 0, 0, 4] + LE(declared, 4) + payload
  }

  /** Asking for the digest challenge. */
  function DigestTypeQuery(cfg: Config): Option<seq<byte>> {
    var user, uri := LengthPrefixed(cfg.username), LengthPrefixed(AUTH_URI);
    if user.None? || uri.None? then None
    else Some(AuthRequest(user.value + [0, 0] + uri.value + [0, 0, 0, 0], |cfg.username| + |AUTH_URI| + 8))
  }

  function Joined(parts: seq<seq<byte>>): seq<byte> {
    if parts == [] then [] else if |parts| == 1 then parts[0] else parts[0] + [0x3A] + Joined(parts[1..])
  }

  function DigestOf(md5: seq<byte> -> Digest, user: seq<byte>, realm: seq<byte>, password: seq<byte>,
                    nonce: seq<byte>, snc: seq<byte>, cnonce: seq<byte>, qop: seq<byte>): Digest {
    md5(Joined([md5(Joined([user, realm, password])), nonce, snc, cnonce, qop, md5(Joined([Ascii("POST"), AUTH_URI]))]))
  }

  function ResponseFields(cfg: Config, realm: seq<byte>, nonce: seq<byte>, qop: seq<byte>): seq<seq<byte>> {
    var digest := DigestOf(cfg.md5, cfg.username, realm, cfg.password, nonce, SNC, cfg.cnonce, qop);
    [cfg.username, realm, nonce, AUTH_URI, cfg.cnonce, SNC, digest, qop]
  }

  function DigestResponse(cfg: Config, realm: seq<byte>, nonce: seq<byte>, qop: seq<byte>): Option<seq<byte>> {
    var declared := |cfg.username| + |realm| + |nonce| + |AUTH_URI| + |cfg.cnonce| + |SNC| + 32 + 7 + (|qop| + 1);
    var payload := AllPrefixed(ResponseFields(cfg, realm, nonce, qop));
    if payload.Some? then Some(AuthRequest(payload.value, declared)) else None
  }

  // --- The handshake as a function of the whole stream ---

  datatype Result = Failed(failure: Failure) | Live(rest: seq<byte>)

  /** What the client sent, and how it ended. */
  datatype Conn = Conn(sent: seq<seq<byte>>, result: Result)

  function After(sent: seq<seq<byte>>, c: Conn): Conn {
    c.(sent := sent + c.sent)
  }

  function Connect(cfg: Config, s: seq<byte>): Conn {
    match StartReply(s)
    case Bad(f) => Conn([cfg.startFrame], Failed(f))
    case Got(_, _, _, rest) => After([cfg.startFrame, AUTH_TYPE_QUERY], Authenticate(cfg, rest))
  }

  /** Once the query for the supported types is sent. */
  function Authenticate(cfg: Config, s: seq<byte>): Conn {
    var p := AuthReply(s);
    if p.Bad? then Conn([], Failed(p.failure))
    else if p.kind == 0 then
      if 4 !in p.data then Conn([], Failed(NoDigestOffered))
      else
        var query := DigestTypeQuery(cfg);
        if query.None? then Conn([], Failed(TooLong))
        else After([query.value], if AuthReply(p.rest).Bad? then Conn([], Failed(AuthReply(p.rest).failure)) else Answer(cfg, AuthReply(p.rest)))
    else Answer(cfg, p)
  }

  /** The reply that carries a challenge, or already a verdict. */
  function Answer(cfg: Config, p: Parse): Conn
    requires p.Got?
  {
    if p.kind == 1 || p.kind == 3 then Conn([], Failed(InsecureType))
    else if p.status == 1 && p.kind == 4 then
      var fields := ParseFields(p.data, 3);
      if fields.None? || !AllUtf8(cfg, fields.value) then Conn([], Failed(BadChallenge))
      else
        var response := DigestResponse(cfg, fields.value[0], fields.value[1], fields.value[2]);
        if response.None? then Conn([], Failed(TooLong))
        else
          var v := AuthReply(p.rest);
          Conn([response.value], if v.Bad? then Failed(v.failure) else if v.status != 0 then Failed(AuthRejected) else Live(v.rest))
    else if p.status != 0 then Conn([], Failed(AuthRejected))
    else Conn([], Live(p.rest))
  }

  predicate AllUtf8(cfg: Config, fields: seq<seq<byte>>) {
    forall i :: 0 <= i < |fields| ==> cfg.utf8(fields[i])
  }

  // --- What the handshake depends on ---

  /** A result that later bytes cannot change, or one that waits for them. */
  ghost predicate Extends(short: Conn, long: Conn, more: seq<byte>) {
    match short.result
    case Live(rest) => long == short.(result := Live(rest + more))
    case Failed(f) => f != Starved ==> long == short
  }

  lemma StartReplyStable(s: seq<byte>, more: seq<byte>)
    ensures StartReply(s).Got? ==> StartReply(s + more) == StartReply(s).(rest := StartReply(s).rest + more)
    ensures StartReply(s).Bad? && StartReply(s).failure != Starved ==> StartReply(s + more) == StartReply(s)
  {
    var t := s + more;
    if |s| >= 13 {
      assert forall i :: 0 <= i < 13 ==> t[i] == s[i];
      var total := 13 + s[12] as int;
      if |s| >= total {
        assert t[13..total] == s[13..total] && t[total..] == s[total..] + more;
      }
    }
  }

  lemma AuthReplyStable(s: seq<byte>, more: seq<byte>)
    ensures AuthReply(s).Got? ==> AuthReply(s + more) == AuthReply(s).(rest := AuthReply(s).rest + more)
    ensures AuthReply(s).Bad? && AuthReply(s).failure != Starved ==> AuthReply(s + more) == AuthReply(s)
  {
    var t := s + more;
    if |s| >= 9 {
      assert forall i :: 0 <= i < 9 ==> t[i] == s[i];
      assert t[5..9] == s[5..9];
      var total := 9 + FromLE(s[5..9]);
      if |s| >= total {
        assert t[9..total] == s[9..total] && t[total..] == s[total..] + more;
      }
    }
  }

  lemma AnswerStable(cfg: Config, p: Parse, more: seq<byte>)
    requires p.Got?
    ensures Extends(Answer(cfg, p), Answer(cfg, p.(rest := p.rest + more)), more)
  {
    hide AuthReply, ParseFields, DigestResponse, AllUtf8;
    AuthReplyStable(p.rest, more);
  }

  /** The handshake looks at no byte behind its last message, and a refusal is final. */
  lemma ConnectStable(cfg: Config, s: seq<byte>, more: seq<byte>)
    ensures Extends(Connect(cfg, s), Connect(cfg, s + more), more)
  {
    hide StartReply, AuthReply, Answer, DigestTypeQuery;
    StartReplyStable(s, more);
    if StartReply(s).Got? {
      var a := StartReply(s).rest;
      AuthReplyStable(a, more);
      if AuthReply(a).Got? {
        var p := AuthReply(a);
        if p.kind == 0 {
          AuthReplyStable(p.rest, more);
          if AuthReply(p.rest).Got? {
            AnswerStable(cfg, AuthReply(p.rest), more);
          }
        } else {
          AnswerStable(cfg, p, more);
        }
      }
    }
  }

  // --- Against the mock firmware ---

  function EncodeStartReply(status: byte, reserved: seq<byte>, oem: seq<byte>): seq<byte>
    requires |reserved| == 10 && |oem| <= 255
  {
    [0x11, status] + reserved + [|oem|] + oem
  }

  function EncodeAuthReply(status: byte, kind: byte, data: seq<byte>): seq<byte> {
    [0x14, status, 0, 0, kind] + LE(|data|, 4) + data
  }

  datatype Mock = Mock(username: seq<byte>, password: seq<byte>, realm: seq<byte>, nonce: seq<byte>, types: seq<byte>)

  const QOP: seq<byte> := Ascii("auth")

  /** Every string the mock puts on the wire fits its one length byte and is UTF-8. */
  ghost predicate Encodable(cfg: Config, mock: Mock) {
    && |mock.realm| <= 255 && |mock.nonce| <= 255 && |mock.types| < TWO32
    && cfg.utf8(mock.realm) && cfg.utf8(mock.nonce) && cfg.utf8(QOP)
  }

  function Challenge(mock: Mock): seq<byte>
    requires |mock.realm| <= 255 && |mock.nonce| <= 255
  {
    [|mock.realm|] + mock.realm + ([|mock.nonce|] + mock.nonce + ([|QOP|] + QOP))
  }

  /** The mock's check of a digest response: same user, and the digest it computes itself from the echoed fields. */
  predicate Accepts(md5: seq<byte> -> Digest, mock: Mock, message: seq<byte>) {
    |message| >= 9 &&
    var fields := ParseFields(message[9..], 8);
    && fields.Some? && fields.value[0] == mock.username
    && fields.value[6] == DigestOf(md5, mock.username, mock.realm, mock.password, mock.nonce,
                                   fields.value[5], fields.value[4], fields.value[7])
  }

  /** Everything the mock sends to a client that answers with `response`; `later` is what follows the verdict. */
  function MockStream(cfg: Config, mock: Mock, oem: seq<byte>, response: seq<byte>, later: seq<byte>): seq<byte>
    requires |oem| <= 255 && |mock.realm| <= 255 && |mock.nonce| <= 255
  {
    EncodeStartReply(0, Zeros(10), oem)
    + (EncodeAuthReply(0, 0, mock.types)
       + (EncodeAuthReply(1, 4, Challenge(mock))
          + (EncodeAuthReply(if Accepts(cfg.md5, mock, response) then 0 else 1, 4, []) + later)))
  }

  lemma StartReplyRoundTrip(reserved: seq<byte>, oem: seq<byte>, rest: seq<byte>)
    requires |reserved| == 10 && |oem| <= 255
    ensures StartReply(EncodeStartReply(0, reserved, oem) + rest) == Got(0, 0, oem, rest)
  {
    var s := EncodeStartReply(0, reserved, oem) + rest;
    assert s[12] == |oem| && s[13..13 + |oem|] == oem && s[13 + |oem|..] == rest;
  }

  lemma AuthReplyRoundTrip(status: byte, kind: byte, data: seq<byte>, rest: seq<byte>)
    requires |data| < TWO32
    ensures AuthReply(EncodeAuthReply(status, kind, data) + rest) == Got(status, kind, data, rest)
  {
    hide LE, FromLE;
    var s := EncodeAuthReply(status, kind, data) + rest;
    LE32(|data|);
    assert s[5..9] == LE(|data|, 4);
    assert s[9..9 + |data|] == data && s[9 + |data|..] == rest;
  }

  /** Both requests declare exactly the length of the payload that follows. */
  lemma DeclaredLengths(cfg: Config, realm: seq<byte>, nonce: seq<byte>, qop: seq<byte>)
    ensures var q := DigestTypeQuery(cfg); q.Some? ==> FromLE(q.value[5..9]) == |q.value| - 9
    ensures var r := DigestResponse(cfg, realm, nonce, qop); r.Some? ==> FromLE(r.value[5..9]) == |r.value| - 9
  {
    hide LE, FromLE;
    var q := DigestTypeQuery(cfg);
    if q.Some? {
      var n := |cfg.username| + |AUTH_URI| + 8;
      LE32(n);
      assert q.value[5..9] == LE(n, 4);
    }
    var fields := ResponseFields(cfg, realm, nonce, qop);
    var r := DigestResponse(cfg, realm, nonce, qop);
    if r.Some? {
      PrefixedLength(fields);
      PrefixedIff(fields);
      TotalOfEight(fields);
      assert |fields[0]| <= 255 && |fields[1]| <= 255 && |fields[2]| <= 255 && |fields[7]| <= 255;
      var n := |r.value| - 9;
      LE32(n);
      assert r.value[5..9] == LE(n, 4);
    }
  }

  function Total(fields: seq<seq<byte>>): nat {
    if fields == [] then 0 else 1 + |fields[0]| + Total(fields[1..])
  }

  lemma {:induction false} PrefixedLength(fields: seq<seq<byte>>)
    requires AllPrefixed(fields).Some?
    ensures |AllPrefixed(fields).value| == Total(fields)
    decreases |fields|
  {
    if fields != [] {
      PrefixedLength(fields[1..]);
    }
  }

  lemma TotalOfEight(f: seq<seq<byte>>)
    requires |f| == 8
    ensures Total(f) == 8 + |f[0]| + |f[1]| + |f[2]| + |f[3]| + |f[4]| + |f[5]| + |f[6]| + |f[7]|
  {
    assert Total(f[8..]) == 0;
    assert f[7..][1..] == f[8..];
    assert f[6..][1..] == f[7..];
    assert f[5..][1..] == f[6..];
    assert f[4..][1..] == f[5..];
    assert f[3..][1..] == f[4..];
    assert f[2..][1..] == f[3..];
    assert f[1..][1..] == f[2..];
    assert Total(f[6..]) == 1 + |f[6]| + Total(f[7..]);
    assert Total(f[4..]) == 1 + |f[4]| + Total(f[5..]);
    assert Total(f[2..]) == 1 + |f[2]| + Total(f[3..]);
  }

  lemma ChallengeParses(mock: Mock)
    requires |mock.realm| <= 255 && |mock.nonce| <= 255
    ensures ParseFields(Challenge(mock), 3) == Some([mock.realm, mock.nonce, QOP])
  {
    var fields := [mock.realm, mock.nonce, QOP];
    assert fields[1..] == [mock.nonce, QOP];
    assert [mock.nonce, QOP][1..] == [QOP];
    assert |[QOP][1..]| == 0;
    assert [|QOP|] + QOP + [] == [|QOP|] + QOP;
    assert AllPrefixed([QOP][1..]) == Some([]);
    assert AllPrefixed([QOP]) == Some([|QOP|] + QOP);
    assert AllPrefixed([mock.nonce, QOP]) == Some([|mock.nonce|] + mock.nonce + ([|QOP|] + QOP));
    assert AllPrefixed(fields) == Some(Challenge(mock));
    assert Challenge(mock) + [] == Challenge(mock);
    FieldsRoundTrip(fields, []);
  }

  /** The mock accepts exactly the right user with a matching digest. */
  lemma AcceptsIff(cfg: Config, mock: Mock, realm: seq<byte>, nonce: seq<byte>, qop: seq<byte>)
    requires DigestResponse(cfg, realm, nonce, qop).Some?
    ensures Accepts(cfg.md5, mock, DigestResponse(cfg, realm, nonce, qop).value) <==>
            && cfg.username == mock.username
            && DigestOf(cfg.md5, cfg.username, realm, cfg.password, nonce, SNC, cfg.cnonce, qop)
            == DigestOf(cfg.md5, mock.username, mock.realm, mock.password, mock.nonce, SNC, cfg.cnonce, qop)
  {
    hide DigestOf, AllPrefixed, ParseFields, LE;
    var fields := ResponseFields(cfg, realm, nonce, qop);
    var payload := AllPrefixed(fields).value;
    var message := DigestResponse(cfg, realm, nonce, qop).value;
    assert message[9..] == payload + [];
    FieldsRoundTrip(fields, []);
  }

  /**
    The whole conversation: against the mock the handshake succeeds exactly
    when digest authentication is on offer, the user name fits its length
    byte, and the mock accepts; what follows the verdict is left untouched.
    */
  lemma Conversation(cfg: Config, mock: Mock, oem: seq<byte>, response: seq<byte>, later: seq<byte>)
    requires |oem| <= 255 && Encodable(cfg, mock)
    requires |cfg.username| <= 255 ==> DigestResponse(cfg, mock.realm, mock.nonce, QOP) == Some(response)
    ensures var c := Connect(cfg, MockStream(cfg, mock, oem, response, later));
            c.result == if 4 !in mock.types then Failed(NoDigestOffered)
                        else if |cfg.username| > 255 then Failed(TooLong)
                        else if Accepts(cfg.md5, mock, response) then Live(later)
                        else Failed(AuthRejected)
  {
    hide StartReply, AuthReply, EncodeStartReply, EncodeAuthReply, Accepts, DigestResponse, ParseFields, Challenge;
    var verdict: byte := if Accepts(cfg.md5, mock, response) then 0 else 1;
    var s3 := EncodeAuthReply(verdict, 4, []) + later;
    var s2 := EncodeAuthReply(1, 4, Challenge(mock)) + s3;
    var s1 := EncodeAuthReply(0, 0, mock.types) + s2;
    StartReplyRoundTrip(Zeros(10), oem, s1);
    AuthReplyRoundTrip(0, 0, mock.types, s2);
    ChallengeLength(mock);
    AuthReplyRoundTrip(1, 4, Challenge(mock), s3);
    AuthReplyRoundTrip(verdict, 4, [], later);
    ChallengeParses(mock);
  }

  lemma ChallengeLength(mock: Mock)
    requires |mock.realm| <= 255 && |mock.nonce| <= 255
    ensures |Challenge(mock)| < TWO32
  {
  }

  /** The configured credentials always get in. */
  lemma SameCredentials(cfg: Config, mock: Mock, oem: seq<byte>, later: seq<byte>)
    requires |oem| <= 255 && Encodable(cfg, mock)
    requires cfg.username == mock.username && cfg.password == mock.password
    requires |cfg.username| <= 255 && 4 in mock.types
    ensures var response := DigestResponse(cfg, mock.realm, mock.nonce, QOP);
            response.Some? && Connect(cfg, MockStream(cfg, mock, oem, response.value, later)).result == Live(later)
  {
    hide Connect, MockStream, Accepts, DigestOf;
    PrefixedIff(ResponseFields(cfg, mock.realm, mock.nonce, QOP));
    var response := DigestResponse(cfg, mock.realm, mock.nonce, QOP);
    AcceptsIff(cfg, mock, mock.realm, mock.nonce, QOP);
    Conversation(cfg, mock, oem, response.value, later);
  }
}

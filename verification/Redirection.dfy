// The redirection session as it runs: a socket that delivers segments, and a
// session object whose buffer every reader trims.
module Redirection {
  import opened Wrappers
  import opened Bytes
  import opened Handshake
  import H = Handshake

  const RECV_CHUNK := 4096

  /** A connected socket: the segments still to arrive, and everything sent. An empty segment is the peer closing. */
  class Socket {
    var unread: seq<seq<byte>>
    var sent: seq<seq<byte>>

    constructor (segments: seq<seq<byte>>)
      ensures unread == segments && sent == []
    {
      unread, sent := segments, [];
    }

    /** The bytes that will be received before the peer closes. */
    ghost function Pending(): seq<byte>
      reads this
    {
      UpToClose(unread)
    }

    method Recv(size: nat) returns (chunk: seq<byte>)
      requires size > 0
      modifies this`unread
      ensures old(Pending()) == chunk + Pending()
      ensures chunk == [] <==> old(Pending()) == []
      ensures |chunk| <= size
    {
      if unread == [] || unread[0] == [] {
        return [];
      }
      if |unread[0]| <= size {
        chunk := unread[0];
        unread := unread[1..];
      } else {
        chunk := unread[0][..size];
        ghost var rest := unread[0][size..];
        assert unread[0] == chunk + rest;
        assert rest + UpToClose(unread[1..]) == UpToClose([rest] + unread[1..]);
        assert (chunk + rest) + UpToClose(unread[1..]) == chunk + (rest + UpToClose(unread[1..]));
        unread := [unread[0][size..]] + unread[1..];
      }
    }

    method SendAll(data: seq<byte>)
      modifies this`sent
      ensures sent == old(sent) + [data]
    {
      sent := sent + [data];
    }
  }

  function UpToClose(segments: seq<seq<byte>>): seq<byte> {
    if segments == [] || segments[0] == [] then [] else segments[0] + UpToClose(segments[1..])
  }

  class RedirectionSession {
    const cfg: Config
    const sock: Socket
    var buf: seq<byte>

    constructor (cfg: Config, sock: Socket)
      ensures this.cfg == cfg && this.sock == sock && buf == []
    {
      this.cfg, this.sock, buf := cfg, sock, [];
    }

    /** Everything received and not consumed yet, then everything still to be received. */
    ghost function Stream(): seq<byte>
      reads this, sock
    {
      buf + sock.Pending()
    }

    method Fill(minBytes: nat) returns (ok: bool)
      modifies this`buf, sock`unread
      ensures Stream() == old(Stream())
      ensures ok <==> |old(Stream())| >= minBytes
      ensures ok ==> |buf| >= minBytes
    {
      while |buf| < minBytes
        invariant Stream() == old(Stream())
        decreases |sock.Pending()|
      {
        label Before:
        var chunk := sock.Recv(RECV_CHUNK);
        if chunk == [] {
          return false;
        }
        assert old@Before(buf) + (chunk + sock.Pending()) == (old@Before(buf) + chunk) + sock.Pending();
        buf := buf + chunk;
      }
      return true;
    }

    /** Drop the message at the front of the buffer. */
    method Consume(total: nat)
      requires total <= |buf|
      modifies this`buf
      ensures Stream() == old(Stream())[total..]
      ensures buf == old(buf)[total..]
    {
      buf := buf[total..];
    }

    method ReadStartSessionReply() returns (r: Option<Failure>)
      modifies this`buf, sock`unread
      ensures var p := StartReply(old(Stream()));
              if p.Bad? then r == Some(p.failure) else r == None && Stream() == p.rest
    {
      ghost var s := Stream();
      var ok := Fill(13);
      if !ok {
        return Some(Starved);
      }
      assert forall i :: 0 <= i < 13 ==> buf[i] == s[i];
      if buf[0] != 0x11 {
        return Some(UnexpectedReply);
      }
      if buf[1] != 0 {
        return Some(StartRejected);
      }
      var oemlen := buf[12] as int;
      ok := Fill(13 + oemlen);
      if !ok {
        return Some(Starved);
      }
      Consume(13 + oemlen);
      return None;
    }

    method ReadAuthReply() returns (failure: Option<Failure>, status: byte, kind: byte, data: seq<byte>)
      modifies this`buf, sock`unread
      ensures var p := AuthReply(old(Stream()));
              if p.Bad? then failure == Some(p.failure) else failure == None && p == Got(status, kind, data, Stream())
    {
      ghost var s := Stream();
      status, kind, data := 0, 0, [];
      var ok := Fill(9);
      if !ok {
        return Some(Starved), status, kind, data;
      }
      assert forall i :: 0 <= i < 9 ==> buf[i] == s[i];
      if buf[0] != 0x14 {
        return Some(UnexpectedReply), status, kind, data;
      }
      status, kind := buf[1], buf[4];
      assert buf[5..9] == s[5..9];
      var total := 9 + FromLE(buf[5..9]);
      ok := Fill(total);
      if !ok {
        return Some(Starved), status, kind, data;
      }
      data := buf[9..total];
      assert data == s[9..total];
      Consume(total);
      failure := None;
    }

    /** Authenticate the session; None is success. */
    method Authenticate() returns (failure: Option<Failure>)
      modifies this`buf, sock
      ensures var c := H.Authenticate(cfg, old(Stream()));
              && sock.sent == old(sock.sent) + [AUTH_TYPE_QUERY] + c.sent
              && (c.result.Failed? ==> failure == Some(c.result.failure))
              && (c.result.Live? ==> failure == None && Stream() == c.result.rest)
    {
      hide StartReply, AuthReply, DigestTypeQuery, DigestResponse, ParseFields, AllUtf8;
      sock.SendAll(AUTH_TYPE_QUERY);
      var status, kind, data;
      failure, status, kind, data := ReadAuthReply();
      if failure.Some? {
        return;
      }
      if kind == 0 {
        if 4 !in data {
          return Some(NoDigestOffered);
        }
        var query := DigestTypeQuery(cfg);
        if query.None? {
          return Some(TooLong);
        }
        sock.SendAll(query.value);
        failure, status, kind, data := ReadAuthReply();
        if failure.Some? {
          return;
        }
      }
      if kind == 1 || kind == 3 {
        return Some(InsecureType);
      }
      if status == 1 && kind == 4 {
        var fields := ReadFields(data, 3);
        if fields.None? || !AllUtf8(cfg, fields.value) {
          return Some(BadChallenge);
        }
        var response := DigestResponse(cfg, fields.value[0], fields.value[1], fields.value[2]);
        if response.None? {
          return Some(TooLong);
        }
        sock.SendAll(response.value);
        failure, status, kind, data := ReadAuthReply();
        if failure.Some? {
          return;
        }
      }
      if status != 0 {
        return Some(AuthRejected);
      }
    }

    /**
      The handshake. What it sends, whether and how it fails, and on success
      the leftover together with what is still unread depend on the bytes of
      the stream only, not on how they were cut into segments.
      */
    method Connect() returns (failure: Option<Failure>, leftover: seq<byte>)
      requires buf == []
      modifies this`buf, sock
      ensures var c := H.Connect(cfg, old(sock.Pending()));
              && sock.sent == old(sock.sent) + c.sent
              && (c.result.Failed? ==> failure == Some(c.result.failure))
              && (c.result.Live? ==> failure == None && leftover + sock.Pending() == c.result.rest && buf == [])
    {
      hide StartReply, H.Authenticate;
      assert Stream() == sock.Pending();
      leftover := [];
      sock.SendAll(cfg.startFrame);
      failure := ReadStartSessionReply();
      if failure.Some? {
        return;
      }
      failure := Authenticate();
      if failure.Some? {
        return;
      }
      leftover := buf;
      buf := [];
    }
  }
}

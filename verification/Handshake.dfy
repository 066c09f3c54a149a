/** The opening handshake (RFC 6455 sections 4.1 and 4.2.2): both generators and both parsers. */
module Handshake {
  import opened Bytes
  import opened Http
  import Base64

  const GUID: string := "258EAFA5-E914-47DA-95CA-C5AB0DC85B11"

  /** SHA-1 is not modelled: any function from text to bytes. */
  type Digest = string -> seq<byte>

  function AcceptKey(sha1: Digest, key: string): string {
    Base64.Encode(sha1(key + GUID))
  }

  /** What a handshake object remembers. */
  datatype Fields = Fields(host: string, path: string, protocols: seq<string>, key: string)

  // --------------------------------------------------------------- requests

  function ProtocolLine(protocols: seq<string>): seq<string> {
    if protocols == [] then [] else ["Sec-WebSocket-Protocol" + ": " + Implode(protocols, ',')]
  }

  function ProtocolText(protocols: seq<string>): string {
    if protocols == [] then "" else "Sec-WebSocket-Protocol" + ": " + Implode(protocols, ',') + CRLF
  }

  /** The text of a request, put together as the source does. */
  function RequestText(f: Fields): string {
    ("GET" + (" " + (f.path + " HTTP/1.1")) + CRLF)
    + ("Host" + ": " + f.host + CRLF)
    + ("Connection" + ": " + "Upgrade" + CRLF)
    + ("Upgrade" + ": " + "websocket" + CRLF)
    + ("Sec-WebSocket-Version" + ": " + "13" + CRLF)
    + ("Sec-WebSocket-Key" + ": " + f.key + CRLF)
    + ProtocolText(f.protocols)
    + CRLF
  }

  /** The lines it is meant to consist of. */
  function RequestLines(f: Fields): seq<string> {
    ["GET" + (" " + (f.path + " HTTP/1.1")),
     "Host" + ": " + f.host,
     "Connection" + ": " + "Upgrade",
     "Upgrade" + ": " + "websocket",
     "Sec-WebSocket-Version" + ": " + "13",
     "Sec-WebSocket-Key" + ": " + f.key]
    + ProtocolLine(f.protocols)
  }

  /** Wait: the header block is not complete. A refusal may already have changed some fields. */
  datatype RequestResult =
    | Wait
    | Refused(code: nat, fields: Fields)
    | Accepted(length: nat, fields: Fields)

  function ParseRequest(f: Fields, s: string): (r: RequestResult)
    ensures r.Accepted? ==> 0 < r.length <= |s|
  {
    if !LooksLikeRequest(s) then Refused(400, f)
    else
      match Lines(s, 0)
      case Unfinished => Wait
      case Block(lines, n) => if lines == [] then Refused(400, f) else ReadRequest(f, lines, n)
  }

  function ReadRequest(f: Fields, lines: seq<string>, n: nat): (r: RequestResult)
    requires lines != []
    ensures !r.Wait? && (r.Accepted? ==> r.length == n)
  {
    var (verb, rest) := Word(lines[0]);
    if verb != "GET" then Refused(405, f)
    else
      var f1 := f.(path := Word(rest).0);
      var h := HeadersOf(lines[1..]);
      match Lookup(h, "host")
      case None => Refused(400, f1)
      case Some(host) =>
        var f2 := f1.(host := host);
        match Lookup(h, "upgrade")
        case None => Refused(426, f2)
        case Some(upgrade) =>
          if Lower(upgrade) != "websocket" then Refused(426, f2)
          else
            match Lookup(h, "sec-websocket-key")
            case None => Refused(400, f2)
            case Some(key) =>
              var f3 := f2.(key := key);
              match Lookup(h, "sec-websocket-protocol")
              case None => Accepted(n, f3)
              case Some(list) => Accepted(n, f3.(protocols := Explode(list, ',')))
  }

  // -------------------------------------------------------------- responses

  function ResponseText(accept: string, protocols: seq<string>): string {
    ("HTTP/1.1" + (" " + ("101" + " Switching Protocols")) + CRLF)
    + ("Server" + ": " + "libdatachannel" + CRLF)
    + ("Connection" + ": " + "Upgrade" + CRLF)
    + ("Upgrade" + ": " + "websocket" + CRLF)
    + ("Sec-WebSocket-Accept" + ": " + accept + CRLF)
    + ProtocolText(protocols)
    + CRLF
  }

  function ResponseLines(accept: string, protocols: seq<string>): seq<string> {
    ["HTTP/1.1" + (" " + ("101" + " Switching Protocols")),
     "Server" + ": " + "libdatachannel",
     "Connection" + ": " + "Upgrade",
     "Upgrade" + ": " + "websocket",
     "Sec-WebSocket-Accept" + ": " + accept]
    + ProtocolLine(protocols)
  }

  function ErrorName(code: nat): string {
    match code
    case 400 => "Bad Request"
    case 404 => "Not Found"
    case 405 => "Method Not Allowed"
    case 426 => "Upgrade Required"
    case 500 => "Internal Server Error"
    case _ => "Error"
  }

  function Decimal(n: nat): (s: string)
    ensures s != "" && forall i :: 0 <= i < |s| ==> IsDigit(s[i])
  {
    if n < 10 then ['0' + n as char] else Decimal(n / 10) + ['0' + (n % 10) as char]
  }

  function ErrorBody(code: nat): string {
    Decimal(code) + (" " + ErrorName(code))
  }

  /** The text of an error reply, put together as the source does: a header, and the error once more. */
  function ErrorText(code: nat): string {
    ("HTTP/1.1" + (" " + ErrorBody(code)) + CRLF)
    + ("Server" + ": " + "libdatachannel" + CRLF)
    + ("Content-Type" + ": " + "text/plain" + CRLF)
    + ("Content-Length" + ": " + Decimal(|ErrorBody(code)|) + CRLF)
    + ("Access-Control-Allow-Origin" + ": " + "*" + CRLF)
    + CRLF
    + ErrorBody(code)
  }

  function ErrorLines(code: nat): seq<string> {
    ["HTTP/1.1" + (" " + ErrorBody(code)),
     "Server" + ": " + "libdatachannel",
     "Content-Type" + ": " + "text/plain",
     "Content-Length" + ": " + Decimal(|ErrorBody(code)|),
     "Access-Control-Allow-Origin" + ": " + "*"]
  }

  predicate IsDigit(c: char) {
    '0' <= c <= '9'
  }

  function Number(s: string, acc: nat): nat {
    if s == "" || !IsDigit(s[0]) then acc else Number(s[1..], 10 * acc + (s[0] - '0') as nat)
  }

  /** Reading an unsigned decimal number off a stream; zero when there is none. */
  function ReadNumber(s: string): nat {
    var t := SkipSpace(s);
    Number(if t != "" && t[0] == '+' then t[1..] else t, 0)
  }

  /** A number is read back as it was written, whatever follows it but a digit. */
  lemma {:induction false} DecimalIsRead(n: nat, rest: string)
    requires rest == "" || !IsDigit(rest[0])
    ensures ReadNumber(Decimal(n) + rest) == n
  {
    var s := Decimal(n) + rest;
    assert s[0] == Decimal(n)[0];
    NumberInTwo(Decimal(n), rest, 0);
    NumberOfDecimal(n);
  }

  lemma {:induction false} NumberOfDecimal(n: nat)
    ensures Number(Decimal(n), 0) == n
  {
    var last := ['0' + (n % 10) as char];
    assert last[1..] == "" && Number(last, n / 10) == Number("", 10 * (n / 10) + n % 10);
    if n >= 10 {
      NumberInTwo(Decimal(n / 10), last, 0);
      NumberOfDecimal(n / 10);
    }
  }

  lemma {:induction false} NumberInTwo(a: string, b: string, acc: nat)
    requires forall i :: 0 <= i < |a| ==> IsDigit(a[i])
    ensures Number(a + b, acc) == Number(b, Number(a, acc))
  {
    if a == "" {
      assert a + b == b;
    } else {
      assert (a + b)[1..] == a[1..] + b;
      NumberInTwo(a[1..], b, 10 * acc + (a[0] - '0') as nat);
    }
  }

  datatype ResponseResult = Pending | Rejected | Opened(length: nat)

  function ParseResponse(accept: string, s: string): (r: ResponseResult)
    ensures r.Opened? ==> 0 < r.length <= |s|
  {
    match Lines(s, 0)
    case Unfinished => Pending
    case Block(lines, n) => if lines == [] then Rejected else ReadResponse(accept, lines, n)
  }

  function ReadResponse(accept: string, lines: seq<string>, n: nat): (r: ResponseResult)
    requires lines != []
    ensures !r.Pending? && (r.Opened? ==> r.length == n)
  {
    if ReadNumber(Word(lines[0]).1) != 101 then Rejected
    else
      var h := HeadersOf(lines[1..]);
      match Lookup(h, "upgrade")
      case None => Rejected
      case Some(upgrade) =>
        if Lower(upgrade) != "websocket" then Rejected
        else if Lookup(h, "sec-websocket-accept") == Some(accept) then Opened(n)
        else Rejected
  }

  // ------------------------------------------------------------- the object

  class WsHandshake {
    var mHost: string
    var mPath: string
    var mProtocols: seq<string>
    var mKey: string
    const sha1: Digest

    ghost function Contents(): Fields
      reads this
    {
      Fields(mHost, mPath, mProtocols, mKey)
    }

    /** The client's object; an empty host or path is refused. */
    static method Make(host: string, path: string, protocols: seq<string>, sha1: Digest) returns (h: WsHandshake?)
      ensures h == null <==> host == "" || path == ""
      ensures h != null ==> fresh(h) && h.Contents() == Fields(host, path, protocols, "") && h.sha1 == sha1
    {
      if host == "" || path == "" {
        return null;
      }
      h := new WsHandshake.Client(host, path, protocols, sha1);
    }

    constructor Client(host: string, path: string, protocols: seq<string>, sha1: Digest)
      ensures Contents() == Fields(host, path, protocols, "") && this.sha1 == sha1
    {
      mHost, mPath, mProtocols, mKey := host, path, protocols, "";
      this.sha1 := sha1;
    }

    constructor Server(sha1: Digest)
      ensures Contents() == Fields("", "", [], "") && this.sha1 == sha1
    {
      mHost, mPath, mProtocols, mKey := "", "", [], "";
      this.sha1 := sha1;
    }

    /** `nonce` is the random 16 bytes of the key. */
    method GenerateHttpRequest(nonce: seq<byte>) returns (out: string)
      modifies this`mKey
      ensures mKey == Base64.Encode(nonce)
      ensures out == RequestText(Contents())
    {
      mKey := Base64.Base64Encode(nonce);
      out := ("GET" + (" " + (mPath + " HTTP/1.1")) + CRLF)
             + ("Host" + ": " + mHost + CRLF)
             + ("Connection" + ": " + "Upgrade" + CRLF)
             + ("Upgrade" + ": " + "websocket" + CRLF)
             + ("Sec-WebSocket-Version" + ": " + "13" + CRLF)
             + ("Sec-WebSocket-Key" + ": " + mKey + CRLF);
      if mProtocols != [] {
        out := out + ("Sec-WebSocket-Protocol" + ": " + Implode(mProtocols, ',') + CRLF);
      } else {
        assert out + "" == out;
      }
      out := out + CRLF;
    }

    method GenerateHttpResponse() returns (out: string)
      ensures out == ResponseText(AcceptKey(sha1, mKey), mProtocols)
    {
      var accept := Base64.Base64Encode(sha1(mKey + GUID));
      out := ("HTTP/1.1" + (" " + ("101" + " Switching Protocols")) + CRLF)
             + ("Server" + ": " + "libdatachannel" + CRLF)
             + ("Connection" + ": " + "Upgrade" + CRLF)
             + ("Upgrade" + ": " + "websocket" + CRLF)
             + ("Sec-WebSocket-Accept" + ": " + accept + CRLF);
      if mProtocols != [] {
        out := out + ("Sec-WebSocket-Protocol" + ": " + Implode(mProtocols, ',') + CRLF);
      } else {
        assert out + "" == out;
      }
      out := out + CRLF;
    }

    method GenerateHttpError(responseCode: nat) returns (out: string)
      ensures out == ErrorText(responseCode)
    {
      var error := Decimal(responseCode) + (" " + ErrorName(responseCode));
      out := ("HTTP/1.1" + (" " + error) + CRLF)
             + ("Server" + ": " + "libdatachannel" + CRLF)
             + ("Content-Type" + ": " + "text/plain" + CRLF)
             + ("Content-Length" + ": " + Decimal(|error|) + CRLF)
             + ("Access-Control-Allow-Origin" + ": " + "*" + CRLF)
             + CRLF
             + error;
    }

    method ParseHttpRequest(buffer: string) returns (r: RequestResult)
      modifies this
      ensures r == ParseRequest(old(Contents()), buffer)
      ensures Contents() == if r.Wait? then old(Contents()) else r.fields
    {
      var looks := IsHttpRequest(buffer);
      if !looks {
        return Refused(400, Fields(mHost, mPath, mProtocols, mKey));
      }
      var length, lines := ParseHttpLines(buffer);
      if length == 0 {
        return Wait;
      }
      if lines == [] {
        return Refused(400, Fields(mHost, mPath, mProtocols, mKey));
      }
      var (verb, rest) := Word(lines[0]);
      if verb != "GET" {
        return Refused(405, Fields(mHost, mPath, mProtocols, mKey));
      }
      mPath := Word(rest).0;
      var headers := ParseHttpHeaders(lines[1..]);
      var h := Lookup(headers, "host");
      if h == None {
        return Refused(400, Fields(mHost, mPath, mProtocols, mKey));
      }
      mHost := h.value;
      h := Lookup(headers, "upgrade");
      if h == None || Lower(h.value) != "websocket" {
        return Refused(426, Fields(mHost, mPath, mProtocols, mKey));
      }
      h := Lookup(headers, "sec-websocket-key");
      if h == None {
        return Refused(400, Fields(mHost, mPath, mProtocols, mKey));
      }
      mKey := h.value;
      h := Lookup(headers, "sec-websocket-protocol");
      if h != None {
        mProtocols := ExplodeLoop(h.value, ',');
      }
      return Accepted(length, Fields(mHost, mPath, mProtocols, mKey));
    }

    method ParseHttpResponse(buffer: string) returns (r: ResponseResult)
      ensures r == ParseResponse(AcceptKey(sha1, mKey), buffer)
    {
      var length, lines := ParseHttpLines(buffer);
      if length == 0 {
        return Pending;
      }
      if lines == [] {
        return Rejected;
      }
      var code := ReadNumber(Word(lines[0]).1);
      if code != 101 {
        return Rejected;
      }
      var headers := ParseHttpHeaders(lines[1..]);
      var h := Lookup(headers, "upgrade");
      if h == None || Lower(h.value) != "websocket" {
        return Rejected;
      }
      h := Lookup(headers, "sec-websocket-accept");
      if h == None {
        return Rejected;
      }
      var expected := Base64.Base64Encode(sha1(mKey + GUID));
      return if h.value != expected then Rejected else Opened(length);
    }
  }

  // ----------------------------------------------- text made of header lines

  lemma {:induction false} JoinAppend(lines: seq<string>, last: seq<string>)
    ensures Join(lines + last) == Flat(lines) + Join(last)
  {
    if lines == [] {
      assert lines + last == last;
    } else {
      assert (lines + last)[1..] == lines[1..] + last;
      JoinAppend(lines[1..], last);
    }
  }

  function Flat(lines: seq<string>): string {
    if lines == [] then "" else lines[0] + CRLF + Flat(lines[1..])
  }

  lemma {:induction false} FlatLast(lines: seq<string>, l: string)
    ensures Flat(lines + [l]) == Flat(lines) + (l + CRLF)
  {
    if lines == [] {
      assert [l][1..] == [];
    } else {
      assert (lines + [l])[1..] == lines[1..] + [l];
      FlatLast(lines[1..], l);
    }
  }

  lemma {:induction false} ProtocolTextIsLine(protocols: seq<string>)
    ensures ProtocolText(protocols) + CRLF == Join(ProtocolLine(protocols))
  {
    if protocols != [] {
      var l := ProtocolLine(protocols);
      assert l[1..] == [];
      assert Join(l) == l[0] + CRLF + Join([]);
    }
  }

  lemma {:induction false} FiveLines(l: seq<string>)
    requires |l| == 5
    ensures Flat(l) == (l[0] + CRLF) + (l[1] + CRLF) + (l[2] + CRLF) + (l[3] + CRLF) + (l[4] + CRLF)
  {
    assert Flat(l[..1]) == l[0] + CRLF by { FlatOne(l[..1]); }
    FlatTo(l, 1);
    FlatTo(l, 2);
    FlatTo(l, 3);
    FlatTo(l, 4);
    assert l[..5] == l;
  }

  lemma {:induction false} FlatOne(l: seq<string>)
    requires |l| == 1
    ensures Flat(l) == l[0] + CRLF
  {
    assert Flat(l[1..]) == "";
    assert l[0] + CRLF + "" == l[0] + CRLF;
  }

  lemma {:induction false} FlatTo(l: seq<string>, k: nat)
    requires k < |l|
    ensures Flat(l[..k + 1]) == Flat(l[..k]) + (l[k] + CRLF)
  {
    FlatLast(l[..k], l[k]);
    assert l[..k + 1] == l[..k] + [l[k]];
  }

  lemma {:induction false} BlockIsJoined(head: seq<string>, protocols: seq<string>)
    ensures Flat(head) + ProtocolText(protocols) + CRLF == Join(head + ProtocolLine(protocols))
  {
    hide Flat, ProtocolText, ProtocolLine, Join;
    JoinAppend(head, ProtocolLine(protocols));
    ProtocolTextIsLine(protocols);
    assert Flat(head) + ProtocolText(protocols) + CRLF == Flat(head) + (ProtocolText(protocols) + CRLF);
  }

  /** A request is its lines, each ended by CRLF, and an empty line. */
  lemma {:induction false} RequestIsJoined(f: Fields)
    ensures RequestText(f) == Join(RequestLines(f))
  {
    var l := RequestLines(f);
    var head := l[..6];
    FiveLines(head[..5]);
    FlatTo(head, 5);
    assert head[..6] == head && l == head + ProtocolLine(f.protocols);
    BlockIsJoined(head, f.protocols);
  }

  lemma {:induction false} ResponseIsJoined(accept: string, protocols: seq<string>)
    ensures ResponseText(accept, protocols) == Join(ResponseLines(accept, protocols))
  {
    var l := ResponseLines(accept, protocols);
    var head := l[..5];
    FiveLines(head);
    assert l == head + ProtocolLine(protocols);
    BlockIsJoined(head, protocols);
  }

  // -------------------------------------------------------------- agreement

  predicate HeaderValue(s: string) {
    Free(s, '\n') && NoLeadingBlank(s)
  }

  /** Fields a request can carry: no delimiters where the format has them. */
  predicate Sendable(f: Fields) {
    && OneWord(f.path)
    && HeaderValue(f.host)
    && HeaderValue(f.key)
    && Listable(f.protocols, ',')
    && HeaderValue(Implode(f.protocols, ','))
  }

  /** A header name: its lower-case form, and no character that ends a name or a line. */
  predicate HeaderName(name: string, lower: string) {
    name != "" && Lower(name) == lower && Free(name, ':') && Free(name, '\n')
  }

  lemma {:induction false} HeaderNames()
    ensures HeaderName("Host", "host")
    ensures HeaderName("Connection", "connection")
    ensures HeaderName("Upgrade", "upgrade")
    ensures HeaderName("Server", "server")
  {
  }

  lemma {:induction false} ProtocolName()
    ensures HeaderName("Sec-WebSocket-Protocol", "sec-websocket-protocol")
  {
  }

  lemma {:induction false} VersionName()
    ensures HeaderName("Sec-WebSocket-Version", "sec-websocket-version")
  {
  }

  lemma {:induction false} KeyName()
    ensures HeaderName("Sec-WebSocket-Key", "sec-websocket-key")
  {
  }

  lemma {:induction false} AcceptName()
    ensures HeaderName("Sec-WebSocket-Accept", "sec-websocket-accept")
  {
  }

  lemma {:induction false} FixedValues()
    ensures Lower("websocket") == "websocket"
    ensures HeaderValue("websocket") && HeaderValue("Upgrade") && HeaderValue("13") && HeaderValue("libdatachannel")
  {
  }

  /** A header line survives the trip. */
  lemma {:induction false} HeaderLine(name: string, lower: string, value: string)
    requires HeaderName(name, lower) && HeaderValue(value)
    ensures HeaderOf(name + ": " + value) == (lower, value)
    ensures name + ": " + value != "" && Free(name + ": " + value, '\n')
  {
    HeaderRoundTrip(name, value);
  }

  function ProtocolHeader(protocols: seq<string>): seq<(string, string)> {
    if protocols == [] then [] else [("sec-websocket-protocol", Implode(protocols, ','))]
  }

  function RequestHeaders(f: Fields): seq<(string, string)> {
    [("host", f.host), ("connection", "Upgrade"), ("upgrade", "websocket"),
     ("sec-websocket-version", "13"), ("sec-websocket-key", f.key)]
    + ProtocolHeader(f.protocols)
  }

  lemma {:induction false} ProtocolLineRead(protocols: seq<string>)
    requires HeaderValue(Implode(protocols, ','))
    ensures Plain(ProtocolLine(protocols)) && HeadersOf(ProtocolLine(protocols)) == ProtocolHeader(protocols)
  {
    ProtocolName();
    HeaderLine("Sec-WebSocket-Protocol", "sec-websocket-protocol", Implode(protocols, ','));
  }

  lemma {:induction false} HeadersOfAppend(a: seq<string>, b: seq<string>)
    ensures HeadersOf(a + b) == HeadersOf(a) + HeadersOf(b)
  {
  }

  lemma {:induction false} RequestLinesRead(f: Fields)
    requires Sendable(f)
    ensures Plain(RequestLines(f)[1..]) && HeadersOf(RequestLines(f)[1..]) == RequestHeaders(f)
  {
    HeaderNames();
    VersionName();
    KeyName();
    FixedValues();
    HeaderLine("Host", "host", f.host);
    HeaderLine("Connection", "connection", "Upgrade");
    HeaderLine("Upgrade", "upgrade", "websocket");
    HeaderLine("Sec-WebSocket-Version", "sec-websocket-version", "13");
    HeaderLine("Sec-WebSocket-Key", "sec-websocket-key", f.key);
    ProtocolLineRead(f.protocols);
    var five := RequestLines(f)[1..6];
    assert RequestLines(f)[1..] == five + ProtocolLine(f.protocols);
    HeadersOfAppend(five, ProtocolLine(f.protocols));
    assert HeadersOf(five) == RequestHeaders(f)[..5];
    assert Plain(five);
  }

  lemma {:induction false} LookupAt(h: seq<(string, string)>, key: string, i: nat)
    requires i <= |h| && forall j :: 0 <= j < i ==> h[j].0 != key
    requires i < |h| ==> h[i].0 == key
    ensures Lookup(h, key) == if i < |h| then Some(h[i].1) else None
  {
    if 0 < i {
      LookupAt(h[1..], key, i - 1);
    }
  }

  lemma {:induction false} RequestLookups(f: Fields)
    ensures var h := RequestHeaders(f);
            && Lookup(h, "host") == Some(f.host)
            && Lookup(h, "upgrade") == Some("websocket")
            && Lookup(h, "sec-websocket-key") == Some(f.key)
            && Lookup(h, "sec-websocket-protocol")
               == if f.protocols == [] then None else Some(Implode(f.protocols, ','))
  {
    var h := RequestHeaders(f);
    LookupAt(h, "host", 0);
    LookupAt(h, "upgrade", 2);
    LookupAt(h, "sec-websocket-key", 4);
    LookupAt(h, "sec-websocket-protocol", 5);
  }

  lemma {:induction false} FreeConcat(a: string, b: string, c: char)
    ensures Free(a + b, c) <==> Free(a, c) && Free(b, c)
  {
    assert forall i :: 0 <= i < |a| ==> (a + b)[i] == a[i];
    assert forall i :: 0 <= i < |b| ==> (a + b)[|a| + i] == b[i];
  }

  lemma {:induction false} WordThen(w: string, tail: string)
    requires OneWord(w) && Free(tail, '\n')
    ensures var l := w + (" " + tail); Word(l) == (w, " " + tail) && l != "" && Free(l, '\n')
  {
    WordOf(w, " " + tail);
    FreeConcat(" ", tail, '\n');
    FreeConcat(w, " " + tail, '\n');
  }

  lemma {:induction false} FirstLine(f: Fields)
    requires OneWord(f.path)
    ensures Word(RequestLines(f)[0]).0 == "GET"
    ensures Word(Word(RequestLines(f)[0]).1).0 == f.path
    ensures RequestLines(f)[0] != "" && Free(RequestLines(f)[0], '\n')
  {
    var tail := f.path + " HTTP/1.1";
    FreeConcat(f.path, " HTTP/1.1", '\n');
    WordThen("GET", tail);
    WordOf(f.path, " HTTP/1.1");
  }

  lemma {:induction false} RequestLooksRight(f: Fields, rest: string)
    ensures LooksLikeRequest(RequestText(f) + rest)
  {
    var s := RequestText(f) + rest;
    assert s[0] == 'G' && s[1] == 'E' && s[2] == 'T' && s[3] == ' ';
    assert RequestPrefix(s, 3);
  }

  lemma {:induction false} RequestBlock(f: Fields, rest: string)
    requires Sendable(f)
    ensures Lines(RequestText(f) + rest, 0) == Block(RequestLines(f), |RequestText(f)|)
  {
    RequestIsJoined(f);
    FirstLine(f);
    RequestLinesRead(f);
    PlainCons(RequestLines(f));
    BlockAtStart(RequestLines(f), rest);
  }

  lemma {:induction false} PlainCons(lines: seq<string>)
    requires lines != [] && lines[0] != "" && Free(lines[0], '\n') && Plain(lines[1..])
    ensures Plain(lines)
  {
    forall i | 0 <= i < |lines| ensures lines[i] != "" && Free(lines[i], '\n') {
      if i > 0 { assert lines[i] == lines[1..][i - 1]; }
    }
  }

  lemma {:induction false} BlockAtStart(lines: seq<string>, rest: string)
    requires Plain(lines)
    ensures Lines(Join(lines) + rest, 0) == Block(lines, |Join(lines)|)
  {
    var s := Join(lines) + rest;
    assert s[0..|Join(lines)|] == Join(lines);
    LinesOfJoin(s, 0, lines);
  }

  lemma {:induction false} ReadRequestLines(f: Fields, before: Fields, n: nat)
    requires Sendable(f)
    ensures ReadRequest(before, RequestLines(f), n)
         == Accepted(n, f.(protocols := if f.protocols == [] then before.protocols else f.protocols))
  {
    FirstLine(f);
    RequestLinesRead(f);
    RequestLookups(f);
    FixedValues();
    ExplodeOfImplode(f.protocols, ',');
  }

  /** The server reads back what the client wrote, and takes exactly the request off the stream. */
  lemma {:induction false} RequestAgreement(f: Fields, before: Fields, rest: string)
    requires Sendable(f)
    ensures ParseRequest(before, RequestText(f) + rest)
         == Accepted(|RequestText(f)|, f.(protocols := if f.protocols == [] then before.protocols else f.protocols))
  {
    RequestLooksRight(f, rest);
    RequestBlock(f, rest);
    ReadRequestLines(f, before, |RequestText(f)|);
  }

  // -------------------------------------------------------------- responses

  function ResponseHeaders(accept: string, protocols: seq<string>): seq<(string, string)> {
    [("server", "libdatachannel"), ("connection", "Upgrade"), ("upgrade", "websocket"),
     ("sec-websocket-accept", accept)]
    + ProtocolHeader(protocols)
  }

  lemma {:induction false} ResponseLinesRead(accept: string, protocols: seq<string>)
    requires HeaderValue(accept) && HeaderValue(Implode(protocols, ','))
    ensures var l := ResponseLines(accept, protocols);
            Plain(l[1..]) && HeadersOf(l[1..]) == ResponseHeaders(accept, protocols)
  {
    HeaderNames();
    AcceptName();
    FixedValues();
    HeaderLine("Server", "server", "libdatachannel");
    HeaderLine("Connection", "connection", "Upgrade");
    HeaderLine("Upgrade", "upgrade", "websocket");
    HeaderLine("Sec-WebSocket-Accept", "sec-websocket-accept", accept);
    ProtocolLineRead(protocols);
    var l := ResponseLines(accept, protocols);
    var four := l[1..5];
    assert l[1..] == four + ProtocolLine(protocols);
    HeadersOfAppend(four, ProtocolLine(protocols));
    assert HeadersOf(four) == ResponseHeaders(accept, protocols)[..4];
    assert Plain(four);
  }

  lemma {:induction false} ResponseLookups(accept: string, protocols: seq<string>)
    ensures var h := ResponseHeaders(accept, protocols);
            Lookup(h, "upgrade") == Some("websocket") && Lookup(h, "sec-websocket-accept") == Some(accept)
  {
    var h := ResponseHeaders(accept, protocols);
    LookupAt(h, "upgrade", 2);
    LookupAt(h, "sec-websocket-accept", 3);
  }

  lemma {:induction false} StatusLine(accept: string, protocols: seq<string>)
    ensures var l := ResponseLines(accept, protocols)[0];
            l != "" && Free(l, '\n') && ReadNumber(Word(l).1) == 101
  {
    var tail := "101" + " Switching Protocols";
    FreeConcat("101", " Switching Protocols", '\n');
    WordThen("HTTP/1.1", tail);
    Status101(tail);
  }

  lemma {:induction false} Status101(tail: string)
    requires |tail| > 3 && tail[0] == '1' && tail[1] == '0' && tail[2] == '1' && tail[3] == ' '
    ensures ReadNumber(" " + tail) == 101
  {
    assert (" " + tail)[1..] == tail;
    assert SkipSpace(" " + tail) == SkipSpace(tail) == tail;
    assert Number(tail, 0) == Number(tail[1..], 1);
    assert Number(tail[1..], 1) == Number(tail[1..][1..], 10);
    assert Number(tail[1..][1..], 10) == Number(tail[1..][1..][1..], 101);
  }

  // --------------------------------------------------------------- refusals

  lemma {:induction false} JoinIsFlat(lines: seq<string>)
    ensures Join(lines) == Flat(lines) + CRLF
  {
    JoinAppend(lines, []);
    assert lines + [] == lines;
  }

  lemma {:induction false} ErrorIsJoined(code: nat)
    ensures ErrorText(code) == Join(ErrorLines(code)) + ErrorBody(code)
  {
    hide ErrorBody, Join, Flat;
    var l := ErrorLines(code);
    FiveLines(l);
    JoinIsFlat(l);
  }

  lemma {:induction false} NoNewline(s: string)
    requires forall i :: 0 <= i < |s| ==> IsDigit(s[i])
    ensures Free(s, '\n')
  {
  }

  lemma {:induction false} ErrorNameIsFree(code: nat)
    ensures Free(ErrorName(code), '\n')
  {
    match code
    case 400 =>
    case 404 =>
    case 405 =>
    case 426 =>
    case 500 =>
    case _ =>
  }

  lemma {:induction false} ErrorBodyIsFree(code: nat)
    ensures Free(ErrorBody(code), '\n')
  {
    hide ErrorName, Decimal;
    ErrorNameIsFree(code);
    NoNewline(Decimal(code));
    FreeConcat(" ", ErrorName(code), '\n');
    FreeConcat(Decimal(code), " " + ErrorName(code), '\n');
  }

  lemma {:induction false} ErrorStatusLine(code: nat)
    ensures var l := ErrorLines(code)[0];
            l != "" && Free(l, '\n') && Word(l) == ("HTTP/1.1", " " + ErrorBody(code))
  {
    hide ErrorBody, Decimal, Word;
    ErrorBodyIsFree(code);
    WordThen("HTTP/1.1", ErrorBody(code));
  }

  lemma {:induction false} WrittenHeaderIsPlain(name: string, value: string)
    requires Free(name, '\n') && Free(value, '\n')
    ensures name + ": " + value != "" && Free(name + ": " + value, '\n')
  {
    FreeConcat(name, ": ", '\n');
    FreeConcat(name + ": ", value, '\n');
  }

  lemma {:induction false} ConstantErrorHeaders()
    ensures Free("Server" + ": " + "libdatachannel", '\n')
    ensures Free("Content-Type" + ": " + "text/plain", '\n')
    ensures Free("Access-Control-Allow-Origin" + ": " + "*", '\n')
  {
    WrittenHeaderIsPlain("Server", "libdatachannel");
    WrittenHeaderIsPlain("Content-Type", "text/plain");
    WrittenHeaderIsPlain("Access-Control-Allow-Origin", "*");
  }

  lemma {:induction false} ErrorHeadersArePlain(size: string)
    requires Free(size, '\n')
    ensures Plain(["Server" + ": " + "libdatachannel", "Content-Type" + ": " + "text/plain",
                   "Content-Length" + ": " + size, "Access-Control-Allow-Origin" + ": " + "*"])
  {
    ConstantErrorHeaders();
    WrittenHeaderIsPlain("Content-Length", size);
    hide Free;
  }

  lemma {:induction false} ErrorLinesArePlain(code: nat)
    ensures Plain(ErrorLines(code)) && Word(ErrorLines(code)[0]) == ("HTTP/1.1", " " + ErrorBody(code))
  {
    hide ErrorBody, Decimal, Word, Plain, Free;
    ErrorStatusLine(code);
    NoNewline(Decimal(|ErrorBody(code)|));
    ErrorHeadersArePlain(Decimal(|ErrorBody(code)|));
    PlainCons(ErrorLines(code));
  }

  /** The status line of an error reply carries its code. */
  lemma {:induction false} ErrorCodeIsRead(code: nat)
    ensures ReadNumber(" " + ErrorBody(code)) == code
  {
    DecimalIsRead(code, " " + ErrorName(code));
    var b := ErrorBody(code);
    assert (" " + b)[1..] == b && b[0] == Decimal(code)[0];
    assert SkipSpace(" " + b) == SkipSpace(b) == b;
  }

  /** A client takes an error reply, whatever follows it, for a refusal. */
  lemma {:induction false} ErrorIsRefusal(code: nat, accept: string, rest: string)
    requires code != 101
    ensures ParseResponse(accept, ErrorText(code) + rest) == Rejected
  {
    hide ErrorText, ErrorLines, ErrorBody, Lines;
    var lines, body := ErrorLines(code), ErrorBody(code);
    ErrorIsJoined(code);
    ErrorLinesArePlain(code);
    ErrorCodeIsRead(code);
    assert Join(lines) + body + rest == Join(lines) + (body + rest);
    BlockAtStart(lines, body + rest);
    FirstIsError(code);
  }

  lemma {:induction false} FirstIsError(code: nat)
    ensures ErrorLines(code) != []
  {
  }

  lemma {:induction false} AcceptKeyIsValue(sha1: Digest, key: string)
    ensures HeaderValue(AcceptKey(sha1, key))
  {
    EncodedIsValue(sha1(key + GUID));
  }

  lemma {:induction false} EncodedIsValue(d: seq<byte>)
    ensures HeaderValue(Base64.Encode(d))
  {
    var e := Base64.Encode(d);
    forall i | 0 <= i < |e| ensures e[i] != '\n' && e[i] != ' ' {
      Base64.EncodedAlphabet(d, i);
    }
  }

  /** The client accepts the server's answer to its own key, and takes exactly the response. */
  lemma {:induction false} ResponseAgreement(sha1: Digest, key: string, protocols: seq<string>, rest: string)
    requires HeaderValue(Implode(protocols, ','))
    ensures var text := ResponseText(AcceptKey(sha1, key), protocols);
            ParseResponse(AcceptKey(sha1, key), text + rest) == Opened(|text|)
  {
    var accept := AcceptKey(sha1, key);
    var lines := ResponseLines(accept, protocols);
    AcceptKeyIsValue(sha1, key);
    StatusLine(accept, protocols);
    ResponseLinesRead(accept, protocols);
    PlainCons(lines);
    BlockAtStart(lines, rest);
    ResponseIsJoined(accept, protocols);
    ResponseLookups(accept, protocols);
    FixedValues();
  }

  /** A response with any other accept value is refused. */
  lemma {:induction false} WrongAcceptIsRefused(accept: string, expected: string, protocols: seq<string>, rest: string)
    requires HeaderValue(accept) && HeaderValue(Implode(protocols, ',')) && accept != expected
    ensures ParseResponse(expected, ResponseText(accept, protocols) + rest) == Rejected
  {
    var lines := ResponseLines(accept, protocols);
    StatusLine(accept, protocols);
    ResponseLinesRead(accept, protocols);
    PlainCons(lines);
    BlockAtStart(lines, rest);
    ResponseIsJoined(accept, protocols);
    ResponseLookups(accept, protocols);
  }

  /**
   * The whole exchange: a client with any nonce and a fresh server agree on host, path, key and
   * protocols, and each side takes exactly the other's block off its stream.
   */
  lemma {:induction false} HandshakeAgreement(sha1: Digest, client: Fields, nonce: seq<byte>, rest: string, rest': string)
    requires client.key == Base64.Encode(nonce) && Sendable(client)
    ensures var r := ParseRequest(Fields("", "", [], ""), RequestText(client) + rest);
            && r == Accepted(|RequestText(client)|, client)
            && var reply := ResponseText(AcceptKey(sha1, r.fields.key), r.fields.protocols);
               ParseResponse(AcceptKey(sha1, client.key), reply + rest') == Opened(|reply|)
  {
    RequestAgreement(client, Fields("", "", [], ""), rest);
    ResponseAgreement(sha1, client.key, client.protocols, rest');
  }

  /** The generated key never needs escaping. */
  lemma {:induction false} GeneratedKeyIsSendable(host: string, path: string, protocols: seq<string>, nonce: seq<byte>)
    requires OneWord(path) && HeaderValue(host) && Listable(protocols, ',')
    requires HeaderValue(Implode(protocols, ','))
    ensures Sendable(Fields(host, path, protocols, Base64.Encode(nonce)))
  {
    EncodedIsValue(nonce);
  }

  // --------------------------------------------------- incremental reading

  /** A verdict on a request is never revised by more input. */
  lemma {:induction false} RequestVerdictStable(f: Fields, s: string, t: string)
    requires ParseRequest(f, s) != Wait
    ensures ParseRequest(f, s + t) == ParseRequest(f, s)
  {
    RequestPrefixes(s, t);
    if LooksLikeRequest(s) {
      LinesExtend(s, t, 0);
      BlockHasLf(s, 0);
    }
  }

  lemma {:induction false} BlockHasLf(s: string, from: nat)
    requires LineStart(s, from) && Lines(s, from).Block?
    ensures !Free(s, '\n')
  {
    assert s[Find(s, '\n', from)] == '\n';
  }

  lemma {:induction false} ResponseVerdictStable(accept: string, s: string, t: string)
    requires ParseResponse(accept, s) != Pending
    ensures ParseResponse(accept, s + t) == ParseResponse(accept, s)
  {
    LinesExtend(s, t, 0);
  }
}

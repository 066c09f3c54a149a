/** The examples of the standards: RFC 4648 section 10, and RFC 6455 section 1. */
module RfcExamples {
  import opened Bytes
  import opened Handshake
  import Http
  import Base64

  // ------------------------------------------------------------------ base64

  lemma {:induction false} Foo()
    ensures Base64.Encode([]) == ""
    ensures Base64.Encode([0x66]) == "Zg=="
    ensures Base64.Encode([0x66, 0x6f]) == "Zm8="
    ensures Base64.Encode([0x66, 0x6f, 0x6f]) == "Zm9v"
  {
  }

  lemma {:induction false} OneMoreGroup(a: byte, b: byte, c: byte, rest: seq<byte>)
    ensures Base64.Encode([a, b, c] + rest) == Base64.Encode([a, b, c]) + Base64.Encode(rest)
  {
    assert ([a, b, c] + rest)[3..] == rest && [a, b, c][3..] == [];
  }

  lemma {:induction false} Foobar()
    ensures Base64.Encode([0x66, 0x6f, 0x6f, 0x62]) == "Zm9vYg=="
    ensures Base64.Encode([0x66, 0x6f, 0x6f, 0x62, 0x61]) == "Zm9vYmE="
    ensures Base64.Encode([0x66, 0x6f, 0x6f, 0x62, 0x61, 0x72]) == "Zm9vYmFy"
  {
    Foo();
    OneMoreGroup(0x66, 0x6f, 0x6f, [0x62]);
    OneMoreGroup(0x66, 0x6f, 0x6f, [0x62, 0x61]);
    OneMoreGroup(0x66, 0x6f, 0x6f, [0x62, 0x61, 0x72]);
  }

  // ----------------------------------------------------------- the handshake

  const DIGEST: seq<byte> :=
    [0xb3, 0x7a, 0x4f] + ([0x2c, 0xc0, 0x62] + ([0x4f, 0x16, 0x90] + ([0xf6, 0x46, 0x06] +
    ([0xcf, 0x38, 0x59] + ([0x45, 0xb2, 0xbe] + [0xc4, 0xea])))))

  const SAMPLE_ACCEPT: string := "s3pPLMBiTxaQ9kYGzzhZRbK+xOo="
  const SAMPLE_KEY: string := "dGhlIHNhbXBsZSBub25jZQ=="

  lemma {:induction false} Groups()
    ensures Base64.Encode([0xb3, 0x7a, 0x4f]) == "s3pP" && Base64.Encode([0x2c, 0xc0, 0x62]) == "LMBi"
    ensures Base64.Encode([0x4f, 0x16, 0x90]) == "TxaQ" && Base64.Encode([0xf6, 0x46, 0x06]) == "9kYG"
    ensures Base64.Encode([0xcf, 0x38, 0x59]) == "zzhZ" && Base64.Encode([0x45, 0xb2, 0xbe]) == "RbK+"
    ensures Base64.Encode([0xc4, 0xea]) == "xOo="
  {
  }

  /** The digest of the sample key and the GUID leads to the accept value of RFC 6455 section 1.3. */
  lemma {:induction false} SampleAccept(sha1: Digest)
    requires sha1(SAMPLE_KEY + "258EAFA5-E914-47DA-95CA-C5AB0DC85B11") == DIGEST
    ensures AcceptKey(sha1, SAMPLE_KEY) == SAMPLE_ACCEPT
  {
    hide Base64.Encode;
    Groups();
    var t: seq<byte> := [0xc4, 0xea];
    OneMoreGroup(0x45, 0xb2, 0xbe, t);
    var t1 := [0x45, 0xb2, 0xbe] + t;
    OneMoreGroup(0xcf, 0x38, 0x59, t1);
    var t2 := [0xcf, 0x38, 0x59] + t1;
    OneMoreGroup(0xf6, 0x46, 0x06, t2);
    var t3 := [0xf6, 0x46, 0x06] + t2;
    OneMoreGroup(0x4f, 0x16, 0x90, t3);
    var t4 := [0x4f, 0x16, 0x90] + t3;
    OneMoreGroup(0x2c, 0xc0, 0x62, t4);
    OneMoreGroup(0xb3, 0x7a, 0x4f, [0x2c, 0xc0, 0x62] + t4);
    SameText();
  }

  lemma {:induction false} SameText()
    ensures "s3pP" + ("LMBi" + ("TxaQ" + ("9kYG" + ("zzhZ" + ("RbK+" + "xOo=")))))
         == "s3pPLMBiTxaQ9kYGzzhZRbK+xOo="
  {
  }

  lemma {:induction false} OneProtocol()
    ensures Http.Implode(["chat"], ',') == "chat"
  {
  }

  lemma {:induction false} RequestLine()
    ensures "GET" + (" " + ("/chat" + " HTTP/1.1")) + Http.CRLF == "GET /chat HTTP/1.1\r\n"
  {
  }

  lemma {:induction false} StatusLine()
    ensures "HTTP/1.1" + (" " + ("101" + " Switching Protocols")) + Http.CRLF == "HTTP/1.1 101 Switching Protocols\r\n"
  {
  }

  lemma {:induction false} CommonLines()
    ensures "Connection" + ": " + "Upgrade" + Http.CRLF == "Connection: Upgrade\r\n"
    ensures "Upgrade" + ": " + "websocket" + Http.CRLF == "Upgrade: websocket\r\n"
    ensures "Sec-WebSocket-Protocol" + ": " + "chat" + Http.CRLF == "Sec-WebSocket-Protocol: chat\r\n"
  {
  }

  lemma {:induction false} HostLine()
    ensures "Host" + ": " + "server.example.com" + Http.CRLF == "Host: server.example.com\r\n"
    ensures "Sec-WebSocket-Version" + ": " + "13" + Http.CRLF == "Sec-WebSocket-Version: 13\r\n"
  {
  }

  lemma {:induction false} KeyName()
    ensures "Sec-WebSocket-Key" + ": " == "Sec-WebSocket-Key: " && "Sec-WebSocket-Accept" + ": " == "Sec-WebSocket-Accept: "
  {
  }

  lemma {:induction false} ServerLine()
    ensures "Server" + ": " + "libdatachannel" + Http.CRLF == "Server: libdatachannel\r\n"
  {
  }

  /** A request as a client writes it. */
  lemma {:induction false} SampleRequest()
    ensures RequestText(Fields("server.example.com", "/chat", ["chat"], SAMPLE_KEY)) ==
      "GET /chat HTTP/1.1\r\n"
      + "Host: server.example.com\r\n"
      + "Connection: Upgrade\r\n"
      + "Upgrade: websocket\r\n"
      + "Sec-WebSocket-Version: 13\r\n"
      + ("Sec-WebSocket-Key: " + SAMPLE_KEY + "\r\n")
      + "Sec-WebSocket-Protocol: chat\r\n"
      + "\r\n"
  {
    hide Http.Implode;
    OneProtocol();
    RequestLine();
    CommonLines();
    HostLine();
    KeyName();
  }

  /** And a server's answer. */
  lemma {:induction false} SampleResponse()
    ensures ResponseText(SAMPLE_ACCEPT, ["chat"]) ==
      "HTTP/1.1 101 Switching Protocols\r\n"
      + "Server: libdatachannel\r\n"
      + "Connection: Upgrade\r\n"
      + "Upgrade: websocket\r\n"
      + ("Sec-WebSocket-Accept: " + SAMPLE_ACCEPT + "\r\n")
      + "Sec-WebSocket-Protocol: chat\r\n"
      + "\r\n"
  {
    hide Http.Implode;
    OneProtocol();
    StatusLine();
    CommonLines();
    ServerLine();
    KeyName();
  }
}

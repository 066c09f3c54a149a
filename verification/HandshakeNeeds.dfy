/** What a handshake cannot do without: which lines of a request and of a response matter, and how. */
module HandshakeNeeds {
  import opened Bytes
  import opened Http
  import opened Handshake

  function Without<T>(s: seq<T>, i: nat): seq<T>
    requires i < |s|
  {
    s[..i] + s[i + 1..]
  }

  function Instead<T>(s: seq<T>, i: nat, x: T): seq<T>
    requires i < |s|
  {
    s[i := x]
  }

  // --------------------------------------------------------- blocks of lines

  /** A verb that looks like one: capitals, at most eight. */
  predicate IsVerb(verb: string) {
    0 < |verb| <= 8 && forall i :: 0 <= i < |verb| ==> Capital(verb[i])
  }

  lemma {:induction false} VerbIsWord(verb: string)
    requires IsVerb(verb)
    ensures OneWord(verb)
  {
  }

  lemma {:induction false} LooksRight(verb: string, tail: string, lines: seq<string>, rest: string)
    requires IsVerb(verb)
    ensures LooksLikeRequest(Join([verb + (" " + tail)] + lines) + rest)
  {
    var first := verb + (" " + tail);
    var s := Join([first] + lines) + rest;
    assert ([first] + lines)[1..] == lines;
    assert s == verb + (" " + tail + CRLF + Join(lines) + rest);
    assert RequestPrefix(s, |verb|);
  }

  lemma {:induction false} BlockRead(first: string, lines: seq<string>, rest: string)
    requires first != "" && Free(first, '\n') && Plain(lines)
    ensures var all := [first] + lines; Lines(Join(all) + rest, 0) == Block(all, |Join(all)|)
  {
    var all := [first] + lines;
    assert all[1..] == lines;
    PlainCons(all);
    BlockAtStart(all, rest);
  }

  lemma {:induction false} PlainWithout(lines: seq<string>, i: nat)
    requires Plain(lines) && i < |lines|
    ensures Plain(Without(lines, i)) && HeadersOf(Without(lines, i)) == Without(HeadersOf(lines), i)
  {
    var w := Without(lines, i);
    forall j | 0 <= j < |w| ensures w[j] != "" && Free(w[j], '\n') {
      assert w[j] == lines[if j < i then j else j + 1];
    }
  }

  lemma {:induction false} PlainInstead(lines: seq<string>, i: nat, line: string)
    requires Plain(lines) && i < |lines| && line != "" && Free(line, '\n')
    ensures Plain(Instead(lines, i, line)) && HeadersOf(Instead(lines, i, line)) == Instead(HeadersOf(lines), i, HeaderOf(line))
  {
  }

  // ---------------------------------------------------------------- requests

  /** Reading any request with this first line, in terms of its headers. */
  lemma {:induction false} RequestRead(before: Fields, verb: string, path: string, lines: seq<string>, rest: string)
    requires IsVerb(verb) && OneWord(path) && Plain(lines)
    ensures var all := [verb + (" " + (path + " HTTP/1.1"))] + lines;
            && ParseRequest(before, Join(all) + rest) == ReadRequest(before, all, |Join(all)|)
            && Word(all[0]).0 == verb && Word(Word(all[0]).1).0 == path && all[1..] == lines
  {
    hide ReadRequest, LooksLikeRequest, Lines;
    var tail := path + " HTTP/1.1";
    FreeConcat(path, " HTTP/1.1", '\n');
    VerbIsWord(verb);
    WordThen(verb, tail);
    WordOf(path, " HTTP/1.1");
    LooksRight(verb, tail, lines, rest);
    BlockRead(verb + (" " + tail), lines, rest);
    assert ([verb + (" " + tail)] + lines)[1..] == lines;
  }

  /** What begins with nine capitals, or with no capital, is no request, and is refused before its end has come. */
  lemma {:induction false} NoVerb(before: Fields, s: string)
    requires s != "" && (!Capital(s[0]) || (|s| >= 9 && forall i :: 0 <= i < 9 ==> Capital(s[i])))
    ensures ParseRequest(before, s) == Refused(400, before)
  {
    assert !Capital(' ');
    assert forall n :: 0 < n <= 8 && n <= |s| && RequestPrefix(s, n) ==> Capital(s[0]);
  }

  /** A request with any other verb is refused. */
  lemma {:induction false} OnlyGet(f: Fields, before: Fields, verb: string, rest: string)
    requires Sendable(f) && IsVerb(verb) && verb != "GET"
    ensures ParseRequest(before, Join([verb + (" " + (f.path + " HTTP/1.1"))] + RequestLines(f)[1..]) + rest)
         == Refused(405, before)
  {
    hide ParseRequest;
    RequestLinesRead(f);
    RequestRead(before, verb, f.path, RequestLines(f)[1..], rest);
  }

  lemma {:induction false} LinesOfRequest(f: Fields, lines: seq<string>)
    ensures [RequestLines(f)[0]] + lines == ["GET" + (" " + (f.path + " HTTP/1.1"))] + lines
  {
  }

  lemma {:induction false} LookupsWithout(f: Fields, i: nat)
    requires i < 5
    ensures var h := Without(RequestHeaders(f), i);
            && Lookup(h, "host") == (if i == 0 then None else Some(f.host))
            && Lookup(h, "upgrade") == (if i == 2 then None else Some("websocket"))
            && Lookup(h, "sec-websocket-key") == (if i == 4 then None else Some(f.key))
            && Lookup(h, "sec-websocket-protocol") == if f.protocols == [] then None else Some(Implode(f.protocols, ','))
  {
    hide Lookup;
    var p := RequestHeaders(f);
    var h, n := Without(p, i), |p| - 1;
    assert forall j :: 0 <= j < n ==> h[j] == p[if j < i then j else j + 1];
    assert n > 4 ==> p[5].0 == "sec-websocket-protocol";
    LookupAt(h, "host", if i == 0 then n else 0);
    LookupAt(h, "upgrade", if i == 2 then n else if i < 2 then 1 else 2);
    LookupAt(h, "sec-websocket-key", if i == 4 then n else 3);
    LookupAt(h, "sec-websocket-protocol", 4);
  }

  /**
   * Of a request without one of its header lines: it is refused exactly if that is the line with the
   * host, the upgrade or the key, each with its own code; the connection and the version may be missing.
   */
  lemma {:induction false} NeededLines(f: Fields, before: Fields, i: nat, rest: string)
    requires Sendable(f) && i < 5
    ensures var text := Join([RequestLines(f)[0]] + Without(RequestLines(f)[1..], i));
            var r := ParseRequest(before, text + rest);
            && (i == 0 ==> r == Refused(400, before.(path := f.path)))
            && (i == 2 ==> r == Refused(426, before.(path := f.path, host := f.host)))
            && (i == 4 ==> r == Refused(400, before.(path := f.path, host := f.host)))
            && (i in {1, 3} ==>
                  r == Accepted(|text|, f.(protocols := if f.protocols == [] then before.protocols else f.protocols)))
  {
    hide ParseRequest, Lookup;
    RequestLinesRead(f);
    var lines := Without(RequestLines(f)[1..], i);
    PlainWithout(RequestLines(f)[1..], i);
    RequestRead(before, "GET", f.path, lines, rest);
    LinesOfRequest(f, lines);
    LookupsWithout(f, i);
    FixedValues();
    ExplodeOfImplode(f.protocols, ',');
  }

  lemma {:induction false} LookupsInstead(f: Fields, value: string)
    ensures var h := Instead(RequestHeaders(f), 2, ("upgrade", value));
            Lookup(h, "host") == Some(f.host) && Lookup(h, "upgrade") == Some(value)
  {
    var h := Instead(RequestHeaders(f), 2, ("upgrade", value));
    LookupAt(h, "host", 0);
    LookupAt(h, "upgrade", 2);
  }

  /** An upgrade to anything but a WebSocket, in whatever case it is written, is refused. */
  lemma {:induction false} OnlyWebSocket(f: Fields, before: Fields, value: string, rest: string)
    requires Sendable(f) && HeaderValue(value) && Lower(value) != "websocket"
    ensures ParseRequest(before, Join([RequestLines(f)[0]] + Instead(RequestLines(f)[1..], 2, "Upgrade" + ": " + value)) + rest)
         == Refused(426, before.(path := f.path, host := f.host))
  {
    hide ParseRequest, Lookup;
    RequestLinesRead(f);
    HeaderNames();
    HeaderLine("Upgrade", "upgrade", value);
    var lines := Instead(RequestLines(f)[1..], 2, "Upgrade" + ": " + value);
    PlainInstead(RequestLines(f)[1..], 2, "Upgrade" + ": " + value);
    RequestRead(before, "GET", f.path, lines, rest);
    LinesOfRequest(f, lines);
    LookupsInstead(f, value);
  }

  // --------------------------------------------------------------- responses

  lemma {:induction false} ResponseRead(expected: string, status: string, lines: seq<string>, rest: string)
    requires Free(status, '\n') && Plain(lines)
    ensures var all := ["HTTP/1.1" + (" " + status)] + lines;
            && ParseResponse(expected, Join(all) + rest) == ReadResponse(expected, all, |Join(all)|)
            && Word(all[0]).1 == " " + status && all[1..] == lines
  {
    hide ReadResponse, Lines;
    WordThen("HTTP/1.1", status);
    BlockRead("HTTP/1.1" + (" " + status), lines, rest);
    assert (["HTTP/1.1" + (" " + status)] + lines)[1..] == lines;
  }

  lemma {:induction false} StatusRead(code: nat, reason: string)
    ensures ReadNumber(" " + (Decimal(code) + (" " + reason))) == code
  {
    DecimalIsRead(code, " " + reason);
    var b := Decimal(code) + (" " + reason);
    assert (" " + b)[1..] == b && b[0] == Decimal(code)[0];
    assert SkipSpace(" " + b) == SkipSpace(b) == b;
  }

  lemma {:induction false} StatusIsFree(code: nat, reason: string)
    requires Free(reason, '\n')
    ensures Free(Decimal(code) + (" " + reason), '\n')
  {
    NoNewline(Decimal(code));
    FreeConcat(" ", reason, '\n');
    FreeConcat(Decimal(code), " " + reason, '\n');
  }

  /** A response with any other status is refused, whatever its headers. */
  lemma {:induction false} OnlySwitching(accept: string, protocols: seq<string>, code: nat, reason: string, rest: string)
    requires HeaderValue(accept) && HeaderValue(Implode(protocols, ',')) && Free(reason, '\n')
    ensures var text := Join(["HTTP/1.1" + (" " + (Decimal(code) + (" " + reason)))] + ResponseLines(accept, protocols)[1..]);
            ParseResponse(accept, text + rest) == if code == 101 then Opened(|text|) else Rejected
  {
    hide ParseResponse, Decimal, ReadNumber, Lookup;
    var status := Decimal(code) + (" " + reason);
    ResponseLinesRead(accept, protocols);
    StatusIsFree(code, reason);
    StatusRead(code, reason);
    ResponseRead(accept, status, ResponseLines(accept, protocols)[1..], rest);
    ResponseLookups(accept, protocols);
    FixedValues();
  }

  lemma {:induction false} ResponseLookupsWithout(accept: string, protocols: seq<string>, i: nat)
    requires i < 4
    ensures var h := Without(ResponseHeaders(accept, protocols), i);
            && Lookup(h, "upgrade") == (if i == 2 then None else Some("websocket"))
            && Lookup(h, "sec-websocket-accept") == (if i == 3 then None else Some(accept))
  {
    var h := Without(ResponseHeaders(accept, protocols), i);
    LookupAt(h, "upgrade", if i == 2 then |h| else if i < 2 then 1 else 2);
    LookupAt(h, "sec-websocket-accept", if i == 3 then |h| else 2);
  }

  /** Of a response, just the lines with the upgrade and the accept value are needed. */
  lemma {:induction false} NeededAnswer(accept: string, protocols: seq<string>, i: nat, rest: string)
    requires HeaderValue(accept) && HeaderValue(Implode(protocols, ',')) && i < 4
    ensures var text := Join([ResponseLines(accept, protocols)[0]] + Without(ResponseLines(accept, protocols)[1..], i));
            ParseResponse(accept, text + rest) == if i in {2, 3} then Rejected else Opened(|text|)
  {
    hide ParseResponse, ReadNumber, Lookup;
    var lines := ResponseLines(accept, protocols);
    ResponseLinesRead(accept, protocols);
    PlainWithout(lines[1..], i);
    FreeConcat("101", " Switching Protocols", '\n');
    ResponseRead(accept, "101" + " Switching Protocols", Without(lines[1..], i), rest);
    StatusLine(accept, protocols);
    ResponseLookupsWithout(accept, protocols, i);
    FixedValues();
  }
}

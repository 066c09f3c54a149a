# A verified model of a WebSocket stack

This project models the byte-stream machinery of the library's WebSocket stack and the small
concurrent protocols that carry it, and proves properties of the model over every input, every run
and every way of cutting a stream. Bytes are `bv8`; lengths and counters are unbounded integers.

The modules follow the program:

| module | what it models |
|---|---|
| `Collections`, `Bytes`, `Base64`, `Http`, `Handshake`, `HandshakeNeeds` | shared facts, byte order, base64, header lines, the opening handshake in both directions, and what it cannot do without |
| `Frames`, `FrameBytes` | the frame codec, as an encoder and a decoder on byte strings, and the format on the wire byte by byte |
| `RfcExamples` | the examples of RFC 4648 and RFC 6455 |
| `WsSpec` | what a WebSocket transport does with each call, as functions on its state |
| `WsTransport` | the transport object itself over a TCP transport: a mutable buffer, masking in place, the loops; every method is proved against `WsSpec` |
| `WsTheorems`, `WsCuts`, `WsMessages`, `WsReader`, `WsClose`, `WsLifecycle`, `WsRuns`, `WsOutput` | what follows: independence of chunking and exactly when it fails, truncation, delivery end to end also while the receiver is at work, the order of everything a transport does, and just what it sends |
| `Queue`, `TcpTransport`, `PullAdaptor` | the shared queue, partial socket writes, and messages read as a byte stream |
| `Stack` | a transport with any history, its TCP transport, the wire, and a receiver |
| `TlsReceive`, `Processor`, `ThreadPool` | the concurrent protocols, as machines with any number of threads |
| `ChannelSpec`, `Channel` | delivery to the application, with callbacks that call back, as functions and as the object |
| `ConnectionSpec`, `Connection`, `ConnectionLife` | the life of a connection, as functions and as the object, with foreign code that calls again at every turn; and a whole life when it does not |

The environment is a value that results quantify over. In `WsSpec` a list `lower` says which of the coming
sends succeed, and a list `script` what user code calls from inside the coming callbacks. In
`TcpTransport` the former is a field, `outcomes`, and how much the socket takes at a time is an arbitrary
choice; a `WsTransport` hands its messages to such a transport. In `ConnectionSpec` and `ChannelSpec` a list
`script` says what callbacks and transports do whenever they run. In the concurrent machines a run is a list of steps,
each enabled when it comes. A client's copy of a message it sends is masked in place, as in the source.

Some things one might expect of the code do not hold; each is stated with the exact condition and the
input that shows it.

- `Queue.exchange` leaves the running amount alone, so the amount stays right exactly when the new head
  weighs as much as the old one (`Queue.Queue.Exchange`). The library only exchanges in a queue where
  every element weighs one.
- The pull adaptor tells the TLS library that the stream has ended when all that is queued is messages
  of size zero (`PullAdaptor.FalseEndExactly`, `PullAdaptor.IdleLooksLikeTheEnd`); an idle TCP
  transport sends such messages.
- An alert that the TLS library raises outside a receive stops the incoming queue without announcing
  anything. When nothing is announced and no thread is under way, nobody notices
  (`TlsReceive.AlertWhileSendingIsMissed`); `TlsReceive.NoLostWakeup` says that this is the only case.
- A `Processor` with a bounded queue can block for good, because `enqueue` waits for room while it holds
  the mutex that `schedule` needs (`Processor.DeadlockIffBounded`). The library uses no bound.
- After a CLOSE the way the stream is cut can matter, since the parse loop does not look at the state
  again. With sends that succeed it does not, for any bytes, if and only if the frames after the first
  CLOSE are mute: no PING, nothing that ends a message, and nothing that begins one while an unfinished one
  is held (`WsClose.CutsAgreeIffMute`, `WsClose.FramesAgreeIffMute`, `WsClose.ChunkingMattersAfterClose`).
- A message callback that resets the channel and then sets itself again goes on being given the messages
  that wait, on a channel that is not open any more. Handing out what waits can go wrong in this way if and
  only if the channel is open, has the callback, and two messages wait (`ChannelSpec.StrayIff`,
  `ChannelSpec.WithTwo`); nothing else brings a message before `triggerOpen` (`ChannelSpec.OpenFirst`).
- A request without the lines for the connection and the version of the protocol is accepted, which section
  4.2.1 of RFC 6455 does not allow (`HandshakeNeeds.NeededLines`).
- A list of protocols survives the header exactly when no protocol holds a comma and the last one is
  not empty (`Http.ExplodeOfImplode`).
- A connection that the closed callback opens again can be closed by the `remoteClose` that called it. User
  code can come to lose what it opened if and only if the connection was connecting or open
  (`ConnectionSpec.CanBeUndoneIffLiving`); without a WebSocket transport, `remoteClose` leaves whatever the
  closed callback of the connection left if and only if the connection was closing already
  (`ConnectionSpec.LeftAsItIsIffClosing`). A callback that opens each of the first n times it runs leaves a
  connection that stands exactly if n is at least one for a connection that was closing, or whose WebSocket
  transport stops quietly, and at least two otherwise (`ConnectionSpec.ReopenedStands`,
  `ConnectionSpec.ReopenedAfterStop`, `ConnectionSpec.DownWhileStopped`).

## Model

| member | source | states |
|---|---|---|
| Bytes.StoreNetworkOrder | src/impl/wstransport.cpp:385-386 | storing a byte-swapped word on a little-endian host leaves its bytes in network order, for every width |
| Bytes.HtonllIsNetworkOrder | src/impl/wstransport.cpp:30-33 | the `htonll` macro, which swaps the halves and exchanges them, writes any 64-bit length in network order |
| Bytes.NtohllReadsNetworkOrder | src/impl/wstransport.cpp:34-36 | applied to eight bytes loaded from memory the same macro gives their network-order value |
| Bytes.NtohsReadsNetworkOrder | src/impl/wstransport.cpp:261-261 | `ntohs` of bytes loaded from memory gives their network-order value |
| Bytes.MaskTwice | src/impl/wstransport.cpp:292-294 | unmasking undoes masking with the same key, for any payload |
| Base64.Base64Encode | src/impl/utils.cpp:83-116 | the loop and its tail compute the group-by-group encoding of the input |
| Base64.DecodeEncode | src/impl/utils.cpp:83-116 | the decoder of RFC 4648 section 4 recovers every input |
| Base64.EncodedSize | src/impl/utils.cpp:83-116 | the output has 4 * ceil(n / 3) characters |
| Base64.EncodedAlphabet | src/impl/utils.cpp:83-116 | every character is in the alphabet, apart from exactly the padding the length asks for |
| Base64.EncodeIsInjective | src/impl/utils.cpp:83-116 | no two inputs share an encoding |
| RfcExamples.Foobar | src/impl/utils.cpp:83-116 | the examples of RFC 4648 section 10 |
| Http.ParseHttpLines | src/impl/http.cpp:27-44 | the loop finds the lines up to the first empty one and the position after it, or reports that there is none |
| Http.LinesExtend | src/impl/http.cpp:27-44 | a finished block is read the same however the input goes on |
| Http.LinesOfPrefix | src/impl/http.cpp:27-44 | no proper prefix of a finished block is finished |
| Http.LinesOfJoin | src/impl/http.cpp:27-44 | reading inverts joining non-empty LF-free lines with CRLF and a blank line, wherever the block stands |
| Http.ParseHttpHeaders | src/impl/http.cpp:46-64 | the loop yields one entry a line, in order: the key in lower case and the value without leading blanks |
| Http.HeaderRoundTrip | src/impl/http.cpp:49-57 | a header written as name, colon, blank, value is read back |
| Http.HeaderWithBlanks | src/impl/http.cpp:49-60 | any number of blanks may follow the colon; a line without a colon is a key with no value |
| Http.IsHttpRequest | src/impl/http.cpp:15-25 | true exactly when the input is at most eight capitals followed by a blank or by nothing yet |
| Http.RequestPrefixes | src/impl/http.cpp:15-25 | a prefix of what looks like a request looks like one, and once a line is complete the verdict is final |
| Http.ExplodeLoop | src/impl/utils.cpp:37-45 | the loop over `getline` yields the tokens between delimiters, none for a delimiter at the very end |
| Http.ExplodeOfImplode | src/impl/utils.cpp:37-56 | exploding an imploded list gives it back if and only if no token holds the delimiter and the last is not empty |
| Http.WordOf | src/impl/wshandshake.cpp:152-153 | a stream read yields a word with no space in it and leaves what follows |
| Handshake.WsHandshake.GenerateHttpRequest | src/impl/wshandshake.cpp:56-77 | stores the base64 of the nonce as the key and returns the text of the request for the object's fields |
| Handshake.WsHandshake.Make | src/impl/wshandshake.cpp:31-39 | a client's object with its fields, or none if the host or the path is empty |
| Handshake.ErrorIsJoined | src/impl/wshandshake.cpp:118-134 | the text of an error reply is its header lines joined, and the error once more as the body |
| Handshake.ErrorIsRefusal | src/impl/wshandshake.cpp:191-209 | a client takes an error reply, whatever follows it, for a refusal |
| Handshake.DecimalIsRead | src/impl/wshandshake.cpp:205-206 | a number written in decimal is read back from a stream, whatever follows it but a digit |
| Handshake.WsHandshake.GenerateHttpResponse | src/impl/wshandshake.cpp:79-95 | returns the text of the response with the accept value for the stored key |
| Handshake.WsHandshake.ParseHttpRequest | src/impl/wshandshake.cpp:136-189 | waits, refuses with the right code and the fields set so far, or accepts with the length used and all fields set |
| Handshake.WsHandshake.ParseHttpResponse | src/impl/wshandshake.cpp:191-231 | waits, rejects, or accepts with the length used |
| Handshake.RequestIsJoined | src/impl/wshandshake.cpp:60-74 | the text of a request is its header lines joined with CRLF and a blank line |
| Handshake.ResponseIsJoined | src/impl/wshandshake.cpp:82-92 | the text of a response is its header lines joined with CRLF and a blank line |
| Handshake.RequestAgreement | src/impl/wshandshake.cpp:136-189 | the parser takes exactly the generated request off the stream, whatever follows, and recovers path, host, key and protocols |
| Handshake.ResponseAgreement | src/impl/wshandshake.cpp:191-231 | the client accepts the answer to its own key and takes exactly the response |
| Handshake.WrongAcceptIsRefused | src/impl/wshandshake.cpp:223-228 | a response with any other accept value is refused |
| Handshake.HandshakeAgreement | src/impl/wshandshake.cpp:56-95 | the whole exchange, for any nonce and any digest: both sides agree and each uses exactly the other's block |
| Handshake.GeneratedKeyIsSendable | src/impl/wshandshake.cpp:233-241 | a generated key always fits in its header |
| Handshake.RequestVerdictStable | src/impl/wshandshake.cpp:136-144 | a verdict on a request is never revised by more input |
| Handshake.ResponseVerdictStable | src/impl/wshandshake.cpp:191-196 | a verdict on a response is never revised by more input |
| HandshakeNeeds.NeededLines | src/impl/wshandshake.cpp:136-189 | of a request without one header line: refused exactly if that is the host, the upgrade or the key, with the code of each; else accepted with the same fields |
| HandshakeNeeds.OnlyGet | src/impl/wshandshake.cpp:153-157 | a request with any other verb is refused with 405 |
| HandshakeNeeds.OnlyWebSocket | src/impl/wshandshake.cpp:169-177 | an upgrade to anything else, in whatever case, is refused with 426 |
| HandshakeNeeds.NoVerb | src/impl/http.cpp:15-25 | bytes that begin with no capital, or with nine, are refused with 400 before the end of a request has come |
| HandshakeNeeds.NeededAnswer | src/impl/wshandshake.cpp:191-231 | of a response without one header line: refused exactly if that is the upgrade or the accept value |
| HandshakeNeeds.OnlySwitching | src/impl/wshandshake.cpp:203-209 | a response is taken exactly if its status is 101, whatever the reason says |
| RfcExamples.SampleAccept | src/impl/wshandshake.cpp:243-245 | the accept value of the example in RFC 6455 section 1.3 |
| RfcExamples.SampleRequest | src/impl/wshandshake.cpp:61-80 | a whole request, character by character |
| RfcExamples.SampleResponse | src/impl/wshandshake.cpp:82-115 | a whole response, character by character |
| Frames.DecodeEncode | src/impl/wstransport.cpp:244-297 | decoding an encoded frame followed by anything gives its fields, its payload up to max(125, limit) and its full length |
| Frames.RoundTrip | src/impl/wstransport.cpp:370-411 | for every opcode below 16, flag, key and payload within max(125, limit) nothing is lost and exactly the frame is used |
| Frames.HeaderIsShortest | src/impl/wstransport.cpp:381-391 | no header announcing the same length with the same key is shorter than the one written (RFC 6455 section 5.2) |
| Frames.PrefixStable | src/impl/wstransport.cpp:280-296 | a recognised frame is the same in every extension of the buffer |
| Frames.ProperPrefixIsMore | src/impl/wstransport.cpp:246-281 | no proper prefix of an encoded frame within the limit is taken for a frame |
| Frames.EncodeIsInjective | src/impl/wstransport.cpp:370-411 | no two pairs of frame and key share an encoding |
| FrameBytes.EncodeOnWire | src/impl/wstransport.cpp:370-411 | what is written, in numbers: the fields in their bits and bytes, the length in its shortest form, the key before the payload, and octet i of the payload under octet i mod 4 of the key |
| FrameBytes.ParseOnWire | src/impl/wstransport.cpp:244-297 | what is made of any bytes, in the same terms, and exactly when more are waited for |
| FrameBytes.ReservedBitsAreClear | src/impl/wstransport.cpp:379-379 | the bits of the first byte without a use are zero |
| FrameBytes.UnmaskedHello | src/impl/wstransport.cpp:370-411 | the unmasked examples of RFC 6455 section 5.7 |
| FrameBytes.MaskedHello | src/impl/wstransport.cpp:370-411 | the masked ones, a ping, a pong and a CLOSE |
| FrameBytes.LongBinary | src/impl/wstransport.cpp:381-391 | the examples with 256 bytes and with 64 kilobytes |
| WsTransport.ReadLength | src/impl/wstransport.cpp:256-268 | the three length forms are read as the decoder of `Frames` says |
| WsTransport.ReadHead | src/impl/wstransport.cpp:244-276 | so is the whole header, or it is reported incomplete |
| WsTransport.MaskInPlace | src/impl/wstransport.cpp:292-294 | the loop XORs octet i of the stretch it is given with octet i mod 4 of the key and changes no other byte of the buffer |
| WsTransport.WsTransport.constructor | src/impl/wstransport.cpp:44-60 | a fresh transport is disconnected with nothing buffered or sent |
| WsTransport.WsTransport.ChangeState | src/impl/transport.cpp:61-68 | the callback runs only on an actual change, and may call back |
| WsTransport.WsTransport.RunCallback | src/impl/transport.cpp:53-59 | what a callback calls is done, call by call, before it returns |
| WsTransport.WsTransport.Outgoing | src/impl/transport.cpp:72-77 | the message goes to the TCP transport, and the history of the one stays that of the other |
| WsTransport.WsTransport.FrameHeader | src/impl/wstransport.cpp:376-398 | the header built step by step is the encoder's, in the shortest form |
| WsTransport.WsTransport.SendFrame | src/impl/wstransport.cpp:370-411 | the bytes sent encode the payload as it was before masking, with a key exactly for a client, and bytes outside the payload survive |
| WsTransport.WsTransport.ParseFrame | src/impl/wstransport.cpp:244-297 | zero leaves the buffer as it was; otherwise the frame and length of the pure decoder, unmasked in place, with every other byte unchanged; each octet of the payload is the old one under its octet of the key, if there is one |
| WsTransport.WsTransport.Close | src/impl/wstransport.cpp:86-110 | one CLOSE at most; a failed send disconnects, a successful one starts the timer |
| WsTransport.WsTransport.RecvData | src/impl/wstransport.cpp:304-329 | what a first frame does to the state, unfinished messages flushed first |
| WsTransport.WsTransport.RecvContinuation | src/impl/wstransport.cpp:330-345 | what a continuation does, with its cut at the limit |
| WsTransport.WsTransport.RecvFrame | src/impl/wstransport.cpp:299-368 | what any frame does; the bytes after the frame survive, also when a masked PONG is built in the buffer |
| WsTransport.WsTransport.AddOutstandingPing | src/impl/wstransport.cpp:413-418 | the count goes up and the transport fails when it is over the limit |
| WsTransport.WsTransport.ReadFrame | src/impl/wstransport.cpp:156-164 | one round handles the first frame of the buffer, uses up at least two bytes or ends |
| WsTransport.WsTransport.ReadFrames | src/impl/wstransport.cpp:155-164 | the loop ends and does what handling the frames one after the other does |
| WsTransport.WsTransport.AwaitResponse | src/impl/wstransport.cpp:124-130 | the client's half of the handshake |
| WsTransport.WsTransport.SendResponse | src/impl/wstransport.cpp:134-135 | connected only once the response is sent |
| WsTransport.WsTransport.AwaitRequest | src/impl/wstransport.cpp:131-138 | the server's half, with the error reply |
| WsTransport.WsTransport.TryHandshake | src/impl/wstransport.cpp:123-139 | what was used of the buffer is removed from it, and nothing else |
| WsTransport.WsTransport.OnIdle | src/impl/wstransport.cpp:142-147 | a ping with four zero bytes is sent and counted |
| WsTransport.WsTransport.ReadBytes | src/impl/wstransport.cpp:148-166 | what is left of an oversize frame is skipped before frames are read |
| WsTransport.WsTransport.Process | src/impl/wstransport.cpp:117-169 | the part of `incoming` that may throw |
| WsTransport.WsTransport.Lose | src/impl/wstransport.cpp:188-195 | a connected transport disconnects and reports the end; one still connecting fails |
| WsTransport.WsTransport.Incoming | src/impl/wstransport.cpp:112-196 | the whole of `incoming`: its new state and everything it sent, delivered and reported, the calls of callbacks included |
| WsTransport.WsTransport.LowerWritable | src/impl/tcptransport.cpp:423-461 | a socket found broken when it can be written to ends the stream for the transport above |
| WsTransport.WsTransport.SendError | src/impl/wstransport.cpp:214-220 | the error reply is tried, and whether it throws does not matter |
| WsTransport.WsTransport.Start | src/impl/wstransport.cpp:64-70 | connecting, and the client's request; a fresh transport comes to a state of a run |
| WsTransport.WsTransport.Send | src/impl/wstransport.cpp:74-84 | one frame with the type and the payload of the message, and true exactly when the TCP queue is empty after it; an exception when not connected; nothing without a message; the message is noted as one that `send` was given |
| WsTransport.WsTransport.CloseTimeout | src/impl/wstransport.cpp:103-109 | the task of the close timer disconnects |
| WsTheorems.DrainSplit | src/impl/wstransport.cpp:156-164 | reading frames and then more input is reading frames off the longer buffer |
| WsTheorems.FeedSplit | src/impl/wstransport.cpp:112-196 | one chunk is as good as the two it is made of, as long as the first leaves the transport alive |
| WsTheorems.FeedKeepsWellFormed | src/impl/wstransport.cpp:149-161 | while bytes are being skipped the buffer is empty between calls |
| WsTheorems.ChunksAreOneChunk | src/impl/wstransport.cpp:112-196 | a stream that leaves the transport up until its last byte does the same cut into any non-empty chunks, oversize frames across several chunks included |
| WsCuts.CutIsPiece | src/impl/wstransport.cpp:112-196 | any stream cut in any way does what a beginning of it does in one piece: all of it, or as much as took the transport down |
| WsCuts.FeedMonotone | src/impl/wstransport.cpp:112-196 | what the beginning of a stream does is the beginning of what the stream does |
| WsTheorems.ChunkingIndependence | src/impl/wstransport.cpp:112-196 | two ways of cutting such a stream cannot be told apart by anything the transport does |
| WsTheorems.OnePieceIsEnough | src/impl/wstransport.cpp:112-196 | a stream that in one piece leaves the transport alive does so however it is cut, with the same result |
| WsMessages.DrainReadsFrames | src/impl/wstransport.cpp:156-164 | the bytes of any encoded frames are handled as those frames, each cut to the limit |
| WsMessages.ChunkedFrames | src/impl/wstransport.cpp:112-196 | the same for a connected transport and any way of cutting the bytes of frames without a CLOSE, of any opcode |
| WsMessages.ContinuationTakes | src/impl/wstransport.cpp:330-335 | the cuts in the decoder and in the continuation branch compose: the first bytes of all the data so far, up to the limit |
| WsMessages.TruncationLaw | src/impl/wstransport.cpp:278-345 | however a message was fragmented, with whatever pings and pongs in between, what is delivered is the first bytes of its data up to the limit, with the type of its first frame, and every ping is answered |
| WsMessages.HandleItems | src/impl/wstransport.cpp:299-368 | the same for any number of messages with control frames between them, in order |
| WsMessages.EndToEnd | src/impl/wstransport.cpp:112-167 | from a stream of messages and control frames cut anywhere: exactly the messages, in order, whatever callbacks call; and exactly the pongs owed if they call nothing |
| WsMessages.SentMessageArrives | src/impl/wstransport.cpp:74-84 | a message sent by `send` within the receiver's limit arrives byte for byte with its type |
| WsMessages.ClientExpects | src/impl/wstransport.cpp:123-130 | a client takes exactly the response to its own key, whatever follows it |
| WsMessages.ServerExpects | src/impl/wstransport.cpp:131-138 | a server takes exactly any request that can be sent, whatever follows it, and answers it |
| WsMessages.HandOver | src/impl/wstransport.cpp:121-166 | either hands the frame reader exactly the bytes after the other's handshake |
| WsMessages.HandshakeThenMessages | src/impl/wstransport.cpp:112-167 | on either side: the handshake, then messages and control frames, cut anywhere, with the pongs owed |
| WsReader.ReadSplit | src/impl/wstransport.cpp:122-165 | reading bytes and then more bytes finds the frames, and leaves the rest, of reading them at once |
| WsReader.FramesEnd | src/impl/wstransport.cpp:229-297 | for any number of the frames in a stream there is a prefix that holds just them in full |
| WsReader.EncodedFrames | src/impl/wstransport.cpp:229-297 | the frames in encoded bytes are the frames encoded, cut to the limit |
| WsReader.FeedIsHandle | src/impl/wstransport.cpp:141-167 | what a connected transport does with any bytes is to handle the frames in them, as far as none throws |
| WsClose.DownIffClose | src/impl/wstransport.cpp:299-368 | with sends that succeed nothing throws, and frames take a transport down exactly if there is a CLOSE among them, reserved opcodes included |
| WsClose.LivesIffNoClose | src/impl/wstransport.cpp:141-167 | the condition of the chunking theorems holds of a stream of any bytes if and only if no CLOSE is complete before its last byte |
| WsClose.CutsAgreeUpToClose | src/impl/wstransport.cpp:112-196 | for any bytes, up to and with the first CLOSE, of any size, every way of cutting comes to the frames handled one by one |
| WsClose.MuteExactly | src/impl/wstransport.cpp:299-368 | a transport that is down stays silent on frames if and only if they are mute |
| WsClose.CutsAgreeIffMute | src/impl/wstransport.cpp:156-164 | every way of cutting a stream of any bytes comes to the same if and only if the frames after the first CLOSE in it are mute |
| WsClose.FramesAgreeIffMute | src/impl/wstransport.cpp:156-164 | the same of encoded frames, in terms of the frames as they were before they were cut |
| WsClose.ChunkingMattersAfterClose | src/impl/wstransport.cpp:156-164 | the shortest stream for which cutting matters: a CLOSE and a message |
| WsLifecycle.RunInv | src/impl/wstransport.cpp:62-196 | the invariant of every state of every run of one transport, callbacks that call back included |
| WsLifecycle.LegalIsOrderly | src/impl/wstransport.cpp:62-196 | the handshake is sent once and first, at most one CLOSE, no frame and no delivery before the connection, no way back up once down |
| WsLifecycle.Lifecycle | src/impl/wstransport.cpp:62-196 | over every run from one start: the order of everything, messages and the partial message within the limit, and pings outstanding within theirs while connected; a CLOSE was tried exactly if that is noted, and of messages just those that `send` was given, with their types |
| WsLifecycle.SilentPeerFails | src/impl/wstransport.cpp:142-147 | a peer that stays silent is pinged in each idle period and given up exactly when it owes more pongs than the limit, or never without one |
| WsRuns.FrameAssembles | src/impl/wstransport.cpp:299-368 | what a frame does to the messages delivered and to the one being assembled depends on nothing else, whatever callbacks call and also when its answer throws |
| WsRuns.RunAssembles | src/impl/wstransport.cpp:62-196 | over any run, with any sends, closes, idle periods, timeouts and failures between any chunks of any bytes: the messages delivered are a beginning of those in the bytes received, and all of them as long as the transport is connected |
| WsRuns.EndToEndMeanwhile | src/impl/wstransport.cpp:62-196 | the same of encoded messages and control frames: all are delivered, in order, if the transport is still connected at the end |
| WsRuns.StaysConnected | src/impl/wstransport.cpp:62-196 | it is, when sends succeed, no CLOSE comes, nothing times out or ends the stream, and the idle periods stay within the ping limit |
| WsRuns.EndToEndInPeace | src/impl/wstransport.cpp:62-196 | so then every message is delivered, in order |
| WsRuns.OpeningRun | src/impl/wstransport.cpp:121-140 | the same from the first byte of the handshake on: before all of it has come nothing changes but the buffer, unless the transport gives up |
| WsOutput.CloseIsTried | src/impl/wstransport.cpp:356-366 | a CLOSE frame, or one with a reserved opcode, makes a transport that has not tried a CLOSE try one at once, whatever fails and whatever callbacks call |
| WsOutput.CloseIsAnswered | src/impl/wstransport.cpp:356-361 | with sends that succeed: a CLOSE goes back, and the transport is down |
| WsOutput.FramesAnswered | src/impl/wstransport.cpp:299-368 | any frames bring their answers and no other frame |
| WsOutput.OneCloseAmongPongs | src/impl/wstransport.cpp:346-367 | which are the pongs owed, and one CLOSE in the place of the first frame that asks for it |
| WsOutput.AnswersArePongs | src/impl/wstransport.cpp:346-367 | and just the pongs if none does, or a CLOSE has been tried before |
| WsOutput.StreamAnswered | src/impl/wstransport.cpp:112-167 | the same for a stream of any bytes, cut anywhere, up to and with the first CLOSE |
| WsOutput.RunSends | src/impl/wstransport.cpp:62-196 | over any run that leaves the transport connected, just what it sent: a frame of its type for each call of `send`, a ping for each idle period, the answers to what came, and one CLOSE in all when either side first asks for it |
| WsOutput.EndIsReported | src/impl/wstransport.cpp:188-196 | a connected transport goes down and reports the end, any other has failed |
| WsOutput.CloseTimesOut | src/impl/wstransport.cpp:86-110 | a CLOSE that is not answered ends the transport when the time is over |
| WsOutput.ServerShakes | src/impl/wstransport.cpp:131-138 | a server waits, or answers with the error and fails, or answers the key it was asked with and is connected |
| WsOutput.ClientShakes | src/impl/wstransport.cpp:123-130 | a client waits, fails, or is connected |
| Queue.TotalOfOnes | src/impl/queue.hpp:52-55 | without an amount function the amount is the number of elements |
| Queue.Queue.constructor | src/impl/queue.hpp:52-55 | empty, running, amount zero |
| Queue.Queue.Push | src/impl/queue.hpp:90-99 | one look: waits while the queue is full and running, drops the element once stopped, appends it otherwise; the running amount stays right |
| Queue.Queue.Pop | src/impl/queue.hpp:101-111 | takes the front; the running amount stays right |
| Queue.Queue.Exchange | src/impl/queue.hpp:118-125 | replaces the front; the running amount stays right if and only if the two weigh the same |
| TcpTransport.TcpTransport.TrySendMessage | src/impl/tcptransport.cpp:355-382 | what was written and the suffix that is left make up the message, whatever the socket takes at a time |
| TcpTransport.TcpTransport.SocketSend | src/impl/tcptransport.cpp:366-375 | the socket: any count from one to the size, would-block or an error, as the luck of the message has it |
| TcpTransport.TcpTransport.UpdateBufferedAmount | src/impl/tcptransport.cpp:384-394 | a sum below zero counts as zero, any other is exact, and a change is reported; the invariant shows that no caller comes below zero |
| TcpTransport.TcpTransport.TrySendHead | src/impl/tcptransport.cpp:339-350 | one round of the loop keeps bytes and count, whether the head goes out, is cut or breaks the socket |
| TcpTransport.TcpTransport.TrySendQueue | src/impl/tcptransport.cpp:337-353 | true exactly when the queue is empty afterwards, false exactly when the socket would block once |
| TcpTransport.TcpTransport.WriteMessage | src/impl/tcptransport.cpp:128-133 | with nothing queued the message is written, or its rest queued, or the socket breaks on it |
| TcpTransport.TcpTransport.QueueRest | src/impl/tcptransport.cpp:132-133 | with its rest queued a message is taken, and the count is right |
| TcpTransport.TcpTransport.Outgoing | src/impl/tcptransport.cpp:126-136 | the message is written or queued behind the others, and the result says which |
| TcpTransport.TcpTransport.Send | src/impl/tcptransport.cpp:105-116 | bytes are conserved, the count of queued bytes and the last report of it are exact, and the result says whether the queue is empty |
| TcpTransport.TcpTransport.OnWritable | src/impl/tcptransport.cpp:423-428 | the queue is written as far as the socket takes it; a socket found broken disconnects |
| TcpTransport.TakenKept | src/impl/tcptransport.cpp:126-136 | a message of which a part is written and the rest queued behind the others keeps written plus queued equal to what was taken |
| TcpTransport.ThrewKept | src/impl/tcptransport.cpp:371-374 | a message on which the socket breaks leaves on the wire the beginning of what was taken and of it |
| TcpTransport.HeadCut | src/impl/tcptransport.cpp:342-345 | replacing the head by its unsent suffix keeps written plus queued as it was |
| PullAdaptor.PullConserves | src/impl/tlstransport.cpp:244-285 | a read of any size hands out a prefix of what is left |
| PullAdaptor.ReadFits | src/impl/tlstransport.cpp:264-270 | a read returns no more than there is room for, and all of the message it reads if that fits |
| PullAdaptor.RunConserves | src/impl/tlstransport.cpp:516-552 | in every run what was read followed by what is left is what was accepted |
| PullAdaptor.EndExactly | src/impl/tlstransport.cpp:264-278 | when the end of the stream is reported |
| PullAdaptor.FalseEndExactly | src/impl/tlstransport.cpp:255-278 | the end is reported too early if and only if only messages of size zero are left, at least one |
| PullAdaptor.IdleLooksLikeTheEnd | src/impl/tlstransport.cpp:255-270 | the smallest such state: one message of size zero in a running queue |
| PullAdaptor.TrueEnd | src/impl/tlstransport.cpp:264-278 | in runs without such messages the end is reported if and only if the queue is stopped and all was read |
| PullAdaptor.PullAdaptor.NextMessage | src/impl/tlstransport.cpp:253-262 | the loop pops up to the first message with bytes in it and passes the others on |
| PullAdaptor.PullAdaptor.ReadCallback | src/impl/tlstransport.cpp:244-285 | the callback answers as the model of a read says |
| Stack.TriesHaveShape | src/impl/wstransport.cpp:64-110 | every history sends a handshake first, or a refusal and nothing else, and then only whole frames |
| Stack.ClientAsksFirst | src/impl/wstransport.cpp:64-70 | whatever a client goes on to do, the first thing it sends is its request |
| Stack.ServerAnswersFirst | src/impl/wstransport.cpp:131-138 | whatever a server goes on to do, the first thing it sends is its answer to what had come by then: the response to the key it was asked with, or the error |
| Stack.SendIsExpected | src/impl/wstransport.cpp:74-84 | one call of `send` on a connected transport: one message more that the receiver should see, with its type and its bytes |
| Stack.HistoryIsAsked | src/impl/wstransport.cpp:74-84 | what the receiver should see of the history of a transport is what `send` was given, in order |
| Stack.PrefixDelivered | src/impl/wstransport.cpp:112-196 | when the beginning of a handshake and frames has come through, cut anywhere, the first of the messages have been delivered |
| Stack.AllDelivered | src/impl/wstransport.cpp:112-196 | when all of it has, everything before a CLOSE has been delivered |
| Stack.SentIsDelivered | src/impl/tcptransport.cpp:105-136 | any state of any transport, its TCP transport and a receiver: the messages delivered are the first of those sent, the one on which the socket broke at most included; once the TCP queue is empty they are at least all before a CLOSE, and all of them without one; what was sent is what `send` was given |
| Stack.RunDelivers | src/impl/wstransport.cpp:62-196 | a receiver that does what it likes while a handshake and frames come in has delivered a beginning of the messages, and all once all has come if it is still connected |
| Stack.SentIsDeliveredMeanwhile | src/impl/tcptransport.cpp:105-136 | the same from the calls of `send` on the sender's object to the receiver at work: at every moment a beginning of what `send` was given, and all of it if the TCP queue is empty, all has come and the receiver is connected |
| Stack.ServerReceives | src/impl/wstransport.cpp:131-138 | a server just started is such a receiver for a client's request |
| Stack.ClientReceives | src/impl/wstransport.cpp:123-130 | a client that has asked is one for the answer |
| TlsReceive.StepKeepsInv | src/impl/tlstransport.cpp:725-806 | every step of every thread keeps the invariant |
| TlsReceive.NoLostWakeup | src/impl/tlstransport.cpp:23-31 | in every reachable live state a queue that is not empty or is stopped will be looked at, except after an alert outside a receive; the counter is exact; messages are handled in the order they were pushed |
| TlsReceive.QuietMeansDone | src/impl/tlstransport.cpp:707-717 | when no thread is under way, everything pushed to a live transport has been handled |
| TlsReceive.PushedIsHandled | src/impl/tlstransport.cpp:725-806 | at rest everything pushed has been handled, also by a transport that was stopped, unless a message itself ended the stream; and it is live exactly if it was not stopped, or by a missed alert only |
| TlsReceive.StaysLive | src/impl/tlstransport.cpp:725-806 | a transport that nothing stops stays live and running |
| TlsReceive.WhyItEnded | src/impl/tlstransport.cpp:737-806 | one that is not live any more handled a message that ended it, or was stopped and had emptied its queue |
| TlsReceive.PushIsRecorded | src/impl/tlstransport.cpp:707-717 | a message that a running queue takes is behind the others, and its thread goes on to see to it |
| TlsReceive.StopIsForGood | src/impl/tlstransport.cpp:707-712 | a stop from outside or an alert stops the queue, nothing else does, and it stays so |
| TlsReceive.WorkGoesDown | src/impl/tlstransport.cpp:725-806 | every step that is not a new call reduces the work left |
| TlsReceive.NeverStuck | src/impl/tlstransport.cpp:725-806 | unless all is quiet some step can be taken |
| TlsReceive.RunsAreShort | src/impl/tlstransport.cpp:725-806 | so without new calls the machine comes to rest within a known number of steps, whatever the scheduler does |
| TlsReceive.AlertWhileSendingIsMissed | src/impl/tlstransport.cpp:820-830 | an alert outside a receive stops an idle transport and nothing ever follows by itself |
| Processor.StepKeepsInv | src/impl/processor.hpp:58-72 | every step keeps the invariant |
| Processor.SerialInOrder | src/impl/processor.cpp:17-31 | tasks start and complete in the order enqueued, once each and one at a time, also when they throw, and `join` sees its condition exactly when all have completed and been followed up |
| Processor.EnqueueIsRecorded | src/impl/processor.hpp:58-72 | a task given to `enqueue` is behind the others, or waits for room and then is |
| Processor.NeverStuck | src/impl/processor.cpp:22-31 | without a limit, while `join` waits some step can be taken |
| Processor.RunsAreShort | src/impl/processor.cpp:17-31 | and no more steps than there is work are possible |
| Processor.BlockedForGood | src/impl/processor.hpp:58-72 | an `enqueue` that waits for room waits forever, and so does `join` |
| Processor.DeadlockIffBounded | src/impl/processor.cpp:13-13 | that can happen if and only if there is a limit |
| ThreadPool.StepKeepsInv | src/impl/threadpool.cpp:57-95 | every step keeps the invariant |
| ThreadPool.JoinIsQuiet | src/impl/threadpool.cpp:34-49 | in every reachable state the count is that of the workers that began and neither wait nor have left, so that none runs a task when `join` finds it zero nor until it returns |
| ThreadPool.JoinIsNeverStuck | src/impl/threadpool.cpp:42-48 | while `join` waits for the workers one of them can move, unless all have left |
| ThreadPool.JoinAdvances | src/impl/threadpool.cpp:57-95 | each such move brings the end nearer |
| ThreadPool.JoinBegins | src/impl/threadpool.cpp:34-55 | `join` begins when nobody is busy and calls everybody who waits; `clear` forgets every task that has not started |
| ThreadPool.JoinLeavesNobody | src/impl/threadpool.cpp:42-48 | when `join` returns there is no worker, the pool is as before it and the tasks not started are still there |
| ThreadPool.WorkerMoves | src/impl/threadpool.cpp:71-95 | a worker that looks for a task leaves, or takes one that is due, or waits if none is |
| ThreadPool.ScheduleIsRecorded | src/impl/threadpool.hpp:95-114 | a scheduled task is pending under an identity of its own |
| ThreadPool.NoTaskForgotten | src/impl/threadpool.cpp:76-93 | when all workers wait, one of them wakes up by itself no later than the earliest task is due |
| ThreadPool.StartsAreRight | src/impl/threadpool.hpp:95-114 | every start takes a task scheduled before and still pending, not before its time, with no pending task of an earlier time |
| ThreadPool.StartsOnce | src/impl/threadpool.cpp:73-83 | no task starts twice |
| Channel.Channel.AvailableAmount | src/impl/websocketimpl.cpp:175-175 | the sum of the sizes of the messages that wait |
| Channel.Channel.Next | src/impl/channel.cpp:68-74 | the first message moves from those that wait to those handed out |
| Channel.Channel.Receive | src/impl/websocketimpl.cpp:165-168 | the first message that waits, if any |
| Channel.Channel.FlushPendingMessages | src/impl/channel.cpp:64-79 | the loop does what the specification says, whatever the callback does; nothing on a channel that is not open |
| Channel.Channel.OnMessage | src/channel.cpp:32-35 | setting the callback hands out what waits, if the channel is open |
| Channel.Channel.ResetCallbacks | src/impl/channel.cpp:86-94 | no callback, and not open any more |
| Channel.Channel.TriggerOpen | src/impl/channel.cpp:14-22 | opening comes first, then what waits is handed out |
| Channel.Channel.Incoming | src/impl/websocketimpl.cpp:189-199 | the message is accepted behind the others and handed out if it can be, or the caller waits while the queue is full |
| ChannelSpec.FlushPendingMessages | src/impl/channel.cpp:64-79 | when it returns nothing waits that the callback could be given, whatever the callback did; order kept, nothing handed out twice, nothing lost |
| ChannelSpec.OnMessage | src/channel.cpp:32-35 | the same after the callback was set |
| ChannelSpec.TriggerOpen | src/impl/channel.cpp:14-22 | the same after the opening |
| ChannelSpec.Accept | src/impl/websocketimpl.cpp:195-198 | the same with one message more accepted, behind the others |
| ChannelSpec.OpenFirst | src/impl/channel.cpp:64-79 | a message only reaches the message callback on a channel opened and not reset since, but for a reset made in the flush that hands it out, which is still running and began on an open channel |
| ChannelSpec.NotWithOne | src/impl/channel.cpp:64-79 | a flush on a channel that is not open or has no callback, or with at most one message waiting, hands out nothing on a channel that is not open, whatever user code does |
| ChannelSpec.WithTwo | src/impl/channel.cpp:64-79 | with two, a callback that resets the channel and sets itself again is given the second |
| ChannelSpec.StrayIff | src/impl/channel.cpp:64-79 | so some user code brings that about if and only if the channel is open, has the callback and two messages wait |
| ChannelSpec.Receive | src/impl/websocketimpl.cpp:165-168 | a message that is returned has left the queue and is recorded |
| ChannelSpec.QuietCalls | src/impl/channel.cpp:14-79 | when callbacks call nothing: just what opening, setting the callback, a message that arrives and a reset do, every message handed out once |
| ConnectionSpec.LaterPlace | src/impl/websocketimpl.cpp:425-448 | between two openings every event has a later place than the one before: at most one open and one closed callback, in that order, and states only forward |
| ConnectionSpec.EveryOpeningEnds | src/impl/websocketimpl.cpp:478-516 | as many closed callbacks as openings, less one while a connection is not closed, and no more open callbacks than openings |
| ConnectionSpec.Outside | src/impl/channel.cpp:14-38 | whatever foreign code calls, histories stay in order and a closed connection has empty slots |
| ConnectionSpec.CloseTransports | src/impl/websocketimpl.cpp:478-516 | once per connection: closed, slots empty, closed callback; closed when it returns, unless that opened again |
| ConnectionSpec.Close | src/impl/websocketimpl.cpp:139-149 | from connecting or open to closing, and to closed when there is no WebSocket transport to wait for |
| ConnectionSpec.RemoteClose | src/impl/websocketimpl.cpp:151-155 | closed when it returns, unless a callback opened again |
| ConnectionSpec.OwnCallbackDecides | src/impl/websocketimpl.cpp:151-155 | on a connection that is closing it leaves what its own closed callback leaves |
| ConnectionSpec.OpenedInsideIsClosed | src/impl/websocketimpl.cpp:139-155 | whatever is opened while the nested `close` runs is closed again before it returns |
| ConnectionSpec.LeftAsItIsIffClosing | src/impl/websocketimpl.cpp:139-155 | without a WebSocket transport: for all user code what the closed callback of this connection leaves is what remains, if and only if the connection was closing already |
| ConnectionSpec.CanBeUndoneIffLiving | src/impl/websocketimpl.cpp:139-155 | with or without one: some user code loses what it opened inside the nested `close`, if and only if the connection was connecting or open |
| ConnectionSpec.ReopenedStands | src/impl/websocketimpl.cpp:139-155 | without one, a callback that opens the first n times, at any addresses, leaves a connection exactly if n is at least one when it was closing already, and at least two when it was not |
| ConnectionSpec.ReopenedAfterStop | src/impl/websocketimpl.cpp:139-155 | with one that is quiet while it is stopped, exactly if n is at least one |
| ConnectionSpec.DownWhileStopped | src/impl/websocketimpl.cpp:139-155 | with one that goes down as it is stopped, exactly if n is at least two |
| ConnectionSpec.OpenUrl | src/impl/websocketimpl.cpp:69-137 | only a closed connection opens; a failure leaves it closed |
| ConnectionSpec.TryStart | src/impl/websocketimpl.cpp:203-217 | a transport goes into its slot and starts; the slot is given back when that fails or the connection was closed meanwhile |
| ConnectionSpec.Init | src/impl/websocketimpl.cpp:269-274 | what throws, or cannot be begun, closes the connection |
| ConnectionSpec.InitTlsTransport | src/impl/websocketimpl.cpp:324-391 | a TLS transport needs a TCP transport, and is set once |
| ConnectionSpec.InitWsTransport | src/impl/websocketimpl.cpp:393-460 | a WebSocket transport needs what is below it, and is set once |
| ConnectionSpec.OnTcpState | src/impl/websocketimpl.cpp:235-260 | coming up with the next slot taken changes nothing; with nothing to build on it is the end |
| ConnectionSpec.OnBroken | src/impl/websocketimpl.cpp:248-251 | a transport that failed is the end, after the error callback |
| ConnectionSpec.OnLowerDown | src/impl/websocketimpl.cpp:252-255 | a lower transport that goes down is the end while connecting, and nothing later |
| ConnectionSpec.OnWsState | src/impl/websocketimpl.cpp:425-448 | the open callback runs exactly on coming from connecting; failing or going down is the end |
| ConnectionSpec.ConnectionTimeout | src/impl/websocketimpl.cpp:518-532 | a connection still connecting is closed |
| ConnectionLife.OpeningLeadsToOpen | src/impl/websocketimpl.cpp:222-460 | from `open` on, with transports that come up one after the other: the connection is open with just the transports that the address needs, and the open callback has run |
| ConnectionLife.TcpComesUp | src/impl/websocketimpl.cpp:235-247 | a TCP transport that comes up starts the TLS transport, or the WebSocket transport if there is no TLS |
| ConnectionLife.TlsComesUp | src/impl/websocketimpl.cpp:346-356 | a TLS transport that comes up starts the WebSocket transport |
| ConnectionLife.WsComesUp | src/impl/websocketimpl.cpp:425-434 | a WebSocket transport that comes up opens the connection |
| ConnectionLife.TroubleEnds | src/impl/websocketimpl.cpp:235-260 | a transport that fails ends a connection, and so does one that goes down or a timeout while connecting: closed, slots empty, closed callback |
| ConnectionLife.WholeLife | src/impl/websocketimpl.cpp:69-155 | opened, brought up, closed from this side and over: every event in its place, and the connection can be opened again |
| Connection.Connection.Outside | src/impl/channel.cpp:14-38 | the loop does what the calls of the script do, one after the other |
| Connection.Connection.TriggerOpen | src/impl/channel.cpp:14-22 | the object runs the open callback as the specification does |
| Connection.Connection.TriggerClosed | src/impl/channel.cpp:24-30 | and the closed callback |
| Connection.Connection.CloseTransports | src/impl/websocketimpl.cpp:478-516 | the steps of the source come to the specified state and history |
| Connection.Connection.Close | src/impl/websocketimpl.cpp:139-149 | the same for closing |
| Connection.Connection.RemoteClose | src/impl/websocketimpl.cpp:151-155 | the same for closing from the other side |
| Connection.Connection.OpenUrl | src/impl/websocketimpl.cpp:69-137 | the same for opening, which also says whether the connection is secure |
| Connection.Connection.TryStart | src/impl/websocketimpl.cpp:203-217 | the same for setting and starting a transport |
| Connection.Connection.EmplaceTransport | src/impl/websocketimpl.cpp:202-220 | and for stopping one that was taken out again |
| Connection.Connection.SetTcpTransport | src/impl/websocketimpl.cpp:222-275 | the same for the TCP transport |
| Connection.Connection.InitTlsTransport | src/impl/websocketimpl.cpp:324-391 | the same for TLS |
| Connection.Connection.InitWsTransport | src/impl/websocketimpl.cpp:393-460 | the same for WebSocket |
| Connection.Connection.OnTcpState | src/impl/websocketimpl.cpp:235-260 | the same for state changes of the TCP transport |
| Connection.Connection.OnTlsState | src/impl/websocketimpl.cpp:346-366 | of the TLS transport |
| Connection.Connection.OnWsState | src/impl/websocketimpl.cpp:425-448 | of the WebSocket transport |
| Connection.Connection.ConnectionTimeout | src/impl/websocketimpl.cpp:518-532 | and for the timeout |

## Left out

- SHA-1 is any function from text to bytes; random keys and nonces are arbitrary values.
- Sockets, name resolution, polling, TLS library calls, certificates and logging are not modelled. A
  socket send returns any count from one to the size, would-block or an error; the TLS input is a sink.
- The C API, address parsing and percent-decoding, proxies, configuration and the library's start-up
  token are plumbing. The proxy slot, which closing does not clear, goes with the proxy.
- The number a peer sends in a status line is read without a minus sign and without overflow.
- 64-bit frame lengths are not wrapped: the position after a frame whose length has the top bit set is
  not modelled as the source computes it. RFC 6455 section 5.2 forbids such lengths.
- A little-endian host is assumed for `htonll`, as the source assumes.
- A continuation frame with no message begun uses the opcode the field happens to hold; the model lets
  it be any value given to the constructor.
- The counter of outstanding pings does not overflow.
- Callbacks of a WebSocket transport may call `send` and `close` on it, which is what is public; a TLS
  transport between it and TCP is not modelled there, nor is the callback for buffered amounts.
- When several headers share a key the first is used, as multimap implementations do.
- Calls on a TCP transport are atomic: the poll callback flushes the queue without the mutex in one
  place, and that race is not modelled; nor is the direction that is polled for.
- Closing a TCP or TLS transport drops what it holds; nothing is claimed about it. Progress of `close`
  while the handshake is still going on is not claimed either.
- The TLS receive machine begins when `start` has set the state; failing to lock the weak pointer while
  the object is being destroyed is not modelled.
- The priority queue of the thread pool is a map whose top is any entry with the least time; two joins
  at once and callers that run pool tasks on threads of their own are not modelled.
- Channel.Channel.Incoming: a caller that waits is told so and tries again; that it is woken up is not
  part of the model.
- Peeking at the receive queue of a channel, which moves the payload out of the message it shows, is
  not modelled, nor are the error, available and low-amount callbacks beyond the calls they may make.
- ConnectionSpec.Outside: foreign code makes any number of calls, but finitely many in all; what it does
  to transports other than through the connection is not modelled.

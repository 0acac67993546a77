# Verified models of the libsevent core

libsevent is a C event library: a `select` loop, TCP streams, an HTTP/1.1 server and a WebSocket
layer. This project models the stateful parts of it in Dafny and proves what they promise, over every
input, every run and every interleaving the model admits.

| file | what it models |
|---|---|
| `Bytes.dfy` | bytes, exclusive or, big-endian numbers |
| `WsFrame.dfy` | the frame header codec and masking |
| `Utf8.dfy` | UTF-8 as an encode/decode pair, and the validator loop |
| `WsReceiver.dfy` | what the WebSocket receive path computes, as functions on a value |
| `WsReassembly.dfy` | the reference reader of whole frames, and the simulation between the two |
| `WsText.dfy` | for which fragment sizes the check of a fragmented TEXT message is right |
| `WsWitness.dfy` | inputs on which the receive path departs from the reference |
| `WsWire.dfy` | control frames and a masked text as bytes on the wire, and what they do |
| `WsConn.dfy` | the receive path as the source has it: buffers, cursors, nested loops, proved equal to the functions |
| `HttpParse.dfy` | request and response framing, as functions and as the cursor loops |
| `HttpWitness.dfy` | whole requests built from their parts and what the parser makes of them, and some written out |
| `HttpConn.dfy` | one HTTP connection with the history its correctness is stated over |
| `HttpServer.dfy` | the server: connections, callbacks, budget, overflow, posts, deferred free, destroy |
| `TcpWriteQueue.dfy` | the linked write queue with partial sends and a delayed half-close |
| `IntrusiveList.dfy` | the loop's doubly linked lists and death chains, pointer by pointer |
| `Timers.dfy` | catch-up timers |
| `EventLoop.dfy` | the loop's phases interleaved with requests from callbacks and other threads |
| `Sha1.dfy` | FIPS 180-4 SHA-1 and the streaming implementation |
| `Sha1Digits.dfy` | its operations digit by digit, its constants from their definitions, its padding in parts |

Where the source changes things step by step the model is a class or a method with loops, and its
contract ties it to a function or an invariant; what the source promises is then proved about those.
Fields called `history` in comments are never read by a decision; they only carry what a theorem
speaks about.

## Main results

- **Cut invariance.** For every byte stream and every division of it into pushes of at most half the
  receive buffer, the WebSocket connection is where reading whole frames, unmasking and concatenating
  says it is (`Reassembles`, `WholeFrames`, `CutInvariant`): same verdict, same messages, one fin
  callback per uncompressed message carrying the sum of the payload lengths, every earlier callback
  carrying 0, and for a compressed message the payload bytes in order followed once by the 00 00 FF FF
  tail. Once the code and the standard part (an odd frame, or BadText on a large TEXT frame) what was
  delivered before still agrees (`Sim`). The verdict on TEXT is the standard's under a sufficient
  condition on the frame sizes (`VerdictIsStandard`). The overflow branch is unreachable
  (`NeverOverflows`).
- **HTTP runs.** For every sequence of events, every behaviour of the application callbacks and every
  pattern of posts (`Serve`): no continuation is lost, dispatches and completions alternate with one
  response or one stream of writes between them and nothing after FIN, every transition is registered,
  the dispatched requests are the first ones of repeated parsing of the received bytes, deferred free is
  safe, cleanup is queued once per connection, and a destroyed server leaks no connection. No connection
  closes without a cause on record, every cause is tied to a call of the application, an event or the
  bytes themselves (`Truthful`, `Blamed`), and each dispatched request reaches the application once
  (`Called`): a connection that nobody asked to close, that data never overflowed and whose stream did
  not end early has dispatched *all* that repeated parsing finds, on every division into pushes and
  every yield (`CompleteDispatch`). What a connection sends of the application is, in order, the data of
  the calls that were accepted on it (`OutputsAreCalls`).
- **Event loop.** Under every interleaving each node is in exactly one of live list, death lists and
  freed memory, the snapshot and the expired array never hold freed memory, nothing is called after it
  was unregistered, each node is freed once by the time the loop is destroyed, posts run first in first
  out. In the serving phase a handler that is live when its turn comes is called exactly when its
  descriptor is ready for what it registered, for reading before writing, whatever is requested between
  two turns (`ServePhase`). A live timer is charged exactly what select reported for the timers since its
  registration, plus what was held back at that moment (`ChargedExactly`), and its calls are
  floor(elapsed / interval) if and only if it lost less than it has left.
- **Codecs.** The frame header and masking round trips, with masking fixed digit by digit
  (`MaskExactly`) and control frames as bytes on the wire (`ClientControl`, `ServerControl`), UTF-8 in both
  directions, SHA-1 over every division into updates, and the token scan. A request built from its parts,
  fields and body comes back with the method of that name, those parts, and what its tokens say
  (`RequestRoundTrip`); the HTTP parse is stable under extension.

## Where the code departs from what one would expect

Each is proved for the code as it is, with the condition under which it meets the expectation.

- A streamed CONT frame in a message already in STREAM mode does not first flush what a small CONT left
  in `frag_buf`; those bytes are overtaken and may be dropped at the end (`FragmentLost`). A message is
  delivered intact if and only if no byte was delivered past held bytes (`Match`, `ChunkMatches`,
  `CleanIsWhole`). That no message is `risky` is a condition on the frame sizes alone under which this
  cannot happen; it counts every frame as one that may be streamed that is, with the longest header of
  14 bytes, over half the buffer, and so is sufficient, not necessary.
- A compressed message whose last accumulation exactly fills the buffer gets no fin callback: if and
  only if for every message (`EndMatches`), and over whole runs for every message in one frame or in
  fragments too small to be streamed (`CompressedFinExactly`); three frames that show it are in
  `CompressedFinMissing`.
- With deflate negotiated, a whole frame with a reserved data opcode, RSV1 and FIN is inflated, while the
  same frame streamed is rejected (`RejectsExactly`, `OddVerdictDependsOnCut`); 604 wire bytes on which two
  divisions disagree are in `OddAccepted`.
- UTF-8 is checked on whole TEXT frames and on the last accumulation of fragmented ones only. Invalid text
  is accepted (`InvalidTextAccepted`: the same bytes are refused in one piece), and valid text is
  refused when a character is cut (`ValidTextRefused`). For fragments too small to be streamed the check
  decides UTF-8 for all contents of the given sizes if and only if the message has less than recv_cap
  bytes (`TextSizesExactly`); and a stream in which no checked TEXT message has a frame that may be
  streamed (again counted with 14 header bytes) and no fragmented one reaches recv_cap gets the verdict
  of section 8.1 of RFC 6455 on every division (`VerdictIsStandard`). This condition is sufficient.
- A CLOSE payload of one byte, which section 5.5.1 of RFC 6455 does not allow, counts as code 1000; all
  other bodies are judged as the section says (`CloseExactly`).
- Ending a response inside the request callback is accepted with no output at all (`EmptyReplyExactly`).
- Closing a TCP connection keeps a pending half-close, so the next connection on the same object sends
  an unrequested FIN after its first drained write (`UnaskedHalfClose`). In an epoch in which nobody asks
  for one, a FIN has gone out if and only if one was pending at the start and none is now
  (`UnaskedExactly`).
- Only the first two Content-Length fields are compared, and an empty value counts as 0. The parser agrees
  with section 8.6 of RFC 9110 exactly on the lists of values it refuses and on those without an empty
  value whose values from the third on repeat the first (`StandardExactly`), and whole requests are
  framed by such a list as it is read (`SizesDecide`); `SizesAgainstStandard` has two that are accepted
  against the standard.
- A timer that is due but not among the first 32 of its round is not called in it. It is due again 1 ms
  later and may lose its place again: it is called in the first later round that ticks in which fewer
  than 32 timers before it in the list expire (`CalledExactly`, `DroppedThenDue`), which may be never
  (`Starve`). Each time its schedule falls back for good by what it was overdue and 1 ms
  (`LostExactly`, `ThirtyThird`, `TwoTurns`). Calls scheduled are floor(elapsed / interval) if and only if
  a timer lost less than it has left (`NoDrift`); the bound of 100 calls per round loses nothing.
- A timer registered by a callback of a round is charged what select waited before it existed, and can be
  called early (`EarlyCall`). It is charged the time since its registration if and only if no time was
  held back then (`ChargedExactly`).

## Model

| member | source | states |
|---|---|---|
| `WsFrame.ParseHeader` | src/websockets/ws_frame.c:25-78 | a complete header lies in the buffer, and asking for more is limited to the first 14 bytes |
| `WsFrame.ParseHeaderStable` | src/websockets/ws_frame.c:25-78 | a verdict other than "need more" is the verdict on every longer buffer |
| `WsFrame.BuildParse` | src/websockets/ws_frame.c:25-127 | parsing a built header followed by any bytes returns the same fields and the header's length, for every length below 2^63 |
| `WsFrame.BuildStrictPrefix` | src/websockets/ws_frame.c:25-127 | every strict prefix of a built header asks for more |
| `WsFrame.MaskTwice` | src/websockets/ws_frame.c:80-88 | masking is its own inverse at every offset |
| `WsFrame.MaskPartition` | src/websockets/ws_frame.c:84-88 | masking any partition with a running offset is masking the whole |
| `WsFrame.ReadHeader` | src/websockets/ws_frame.c:25-78 | the byte-by-byte reading, with its length loop, computes the parse function |
| `WsFrame.WriteHeader` | src/websockets/ws_frame.c:90-127 | the writes with a moving offset produce exactly the built header and touch nothing behind it |
| `WsFrame.ApplyMask` | src/websockets/ws_frame.c:84-88 | every byte of the range becomes its exclusive or, digit by digit, with the key byte of its running index modulo 4, in place; the rest is unchanged |
| `WsFrame.MaskExactly` | src/websockets/ws_frame.c:84-88 | bytes are the masked ones if and only if every binary digit is one exactly when one of the digits of the byte and of its key byte is |
| `Bytes.XorDigits` | src/websockets/ws_frame.c:84-88 | each of the eight digits of an exclusive or, written by division and remainder |
| `Utf8.EncodeDecode` | src/websockets/ws_conn.c:100-160 | encoding what valid bytes decode to gives the bytes back |
| `Utf8.DecodeEncode` | src/websockets/ws_conn.c:100-160 | decoding an encoding gives the scalar values back, so no two sequences share an encoding |
| `Utf8.ValidIffUtf8` | src/websockets/ws_conn.c:100-160 | a byte string is valid if and only if it is the encoding of some sequence of Unicode scalar values |
| `Utf8.Validate` | src/websockets/ws_conn.c:100-160 | the index loop returns true exactly on valid byte strings |
| `WsReceiver.CloseExactly` | src/websockets/ws_conn.c:888-918 | a CLOSE body is taken exactly when section 5.5.1 of RFC 6455 allows it or it is one byte; else a protocol error for the code, or a bad reason |
| `WsReceiver.ProcessFramesSettles` | src/websockets/ws_conn.c:922-1086 | after the frame loop the residue is at most cap / 2, and empty while a frame is being streamed |
| `WsReceiver.OnDataSettles` | src/websockets/ws_conn.c:1111-1141 | a push keeps that, and stream_remaining > 0 implies STREAM mode |
| `WsReceiver.NeverOverflows` | src/websockets/ws_conn.c:1103-1141 | over whole runs, pushes of at most cap / 2 never reach the overflow branch |
| `WsReassembly.ReadInPieces` | src/websockets/ws_conn.c:922-1086 | the reference reader can stop after any byte and go on later |
| `WsReassembly.RejectsExactly` | src/websockets/ws_conn.c:1004-1078 | the checks on the header of a whole frame reject exactly what sections 5.1, 5.2, 5.4 and 5.5 of RFC 6455 forbid, except the reserved opcodes with RSV1 and FIN; CLOSE bodies are a matter of `CloseExactly` |
| `WsReassembly.StreamRejectsExactly` | src/websockets/ws_conn.c:943-990 | the checks of the streaming branch reject exactly what the rules forbid |
| `WsReassembly.AppendKeeps` | src/websockets/ws_conn.c:684-723 | adding a fragment, with or without a flush before it, keeps delivered and held bytes at their offsets in the message |
| `WsReassembly.FlushKeeps` | src/websockets/ws_conn.c:744-806 | so does handing over a full fragment buffer |
| `WsReassembly.EndMatches` | src/websockets/ws_conn.c:726-806 | the end of an accumulated message delivers exactly the rest of it; the fin of a compressed one is missing if and only if the accumulation is exactly the capacity |
| `WsReassembly.ChunkMatches` | src/websockets/ws_conn.c:279-324 | a streamed chunk extends the message, and spoils it if and only if bytes are held |
| `WsReassembly.SingleMatches` | src/websockets/ws_conn.c:825-860 | a message in one frame is delivered whole, compressed or not |
| `WsReassembly.CleanIsWhole` | src/websockets/ws_conn.c:963-976 | without overtaking the delivered bytes are the message; with it some byte was delivered at another offset than its own |
| `WsReassembly.FrameAgrees` | src/websockets/ws_conn.c:825-1086 | a whole frame does to the connection what the reference does |
| `WsReassembly.StartAgrees` | src/websockets/ws_conn.c:943-1003 | starting to stream a frame keeps the correspondence, or rejects a frame that breaks the rules |
| `WsReassembly.ConsumePart` | src/websockets/ws_conn.c:279-324 | consuming part of a streamed frame keeps the correspondence inside the frame |
| `WsReassembly.ConsumeRest` | src/websockets/ws_conn.c:279-324 | consuming the rest of it reaches the frame boundary of the reference |
| `WsReassembly.ProcessSim` | src/websockets/ws_conn.c:922-1086 | the frame loop simulates reading whole frames |
| `WsReassembly.OnDataSim` | src/websockets/ws_conn.c:1111-1205 | one push continues the simulation |
| `WsReassembly.EndCheck` | src/websockets/ws_conn.c:744-806 | the end of a message in small fragments is refused exactly when its last accumulation does not fill the buffer and is not UTF-8 |
| `WsReassembly.Reassembles` | src/websockets/ws_conn.c:279-1205 | for every stream and every division into pushes the connection is where the reference reader of the whole stream is; if that stopped at an odd frame, all items before it were delivered first; after BadText with a checked TEXT frame that may be streamed, what was delivered are the first items |
| `WsReassembly.WholeFrames` | src/websockets/ws_conn.c:684-1205 | on whole frames without odd ones and without large checked TEXT frames the verdict is the reference's, BadText included, every message and control frame is accounted for in order, and nothing is left behind |
| `WsReassembly.CutInvariant` | src/websockets/ws_conn.c:279-1205 | two divisions of one such stream without risky messages give the same verdict, messages and control frames, and the same fin callbacks but those of compressed messages with a fragment that may be streamed |
| `WsReassembly.CompressedFinExactly` | src/websockets/ws_conn.c:726-806 | on every division, the fin callback of a compressed message in one frame comes, and that of one in small fragments comes if and only if its last accumulation is not the capacity |
| `WsReassembly.StrictFailsExactly` | src/websockets/ws_conn.c:744-860 | the standard's reading fails exactly on the frame that ends a TEXT message that is not UTF-8 |
| `WsReassembly.VerdictIsStandard` | src/websockets/ws_conn.c:684-1205 | with no large checked TEXT frame and no fragmented checked TEXT message of recv_cap bytes, every division gives the standard's verdict and the messages before it |
| `WsText.TextSizesExactly` | src/websockets/ws_conn.c:684-806 | for small fragments of given sizes the check decides UTF-8 for all contents if and only if they total less than recv_cap |
| `WsWitness.FragmentLost` | src/websockets/ws_conn.c:963-976 | five concrete pushes after which 1200 of 1201 bytes were delivered and fin announces 1201 |
| `WsWitness.OddVerdictDependsOnCut` | src/websockets/ws_conn.c:1017-1039 | the reserved opcode is rejected when streamed and inflated when whole |
| `WsWitness.OddAccepted` | src/websockets/ws_conn.c:943-1039 | 604 wire bytes with a reserved opcode, accepted in one piece and a protocol error in two |
| `WsWitness.TextVerdictDependsOnCut` | src/websockets/ws_conn.c:759-763 | for every TEXT frame that is being streamed: invalid UTF-8 in the whole frame closes the connection, streamed it does not |
| `WsWitness.InvalidTextAccepted` | src/websockets/ws_conn.c:279-324 | 604 wire bytes of invalid TEXT, refused in one piece and delivered in two |
| `WsWitness.CutCharacter` | src/websockets/ws_conn.c:789-793 | there is such a text: 599 letters and a character of two bytes |
| `WsWitness.ValidTextRefused` | src/websockets/ws_conn.c:789-793 | valid TEXT whose last character is cut between a streamed frame and a small one, refused |
| `WsWitness.CompressedFinMissing` | src/websockets/ws_conn.c:766-770 | three compressed frames after which the inflater got everything and no fin callback came |
| `WsWire.ClientControl` | src/websockets/ws_conn.c:874-918 | a client in any message answers [0x89, n] with a pong of the same payload, takes [0x8A, n], and closes with the code in [0x88, 2] |
| `WsWire.ServerControl` | src/websockets/ws_conn.c:1052-1075 | so does a server, for every key, with the payload unmasked digit by digit |
| `WsWire.UnmaskChunks` | src/websockets/ws_frame.c:84-88 | wherever a masked payload is cut, unmasking the chunks with the running offset gives the bytes it stands for digit by digit |
| `WsWire.UnmaskHello` | src/websockets/ws_frame.c:84-88 | five literal bytes with four different key bytes, in chunks of three and two |
| `WsWire.HelloDelivered` | src/websockets/ws_conn.c:922-1141 | eleven masked bytes, however they are divided, deliver the one message "Hello" to a server |
| `WsConn.Receiver.FragAppend` | src/websockets/ws_conn.c:684-723 | the copy into frag_buf, after a flush when it does not fit, is the append function |
| `WsConn.Receiver.MsgEnd` | src/websockets/ws_conn.c:726-741 | the end of a message resets the message state and makes the final calls |
| `WsConn.Receiver.FragFlush` | src/websockets/ws_conn.c:744-806 | the flush loop is the flush function, with its verdict on the tail of a TEXT message |
| `WsConn.Receiver.FragFlushTail` | src/websockets/ws_conn.c:808-823 | what is held is handed over before streaming starts |
| `WsConn.Receiver.StreamConsume` | src/websockets/ws_conn.c:279-324 | unmasking in place at the running offset and delivering is the consume function |
| `WsConn.Receiver.HandleTextBinary` | src/websockets/ws_conn.c:825-860 | first frames: whole message, or the start of a fragmented one |
| `WsConn.Receiver.HandleCont` | src/websockets/ws_conn.c:862-872 | continuation frames |
| `WsConn.Receiver.HandleClose` | src/websockets/ws_conn.c:888-918 | the close verdict |
| `WsConn.Receiver.WholeFrame` | src/websockets/ws_conn.c:1004-1083 | the normal branch, with in-place unmasking, is the frame function |
| `WsConn.Receiver.StartStream` | src/websockets/ws_conn.c:943-1003 | the streaming branch is the start function |
| `WsConn.Receiver.ProcessFrames` | src/websockets/ws_conn.c:922-1086 | the frame loop over recv_pos and recv_len is the recursive frame function |
| `WsConn.Receiver.FrameData` | src/websockets/ws_conn.c:1179-1205 | finish a streamed frame, then whole frames, then move the residue to the front |
| `WsConn.Receiver.OnData` | src/websockets/ws_conn.c:1111-1141 | one push on the buffers is one push of the function, so every theorem about runs holds of the buffers |
| `WsConn.RunConnection` | src/websockets/ws_conn.c:922-1205 | a whole connection on the buffers ends in the state of the function over the whole run |
| `HttpParse.EqualIgnoringCase` | src/http_parse.c:26-40 | equality without regard to ASCII case |
| `HttpParse.CiEqExactly` | src/http_parse.c:26-40 | characters are equal or the upper and lower case of one of the letters of the alphabet |
| `HttpParse.TrimExactly` | src/http_parse.c:52-58 | exactly the blanks and tabs around a text are trimmed |
| `HttpParse.Restart` | src/http_parse.c:52-58 | restarting after the trimmed end of a piece neither misses nor adds a token |
| `HttpParse.ScanForToken` | src/http_parse.c:43-62 | the scan terminates and finds a token if and only if splitting on commas, trimming and comparing without case does |
| `HttpParse.FindHeader` | src/http_parse.c:65-97 | the n-th field of a name, by lines, colon and trimmed value |
| `HttpParse.ReadSize` | src/http_parse.c:226-235 | digits are accumulated below 2^64, and a value is refused exactly when it is not decimal or does not fit |
| `HttpParse.DigitExactly` | src/http_parse.c:226-235 | the digits are the ten characters with the values of their places |
| `HttpParse.LengthExact` | src/http_parse.c:225-254 | a Content-Length is refused if and only if it is not a decimal of at most 2^64 - 1, or a second one is not a decimal or has another value |
| `HttpParse.ReadConnection` | src/http_parse.c:214-223 | keep-alive and upgrade from the Connection and Upgrade fields |
| `HttpParse.RequestLineExactly` | src/http_parse.c:180-205 | a request line is read if and only if it is a verb, a space, a target, a space and the rest, verb and target not empty and without spaces |
| `HttpParse.RequestParts` | src/http_parse.c:190-204 | and then exactly these parts are returned, with the method of that name, kept alive exactly for HTTP/1.1 |
| `HttpParse.MethodExactly` | src/http_parse.c:108-130 | the method is the one whose name the verb is, and unknown exactly for all other verbs |
| `HttpParse.StatusLineExactly` | src/http_parse.c:158-179 | a status line is read if and only if one to three digits follow its first space, up to a space or its end |
| `HttpParse.RefusedExactly` | src/http_parse.c:146-261 | a head is refused if and only if its first line has neither form, its first Transfer-Encoding names chunked, or its first Content-Length is not a decimal below 2^64 that a second one repeats |
| `HttpParse.BadExactly` | src/http_parse.c:132-271 | a buffer with a whole head, however long it is, is refused if and only if the first line, the first Transfer-Encoding or the Content-Length values of the head refuse it |
| `HttpParse.StandardExactly` | src/http_parse.c:225-254 | the verdict on the Content-Length values is that of section 8.6 of RFC 9110 if and only if they are refused, or none is empty and every one from the third on repeats the first |
| `HttpWitness.RequestRoundTrip` | src/http_parse.c:132-271 | a request built from any verb, target, version, fields and body is refused exactly for its fields, waits for its body, or comes back with the method of that name, these parts, flags and body |
| `HttpWitness.PlainRequest` | src/http_parse.c:110-223 | GET without fields is GET, kept, without upgrade |
| `HttpWitness.ClosingRequest` | src/http_parse.c:214-218 | "Connection: close" is not kept |
| `HttpWitness.UpgradingRequest` | src/http_parse.c:219-223 | HEAD with "Connection: Upgrade" and an Upgrade field is HEAD, kept, with upgrade |
| `HttpWitness.SizesDecide` | src/http_parse.c:225-271 | a whole request with any list of such fields is refused, framed with the size it stands for, or incomplete |
| `HttpWitness.SizesAgainstStandard` | src/http_parse.c:225-254 | two whole requests accepted against the standard: three values of which the last differs, and an empty one |
| `HttpParse.ParseBuffer` | src/http_parse.c:132-271 | the cursor loops compute the parse function, of which `RequestSays` and `RequestRoundTrip` state the fields by names and tokens |
| `HttpParse.RequestSays` | src/http_parse.c:132-271 | a complete request has the method, target and version of its first line, is kept and upgraded as the tokens of its Connection and Upgrade fields say, and has the announced body behind its head |
| `HttpParse.ParseStable` | src/http_parse.c:132-271 | a complete or error verdict is the verdict, with the same fields, on every longer buffer |
| `HttpParse.ParseExact` | src/http_parse.c:132-271 | a message is never complete before its last byte |
| `HttpParse.ParseRanges` | src/http_parse.c:207-270 | all returned ranges lie in the input in order, and no length underflows |
| `HttpConn.CompleteOk` | src/http_server.c:599-610 | completing a response goes to parsing or half-closes, and keeps the connection invariant |
| `HttpConn.CompleteLog` | src/http_server.c:599-610 | FIN follows the completion exactly when the application or the request does not keep the connection |
| `HttpConn.RespondOk` | src/http_server.c:628-649 | one respond is one response and one completion |
| `HttpConn.RespondLog` | src/http_server.c:628-649 | the log gains the data given, the completion, and FIN exactly when it closes |
| `HttpConn.WriteOk` | src/http_server.c:651-667 | a write excludes a later respond for the same request |
| `HttpConn.WriteEndOk` | src/http_server.c:669-680 | ending a streamed response completes it |
| `HttpConn.EmptyReplyExactly` | src/http_server.c:673-678 | inside the callback the exchange ends without output exactly when nothing was written |
| `HttpConn.RefuseOk` | src/http_server.c:613-624 | an error response of the server is the last output |
| `HttpConn.RefusalLog` | src/http_server.c:613-624 | the log gains the status and FIN |
| `HttpConn.StatesExactly` | src/http_server.c:186-222 | the registered transitions are these twenty pairs of states |
| `HttpConn.CloseGracefulOk` | src/http_server.c:275-282 | half-close sends FIN once |
| `HttpConn.OpenOk` | src/http_server.c:318-332 | opening starts parsing, or leaves a refused connection with a timer |
| `HttpConn.ReceiveOk` | src/http_server.c:356-358 | received bytes are appended to the ones not consumed |
| `HttpConn.DispatchOk` | src/http_server.c:466-470 | a dispatched request is the next one of the stream and a registered transition |
| `HttpConn.AfterCallbackOk` | src/http_server.c:395-414 | after the callback exactly the request's bytes have left the buffer |
| `HttpConn.TerminateOk` | src/http_server.c:285-292 | termination is a registered transition from every state that is not dead, and stops the timer |
| `HttpConn.ReleaseOk` | src/http_server.c:706-723 | the WebSocket layer gets the unconsumed bytes, the upgrade request first |
| `HttpConn.RequestIsWhole` | src/http_server.c:466 | the consumed bytes of a request parse to the same message on their own |
| `HttpConn.ParseIsSound` | src/http_parse.c:132-271 | the parser is a framing for which everything about connections holds |
| `HttpConn.DispatchesRefineParsing` | src/http_server.c:334-485 | the dispatched requests are a prefix of repeated parsing of all received bytes, and all of it once nothing more can be read |
| `HttpConn.AllDispatched` | src/http_server.c:275-485 | without a cause for closing on record and with no answer outstanding, all requests that can be read were dispatched, also on a closed connection |
| `HttpConn.LogIsExchanges` | src/http_server.c:395-485 | a log in order, closed or not, is a list of exchanges with one response or one stream of writes each, then at most one open one, at most one error response before any output, and one FIN |
| `HttpServer.Server.Respond` | src/http_server.c:628-649 | accepted exactly in REQUEST and AWAIT_RESP before any write; the log then gains the data and the completion, and FIN with CLOSING exactly if the call, an earlier wish or the request asks to close, else PARSING; an asynchronous completion with bytes left queues exactly one continuation |
| `HttpServer.Server.Write` | src/http_server.c:651-667 | accepted exactly while a request is open; the log then gains the data and nothing else |
| `HttpServer.Server.WriteEnd` | src/http_server.c:669-680 | accepted exactly in REQUEST and RESPONDING |
| `HttpServer.Server.Close` | src/http_server.c:682-690 | half-close from every state that is not dying |
| `HttpServer.Server.Release` | src/http_server.c:706-723 | only in REQUEST; the connection leaves the list and its one cleanup is queued |
| `HttpServer.Server.Unlink` | src/http_server.c:225-231 | exactly this connection leaves the list |
| `HttpServer.Server.Callback` | src/http_server.c:318-433 | the calls of this callback and no others, in order, and nothing that was read or dispatched changes |
| `HttpServer.Server.Consult` | src/http_server.c:419-433 | the connections afterwards are the calls of the next callback in order applied to them, or the one whose upgrade nobody handles refused with 400; nothing is read, overflows or ends |
| `HttpServer.Server.NoRequest` | src/http_server.c:451-464 | malformed puts 400 and FIN on the log, a full buffer 413 and FIN, otherwise nothing changes |
| `HttpServer.Server.ServeRequest` | src/http_server.c:465-483 | one request is dispatched, answered or left open, and taken out of the buffer |
| `HttpServer.Server.HttpProcess` | src/http_server.c:435-485 | at most 64 requests per round and work left only after all 64, with a continuation queued; the application is called once for each; a connection closes only for a cause that is true; one that does not parse or has nothing to serve is left alone |
| `HttpServer.Server.OnProcessPost` | src/http_server.c:490-496 | a continuation finds its connection allocated and serves it the same way, or leaves it as it is when there is nothing to do |
| `HttpServer.Server.Drain` | src/http_server.c:343-348 | the overflow loop serves at most 16 budgets, leaves a connection with room alone, gives up with answerable requests only after all 16, and accepts no byte |
| `HttpServer.Server.OnData` | src/http_server.c:334-363 | data that fits, at once or after room was made, is accepted whole and one round of serving follows; only data that does not fit closes, and that is on record |
| `HttpServer.Server.OnOpen` | src/http_server.c:318-332 | the callback's calls, then parsing if and only if none of them closes this connection, with an idle timer in both cases |
| `HttpServer.Server.OnIdle` | src/http_server.c:244-254 | the timer is gone, and the connection is terminated except while a response is streamed |
| `HttpServer.Server.Terminate` | src/http_server.c:285-314 | dead, out of the list, and cleanup queued once, whatever the notification callback does |
| `HttpServer.Server.Accept` | src/http_server.c:820-871 | a new connection at the front of the list |
| `HttpServer.Server.Destroy` | src/http_server.c:972-979 | the cleanup of the server is queued once |
| `HttpServer.Server.OnServerCleanup` | src/http_server.c:946-970 | every connection is closed with its cleanup queued behind everything queued before |
| `HttpServer.Server.OnCleanup` | src/http_server.c:295-299 | the freed connection is dead, was not freed before, and nothing queued or listed names it |
| `HttpServer.Serve` | src/http_server.c:244-979 | the invariant holds after every run |
| `HttpServer.NoLostContinuation` | src/http_server.c:435-496 | a parsing connection whose buffer can be answered or refused has its continuation queued |
| `HttpServer.DeferredFreeIsSafe` | src/http_server.c:284-314 | queued posts name allocated connections; dead exactly when the one cleanup is queued; nothing about a connection follows its cleanup; no timer or list holds it |
| `HttpServer.NothingLeaks` | src/http_server.c:946-979 | after destroy, once the posts have run, every connection was freed |
| `HttpServer.EveryConnection` | src/http_server.c:186-222 | for every connection ever accepted, closed ones too: registered transitions only, one exchange per dispatched request in order with at most the last one open, dispatches that refine parsing |
| `HttpServer.OutputsAreCalls` | src/http_server.c:578-667 | for every connection ever accepted, what it sent of the application is, in order, the data of the accepted calls on it, each of which the application made |
| `HttpServer.Server.CloseNow` | src/http_server.c:349-352 | a connection that is not dying half-closes with the overflow on record |
| `HttpServer.Server.Step` | src/http_server.c:244-496 | each event does to the connections what its callback, post or call does (`Reacts`); an overflow goes on record only when data arrives that does not fit, an early end only by the end of the stream, the idle timer or the end of the server |
| `HttpServer.CompleteDispatch` | src/http_server.c:244-979 | a connection, closed or not, that the application never asked to close, that did not overflow or end early, was not handed over or refused an upgrade, with no answer outstanding and nothing queued, has dispatched all that repeated parsing finds in its bytes |
| `HttpServer.SettledConnection` | src/http_server.c:334-496 | a connection that waits with nothing queued has dispatched and completed every request it received |
| `TcpWriteQueue.SentConserves` | src/tcp_conn.c:213-254 | no send loses, repeats or reorders a byte |
| `TcpWriteQueue.FlushEnds` | src/tcp_conn.c:213-254 | a flush goes on while whole nodes are taken and ends with the empty queue, a partial or refused send, or a fatal one |
| `TcpWriteQueue.FlushConserves` | src/tcp_conn.c:213-254 | what a flush sent and what it left are the queue it began with |
| `TcpWriteQueue.UnaskedExactly` | src/tcp_conn.c:576-581 | without a request a FIN has gone out if and only if one was pending when the epoch began and none is now, and never twice |
| `TcpWriteQueue.UnaskedHalfClose` | src/tcp_conn.c:622-635 | a run in which the FIN asked of one connection is sent on the next |
| `TcpWriteQueue.TcpConn.Enqueue` | src/tcp_conn.c:193-208 | the node is appended at the tail of the linked list |
| `TcpWriteQueue.TcpConn.FlushOne` | src/tcp_conn.c:214-251 | one send: partial, complete, try again or fatal, on the list and on the bytes |
| `TcpWriteQueue.TcpConn.Flush` | src/tcp_conn.c:213-254 | queue, bytes sent and answers used are those of the flush function; the result is the number of nodes left, or -1 exactly after a fatal answer |
| `TcpWriteQueue.TcpConn.Write` | src/tcp_conn.c:583-620 | data is accepted whole and flushed; it fails exactly after a fatal answer; a backlog has write interest; the half-close goes out exactly when it was pending and the queue is empty |
| `TcpWriteQueue.TcpConn.OnWriteReady` | src/tcp_conn.c:414-433 | the backlog is flushed, the connection ends exactly after a fatal answer, and the pending half-close follows the last byte |
| `TcpWriteQueue.TcpConn.Shutdown` | src/tcp_conn.c:554-573 | at once if nothing is queued, else pending |
| `TcpWriteQueue.TcpConn.MaybeShutdown` | src/tcp_conn.c:576-581 | FIN only when every accepted byte was sent |
| `TcpWriteQueue.TcpConn.Close` | src/tcp_conn.c:622-635 | the queue is dropped, a pending half-close is not |
| `TcpWriteQueue.TcpConn.Teardown` | src/tcp_conn.c:130-173 | idle with an empty queue, and what was sent is a prefix of what was accepted |
| `TcpWriteQueue.Run` | src/tcp_conn.c:176-635 | the invariant holds after every run, whatever the socket answers |
| `IntrusiveList.Registry.Add` | src/sevent.c:120-126 | the node is at the front, and all forward and back pointers are right |
| `IntrusiveList.Registry.Delete` | src/sevent.c:128-132 | exactly this node leaves the list through its two neighbours |
| `IntrusiveList.Registry.Find` | src/sevent.c:594-608 | the walk finds a handle if and only if it is in the list |
| `IntrusiveList.Registry.Unregister` | src/sevent.c:591-612 | the node is marked and heads the death chain; a foreign handle changes nothing |
| `IntrusiveList.Registry.FreeDeath` | src/sevent.c:299-308 | every node of the chain is freed once, each link read before its node goes |
| `IntrusiveList.Registry.Destroy` | src/sevent.c:197-236 | every node not freed yet is freed, none twice |
| `Timers.CatchUp` | src/sevent.c:443-448 | the loop fires exactly as often as the interval fits in the overdue time, up to 100 |
| `Timers.TickKeepsTime` | src/sevent.c:439-457 | time passed is time scheduled, the used part of the interval, and time lost |
| `Timers.LostExactly` | src/sevent.c:450-457 | a tick loses the overdue time and 1 ms exactly when the timer is due and the round is full |
| `Timers.NoDrift` | src/sevent.c:430-459 | calls scheduled never exceed floor(elapsed / interval), and equal it if and only if the time lost is less than the time left |
| `Timers.TickLeavesTime` | src/sevent.c:443-448 | a round leaves 0 < remaining <= interval if and only if 100 calls suffice |
| `Timers.TicksNeverDrift` | src/sevent.c:430-459 | the same over any sequence of rounds; with room in every round nothing is lost |
| `Timers.ThirtyThird` | src/sevent.c:450-457 | 33 timers of 10 ms: the last one is not called after 10 ms |
| `Timers.TwoTurns` | src/sevent.c:450-457 | even with room 1 ms later it has one call instead of two after 20 ms |
| `Timers.Starve` | src/sevent.c:439-457 | 33 timers of 1 ms and any number of rounds of 1 ms: the last one is never called, all others in every round |
| `Timers.CalledExactly` | src/sevent.c:439-457 | a timer is called in a round if and only if it is due and fewer than 32 before it in the list are |
| `Timers.DroppedThenDue` | src/sevent.c:450-457 | a dropped timer is due in every later round that ticks and called in it if and only if it has room |
| `Timers.TickAll` | src/sevent.c:437-459 | every live timer ticks; the first 32 that expire are collected in list order |
| `Timers.NextTimeout` | src/sevent.c:347-356 | the select timeout is the least non-negative time left |
| `Timers.ToIntExactly` | src/sevent.c:625 | an interval becomes the one signed 32-bit number that differs from it by a multiple of 2^32 |
| `EventLoop.SnapshotFits` | src/sevent.c:333-343 | descriptors are different and below FD_SETSIZE, so the snapshot bound never drops a handler |
| `EventLoop.Loop.RegisterIo` | src/sevent.c:555-589 | accepted exactly for a descriptor in range, with a callback, and not registered yet |
| `EventLoop.Loop.UnregisterIo` | src/sevent.c:591-612 | the handler goes to the death list, whatever phase the loop is in |
| `EventLoop.Loop.RegisterTimer` | src/sevent.c:616-638 | a timer starts with its whole interval |
| `EventLoop.Loop.UnregisterTimer` | src/sevent.c:640-660 | the timer goes to the death list |
| `EventLoop.Loop.Begin` | src/sevent.c:299-305 | the death lists are detached at the start of a round |
| `EventLoop.Loop.FreeOne` | src/sevent.c:155-168 | each detached node is freed once while others may unregister |
| `EventLoop.Loop.Build` | src/sevent.c:314-365 | the snapshot is the whole live list, and the timeout is the least time left, or 50 ms without timers |
| `EventLoop.Loop.Select` | src/sevent.c:497-533 | what each outcome of select leads to, with the time it hands to the timers spelled out for each: none without timers, at least 1 ms after a bad descriptor |
| `EventLoop.Loop.Serve` | src/sevent.c:367-391 | a handler of the snapshot is allocated, and called exactly when it is still live and its descriptor is readable and it registered to read, or else writable and it registered to write; the log says which |
| `EventLoop.ServePhase` | src/sevent.c:367-391 | over the whole phase, with requests between any two turns, every handler of the snapshot gets one turn in order, served by the sets that select returned |
| `EventLoop.Loop.RunPosts` | src/sevent.c:405-420 | jobs run in the order they were posted; later ones wait for the next round; after the last one every live timer ticks by the time held, and exactly the first 32 expired are to be called |
| `EventLoop.Loop.TickTimers` | src/sevent.c:430-459 | the locked part of the timer phase |
| `EventLoop.Loop.Fire` | src/sevent.c:461-472 | an expired timer is allocated, and called exactly as often as due while it is live |
| `EventLoop.Loop.Destroy` | src/sevent.c:197-247 | all memory is back, each node freed exactly once |
| `EventLoop.Run` | src/sevent.c:477-660 | the invariant holds after every interleaving |
| `EventLoop.HandlerLifetime` | src/sevent.c:299-391 | a handler is in exactly one place, only a live one is unmarked, counts are list lengths, and no snapshot holds a freed one |
| `EventLoop.TimerLifetime` | src/sevent.c:430-473 | the same for timers; no entry of the expired array is freed; every timer not freed keeps its schedule; and the elapsed time of a live one is all that was charged since its registration |
| `EventLoop.ChargedExactly` | src/sevent.c:430-539 | a live timer was charged the time reported since its registration and what was held back then, and only the former if and only if nothing was |
| `EventLoop.EarlyCall` | src/sevent.c:430-539 | a timer of 20 ms registered after a select of 30 ms is called in the same round |
| `EventLoop.UncalledAfterUnregister` | src/sevent.c:374-390 | in every reachable loop, destroyed or not: nothing is called after its unregistration, and nothing at all happens to a node after its one release |
| `EventLoop.LogTellsState` | src/sevent.c:591-612 | a handler is marked exactly when its unregistration is on record, and gone exactly when its release is |
| `EventLoop.PoolFollowsRegistry` | src/sevent.c:120-132 | every step of the state machine on its lists is the step of the linked lists |
| `Sha1.ChoiceBits` | src/websockets/ws_sha1.c:15 | the choice with `or` is the standard's with exclusive or |
| `Sha1.MajorityBits` | src/websockets/ws_sha1.c:17 | so is the majority |
| `Sha1.Step` | src/websockets/ws_sha1.c:28-71 | a step on rotating variables is a round of the standard |
| `Sha1.ReadWord` | src/websockets/ws_sha1.c:40-43 | bytes shifted to their places and joined by `or` are the big-endian word |
| `Sha1.Expand` | src/websockets/ws_sha1.c:39-46 | the array holds the message schedule |
| `Sha1.Transform` | src/websockets/ws_sha1.c:34-78 | the transform is the compression of section 6.1.2 of FIPS 180-4 |
| `Sha1.Context.Update` | src/websockets/ws_sha1.c:89-115 | state, counter and buffer depend only on all bytes fed so far, however they were cut |
| `Sha1.Context.Close` | src/websockets/ws_sha1.c:117-138 | what is fed in the end is the padding of section 5.1.1 with the 64-bit length |
| `Sha1.Context.Final` | src/websockets/ws_sha1.c:117-147 | the digest is that of the padded message |
| `Sha1.HashChunks` | src/websockets/ws_sha1.c:80-147 | for every division into updates the digest is the standard's hash of the joined message |
| `Sha1Digits.FunctionDigit` | src/websockets/ws_sha1.c:15-18 | each digit of the round function: a choice, an odd number of ones, or two ones at least |
| `Sha1Digits.RotationDigit` | src/websockets/ws_sha1.c:12 | a rotation moves every digit cyclically |
| `Sha1Digits.ConstantsAreRoots` | src/websockets/ws_sha1.c:21-24 | the round constants are the integer parts of 2^30 times the square roots of 2, 3, 5 and 10 |
| `Sha1Digits.InitialWords` | src/websockets/ws_sha1.c:80-87 | the initial words are the counting bytes of section 5.3.1 |
| `Sha1Digits.RoundDistances` | src/websockets/ws_sha1.c:28-32 | a round rotates by 5 and 30 |
| `Sha1Digits.EightyRounds` | src/websockets/ws_sha1.c:54-71 | a block takes eighty rounds on eighty words |
| `Sha1Digits.SumWords` | src/websockets/ws_sha1.c:73-77 | the hash value grows word by word modulo 2^32 |
| `Sha1Digits.ScheduleDistances` | src/websockets/ws_sha1.c:39-46 | the schedule starts with the words of the block and goes on with the words 3, 8, 14 and 16 back, rotated by 1 |
| `Sha1Digits.PaddingParts` | src/websockets/ws_sha1.c:117-138 | the message, a one, as few zeros as fill the last block, and the number of bits in 64 bits |
| `Sha1Digits.DigestWords` | src/websockets/ws_sha1.c:140-147 | the digest is the five words, most significant byte first |

## Left out

- TLS (`src/ssl`, `src/tls_conn.c`), zlib, DNS, the acceptor and the platform layer: their behaviour rests on libraries and system calls that are not modelled; the inflater is a sink that never fails.
- The WebSocket handshake, redirects, sending, pings by timer and Base64: mostly text formatting.
- WebSocket callbacks that close or destroy their own connection, failed writes inside them, and a NULL on_message are not modelled; neither is the `SIZE_MAX` check, which cannot fire with a 64-bit size_t, nor wrap-around of the message total.
- HTTP: writes succeed and do not re-enter callbacks, allocation does not fail, posts are accepted, and the text of responses is an opaque string; an upgrade releases and gives up the connection in one step. Stream callbacks come in the order open, data, end. An application uses a connection handle only until its cleanup has run.
- HttpServer.Server.Callback: what the application does in a callback is any list of calls, fixed in advance by the number of the callback; this covers every adaptive application, since all lists are admitted.
- HttpConn.Framing: the server is proved for every framing function that is stable and exact, of which the parser is one.
- TcpWriteQueue.TcpConn.UpdateIo: registration does not fail; `send` returning 0 on a socket is not modelled.
- EventLoop.Loop.Serve: the check of the deleted mark and the call are one step, so a call already past its check while another thread unregisters is not modelled; nor are wake-ups and wall-clock time. Time spent in callbacks is not reported by select and reaches no timer, as in the source.
- Timers.Tick: intervals that do not fit in int are converted as in C, but the counters are unbounded integers.
- WsReassembly.Same: the fin callback of a compressed message in fragments of which one may be streamed is not compared, because the division decides whether it comes.
- The order of response headers, status texts, connection counts, `sevent_dispatch` and the wake-up pipe would only add easy members.

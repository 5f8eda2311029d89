# fim: a verified model of the gateway pump, the wire formats and the connection lifecycles

fim is an instant-messaging system. Gateways hold the WebSocket clients, logic servers do the work, and
relay packets travel between them over TCP. This project models, in Dafny 4.11, the parts of fim in which
concurrency, byte streams or arithmetic decide whether it is right, and proves what those parts promise.
`dafny verify dfyconfig.toml` checks all of it.

## What is modelled

| file | part of fim |
|---|---|
| `Bytes.dfy`, `Streams.dfy` | fixed-width integers; `io.Reader` and `io.Writer` |
| `WireCommon.dfy`, `WireMessage.dfy` | `wire/common.go`, `wire/message.go` |
| `Frames.dfy`, `FrameWriters.dfy` | the frames of `peer/tcp_peer.go`, their reader loop, and the writers that share a connection |
| `Pipeline.dfy`, `Routes.dfy` | packets from one end of a connection to the other, and the routes through the gateway |
| `Handshakes.dfy` | `ConnectServer` and `Handshake.Upgrade` |
| `WsClients.dfy`, `WsLifecycle.dfy` | `peer/ws_client.go`: its decode loop, and its races |
| `TcpLifecycle.dfy` | the states of `peer.Server` under Start, reader exit, Close and Restart |
| `Sequences.dfy` | `peer/seq.go` |
| `Registry.dfy`, `Sessions.dfy`, `Pump.dfy`, `PumpTraffic.dfy`, `ClientPushes.dfy`, `GatewayHub.dfy` | `gateway/wss/hub.go`, with the channel of the proxy and the loop that takes from it |
| `ClientHub.dfy`, `ClientAccounts.dfy`, `ClientTraffic.dfy`, `OvertakenConnects.dfy` | the gateway together with its clients: `gateway/wss/hub.go`, `registClient` and `peer/ws_client.go` as one system |
| `Clusters.dfy` | `lgcluster/cluster.go` and the sending loop of `lgcluster/proxy.go` |
| `LogicServers.dfy` | `lgcluster/cluster.go` and the lives of its servers as one system |
| `Totals.dfy` | sums over maps, for the measures of the step systems |

Concurrent parts are step systems. A step is one atomic operation of the source: a compare-and-swap, a load
or store, a channel operation, the taking of a mutex, one receiver of a relayed message, one use of a field that
another goroutine may clear. The theorems quantify over all sequences of steps. `ClientHub` joins the pump and the
lives of all clients: what a handler finds in a client is there decided by that client's own goroutines.
Sequential code that changes things keeps its form: a class with its fields, or a method with its loop, proved
against a specification function about which the theorems are proved. `GatewayHub.Gateway` does both: each of
its methods is one step of the pump, and `RunUntilQuiet` lets a scheduler choose among them freely.

A reader holds its bytes as a list of non-empty chunks, and one Read never crosses a chunk boundary. A TCP
stream is such a list cut anywhere; a `bytes.Buffer` has at most one chunk. Strings are their bytes, a KSUID
is 20 bytes, a protobuf payload is a byte string, and the target that a kick-out names, if it can be unmarshalled
at all, is an arbitrary function of that string. What the handlers do to the outside (an empty packet sent up, a call of Push or of Close) is a list
of effects. The proxy may be running or not: `gateway/main.go` never starts it, and the theorems say for which of
the two they hold.

## What came out besides the promised properties

Where a promise fails for some inputs, the model keeps what the code does and states exactly when it holds.

* Every login or logout notice is an empty packet: the LoginReq or LogoutReq is built but never attached
  (`gateway/wss/hub.go:160-170`, `gateway/wss/hub.go:191-196`). What the notices are for cannot be seen outside; two
  histories look the same there exactly when they have made equally many calls (`Sessions.OnlyTheNumberShows`).
* When the proxy runs, its loop reads the header of a message that an empty packet does not have
  (`lgcluster/proxy.go:89`), and the process ends. Once the proxy has dealt with everything, the process lives if and
  only if no cleared field was used, no kick-out failed to be unmarshalled, and no notice was sent
  (`ClientAccounts.SurvivalLaw`); a notice is sent exactly when a connect gets past its reads of the Attrs, a
  registered client is disconnected, or a receiver is absent (`ClientAccounts.NoticesSentIff`). So with a running proxy the gateway never rests alive once it has had a client
  (`ClientAccounts.NobodySurvives`).
* When the proxy does not run, nobody empties its channel of capacity 100. A handler that finds it full is blocked for
  as long as nothing is taken (`Pump.BlockedIsForever`, with a run in `Pump.HandlerCanBlock`). In either case a living
  gateway has never sent more than 101 notices and never handled more than 101 connects (`Pump.FewNotices`,
  `Pump.FewConnects`).
* A queue packet without body is never acknowledged (`gateway/wss/hub.go:138-140`). While the process lives, a gateway
  at rest has handled everything exactly when the handler is not blocked and no such packet came before the last one;
  a handler that found nil leaves its own packet unhandled (`Pump.DrainsCompletely`). Behind a packet without body
  nothing is ever handled again (`Pump.StallIsForever`). No producer in the source pushes one.
* `registClient` starts the reader before it queues the connect, so the disconnect event can overtake the connect.
  What follows depends on `clean`. When it sets `Attrs` to nil before the connect handler has read them
  (`gateway/wss/hub.go:164-166`), the handler takes the process with it, and no continuation ever handles the connect
  (`ClientAccounts.CleanedConnectIsFatal`). When the reader is slower, the dead client is registered and stays until a
  kick-out removes it (`Registry.OvertakenConnectStays`). Both happen (`OvertakenConnects.OvertakenAndFatal`,
  `OvertakenConnects.OvertakenAndRegistered`).
* Besides the empty packets, the steps that end the process are exactly the ones in which the log line of `Start` or
  the connect handler reads the `Attrs`, or a Push uses the `conn`, of a client whose reader won and has already set
  that field to nil, or in which a kick-out that has reached somebody cannot be unmarshalled
  (`ClientAccounts.CrashesIff`, `WsLifecycle.WhoFindsTheAttrs`, `WsLifecycle.WhoFindsTheConn`, `Pump.BadKickIff`, with
  runs in `WsLifecycle.AttrsCanBeReadTooLate` and `WsLifecycle.PushCanComeTooLate`).
* While nothing comes from outside, the gateway, its clients and the proxy come to rest (`ClientAccounts.RunsAreShort`).
  While the process lives, before the proxy has met an empty packet and with room in its channel, the map then holds a
  client exactly when it is still Started, or when its disconnect overtook its connect and it was not kicked out since
  (`ClientAccounts.AtRest`).
* A logic server that nobody can report, because its reader ended before it was started or because a Close won, stays
  in the table for good, and every round of the proxy still sends to it (`LogicServers.DeadServerIsServed`).
* `clientNum` is not decremented by a kick-out and is incremented by a connect that overwrites an entry. The two
  reasons together are the exact difference between `clientNum` and the size of the map
  (`Registry.ClientNumCounts`). When no two clients draw the same id, the two are equal exactly as long as nobody has
  been kicked out (`ClientAccounts.ClientNumExact`).
* A Close that won leaves the connection open exactly when it could not write its close message
  (`WsLifecycle.CloseLeaksIffWriteFailed`), and then for ever (`WsLifecycle.FailedCloseLeaksConn`).
* Ids can leave the range 1..65534, and do so exactly when a reset of the sequence loses its race
  (`Sequences.InRangeIffNoResetLost`).
* `Handshake.Upgrade` writes code 200 even when it found no request, because the deferred function starts from
  the OK code. A client is told of success exactly when its request was malformed or judged with 200
  (`Handshakes.SuccessMeans`).
* The reader loop does not skip the body of a ping or a pong. It stays in step behind a frame, whatever follows,
  exactly when that body is a run of bare headers that cause nothing, as the empty one is (`Frames.KeepsInStep`).
  Every caller of WriteControl passes no body.
* A TCP server can be Started although its reader is gone. A start is confirmed without a reader exactly when the
  reader has ended before (`TcpLifecycle.ConfirmMeetsReader`, with a run in `TcpLifecycle.StartedWithoutReader`), and a
  running server can still report its loss exactly when this did not happen and no Close won
  (`TcpLifecycle.ReportPossibleIff`).
* The last swap of a reader is not tied to its generation. A server whose winning Close is still at work is Closed
  instead of Closing exactly when an earlier generation's reader has made its last swap since the win
  (`TcpLifecycle.LateResetIff`, with a run in `TcpLifecycle.LateResetHitsNextGeneration`); no theorem here suffers
  from it.

## Model

| member | source | states |
|---|---|---|
| Bytes.Uint32Bijection | wire/common.go:37-43 | big-endian 32-bit integers and 4-byte strings correspond one to one |
| Bytes.BigEndian | wire/common.go:37-43 | 16-bit and 32-bit numbers are written with the most significant byte first |
| Streams.Reader.Read | wire/message.go:154-157 | one Read fills a prefix of the slice, takes exactly these bytes off the stream, and from a buffer takes min(wanted, available); EOF only when nothing is left |
| Streams.Reader.ReadFull | peer/tcp_peer.go:73-76 | the outcome of io.ReadFull depends only on the bytes of the stream, not on how they are cut; EOF and unexpected EOF are told apart |
| WireCommon.BytesExact | wire/common.go:73-84 | a length-prefixed field is decoded from exactly one byte string, never has 2^32 bytes or more, and nothing behind it is consumed |
| WireCommon.Uint32Exact | wire/common.go:37-43 | a 32-bit field is decoded from exactly its own four bytes |
| WireCommon.ReadBytes | wire/common.go:73-84 | the method does on any reader what the specification says of the bytes left in it, errors included |
| WireCommon.WriteBytes | wire/common.go:144-154 | appends the length, narrowed to 32 bits, and the bytes |
| WireMessage.MessageDecodeExact | wire/message.go:197-227 | Message.Decode accepts exactly the encodings of well-formed messages, possibly short of trailing zeros, and leaves exactly the rest |
| WireMessage.MessageRoundTrip | wire/message.go:197-227 | a message survives encoding and decoding, with the bytes behind it untouched, if and only if it is well formed |
| WireMessage.AcceptedMessagesAreStable | wire/message.go:197-227 | whatever is accepted, even from truncated input, is well formed and survives encoding and decoding |
| WireMessage.RelayDecodeExact | wire/message.go:332-412 | RelayPacket.Decode accepts exactly the encodings of well-formed packets, possibly short of trailing zeros of the message; no receiver is made up although the receiver loop drops its errors |
| WireMessage.RelayRoundTrip | wire/message.go:332-412 | a packet survives encoding and decoding if and only if no length prefix overflows and the header states the payload length |
| WireMessage.IdsSound | wire/message.go:352-360 | when bytes are left behind the receivers, every one of them was read in full |
| WireMessage.WriteFits | wire/message.go:239-247 | storing a payload makes the message well formed if and only if it has at most 65535 bytes, and changes no other header field |
| WireMessage.RelayLayout | wire/message.go:383-412 | where each field of an encoded packet stands, byte by byte, with its lengths and counts |
| WireMessage.DecodeMessage | wire/message.go:197-211 | the two plain Reads into zeroed arrays behave as the specification of Message.Decode, errors included |
| WireMessage.DecodeRelay | wire/message.go:332-368 | the chain of field readers behaves as the specification of RelayPacket.Decode |
| WireMessage.DecodeReceivers | wire/message.go:357-360 | the loop that fills Receivers behaves as its specification, failed reads included |
| WireMessage.EncodeRelayTo | wire/message.go:383-412 | the encoder with its loop over Receivers appends exactly the specified encoding |
| Frames.NewFrameFields | peer/tcp_peer.go:85-124 | a new frame carries its op code and payload, and is well formed if and only if the payload is shorter than 2^32 |
| Frames.FrameExact | peer/tcp_peer.go:141-164 | a frame is read from exactly its own encoding, and not one byte behind it is consumed |
| Frames.ReceiveFrame | peer/tcp_peer.go:439-481 | for every well-formed frame but a close, and whatever follows, the loop does what the frame asks and then goes on, for a control frame, with its body as if it were frames |
| Frames.ReceiveByOpCode | peer/tcp_peer.go:439-481 | what the loop makes of the bytes of any frame and of those behind it, by the value of the first byte: 6 ends it, 3 is answered, 4 is passed over, anything else is handed over with its payload |
| Frames.ReceiveAnyFrames | peer/tcp_peer.go:439-481 | for any list of well-formed frames and whatever follows, the loop does what the frames ask for, up to the first close frame, or up to the first control frame with a body, from which it reads on |
| Frames.KeepsInStep | peer/tcp_peer.go:448-463 | the loop stays in step behind a frame, for all that can follow, if and only if what it does not skip of it is silent |
| Frames.ReceiveFrames | peer/tcp_peer.go:439-481 | on frames that keep it in step the loop delivers the non-empty payloads and answers the pings in front of the first close frame, in order, and then goes on with the bytes that follow |
| Frames.PartialFrameIsSilent | peer/tcp_peer.go:439-481 | a frame of which a part is missing has no effect |
| Frames.PingWithBodyDesynchronises | peer/tcp_peer.go:448-458 | a ping whose body is a bare close header ends the loop there, and whatever message comes behind it is lost |
| Frames.DecodeFrame | peer/tcp_peer.go:141-153 | Frame.Decode on any chunked stream behaves as its specification |
| Frames.ReadHandler | peer/tcp_peer.go:439-481 | the loop on any chunked stream ends, and does what the specification says of the bytes |
| FrameWriters.WireHoldsWholeFrames | peer/tcp_peer.go:485-518 | under every interleaving the stream is a concatenation of complete frames and a prefix of the lock holder's frame, and each writer's frames appear in its own order, none lost |
| FrameWriters.ReaderFollowsWriters | peer/tcp_peer.go:439-518 | at every moment and for every segmentation the reader has acted on exactly the frames that are completely out, up to a close frame |
| Pipeline.EndToEnd | peer/tcp_peer.go:439-528 | for packets pushed in order among any pings, pongs and closes, both kinds of far end have at every moment decoded exactly the first packets of the list, as many as are completely out |
| Pipeline.PushLayout | peer/tcp_peer.go:521-528 | the bytes of a push: op code 5, the length, the encoded packet |
| Pipeline.AllArrive | peer/tcp_peer.go:521-528 | once all pushes have returned and nobody closed, every packet has arrived |
| Pipeline.PayloadsAreThePushes | peer/tcp_peer.go:465-480 | among the delivered payloads are the pushed ones in front of a close frame, in order, and no others |
| Pipeline.OnePongPerPing | peer/tcp_peer.go:448-458 | at every moment, for any writers and any interleaving, one pong has been answered for each ping that is completely out and not behind a close frame |
| Pipeline.LogicServerReadHandler | server/hub/hub.go:118-132 | the decode loop of the logic server hands on what each payload is decoded to, in order, and ends at the first one that it cannot decode |
| Pipeline.HandleLogicServerMsg | lgcluster/proxy.go:104-115 | the decode loop of the gateway hands on what each payload that can be decoded is decoded to, in order, also behind others that it skips |
| Pipeline.ReceiveWire | server/hub/hub.go:118-132 | reader loop and decoder, run on the stream of any interleaving cut into any chunks, return exactly the packets that are completely out |
| Routes.HandleClientEvents | gateway/wss/hub.go:320-336 | of the messages of all clients exactly those whose first byte is one of the 15 protocol ids go up, in order, each in a packet that has the id, name and device of its own sender, the gateway as location, no receivers, and the message |
| Routes.UplinkIsShippable | gateway/wss/hub.go:320-336 | what the gateway makes of well-formed messages is well formed and fits into one frame |
| Routes.UplinkOfEach | gateway/wss/hub.go:320-336 | however the messages of the clients are mixed, the packets that name one client carry its messages of a known protocol, all of them and in order |
| Routes.ClientsToLogicServer | peer/ws_client.go:200-222 | for any payloads of any number of clients, truncated or not, mixed in any way, with empty packets anywhere between them, and every interleaving on the connection, the logic server decodes exactly the packets in front of the first empty one that are completely out: one for each message of a known protocol among the first in the channel, naming its sender; and those that name a client carry the first of the messages in its payloads that are no pings |
| Routes.ServeConnection | peer/tcp_peer.go:547-577 | on one stream, cut anywhere, the accepting side recovers the request and then every packet that is completely out |
| Routes.ServerGetsItsShare | lgcluster/proxy.go:87-102 | over a whole cluster, each logic server decodes exactly its share of the packets in front of the first empty one, in order, under every interleaving on its connection |
| Routes.WriteHandler | server/hub/hub.go:135-156 | the loop looks the gateway up anew for each message, and pushes or drops it as the specification says |
| Routes.GatewayGetsItsMessages | server/hub/hub.go:135-156 | through any changes of the table, a gateway that is in it whenever a message for it is taken up is pushed exactly these, encoded and in order |
| Routes.NothingForOthers | server/hub/hub.go:135-156 | a gateway that has left the table or was replaced is pushed nothing |
| Routes.LogicServerToClient | gateway/wss/hub.go:207-219 | for every connected receiver of a well-formed packet Push is called, with bytes that decode to exactly its message |
| Handshakes.ReqExact | peer/tcp_peer.go:586-605 | a handshake request is decoded from exactly its own encoding |
| Handshakes.AckExact | peer/tcp_peer.go:614-633 | a handshake acknowledgement is decoded from exactly its own encoding |
| Handshakes.HelloLayout | peer/tcp_peer.go:586-605 | the bytes of a request: op code 1, and where the id and the meta data stand |
| Handshakes.ReplyLayout | peer/tcp_peer.go:614-633 | the bytes of an acknowledgement: op code 2, and where the code and the error text stand |
| Handshakes.ServerRecovers | peer/tcp_peer.go:547-577 | the server recovers id and meta data, consuming nothing more, if and only if the request fits into one frame |
| Handshakes.ClientFollowsCode | peer/tcp_peer.go:336-351 | the client succeeds if and only if the code is 200, consuming nothing behind the acknowledgement |
| Handshakes.SuccessMeans | peer/tcp_peer.go:547-577 | for all bytes that reach the server, the client is told of success if and only if the request was malformed or was judged with 200 |
| Handshakes.Exchange | peer/tcp_peer.go:323-351 | the whole exchange: request recovered, outcome decided by the code, both streams intact behind their handshake frames |
| Handshakes.Upgrade | peer/tcp_peer.go:547-577 | the method with its deferred acknowledgement behaves as the specification on any chunked stream |
| Handshakes.ConnectServer | peer/tcp_peer.go:323-351 | the method writes the request and takes the answer as specified |
| WsClients.FewMessages | peer/ws_client.go:200-222 | n bytes never yield more than n/10 messages, rounded up |
| WsClients.TakesApart | peer/ws_client.go:200-222 | a concatenation of well-formed messages is decoded to exactly these |
| WsClients.AccountsForAllBytes | peer/ws_client.go:200-222 | on any bytes, what is decoded is well formed and accounts for every byte but a lost header of at most 10, up to filled-in zeros |
| WsClients.HandleMessage | peer/ws_client.go:200-222 | the loop ends on every payload; of the decoded messages, and so of any well-formed ones that the payload holds, it answers each whose first byte is 5 with a Pong and passes on the others, in order |
| WsLifecycle.AtMostOneEvent | peer/ws_client.go:139-148 | over all interleavings at most one goroutine wins, at most one disconnect event is sent, and none when a Close won |
| WsLifecycle.ReaderReportsOnce | peer/ws_client.go:139-148 | a reader that is through has reported exactly when it won, and then the connection is closed |
| WsLifecycle.WinnerLeavesClosed | peer/ws_client.go:254-265 | a winner that is through leaves the client Closed |
| WsLifecycle.WhoFindsTheConn | peer/ws_client.go:225-271 | whoever closes the connection finds it; a Push finds it unless the reader won and has cleared it |
| WsLifecycle.WhoFindsTheAttrs | peer/ws_client.go:133-147 | the log line of Start and the connect handler find Attrs nil if and only if the reader won and has cleaned up |
| WsLifecycle.AttrsCanBeReadTooLate | peer/ws_client.go:133-136 | runs in which each of the two finds nil |
| WsLifecycle.PushCanComeTooLate | peer/ws_client.go:246-251 | a run in which a Push that loaded Started finds no connection |
| WsLifecycle.PushWritesIff | peer/ws_client.go:235-251 | over all runs, a Push uses the connection if and only if it loaded Started, and it has written when it returns if and only if it could set its deadline |
| WsLifecycle.CloseActsIff | peer/ws_client.go:254-265 | over all runs, a Close that has returned tried to write its close message if and only if it found the client Started, and closed the connection if and only if that worked |
| WsLifecycle.ClosedForGood | peer/ws_client.go:127-148 | after the connection was won the client is never Started again |
| WsLifecycle.CloseLeaksIffWriteFailed | peer/ws_client.go:254-265 | over all runs, a Close that won and has returned leaves the connection open if and only if it could not write its close message |
| WsLifecycle.FailedCloseLeaksConn | peer/ws_client.go:260-263 | after such a failure no continuation closes the connection |
| TcpLifecycle.OneWinnerPerGeneration | peer/tcp_peer.go:416-429 | over all interleavings each generation has at most one winner; what is closed for a winner is its own generation's connection, and a Close that won has closed it when it returns; an event is sent at most once and only by a reader that won |
| TcpLifecycle.WinnersClose | peer/tcp_peer.go:416-429 | whoever wins a generation closes its connection: a Close before its last swap, a reader before it reports; and a reader that won and has ended has reported |
| TcpLifecycle.CloseActsIff | peer/tcp_peer.go:531-539 | over all runs, a Close that has returned has written its close message and closed the connection if and only if it found the server Started |
| TcpLifecycle.RestartsFollowReports | lgcluster/cluster.go:116-148 | a later generation exists only when the readers of all earlier ones won and reported, and no Close won there |
| TcpLifecycle.CloseIsFinal | peer/tcp_peer.go:531-539 | after a Close that wins there is no event, no later generation and no further start, in any continuation |
| TcpLifecycle.WinnerLeavesClosed | peer/tcp_peer.go:421-429 | a winner that is through leaves the server Closed |
| TcpLifecycle.StartedOwnsConn | peer/tcp_peer.go:272-303 | while Started, the conn field is the current generation's and nobody has won it |
| TcpLifecycle.ConfirmMeetsReader | peer/tcp_peer.go:299-302 | confirming a start leaves a server that nobody can report if and only if its reader has ended before |
| TcpLifecycle.ReportPossibleIff | peer/tcp_peer.go:418-429 | from a running, unreported state some continuation reports the current generation if and only if no Close won it and its reader did not end too early |
| TcpLifecycle.StartedWithoutReader | peer/tcp_peer.go:299-302 | a run to a Started server without reader, which no continuation ever reconnects |
| TcpLifecycle.LateResetIff | peer/tcp_peer.go:428 | while the winning Close is at work the server is Closed instead of Closing if and only if an earlier generation's reader has made its last swap since the win |
| TcpLifecycle.LateResetHitsNextGeneration | peer/tcp_peer.go:428 | a run in which this happens |
| Sequences.IdsDistinct | peer/seq.go:14-23 | any 65534 consecutive ids are pairwise distinct, for any threads, interleaving, start value and wrap |
| Sequences.PeriodIsTight | peer/seq.go:14-23 | the bound cannot be raised: a run in which the id after 65534 others repeats |
| Sequences.InRangeIffNoResetLost | peer/seq.go:16-21 | from 1 on, all ids lie in 1..65534 if and only if no reset lost its race |
| Sequences.KthCall | peer/seq.go:14-26 | the k-th undisturbed call returns (k mod 65534) + 1 |
| Sequences.PeriodIsPermutation | peer/seq.go:14-26 | in each full period every id comes up exactly once |
| Sequences.Sequence.Next | peer/seq.go:14-23 | the method follows the specification of an undisturbed call, wrap and truncation included |
| Registry.ClientNumCounts | gateway/wss/hub.go:154-187 | clientNum is, modulo 2^32, the size of the map plus the overwriting connects plus the kick-outs |
| Registry.WrapsAround | gateway/wss/hub.go:172 | what atomic.AddInt32 makes of a sum: the number in the 32-bit range that is congruent to it |
| Registry.ClientNumCovers | gateway/wss/hub.go:154-241 | below 2^31 packets clientNum is at least the size of the map, with equality if and only if nothing was overwritten or kicked out |
| Registry.LateDisconnect | gateway/wss/hub.go:176-187 | a disconnect that comes after its client is gone changes nothing and sends nothing |
| Registry.RegisteredIff | gateway/wss/hub.go:154-241 | an id is in the map if and only if some packet connects it and no later one connects it, disconnects it or kicks it out, as a message of protocol id 3 that reaches somebody does with the connected client that its payload names; and then it is that packet's client |
| Registry.OvertakenConnectStays | gateway/wss/upgrader.go:168-181 | behind a connect that no further event of its id follows, the client is in the map if and only if no kick-out has named it |
| Registry.ClosedIff | gateway/wss/hub.go:231-240 | Close is called on a client if and only if some message of protocol id 3 reached somebody while this client was connected under the id that its payload names |
| Registry.DriftIff | gateway/wss/hub.go:154-241 | when no two connects share an id, clientNum and the map part if and only if somebody is kicked out |
| Registry.SentUpIff | gateway/wss/hub.go:154-219 | an empty packet has been sent up if and only if some packet was a connect, a disconnect of a registered client, or named an absent receiver |
| Registry.KeysAreIds | gateway/wss/hub.go:154-158 | each client is registered under its own id |
| Registry.RelayConserves | gateway/wss/hub.go:200-241 | each entry of Receivers causes one action, in order; then a message of protocol id 3 closes and removes just the client that its payload names, if somebody was reached and it is connected; all else stays; the loop of GatewayHub.Gateway.HandleMsgRelay is proved against this |
| Sessions.NoticesBalance | gateway/wss/hub.go:154-219 | for every id the calls that mean a login equal those that mean a logout plus its being connected, up to misses, replacements and kick-outs |
| Sessions.OneLoginPerConnect | gateway/wss/hub.go:154-174 | a login is called for exactly once for each connect |
| Sessions.CountMisses | gateway/wss/hub.go:207-219 | an absent receiver costs one call for each time that it is named, a connected one none |
| Sessions.SendsAreCalls | gateway/wss/hub.go:168-170 | each call sends up one packet, an empty one, whatever it is for, and the handlers send nothing else |
| Sessions.OnlyTheNumberShows | gateway/wss/hub.go:160-196 | two histories look the same outside if and only if they have made equally many calls |
| Sessions.LoginLooksLikeLogout | gateway/wss/hub.go:160-196 | the login of any client looks like a logout of any id |
| Pump.OneToken | gateway/wss/hub.go:101-152 | at most one token circulates, waiting says whether there is one, and nothing is pending without waiting |
| Pump.SendsNeverBlock | gateway/wss/hub.go:109-150 | every send on dequeue and next finds the buffer empty |
| Pump.Fifo | gateway/wss/hub.go:103-132 | accepted packets are those handled, in flight, pending and in the buffer, in that order: none lost, doubled or reordered |
| Pump.RefinesInterpreter | gateway/wss/hub.go:134-241 | in every reachable state the registry is that of the one-at-a-time interpreter after a prefix of the accepted packets, plus just so much of the next packet as the handler's position says |
| Pump.LookupsAgree | gateway/wss/hub.go:134-219 | whatever the other goroutines do in between, all receivers of a message are looked up in the map as it was when the message was taken up |
| Pump.RunsAreShort | gateway/wss/hub.go:118-150 | a natural number bounds every run without new pushes |
| Pump.Progress | gateway/wss/hub.go:118-150 | while a packet is unhandled some goroutine of the gateway can move, unless the handler is blocked at the full channel of the proxy, a packet without body stopped the pump, or the process has ended |
| Pump.QuietMeansDrained | gateway/wss/hub.go:118-150 | while the process lives, a gateway at rest has accepted every offer and handled all packets up to the first one without body, or its handler is blocked with its packet and those behind it unhandled |
| Pump.DrainsCompletely | gateway/wss/hub.go:137-151 | while the process lives, a gateway at rest has handled everything if and only if its handler is not blocked and no packet without body came before the last; a handler that found nil leaves its own packet as the first unhandled one |
| Pump.StallIsForever | gateway/wss/hub.go:138-140 | behind a packet without body nothing is ever handled |
| Pump.BadKickIff | gateway/wss/hub.go:232-234 | in every reachable state, the handler stands at a kick-out that it cannot unmarshal if and only if the message reached somebody, is a kick-out, and cannot be unmarshalled |
| Pump.ScheduleIndependence | gateway/wss/hub.go:101-152 | runs that accepted the same packets and came to rest, alive and not blocked, agree on the registry and on all effects |
| Pump.BlockedIsForever | lgcluster/proxy.go:118-121 | as long as the proxy takes nothing, a blocked handler stays blocked in every continuation |
| Pump.HandlerCanBlock | lgcluster/proxy.go:51 | a run in which a full channel blocks the handler of a connect |
| Pump.FewNotices | lgcluster/proxy.go:88-90 | all notices that a living gateway has sent are still in the channel or in the proxy's hand, so there are at most 101 |
| PumpTraffic.MessagesComeThrough | lgcluster/proxy.go:87-121 | in every run the clients' messages come through the channel of the proxy unchanged and in order, wherever empty packets stand between them |
| PumpTraffic.DeadlinesAreUsed | peer/ws_client.go:235-243 | in every run each Push that has set its deadline goes on to write, but for one that is about to |
| Pump.FewConnects | lgcluster/proxy.go:88-90 | a living gateway has handled at most 101 connects |
| Pump.ProxySurvives | lgcluster/proxy.go:88-90 | when the proxy has dealt with everything and the process lives, no notice was ever sent |
| Pump.NoticesSentIff | gateway/wss/hub.go:154-219 | in every reachable state, what has made the handlers send notices, the packet in hand included |
| ClientPushes.PushesAreDue | gateway/wss/hub.go:207-215 | over any packets, the calls of Push on one client are, in order and with multiplicity, the encoded payloads of the relayed messages that named its id while it was registered |
| ClientPushes.PushedExactly | gateway/wss/hub.go:200-219 | the same in every reachable state of the pump, with the receivers of the message in hand that were dealt with |
| GatewayHub.Gateway.Accept | gateway/wss/hub.go:352-358 | a send on enqueue, as one step of the pump |
| GatewayHub.Gateway.TakeEnqueue | gateway/wss/hub.go:109-121 | the first case of the select, as one step of the pump |
| GatewayHub.Gateway.TakeNext | gateway/wss/hub.go:122-129 | the second case of the select, as one step of the pump |
| GatewayHub.Gateway.SendDequeue | gateway/wss/hub.go:109-117 | the send on dequeue, as one step of the pump |
| GatewayHub.Gateway.TakeDequeue | gateway/wss/hub.go:137 | the receipt from dequeue, as one step of the pump |
| GatewayHub.Gateway.Begin | gateway/wss/hub.go:137-149 | the dispatch and a handler's first step, as one step of the pump |
| GatewayHub.Gateway.ReadAttrs | gateway/wss/hub.go:164-166 | the read of one of the Attrs, as one step of the pump |
| GatewayHub.Gateway.Notify | gateway/wss/hub.go:168-170 | the send of an empty packet where a notice is meant, possible when the channel has room, as one step of the pump |
| GatewayHub.Gateway.Count | gateway/wss/hub.go:172 | the change of clientNum, as one step of the pump |
| GatewayHub.Gateway.Deliver | gateway/wss/hub.go:207-219 | one receiver is looked up, and its Push loads the state, or an empty packet is sent when the channel has room, as one step of the pump |
| GatewayHub.Gateway.UseConn | peer/ws_client.go:235-243 | one of the two uses of conn in a Push, as one step of the pump |
| GatewayHub.Gateway.Finish | gateway/wss/hub.go:220-238 | the end of a delivery, as one step of the pump: a message of protocol id 3 that reached somebody takes exactly the client that its payload names out of the map and goes on to close it, or ends the process when it cannot be unmarshalled; any other changes nothing |
| GatewayHub.Gateway.CloseReturns | gateway/wss/hub.go:238-241 | the return from Close, as one step of the pump |
| GatewayHub.Gateway.Acknowledge | gateway/wss/hub.go:150 | the send on next as one step of the pump |
| GatewayHub.Gateway.SendUp | gateway/wss/hub.go:336 | a client message goes up, as one step of the pump |
| GatewayHub.Gateway.ProxyTakes | lgcluster/proxy.go:88 | the receipt by the loop of the proxy, as one step of the pump |
| GatewayHub.Gateway.ProxyHandles | lgcluster/proxy.go:89-101 | the loop deals with a packet, or an empty one ends the process, as one step of the pump |
| GatewayHub.Gateway.HandleClientConnect | gateway/wss/hub.go:154-174 | the handler changes the registry as the interpreter does; or it has found nil in the Attrs, or is blocked in the send, with the client already in the map |
| GatewayHub.Gateway.HandleClientDisconnect | gateway/wss/hub.go:176-187 | the handler changes the registry as the interpreter does, and leaves it alone for an unknown client; or it is blocked in the send, with the client already out of the map |
| GatewayHub.Gateway.HandleMsgRelay | gateway/wss/hub.go:200-241 | whatever the clients are doing, the loop over Receivers and the kick-out change the registry as the interpreter does, so that only the client that a kick-out names leaves the map, and is closed last; or a conn is nil, or the send for an absent receiver is blocked, and exactly the receivers in front were dealt with; or a kick-out cannot be unmarshalled, and all were |
| GatewayHub.Gateway.RunUntilQuiet | gateway/wss/hub.go:101-152 | under every schedule, whatever the handlers find, and with the proxy running or not, the gateway comes to rest: the process has ended for a stated reason, or the handler is blocked, or all packets up to the first one without body were handled in order; alive with a running proxy only if no notice was sent |
| ClientHub.StepKeepsInv | gateway/wss/hub.go:338-357 | every step of the joined system keeps its invariant: each client's connect and disconnect are in one place each, and Close is called on the clients that were kicked out and on no others |
| ClientAccounts.OneOfEach | gateway/wss/upgrader.go:168-181 | each client comes through the queue at most once as a connect and at most once as a disconnect, and as a disconnect only when its reader won |
| ClientAccounts.CrashesIff | lgcluster/proxy.go:88-90 | a step ends the process if and only if it uses a field that the client's own reader has cleared, meets a kick-out that cannot be unmarshalled, or is the proxy's read of the header of an empty packet |
| ClientAccounts.PushFollowsState | peer/ws_client.go:246-251 | the Push for a registered receiver goes on to use the connection if and only if that client is Started at that moment |
| ClientAccounts.SurvivalLaw | lgcluster/proxy.go:87-102 | over all runs, when the proxy has dealt with all that was sent up, the process has ended if and only if a cleared field was used, a kick-out could not be unmarshalled, or a notice was sent |
| ClientAccounts.NoticesSentIff | gateway/wss/hub.go:154-219 | in every reachable state of the joined system, a notice was sent if and only if a connect got past its reads of the Attrs, a registered client was disconnected, or a receiver was absent |
| ClientAccounts.NobodySurvives | lgcluster/proxy.go:87-102 | at rest with the proxy done and the process alive there has never been a client |
| ClientAccounts.CleanedConnectIsFatal | gateway/wss/hub.go:164-166 | once clean has run before the connect handler has read the Attrs, no continuation handles the connect, and there is no rest before the process has ended, but with a full channel of the proxy |
| ClientAccounts.RunsAreShort | gateway/wss/hub.go:101-152 | without new connections, messages or losses every run of the gateway, its clients and the proxy is bounded |
| ClientAccounts.ClientAtRest | peer/ws_client.go:139-148 | while the process lives, at rest and with room in the channel of the proxy, a client is in the history of the queue once as a connect, as a disconnect exactly when it was reported, and is Started exactly when it was neither reported nor kicked out |
| ClientAccounts.AtRest | gateway/wss/hub.go:154-187 | while the process lives, at rest and with room in the channel of the proxy, the map holds a client if and only if it is Started, or its disconnect overtook its connect and it was not kicked out |
| ClientAccounts.NobodyElse | gateway/wss/hub.go:154-158 | and it holds no others, each under its own id |
| ClientAccounts.ClientNumExact | gateway/wss/hub.go:154-241 | with distinct ids clientNum is between two packets never below the size of the map, and equal to it if and only if nobody has been kicked out |
| ClientTraffic.PumpRuns | gateway/wss/hub.go:320-349 | every run of the joined system is a run of the pump, with the same messages sent up |
| ClientTraffic.MessagesGoUp | gateway/wss/hub.go:320-336 | in every run the clients' messages that were received are, unchanged and in order, those that the proxy took, those in its channel, and the one about to be sent |
| ClientTraffic.RelaysComeIn | gateway/wss/hub.go:345-349 | in every run the packets received from the logic servers are, unchanged and in order, the relayed ones that entered the queue and the one waiting to enter |
| OvertakenConnects.OvertakenAndFatal | gateway/wss/hub.go:164-166 | a run in which an overtaken connect ends the process |
| OvertakenConnects.OvertakenAndRegistered | gateway/wss/upgrader.go:168-181 | a run that comes to rest with a dead client in the map, and with its notice in the channel, not taken by a proxy |
| Clusters.ServiceCount | lgcluster/cluster.go:154-166 | how often k calls of Get return a given server, from any cursor, to within the exact call |
| Clusters.RoundRobinIsFair | lgcluster/cluster.go:154-166 | any k calls between two membership changes serve no two servers with counts more than one apart |
| Clusters.EachServerOncePerRound | lgcluster/cluster.go:154-166 | as many calls as there are servers return each exactly once |
| Clusters.SharesPartition | lgcluster/proxy.go:87-102 | the shares of all servers together are the messages that were routed: none is lost, none goes to two servers |
| Clusters.ShareAt | lgcluster/proxy.go:87-102 | each message stands in the share of its server behind as many others as were sent there before it |
| Clusters.PushesAreShares | lgcluster/proxy.go:87-102 | what the loop pushes to a server is its share, encoded, in order |
| Clusters.RoutingDivides | lgcluster/proxy.go:87-102 | what is routed between two membership changes is divided among the servers in shares that differ by at most one |
| Clusters.Cluster.Get | lgcluster/cluster.go:154-166 | Get stays in bounds even for a stale cursor, and returns no server exactly when the table is empty |
| Clusters.Cluster.AddServer | lgcluster/cluster.go:168-173 | the table gains the server, and ids lists its keys again |
| Clusters.Cluster.DelServer | lgcluster/cluster.go:175-185 | the table loses the server, which is returned, and ids lists its keys again |
| Clusters.Cluster.RebuildIds | lgcluster/cluster.go:187-194 | for every iteration order, ids becomes a listing of the keys without duplicates |
| Clusters.HandleClientMessages | lgcluster/proxy.go:87-102 | across any membership changes each message in front of the first empty packet goes to exactly one server that is then in the table, and is thrown away exactly when the table is empty; in every stretch without a change no two servers of the table get numbers of messages more than one apart, and in one as long as the table is large each gets exactly one; an empty packet ends the loop and the process |
| Clusters.TableIff | lgcluster/cluster.go:168-185 | the last event that concerns an id decides whether it is in the table, and with which server |
| Clusters.HandleClientMessage | lgcluster/proxy.go:87-102 | between membership changes the messages in front of the first empty packet go round, each to one server, in order |
| LogicServers.ListedIff | lgcluster/cluster.go:116-148 | in every reachable state a server is in the table if and only if its last start was entered and the event of its current generation was not taken, or has only just been |
| LogicServers.ListedAtRest | lgcluster/cluster.go:116-185 | when nothing moves and nobody is dialled, a server is in the table if and only if its current generation was never reported |
| LogicServers.DeadServerIsServed | lgcluster/cluster.go:154-185 | a server that nobody can report stays in the table in every continuation, and each round of calls of Get returns it once |
| LogicServers.LostServerComesBack | lgcluster/cluster.go:116-148 | from every reachable state in which the loss of a server is reported, a run brings it back when it can be dialled: started with a new connection and entered again, all others untouched |

## Left out

- Sockets, TLS, deadlines, tickers, sleeps, buffer pools, logging and metrics. A write failure ends a connection, and what a partly written last frame does is outside the stream theorems.
- The pongs of the reader loop are taken to be written; a failed pong ends the loop as a lost connection does.
- WebSocket frames and control frames, masking and rate limiting in `WsClient.readHandler` (sections 5.2 and 5.5 of RFC 6455), with the log line that slices a payload of a limited client: the model starts at the payload of a binary frame.
- Protobuf marshalling and the generated files: whether a kick-out can be unmarshalled, and whom it names, is any function of its payload.
- `parseToken` is a stub that returns nil, on which `parseParameters` panics (`gateway/wss/upgrader.go:188-201`); the model starts behind it, at `registClient`.
- A `RelayPacket` of the model always has a message; the packets of `NewEmptyRelayMessage` (`wire/message.go:311-316`) are the case `Empty` of `WireMessage.Upward`, without their Location, which is the same in all.
- When the proxy pushes a packet to a server, what becomes of a failed or blocked write is outside `Pump`, where the step just ends.
- WireMessage.DecodeMessage: requires its input in one buffer, because a plain Read stops at the end of a chunk; a `bytes.Buffer` is all that the source passes to it.
- Frames.ReceiveFrames: requires control frames whose body is silent, an empty one for instance; what happens behind any other is in `Frames.ReceiveAnyFrames`, and `Frames.KeepsInStep` shows that the condition is exact.
- Pipeline.EndToEnd: requires each encoded packet to be shorter than 2^32 bytes, since a frame states its length in 32 bits, and takes one pushing goroutine for each connection, as the two sending loops are.
- The reader loops of one logic server share a channel, so that a payload that cannot be decoded ends decoding for all its gateways; the model follows one connection.
- Sequences.Sequence.Next: is the sequential call; the retry after a lost swap is in the step system, where `IdsDistinct` covers it.
- Registry.ClientNumCovers: assumes fewer than 2^31 packets, since clientNum has 32 bits; `ClientNumCounts` has no bound.
- `Gateway.Shutdown`, `LgServer.Shutdown`, the gateway table of the logic server and its duplicate check: they share maps between goroutines without the discipline that the pump has.
- `Cluster.Get` is called by one goroutine only, as in the source; it changes `index` under a read lock.
- The dialing of `connectServer` and the naming service, of which `LogicServers` assumes that it lists each id once; `disconnectServer` has no caller. In `TcpLifecycle` alone a consumed event may or may not lead to a restart.
- `Server.Start` without a connection, and a second `WsClient.Start`: no caller does either.
- ClientAccounts.ClientNumExact: assumes fewer than 2^31 handled packets and distinct ids, for the same reasons as the two lines about `Registry.ClientNumCovers` and `ClientAccounts.AtRest`.
- ClientAccounts.AtRest: assumes that no two clients drew the same random id; `Registry.RegisteredIff` is without that assumption.
- In `ClientHub` Close is called by kick-outs only, since `Gateway.Shutdown` is left out; in `WsLifecycle` anybody may call it.
- The parsing of upgrade parameters, `SID`, the sequence and ack fields of the message header, `Event`, `String` methods, configuration and main programs, the empty chat and login handlers: only easy members.

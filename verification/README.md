# connclient in Dafny

A model of the native core of connclient, a game-client networking
extension. Each client (`ConnClientPrivate`) keeps one TCP socket and one
UDP socket to a game server. Its traffic is framed by a small binary
protocol. Over either transport it runs a KCP reliable session. It
reconnects ("relinks") on a configurable schedule, and it reports what
happens to the script side as a queue of events.

What is modelled:

- **Byte stream.** The buffer `Stream` grows in 64 KiB blocks up to 16 MiB.
- **Wire records and frames.** The records of `conn_protocol.h`, plus the TCP and UDP frames built from them.
- **Timers.** The heartbeat timer `TimeExpire`.
- **KCP session wrapper.** `KcpSession` is modelled; the KCP library itself is an oracle.
- **Client state machine.** The transport side covers close, connect, send paths, heartbeats and connect success. The receive side covers ReadStream, the TCP and UDP read handlers, KCP input and drain, and one round of `select`.
- **Reconnect policy.** Connect timeout, the relink schedule, and the job queue the script thread fills.
- **Script-side registry.** The `g_connclients` registry behind `connclient.connect` and `connclient.close`.
- **Helpers.** The path helpers of `FileAPI`, `SocketAPI::IsIPV4Addr` and `GetSockAddrStr`, and the arithmetic macros of `base_macro.h`.

Everything is a pure function over immutable records. A connection is a
`Conn` made of these parts:

| part | holds |
|---|---|
| `worker` | the network thread |
| `link` | sockets, state and the two streams |
| `peer` | address, flow and magic |
| `relink` | the reconnect policy |
| `beats` | the heartbeat timers |
| `kcp` | the session |
| `cbs` | which script callbacks are set |
| `events` | what the script side will see, in order |
| `wire` | what the sockets accepted, in order |

Whatever the operating system or the KCP library answers is read from an
`Env` value, which is fixed for one entry-point call. It holds:

- the clock;
- whether the sockets could be created;
- what `send`, `recv` and `recvfrom` answer;
- what the library's `ikcp_*` calls answer, as a function of the calls made so far.

Module layout follows the source:

| module | models |
|---|---|
| `Macros` | `base_macro.h` |
| `Streams` | `stream.cpp` |
| `Protocol` | `conn_protocol.h` and frame layout |
| `Timers` | `time_expire.cpp` |
| `KcpSessions` | `kcp_session.cpp` |
| `ConnTypes` | the client's members |
| `ConnCore` | close, connect, sends, pings |
| `ConnInput` | reads and dispatch |
| `RelinkSchedule` | the relink schedule |
| `ConnPolicy` | timeout, relink and jobs |
| `FileNames` | `file_api` |
| `SocketText` | `socket_api` |
| `Registry` | `myextension.cpp` |

`Common` and `Bytes` hold `Option`, the fixed-width integer types and the
little- and big-endian codecs.

Where the code and its design description differ, the model follows the
code, except where a defect listed under Findings has been corrected (the
read path parses with the corrected ReadStream; see Left out):

- **The KCP session survives most closes.** The design says the session is destroyed on close. `InnerClose` flushes and releases it only for reasons below `CLIENT_CONNECT_ERROR` (`ConnCore.InnerClose`). After a CLIENT_CONNECT_ERROR, CONNECT_TIMEOUT_CONTINUE or CONNECT_SWITCH close, the old session lives on and the loop keeps ticking it. Over TCP, every segment its updates emit then fails on the closed link and reports one more CLIENT_CONNECT_ERROR disconnect (`ConnPolicy.TickWhileClosed`). A later close that releases it flushes it first, with the same effect (`ConnCore.FlushWhileClosed`). Its conversation id is reused.
- **CONNECTED can be skipped.** The design says LOGIC_CONNECTED is reached only through CONNECTING and CONNECTED. `NetThreadLoop` tests readability before writability, so a SYNC_LABEL frame read while still CONNECTING goes straight to LOGIC_CONNECTED. `OnSync` needs only an open socket. `ConnInput.ReadBeforeWrite` shows that when select reports both readability and writability while CONNECTING, a SYNC_LABEL frame read in that round takes the link straight to LOGIC_CONNECTED and reports the connect success.
- **A close stops the loop for good.** Close and server closes stop the network loop. The thread object stays started, so a later `Connect` only queues a job that no round runs (`ConnPolicy.ConnectAfterStopQueuesOnly`).
- **The close entry point leaks the client.** `lua_connclient_close` unregisters the client but never deletes it (`Registry.CloseUnregisters`).
- **remove_extension looks past directories.** It cuts at the last '.' even when that dot sits in a directory part of a path (`FileNames.RemoveExtensionSpec` states the cut only in terms of dots).

## Model

| member | source | states |
|---|---|---|
| Macros.RoundUpSpec | connclient/src/base_macro.h:50 | ROUNDUP(x, y) is a multiple of y, at least x and below x + y, and it leaves multiples of y unchanged |
| Macros.RoundUpBelowMultiple | connclient/src/base_macro.h:50 | no multiple of y that is at least x lies below ROUNDUP(x, y), so it is the least such multiple |
| Macros.RoundDownSpec | connclient/src/base_macro.h:51 | ROUNDDOWN(x, y) is the greatest multiple of y not above x |
| Macros.DivRoundUpTimes | connclient/src/base_macro.h:52 | DIV_ROUND_UP(n, d) blocks of d make exactly ROUNDUP(n, d) |
| Macros.WhileSRuns | connclient/src/base_macro.h:54-56 | a while_s loop runs while its condition holds, at most 1000000 times, and stops early only at an iteration where the condition fails |
| Macros.WhileSTrueHitsCap | connclient/src/base_macro.h:54-56 | `while_s(true)` runs exactly the cap of 1000000 iterations |
| Macros.FixLimit | connclient/src/base_macro.h:160-170 | the clamp lands in [0, limit], leaves values inside unchanged, and is the closest value in range to the input |
| Macros.FixIntLimit | connclient/src/base_macro.h:159-170 | FIX_INT_LIMIT yields a value between 0 and INT_LIMIT |
| Macros.FixInt64Limit | connclient/src/base_macro.h:171-182 | FIX_INT64_LIMIT yields a value between 0 and INT64_LIMIT |
| Macros.FixLimitIdempotent | connclient/src/base_macro.h:160-170 | clamping an already clamped value changes nothing |
| Macros.IntLimitValues | connclient/src/base_macro.h:159-171 | INT_LIMIT is 1073741823 and INT64_LIMIT is 4611686018427387903 (half the signed maxima, rounded down) |
| Streams.NewStream | connclient/src/stream.cpp:11-19 | a new stream is valid, empty and holds exactly one 64 KiB block |
| Streams.Shrink | connclient/src/stream.cpp:84-92 | compaction moves the read position to 0 and keeps the unread bytes and the capacity |
| Streams.EnsureWritable | connclient/src/stream.cpp:40-65 | it fails (-1) exactly when the unread bytes plus n would pass 16 MiB; on success n bytes are free at the end; the unread bytes are kept; capacity only grows, and then to ROUNDUP(Len + n, 64 KiB) |
| Streams.WriteThenAddSize | connclient/src/stream.cpp:94-99 | bytes written at End() are invisible until AddSize publishes them, and then they follow the old unread bytes |
| Streams.AddSize | connclient/src/stream.cpp:94-99 | AddSize publishes n bytes unless that overruns the capacity, in which case the stream is unchanged |
| Streams.Append | connclient/src/stream.cpp:32-38 | Append succeeds exactly when the data is empty or fits under 16 MiB; the unread bytes then end with the data; on failure they are unchanged |
| Streams.Skip | connclient/src/stream.cpp:67-76 | skipping fewer bytes than are unread drops exactly that prefix; skipping at least all of them empties the stream to offset 0; a negative count changes nothing |
| Streams.Reset | connclient/src/stream.cpp:78-82 | a reset stream is empty and keeps its allocation |
| Streams.AppendThenSkip | connclient/src/stream.cpp:32-76 | appending data and skipping the bytes that were already unread leaves exactly the data |
| Streams.SkipLength | connclient/src/stream.cpp:67-76 | Skip(n) lowers the unread length by n, or to 0 when n is not below it |
| Streams.SkipSplit | connclient/src/stream.cpp:67-76 | the skipped prefix followed by what stays readable is the original unread content |
| Streams.GrowFromOneBlock | connclient/src/stream.cpp:40-65 | an empty one-block stream asked for more than 64 KiB grows in one step to ROUNDUP(n, 64 KiB) |
| Streams.AppendSeventyThousand | connclient/src/stream.cpp:11-65 | appending 70,000 bytes to a new stream succeeds and leaves a capacity of two blocks (131072) |
| Protocol.CodesDistinct | connclient/src/conn_protocol.h:38-59 | the command codes and the disconnect reasons are pairwise distinct, and the first five reasons, which release the session on close, are the ones below CLIENT_CONNECT_ERROR |
| Protocol.ConnHeadRoundTrip | connclient/src/conn_protocol.h:4-14 | decoding an encoded CsConnHead, with any bytes after it, gives the header back |
| Protocol.ConnHeadBytesRoundTrip | connclient/src/conn_protocol.h:4-14 | every 10-byte string decodes to a header that encodes back to it |
| Protocol.HeadByteOrder | connclient/src/conn_protocol.h:4-14 | the length field is in network order and the flow field in host order |
| Protocol.UdpHeadRoundTrip | connclient/src/conn_protocol.h:16-21 | decoding an encoded CsUdpConnHead gives it back |
| Protocol.SsHeadRoundTrip | connclient/src/conn_protocol.h:23-30 | decoding an encoded 18-byte SsConnHead gives it back |
| Protocol.PingRoundTrip | connclient/src/conn_protocol.h:32-36 | the 8-byte CsPing payload decodes to the timestamp that was sent |
| Protocol.RoutePingRoundTrip | connclient/src/conn_client.cpp:694-702 | a route-ping datagram is recognised as one, and its timestamp is recovered |
| Protocol.KcpInfoRoundTrip | connclient/src/conn_protocol.h:75-101 | decoding the first 93 bytes of an encoded ControlKCPInfo gives every field back, whatever follows it |
| Protocol.KcpInfoLayout | connclient/src/conn_protocol.h:75-101 | fields sit at their packed offsets in declaration order, e.g. kcp_conv at 4, mtu at 24, enable_udp at 48, the one-byte enable_simulator at 68, and high_lost_period at 89 |
| Protocol.TcpFrameRoundTrip | connclient/src/conn_client.cpp:491-511 | splitting a frame as SendTCPBuf lays it out recovers a header of length 10 + L and exactly the payload, leaving what follows |
| Protocol.TcpFrameLenOrder | connclient/src/conn_client.cpp:491-511 | the first four bytes of a frame are its total length in network order |
| Protocol.TcpFrameFlowOrder | connclient/src/conn_client.cpp:491-511 | bytes 4..8 of a frame are the flow in host order |
| Protocol.UdpFrameRoundTrip | connclient/src/conn_client.cpp:513-531 | a datagram as SendUDPBuf lays it out decodes to its flow, magic byte and command, followed by exactly the payload |
| Timers.NewTimer | connclient/src/time_expire.h:8-15 | a new timer keeps its interval and has never fired (last time 0) |
| Timers.TryExpire | connclient/src/time_expire.cpp:3-11 | it fires exactly when more than the interval has passed since the last firing; firing restarts the interval at now, and not firing changes nothing |
| Timers.After | connclient/src/time_expire.cpp:13-22 | a negative delay is ignored; zero makes the next check fire; a positive delay becomes the interval, counted from now |
| Timers.Reset | connclient/src/time_expire.cpp:24-27 | the current interval restarts at now |
| Timers.FiresOnceAtAnInstant | connclient/src/time_expire.cpp:3-11 | with a non-negative interval, two checks at the same instant never both fire |
| Timers.FreshTimerFirstCheck | connclient/src/time_expire.cpp:3-11 | a new timer fires on its first check exactly when now exceeds its interval |
| Timers.IntervalWrittenOnlyByAfter | connclient/src/time_expire.cpp:13-27 | over any run of calls, the interval is the one given by the last positive After, or the original one if there was none |
| KcpSessions.NewSession | connclient/src/kcp_session.h:51-54 | a new wrapper has no session, conv 0, wake time 0 and no forced update |
| KcpSessions.ClampMtu | connclient/src/kcp_session.cpp:24-26 | the configured MTU is the requested value read as an int, capped at KCP_MTU (500) |
| KcpSessions.CreateKcp | connclient/src/kcp_session.cpp:10-35 | the conv is always stored; it succeeds exactly when the library creates a session, which is then configured: MTU clamped, duplicate sending only for a positive dup count, the full log mask only with a log hook and logging enabled |
| KcpSessions.Input | connclient/src/kcp_session.cpp:37-42 | without a session, input answers 0; with one, it returns the library status and forces the next Tick to update |
| KcpSessions.Send | connclient/src/kcp_session.cpp:44-48 | without a session, send answers 0; with one, it returns the library status and records the send |
| KcpSessions.Recv | connclient/src/kcp_session.cpp:50-54 | without a session, recv answers 0; with one, it returns the library's answer |
| KcpSessions.Check | connclient/src/kcp_session.cpp:56-60 | without a session, check answers 0; with one, it returns the library's next wake time |
| KcpSessions.Update | connclient/src/kcp_session.cpp:62-67 | an update on a live session clears the forced-update flag and keeps the session |
| KcpSessions.Flush | connclient/src/kcp_session.cpp:78-82 | flushing a live session only records the flush; without a session it does nothing |
| KcpSessions.Release | connclient/src/kcp_session.cpp:69-76 | after release there is no session and conv is 0; the wake bookkeeping is kept; the library is told only if a session existed |
| KcpSessions.ReleaseIdempotent | connclient/src/kcp_session.cpp:69-76 | releasing twice is releasing once |
| KcpSessions.Destroy | connclient/src/kcp_session.cpp:5-8 | the destructor leaves no session |
| KcpSessions.Tick | connclient/src/kcp_session.cpp:173-180 | a live session updates (then takes the library's next wake time) exactly when its wake time has come or an update was forced; otherwise nothing changes |
| KcpSessions.FirstTickUpdates | connclient/src/kcp_session.cpp:173-180 | the first Tick after the first create always updates, because the wake time starts at 0 |
| KcpSessions.FailedCreateKeepsConv | connclient/src/kcp_session.cpp:10-35 | a failed create leaves no session, yet GetConv already answers the new conversation id |
| KcpSessions.Query | connclient/src/kcp_session.cpp:84-171 | every statistics getter answers 0 without a session and the library's value with one |
| ConnTypes.NewConnDefaults | connclient/src/conn_client.cpp:135-174 | a new client is INIT, not running, with its first connect pending, no schedule, a 3000 ms connect timeout, 2000 ms heartbeats, no session, nothing queued and one-block streams |
| ConnCore.SetConnState | connclient/src/conn_client.cpp:830-839 | the state and its timestamp are recorded; only INIT re-arms writability and only LOGIC_CONNECTED clears the relink count; nothing else changes |
| ConnCore.InnerClose | connclient/src/conn_client.cpp:442-469 | afterwards both sockets are closed, the state is INIT and both buffers are empty; reasons below CLIENT_CONNECT_ERROR first flush the session (each segment through KCPOutput, whose failed sends report CLIENT_CONNECT_ERROR before the close), then release it and stop the loop, while other reasons keep both and touch nothing else; the close's own disconnect event comes last, exactly for a non-negative reason with a callback set |
| ConnCore.CloseTwice | connclient/src/conn_client.cpp:442-469 | closing an already closed client again only queues another event, unless the second close is the first to flush a live session |
| ConnCore.Teardown | connclient/src/conn_client.cpp:450-468 | the common tail of every close: both sockets closed, INIT at now, both buffers empty, the disconnect event queued, nothing else changed |
| ConnCore.FlushReachesUdp | connclient/src/conn_client.cpp:444-447 | over UDP with every datagram taken whole, the closing flush puts each segment the library emits on the wire as a RELIABLE datagram, in order, and only the close is reported |
| ConnCore.FlushWhileClosed | connclient/src/conn_client.cpp:444-447 | a session that outlived an earlier close still flushes when released: over TCP each emitted segment reports one CLIENT_CONNECT_ERROR disconnect before the close's own |
| ConnCore.Target | connclient/src/conn_client.cpp:350-358 | the address is stored with the port narrowed to 16 bits; the timeout is capped at 10000 ms and replaces the old one only if positive |
| ConnCore.InnerConnect | connclient/src/conn_client.cpp:350-416 | it returns 0 exactly when both sockets could be created; then the client is CONNECTING with both sockets open and the queued bytes kept; otherwise it closes with CLIENT_CONNECT_ERROR and returns -1 |
| ConnCore.Output | connclient/src/conn_client.cpp:624-635 | a message is delivered to the script side exactly when an output callback is set |
| ConnCore.OnTcpWrite | connclient/src/conn_client.cpp:784-806 | accepted bytes leave the front of the queue and join the bytes on the wire, in order, so sent-then-queued bytes are unchanged; would-block keeps the bytes; any other error closes; with bytes left the socket is watched for writability |
| ConnCore.SendTcpBuf | connclient/src/conn_client.cpp:491-511 | a negative length is refused unchanged; -1 comes exactly when the frame would push the buffer past 16 MiB, which closes the client; otherwise the frame is appended behind all bytes in flight |
| ConnCore.UdpWrite | connclient/src/conn_client.cpp:533-551 | it returns the length exactly when the socket takes the whole datagram, which is then on the wire; any other outcome closes with CLIENT_CONNECT_ERROR and returns -1 |
| ConnCore.UdpWouldBlockCloses | connclient/src/conn_client.cpp:533-551 | a UDP send that would block still closes the connection |
| ConnCore.SendUdpBuf | connclient/src/conn_client.cpp:513-531 | a call without a UDP socket, or with a length outside 0..2042, is refused unchanged; otherwise exactly one datagram of 6 + len bytes with the current flow, magic and command is sent |
| ConnCore.SendTcpPing | connclient/src/conn_client.cpp:808-816 | from CONNECTED on, a heartbeat goes out when forced or when the timer fires, and its timestamp becomes the expected echo; otherwise nothing changes |
| ConnCore.SendUdpPing | connclient/src/conn_client.cpp:818-828 | with a UDP socket and from CONNECTED on, a route ping goes out exactly when the UDP timer fires; otherwise nothing changes |
| ConnCore.LogicConnect | connclient/src/conn_client.cpp:593-621 | the client enters LOGIC_CONNECTED with the relink count cleared and an immediate heartbeat queued; the success event is queued even if that heartbeat's send closed the link |
| ConnCore.KcpOutput | connclient/src/conn_client.cpp:933-943 | with UDP enabled a segment that SendUDPBuf accepts is exactly one more RELIABLE datagram and TCP is untouched; otherwise the bytes in flight grow by exactly its RELIABLE frame while the link stays open and UDP is untouched; a failure closes with CLIENT_CONNECT_ERROR; a closed link stays closed with nothing sent |
| ConnCore.Emit | connclient/src/conn_client.cpp:933-943 | a run of segments sent through KCPOutput in order: while the link stays open all of them are on the UDP wire or behind the TCP bytes in flight, in order, and nothing is reported; otherwise only CLIENT_CONNECT_ERROR disconnects are added, and segments routed over TCP while the link is already closed each report exactly one |
| ConnCore.EmitUdpOpen | connclient/src/conn_client.cpp:933-943 | over UDP with every datagram taken whole, the link stays open through any number of segments and nothing is reported |
| ConnCore.EmitWhileClosed | connclient/src/conn_client.cpp:933-943 | segments routed over TCP while the link is closed each report one CLIENT_CONNECT_ERROR disconnect, and nothing else |
| ConnCore.KcpOutputWhileClosed | connclient/src/conn_client.cpp:933-943 | a segment routed over TCP while the link is closed reports one more CLIENT_CONNECT_ERROR disconnect |
| ConnInput.CreateKcp | connclient/src/conn_client.cpp:919-931 | the session exists afterwards exactly when the library creates it; on success the server's UDP choice is taken and one update runs, whose segments go out on the transport just chosen; a failed create changes only the session; the conv is always the server's |
| ConnInput.Drain | connclient/src/conn_client.cpp:884-896 | the drain only adds events, keeps the address, policy, timers and callbacks, and the wire only grows |
| ConnInput.DrainDelivers | connclient/src/conn_client.cpp:884-896 | k plain messages followed by a non-positive status deliver exactly those messages minus their control byte, in order, and end with that status |
| ConnInput.DisconnectEndsDrain | connclient/src/conn_client.cpp:884-896 | a DISCONNECT control byte closes with SERVER_CLOSE, releases the session, and ends the drain with nothing further delivered; only the closing flush's failed sends can report before the close |
| ConnInput.InputToKcp | connclient/src/conn_client.cpp:873-906 | without a session it closes and returns -1; with one it returns -1 exactly when the library rejects the input, and a -1 always leaves the client closed with CLIENT_CONNECT_ERROR |
| ConnInput.InputDrainsThenStatus | connclient/src/conn_client.cpp:873-906 | after accepted input and k plain messages, the payloads are delivered in order; a final -3 then closes with CLIENT_CONNECT_ERROR though 0 is returned, and any other status keeps the transport |
| ConnInput.OnPing | connclient/src/conn_client.cpp:718-732 | a PING echo must carry exactly 8 bytes; anything else closes with CLIENT_CONNECT_ERROR and stops the loop |
| ConnInput.OnKcpInfo | connclient/src/conn_client.cpp:737-746 | the loop stops exactly when the payload is under 93 bytes or a session already exists, and that case closes; otherwise the session is created from the payload, and the transport changes only if its first update's segments fail to send |
| ConnInput.OnDisconnect | connclient/src/conn_client.cpp:747-768 | SERVER_CLOSE, SERVER_FULL and FLOW_NOT_EXIST close with that reason (after the closing flush) and stop the loop; other reasons are ignored; a payload under 4 bytes closes with SERVER_CLOSE but the loop goes on |
| ConnInput.OnSync | connclient/src/conn_client.cpp:769-776 | SYNC_LABEL enters LOGIC_CONNECTED, reports a first connect only while the first connect is pending, and clears that flag |
| ConnInput.SecondSyncReconnects | connclient/src/conn_client.cpp:769-776 | the first SYNC_LABEL reports a connect success and the next one a reconnect success |
| ConnInput.Dispatch | connclient/src/conn_client.cpp:718-776 | UNRELIABLE is delivered unchanged; BI, LOG and unknown commands change nothing; the loop stops only after a close |
| ConnInput.ReadStep | connclient/src/conn_client.cpp:707-778 | one round takes flow and magic from the header, keeps an incomplete frame untouched, and otherwise consumes exactly the declared length of the buffer |
| ConnInput.ReadStream | connclient/src/conn_client.cpp:704-782 | with the length check, the loop ends, leaves no complete frame in an open connection, and leaves only a suffix of what was buffered |
| ConnInput.ReadStreamAsWritten | connclient/src/conn_client.cpp:704-782 | when the unchecked loop returns with the link open, no complete frame is left; when it throws, the front frame is an UNRELIABLE one declaring less than a header and the output callback is set |
| ConnInput.ShortUnreliableThrows | connclient/src/conn_client.cpp:735-736 | an UNRELIABLE frame declaring less than a header throws in the unchecked loop when the output callback is set (the payload length is negative), while the checked loop closes with CLIENT_CONNECT_ERROR |
| ConnInput.StrictAgreesOnWellFormed | connclient/src/conn_client.cpp:704-782 | on frames declaring at least a header's length, the checked and unchecked rounds are identical |
| ConnInput.ZeroLengthFrameSpins | connclient/src/conn_client.cpp:704-782 | a header declaring length 0 with command BI makes the unchecked loop a fixed point: it never returns, however many rounds are allowed |
| ConnInput.ZeroLengthFrameCloses | connclient/src/conn_client.cpp:704-782 | with the check, the same buffer closes with CLIENT_CONNECT_ERROR |
| ConnInput.ReadUnreliableStep | connclient/src/conn_client.cpp:735-736 | one UNRELIABLE frame is delivered and exactly its bytes are consumed |
| ConnInput.ReadStreamDeliversFrames | connclient/src/conn_client.cpp:704-782 | back-to-back UNRELIABLE frames followed by a partial header deliver every payload in order, keep the link open and leave only the partial header |
| ConnInput.IncompleteFrameKept | connclient/src/conn_client.cpp:713 | a frame declaring more bytes than are buffered is kept whole and nothing is reported |
| ConnInput.Room | connclient/src/conn_client.cpp:639 | making room for a 16 KiB read fails exactly when the buffer plus 16 KiB would pass 16 MiB, and it keeps the unread bytes |
| ConnInput.AfterRecv | connclient/src/conn_client.cpp:642-650 | a failed recv, or the peer's orderly close, closes with CLIENT_CONNECT_ERROR; otherwise the received bytes are parsed behind the buffered ones and only a suffix stays |
| ConnInput.OnTcpRead | connclient/src/conn_client.cpp:637-651 | an overfull buffer or a failed or empty recv closes exactly once with CLIENT_CONNECT_ERROR; an open link keeps only a suffix of the old and new bytes |
| ConnInput.OnTcpReadAsWritten | connclient/src/conn_client.cpp:637-651 | the read handler with its missing return kept as written (parsing with the checked ReadStream) keeps the connection invariant |
| ConnInput.TcpReadAgreesWithRoom | connclient/src/conn_client.cpp:637-651 | when the buffer has room, the handler as written and the corrected one agree |
| ConnInput.OverflowDisconnectsTwice | connclient/src/conn_client.cpp:639-650 | with no room, the handler as written queues the disconnect twice and the corrected one once |
| ConnInput.TcpReadDeliversFrames | connclient/src/conn_client.cpp:637-651 | one recv of whole UNRELIABLE frames into an empty buffer delivers every payload in order |
| ConnInput.OnUdpRead | connclient/src/conn_client.cpp:653-692 | without a UDP socket nothing happens; a hard recvfrom error closes; would-block, short datagrams, route pings and other flows' datagrams change nothing; an accepted datagram delivers its payload (UNRELIABLE), goes to InputToKcp (RELIABLE), or closes with SERVER_CLOSE, releasing the session and stopping the loop (DISCONNECT) |
| ConnInput.UdpFrameDelivered | connclient/src/conn_client.cpp:662-676 | an UNRELIABLE datagram of the current flow delivers exactly its payload |
| ConnInput.RoutePingIgnored | connclient/src/conn_client.cpp:662-666 | a route ping is never taken for a message |
| ConnInput.OnWritable | connclient/src/conn_client.cpp:286-298 | a writable report on a pending connect enters CONNECTED and stops watching writability; otherwise the queue is flushed: while the link stays open the bytes in flight and the events are unchanged and writability is watched again whenever bytes remain, and a failed send closes with CLIENT_CONNECT_ERROR |
| ConnInput.OnSelect | connclient/src/conn_client.cpp:284-302 | a round with no readiness or no TCP socket changes nothing |
| ConnInput.ConnectCompletes | connclient/src/conn_client.cpp:284-298 | a pending connect completes on its first writable report, with nothing reported to the script |
| ConnInput.ReadBeforeWrite | connclient/src/conn_client.cpp:284-298 | with readability and writability reported together on a pending first connect, the read runs first: a SYNC_LABEL frame enters LOGIC_CONNECTED without ever passing CONNECTED and reports the connect success |
| ConnInput.ReadSyncStep | connclient/src/conn_client.cpp:769-776 | ReadStream on one SYNC_LABEL frame while the first connect is pending enters LOGIC_CONNECTED and reports the connect success (after a CLIENT_CONNECT_ERROR close if the heartbeat fails) |
| RelinkSchedule.SortSeq | connclient/src/conn_client.cpp:1029-1038 | std::sort gives a sorted permutation of the schedule |
| RelinkSchedule.SortedUnique | connclient/src/conn_client.cpp:1029-1038 | two sorted permutations of the same values are equal, so every correct sort gives the same schedule |
| RelinkSchedule.AddInterval | connclient/src/conn_client.cpp:1029-1038 | an empty schedule is seeded with 0; with room the result is the sorted old values plus msec; a full schedule of five is unchanged |
| RelinkSchedule.AddedPresent | connclient/src/conn_client.cpp:1029-1038 | with room, msec and the seed 0 are in the schedule afterwards |
| RelinkSchedule.SortAfterAppend | connclient/src/conn_client.cpp:1029-1038 | appending to a sorted schedule and sorting is the same as inserting in place |
| RelinkSchedule.ScheduleShape | connclient/src/conn_client.cpp:1029-1038 | any run of additions keeps the schedule sorted, at most five entries long, and holding 0 |
| RelinkSchedule.TwoAdditions | connclient/src/conn_client.cpp:1029-1038 | adding a large then a small interval to an empty schedule gives [0, small, large] |
| RelinkSchedule.ClearIntervals | connclient/src/conn_client.cpp:1039-1042 | the cleared schedule is empty |
| ConnPolicy.TimeoutReason | connclient/src/conn_client.cpp:845-849 | a timeout closes with CONNECT_TIMEOUT_CONTINUE or CONNECT_TIMEOUT, and with the terminal reason, the one that releases the session and stops the loop, exactly when the schedule is exhausted |
| ConnPolicy.CheckTimeout | connclient/src/conn_client.cpp:841-851 | only a pending connect older than the timeout closes; while attempts remain the loop and session survive and nothing is sent; at the end of the schedule the session is flushed and released and the loop stops |
| ConnPolicy.RelinkEvents | connclient/src/conn_client.cpp:862-867 | a relink is reported exactly when a relink callback is set |
| ConnPolicy.CheckRelink | connclient/src/conn_client.cpp:853-871 | a stopped loop does nothing; otherwise the count rises by one exactly when a relink is due; a due relink reconnects to the remembered address and reports the new attempt number |
| ConnPolicy.Relink | connclient/src/conn_client.cpp:858-870 | one attempt counts itself, reconnects and reports the new count, after the close event if the connect failed |
| ConnPolicy.RelinkCountBounded | connclient/src/conn_client.cpp:853-871 | attempts never outrun the schedule |
| ConnPolicy.LastTimeoutStopsRelinks | connclient/src/conn_client.cpp:841-871 | once the schedule is exhausted, a timeout stops the loop and no further relink is made |
| ConnPolicy.TimeoutThenRelinkLater | connclient/src/conn_client.cpp:841-871 | a timeout with attempts left keeps the loop running, and its relink is not made in the same round |
| ConnPolicy.RelinkAfterInterval | connclient/src/conn_client.cpp:853-871 | once the current interval has passed in INIT, the next attempt is count + 1 and the client is CONNECTING |
| ConnPolicy.AddRelinkInterval | connclient/src/conn_client.cpp:1029-1038 | only the schedule changes; with room it ends sorted, holding msec and 0; when full it is unchanged |
| ConnPolicy.ClearRelinkInterval | connclient/src/conn_client.cpp:1039-1042 | after clearing, no relink is ever due |
| ConnPolicy.SwitchNetwork | connclient/src/conn_client.cpp:1043-1050 | only a LOGIC_CONNECTED client with no relinks in progress closes with CONNECT_SWITCH, keeping the session and the loop; any other client is unchanged |
| ConnPolicy.SendMsg | connclient/src/conn_client.cpp:471-477 | a send is queued and 0 returned exactly when the client is LOGIC_CONNECTED; otherwise the client is unchanged and the result is -1 |
| ConnPolicy.SendKcpBuf | connclient/src/conn_client.cpp:479-489 | an empty message returns 0 unchanged; before LOGIC_CONNECTED the result is -1; otherwise the message goes to the session and the result mirrors the library's status |
| ConnPolicy.Connect | connclient/src/conn_client.cpp:338-349 | it always returns 0 and queues the connect job; the first call starts the loop and clears the attempt count, and later calls leave both alone |
| ConnPolicy.RunJob | connclient/src/conn_client.cpp:317-320 | a close job flushes and releases the session and stops the loop, reporting no disconnect of its own (only failed flush sends report); send and connect jobs are SendKCPBuf and InnerConnect |
| ConnPolicy.RunAllAppend | connclient/src/conn_client.cpp:317-320 | jobs run in submission order: running a then b in one batch is running a, then b |
| ConnPolicy.RunJobs | connclient/src/conn_client.cpp:317-320 | the job step empties the queue |
| ConnPolicy.CloseThenRun | connclient/src/conn_client.cpp:437-469 | Close takes effect only when the loop runs the job; then only failed flush sends are reported, and nothing at all when the flush emits nothing |
| ConnPolicy.TickSession | connclient/src/conn_client.cpp:322 | a due session updates and takes its next wake time from Check, and the segments the update emits reach the UDP wire or the TCP bytes in flight, in order, while the link stays open; a session that is not due is left alone |
| ConnPolicy.TickWhileClosed | connclient/src/conn_client.cpp:322 | ticking a session that outlived a close emits over the closed TCP link, and each segment reports one CLIENT_CONNECT_ERROR disconnect |
| ConnPolicy.Round | connclient/src/conn_client.cpp:259-328 | a stopped loop does nothing, and every round keeps the connection invariant |
| ConnPolicy.ConnectAfterStopQueuesOnly | connclient/src/conn_client.cpp:226-232 | after a server close, a Connect only queues a job that no round will run, because the thread is not restarted |
| FileNames.BaseNameSpec | connclient/src/file_api.h:51-55 | base_name is a suffix with no delimiter, preceded by a delimiter unless it is the whole path |
| FileNames.BaseNameOfDirectory | connclient/src/file_api.h:51-55 | a path ending in a delimiter has an empty base name |
| FileNames.BaseNameWithoutDelims | connclient/src/file_api.h:51-55 | a path without delimiters is its own base name (npos + 1 wraps to 0) |
| FileNames.RemoveExtension | connclient/src/file_api.h:56-61 | the result is a prefix of the name |
| FileNames.RemoveExtensionSpec | connclient/src/file_api.h:56-61 | either nothing is cut, or exactly a final dot and the dot-free tail after it |
| FileNames.RemoveExtensionKeeps | connclient/src/file_api.h:56-61 | a name with no dot after its first character is kept whole |
| FileNames.RemoveExtensionOfStem | connclient/src/file_api.h:56-61 | stem + "." + a dot-free extension gives the stem back |
| FileNames.NullSuffixListsNothing | connclient/src/file_api.cpp:207-210 | with a null suffix nothing is ever listed |
| FileNames.ListFilesAppend | connclient/src/file_api.cpp:201-224 | listing a concatenated enumeration lists each part in turn, so enumeration order is kept |
| FileNames.ListedIff | connclient/src/file_api.cpp:201-224 | with rm_folder_path set, a name is listed exactly when it is enumerated, not hidden, and strictly longer than the suffix it ends with |
| SocketText.IsIPV4Addr | connclient/src/socket_api.cpp:349-371 | an accepted text holds only digits and dots, starts with a digit and has at least 7 characters |
| SocketText.ScanJoin | connclient/src/socket_api.cpp:354 | sscanf reads back the first k of any numbers printed with dots between them |
| SocketText.DottedQuadAccepted | connclient/src/socket_api.cpp:349-371 | four numbers up to 255 printed with dots pass both the source's test and the strict one |
| SocketText.LargeFieldRejected | connclient/src/socket_api.cpp:360-362 | a field above 255 among the first four is rejected |
| SocketText.ExtraFieldAccepted | connclient/src/socket_api.cpp:349-371 | four valid fields followed by any further dotted numbers are still accepted |
| SocketText.FiveFieldsAccepted | connclient/src/socket_api.cpp:349-371 | "1.2.3.4.5" is accepted as written but rejected by the strict test |
| SocketText.IsStrictIPV4Addr | connclient/src/socket_api.cpp:349-371 | the strict test accepts only what the source accepts |
| SocketText.SockAddrStrShowsAddress | connclient/src/socket_api.cpp:338-347 | the text shows the four address bytes in memory order and the port in host order |
| Registry.IsConnectionValid | connclient/src/myextension.cpp:15-26 | a handle is accepted exactly when it is non-null and registered |
| Registry.RemoveConnection | connclient/src/myextension.cpp:28-38 | the scan removes the first registration of a valid handle and nothing else |
| Registry.RemoveSpec | connclient/src/myextension.cpp:28-38 | removing drops exactly one registration of a valid handle, keeps the others, and adds none |
| Registry.NewClient | connclient/src/myextension.cpp:48 | a new client is consistent, its thread never started and nothing queued |
| Registry.ConnectRegisters | connclient/src/myextension.cpp:40-57 | since Connect never fails, each call registers the new handle at the end with a connect job queued and the loop running |
| Registry.CloseUnregisters | connclient/src/myextension.cpp:74-84 | closing a valid handle unregisters it once and queues a close job on its client |
| Registry.CloseRejectsInvalid | connclient/src/myextension.cpp:59-84 | an invalid handle raises the error and changes nothing |
| Registry.ConnectThenClose | connclient/src/myextension.cpp:40-84 | connecting and then closing the new handle restores the registry |

## Left out

- **Threads.** The network thread, the two concurrent queues, the wake-up pipe, `select` and its 10 ms wait are not modelled. One loop round is a function of what `select` reported (`ConnInput.Ready`). The loop also passes an exception set to `select` but never adds a socket to it, so `Ready` has no error flags. The script-side queue is the `events` sequence. `Update`, `CallLuaCallback` and `NotifyWorker` only move those across threads.
- **Blocking connect.** `ConnectBlock` polls the event queue with sleeps, so it depends on timing only.
- **The OS and the KCP library.** Sockets, `getaddrinfo`, `setsockopt` and the KCP library itself are oracles in `Env`. `CreateConnect` is reduced to whether a socket could be made. `set_tcp_no_delay` is left out.
- **Logging and unused values.** Logging, the log callbacks and setters, and the log-mode switches are left out. So are HandleUDPRoutePing's round-trip time and PING's sequence check, which only log.
- **Callbacks.** The callback setters are modelled as a fixed set of booleans, chosen when the client is made.
- **Host byte order.** The host is little-endian. A big-endian host is not modelled.
- **Narrowing.** The clock is narrowed to 32 bits (`TruncU32`) where the source casts it. Other narrowing of ints is not modelled.
- **Windows and the Lua stack.** The Windows branches of `file_api.cpp` and `socket_api.cpp`, and a failing `opendir`, are not modelled. Neither is the Lua stack type checking in `myextension.cpp`.
- KcpSessions.Query: the statistics getters are modelled as one function over the statistic asked for, since each only forwards to the library.
- SocketText.IsIPV4Addr: a field that overflows `int` in `sscanf` is undefined behaviour and is read as its exact value.
- ConnInput.ReadStreamAsWritten: the loop as written may not terminate, so it takes a round bound (`fuel`). Its contract says nothing about the rounds it could not finish. An uncaught std::length_error ends the process; the model stops at the `Thrown` outcome.
- ConnInput.Dispatch: an UNRELIABLE frame with a negative payload length delivers nothing here. In the source, copying that length into a string throws std::length_error when the output callback is set. That case is handled before dispatch, by `ConnInput.ReadStreamAsWritten`.
- ConnInput.AfterRecv: it parses with the corrected, checked ReadStream (first Findings row), so a frame declaring less than a header closes with CLIENT_CONNECT_ERROR here, where the source spins or throws.
- ConnInput.OnTcpRead: it parses with the checked ReadStream, as `ConnInput.AfterRecv` does.
- ConnInput.OnTcpReadAsWritten: it parses with the checked ReadStream too; only the missing return is kept as written.
- ConnInput.OnSelect: the TCP read it serves parses with the checked ReadStream.
- ConnPolicy.Round: the TCP read inside the round parses with the checked ReadStream.
- ConnInput.OnTcpReadAsWritten: its contract states only the connection invariant. Its behaviour is given by `ConnInput.TcpReadAgreesWithRoom` and `ConnInput.OverflowDisconnectsTwice`.
- ConnPolicy.Round: its contract states the invariant and the stopped case. The round's parts carry the rest.
- ConnPolicy.RelinkEvents: the relink event carries the count when it is queued, which is the count the source reads from the script thread unless a later round changed it first.

## Findings

| source | as written | input that shows it | evidently intended | confidence | as-written member | corrected member |
|---|---|---|---|---|---|---|
| connclient/src/conn_client.cpp:712-716 | ReadStream never checks that the declared length covers the header, then skips the declared length | a buffer starting with a header of length 0 and command BI: nothing is consumed and the loop spins forever; with command UNRELIABLE and an output callback set, the negative payload length throws std::length_error instead (`ConnInput.ShortUnreliableThrows`) | a length below 10 is a protocol error that closes the link | high (not executed) | ConnInput.ZeroLengthFrameSpins | ConnInput.ZeroLengthFrameCloses |
| connclient/src/socket_api.cpp:354-370 | sscanf reads four fields and ignores the rest, and the character loop allows any number of dots | "1.2.3.4.5" is reported as an IPv4 address | exactly four fields, so exactly three dots | high (not executed) | SocketText.FiveFieldsAccepted | SocketText.IsStrictIPV4Addr |
| connclient/src/conn_client.cpp:639-641 | there is no return after EnsureWritable fails, so recv runs on the closed socket and closes again | a buffer holding the start of a frame that declares 0x7FFFFFFF bytes grows until 16 KiB more would pass 16 MiB; the next read reports the disconnect twice | close once and return | high (not executed) | ConnInput.OverflowDisconnectsTwice | ConnInput.OnTcpRead |

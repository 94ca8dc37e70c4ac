/**
  The receive half of ConnClientPrivate: feeding the reliable session and
  draining its messages, dispatching TCP frames by command, the ReadStream
  loop, the TCP and UDP read handlers and one round of socket readiness.
*/
module ConnInput {
  import opened Common
  import opened Bytes
  import opened Streams
  import opened Protocol
  import KS = KcpSessions
  import opened ConnTypes
  import opened ConnCore
  import Macros

  /** The segments the Update right after a successful create hands to KCPOutput. */
  function CreateOut(c: Conn, env: Env, info: KcpInfo): seq<seq<uint8>> {
    OutputAnswer(env, c.kcp.calls + [KS.LibCreate(info.kcpConv), KS.LibUpdate(TruncU32(env.now))])
  }

  /**
    CreateKCP(info): build the session (with the log hook installed and the
    log switch of the client); on success take the server's choice of UDP
    transport and run one Update, whose segments go out through KCPOutput
    on the transport just chosen. A failed create leaves no session but the
    new conv.
  */
  function CreateKcp(c: Conn, env: Env, info: KcpInfo): (r: Conn)
    requires Inv(c)
    ensures Inv(r) && ReadKept(c.link, r.link) && WireGrows(c, r) && ErrorsAfter(c.events, r.events)
    ensures r.relink == c.relink && r.beats == c.beats && r.cbs == c.cbs && r.worker == c.worker
    ensures !env.kcpCreateOk ==> r == c.(kcp := r.kcp)
    ensures !env.kcpCreateOk || CreateOut(c, env, info) == [] ==>
              r.link == c.link && r.events == c.events && r.wire == c.wire
    ensures r.link.tcpOpen ==> c.link.tcpOpen && r.link.state == c.link.state && r.events == c.events
    ensures env.kcpCreateOk && info.enableUdp > 0 && r.link.udpOpen ==>
              r.wire.udp == c.wire.udp + Datagrams(c.peer.flow, c.peer.magic, CreateOut(c, env, info))
    ensures env.kcpCreateOk && info.enableUdp <= 0 && r.link.tcpOpen ==>
              && Framable(CreateOut(c, env, info))
              && InFlight(r) == InFlight(c) + Frames(c.peer.flow, c.peer.magic, CmdReliable, CreateOut(c, env, info))
    ensures r.kcp.conv == info.kcpConv
    ensures !KS.IsNull(r.kcp) <==> env.kcpCreateOk
    ensures env.kcpCreateOk ==> r.peer == c.peer.(enableUdp := info.enableUdp > 0) && !r.kcp.updateNow
    ensures env.kcpCreateOk ==> r.kcp.calls == c.kcp.calls + [KS.LibCreate(info.kcpConv), KS.LibUpdate(TruncU32(env.now))]
    ensures env.kcpCreateOk ==> r.kcp.kcp.value.logMask == (if c.peer.enableKcpLog then KS.FullLogMask else 0)
    ensures !env.kcpCreateOk ==> r.peer == c.peer
  {
    var (s, rc) := KS.CreateKcp(c.kcp, info, env.kcpCreateOk, true, c.peer.enableKcpLog);
    if rc != 0 then c.(kcp := s)
    else
      var c1 := c.(kcp := KS.Update(s, TruncU32(env.now)), peer := c.peer.(enableUdp := info.enableUdp > 0));
      Emit(c1, env, CreateOut(c, env, info))
  }

  /**
    The drain loop of InputToKcp: take messages until recv answers a value
    that is not positive or the while_s cap runs out. The first byte of a
    message is a control byte: DISCONNECT closes with SERVER_CLOSE (which
    releases the session, so the next recv answers 0); otherwise a message
    longer than one byte is delivered without it. Returns the last recv
    value.
  */
  function Drain(c: Conn, env: Env, rounds: nat, last: int): (r: (Conn, int))
    requires Inv(c)
    ensures Inv(r.0) && ReadKept(c.link, r.0.link)
    ensures r.0.peer == c.peer && r.0.relink == c.relink && r.0.beats == c.beats && r.0.cbs == c.cbs
    ensures WireGrows(c, r.0) && c.events <= r.0.events
    ensures rounds == 0 ==> r == (c, last)
    decreases rounds
  {
    if rounds == 0 then (c, last)
    else
      var (s, item) := KS.Recv(c.kcp, RecvAnswer(env, c.kcp.calls));
      var c1 := c.(kcp := s);
      match item
      case Code(n) => (c1, n)
      case Msg(bytes) =>
        if |bytes| == 0 then (c1, 0)
        else if bytes[0] == CmdDisconnect then Drain(InnerClose(c1, env, ServerClose), env, rounds - 1, |bytes|)
        else if |bytes| > 1 then Drain(Output(c1, bytes[1..]), env, rounds - 1, |bytes|)
        else Drain(c1, env, rounds - 1, |bytes|)
  }

  /** The messages successive recv calls return from a live session, starting at the call history `calls`. */
  function Answers(env: Env, calls: seq<KS.LibCall>, k: nat): (r: seq<KS.RecvItem>)
    ensures |r| == k
    ensures k > 0 ==> r[0] == RecvAnswer(env, calls)
    decreases k
  {
    if k == 0 then [] else [RecvAnswer(env, calls)] + Answers(env, calls + [KS.LibRecv], k - 1)
  }

  /** A drained message the script side sees: its bytes after the control byte. */
  predicate Plain(item: KS.RecvItem) {
    item.Msg? && |item.bytes| > 0 && item.bytes[0] != CmdDisconnect
  }

  /** What the script side sees of one plain message: its bytes after the control byte, if any and if it listens. */
  function Delivery(item: KS.RecvItem, output: bool): (r: seq<Event>)
    requires Plain(item)
  {
    if output && |item.bytes| > 1 then [Delivered(item.bytes[1..])] else []
  }

  /** The deliveries of a run of plain messages, in order. */
  function Deliveries(items: seq<KS.RecvItem>, output: bool): (r: seq<Event>)
    requires forall i :: 0 <= i < |items| ==> Plain(items[i])
    decreases |items|
  {
    if |items| == 0 then []
    else
      assert Plain(items[0]);
      Delivery(items[0], output) + Deliveries(items[1..], output)
  }

  /** The connection after the drain has taken one plain message from its live session. */
  function PlainStep(c: Conn, env: Env): (r: Conn)
    requires Inv(c) && !KS.IsNull(c.kcp) && Plain(RecvAnswer(env, c.kcp.calls))
    ensures Inv(r) && r.link == c.link && r.cbs == c.cbs && !KS.IsNull(r.kcp)
    ensures r.kcp.calls == c.kcp.calls + [KS.LibRecv]
    ensures r.events == c.events + Delivery(RecvAnswer(env, c.kcp.calls), c.cbs.output)
  {
    var b := RecvAnswer(env, c.kcp.calls).bytes;
    var c1 := c.(kcp := c.kcp.(calls := c.kcp.calls + [KS.LibRecv]));
    if |b| > 1 then Output(c1, b[1..]) else c1
  }

  /** One plain message: the drain goes on from PlainStep with one round fewer. */
  lemma DrainPlainStep(c: Conn, env: Env, rounds: nat, last: int)
    requires Inv(c) && !KS.IsNull(c.kcp) && rounds > 0 && Plain(RecvAnswer(env, c.kcp.calls))
    ensures Drain(c, env, rounds, last)
         == Drain(PlainStep(c, env), env, rounds - 1, |RecvAnswer(env, c.kcp.calls).bytes|)
  {
  }

  lemma AnswersTail(env: Env, calls: seq<KS.LibCall>, k: nat)
    requires k > 0
    ensures Answers(env, calls, k)[1..] == Answers(env, calls + [KS.LibRecv], k - 1)
  {
  }

  lemma DeliveriesHead(items: seq<KS.RecvItem>, output: bool)
    requires |items| > 0 && forall i :: 0 <= i < |items| ==> Plain(items[i])
    ensures Deliveries(items, output) == Delivery(items[0], output) + Deliveries(items[1..], output)
  {
  }

  /**
    Draining k plain messages followed by a status that is not positive
    delivers exactly those messages' payloads, in order, and stops with that
    status, provided the cap leaves room for all k + 1 calls.
  */
  lemma {:induction false} DrainDelivers(c: Conn, env: Env, rounds: nat, last: int, k: nat)
    requires Inv(c) && !KS.IsNull(c.kcp) && k < rounds
    requires var items := Answers(env, c.kcp.calls, k + 1);
             && (forall i :: 0 <= i < k ==> Plain(items[i]))
             && items[k].Code?
    ensures var items := Answers(env, c.kcp.calls, k + 1);
            var r := Drain(c, env, rounds, last);
            && r.1 == items[k].code
            && r.0.events == c.events + Deliveries(items[..k], c.cbs.output)
            && r.0.link == c.link && !KS.IsNull(r.0.kcp)
    decreases k
  {
    var items := Answers(env, c.kcp.calls, k + 1);
    if k > 0 {
      assert Plain(items[0]);
      var c2 := PlainStep(c, env);
      var rest := Answers(env, c2.kcp.calls, k);
      AnswersTail(env, c.kcp.calls, k + 1);
      assert rest == items[1..];
      DrainPlainStep(c, env, rounds, last);
      DrainDelivers(c2, env, rounds - 1, |items[0].bytes|, k - 1);
      assert items[..k][1..] == rest[..k - 1];
      DeliveriesHead(items[..k], c.cbs.output);
    }
  }

  /** The connection once the drain has taken one message from its live session. */
  function AfterRecvCall(c: Conn): (r: Conn)
    ensures r.link == c.link && r.events == c.events && r.cbs == c.cbs && r.peer == c.peer
  {
    c.(kcp := c.kcp.(calls := c.kcp.calls + [KS.LibRecv]))
  }

  /**
    A DISCONNECT message ends the drain: the connection closes with
    SERVER_CLOSE, the released session answers 0 to the next recv, and
    nothing after the message is delivered; only the closing flush's
    failed sends can report before the close.
  */
  lemma DisconnectEndsDrain(c: Conn, env: Env, rounds: nat, last: int)
    requires Inv(c) && !KS.IsNull(c.kcp) && rounds >= 2
    requires var a := RecvAnswer(env, c.kcp.calls); a.Msg? && |a.bytes| > 0 && a.bytes[0] == CmdDisconnect
    ensures var r := Drain(c, env, rounds, last);
            && r.1 == 0 && Closed(r.0.link) && KS.IsNull(r.0.kcp) && !r.0.worker.running
            && Reported(c.events, r.0.events, CloseEvents(c.cbs, ServerClose))
            && (FlushOut(AfterRecvCall(c), env) == [] ==> r.0.events == c.events + CloseEvents(c.cbs, ServerClose))
  {
    var (s, item) := KS.Recv(c.kcp, RecvAnswer(env, c.kcp.calls));
    assert c.(kcp := s) == AfterRecvCall(c);
    var c2 := InnerClose(c.(kcp := s), env, ServerClose);
    assert Drain(c2, env, rounds - 1, |item.bytes|) == (c2, 0);
  }

  /**
    InputToKcp(data): without a session, or when the library rejects the
    input, close with CLIENT_CONNECT_ERROR and return -1; otherwise drain
    the session and close with CLIENT_CONNECT_ERROR if the last recv
    reported a message too large (-3); return 0.
  */
  function InputToKcp(c: Conn, env: Env, data: seq<uint8>): (r: (Conn, int))
    requires Inv(c)
    ensures Inv(r.0) && ReadKept(c.link, r.0.link)
    ensures r.1 == 0 || r.1 == -1
    ensures r.0.peer == c.peer && r.0.relink == c.relink && r.0.beats == c.beats && WireGrows(c, r.0)
    ensures c.events <= r.0.events
    ensures KS.IsNull(c.kcp) ==> r == (InnerClose(c, env, ClientConnectError), -1)
    ensures !KS.IsNull(c.kcp) ==>
              (r.1 == -1 <==> InputAnswer(env, c.kcp.calls) != 0)
    ensures r.1 == -1 ==> Closed(r.0.link) && r.0.events == c.events + CloseEvents(c.cbs, ClientConnectError)
  {
    if KS.IsNull(c.kcp) then (InnerClose(c, env, ClientConnectError), -1)
    else
      var (s, rc) := KS.Input(c.kcp, data, env.now, InputAnswer(env, c.kcp.calls));
      if rc != 0 then (InnerClose(c.(kcp := s), env, ClientConnectError), -1)
      else
        var (c2, last) := Drain(c.(kcp := s), env, Macros.WhileCap, 0);
        if last == -3 then (InnerClose(c2, env, ClientConnectError), 0) else (c2, 0)
  }

  /** The call history of a live session once Input has been handed data. */
  function InputCalls(c: Conn, env: Env, data: seq<uint8>): seq<KS.LibCall> {
    c.kcp.calls + [KS.LibInput(data, TruncU32(env.now))]
  }

  /**
    The input is accepted and k plain messages are drained before recv
    answers a status: their payloads are delivered in order, and a -3
    (message too large) then closes with CLIENT_CONNECT_ERROR, though the
    function still returns 0; any other status keeps the transport.
  */
  lemma InputDrainsThenStatus(c: Conn, env: Env, data: seq<uint8>, k: nat)
    requires Inv(c) && !KS.IsNull(c.kcp) && InputAnswer(env, c.kcp.calls) == 0 && k < Macros.WhileCap
    requires var items := Answers(env, InputCalls(c, env, data), k + 1);
             && (forall i :: 0 <= i < k ==> Plain(items[i]))
             && items[k].Code?
    ensures var items := Answers(env, InputCalls(c, env, data), k + 1);
            var r := InputToKcp(c, env, data);
            && r.1 == 0
            && (items[k].code == -3 ==>
                  && Closed(r.0.link)
                  && r.0.events == c.events + Deliveries(items[..k], c.cbs.output) + CloseEvents(c.cbs, ClientConnectError))
            && (items[k].code != -3 ==>
                  r.0.link == c.link && r.0.events == c.events + Deliveries(items[..k], c.cbs.output))
  {
    var (s, rc) := KS.Input(c.kcp, data, env.now, 0);
    DrainDelivers(c.(kcp := s), env, Macros.WhileCap, 0, k);
  }

  /** The disconnect reasons a DISCONNECT frame acts on; others are ignored. */
  predicate Fatal(reason: int) {
    reason == ServerClose || reason == ServerFull || reason == FlowNotExist
  }

  /** PING: the echo of a heartbeat must carry exactly 8 bytes, else the connection closes and ReadStream returns. */
  function OnPing(c: Conn, env: Env, dataLen: int): (r: (Conn, bool))
    requires Inv(c)
    ensures Inv(r.0) && ReadKept(c.link, r.0.link)
    ensures r.1 <==> dataLen != PingSize
    ensures r.1 ==> Closed(r.0.link) && r.0.events == c.events + CloseEvents(c.cbs, ClientConnectError)
    ensures !r.1 ==> r.0 == c
  {
    if dataLen != PingSize then (InnerClose(c, env, ClientConnectError), true) else (c, false)
  }

  /**
    KCP_INFO: with at least 93 payload bytes and no session yet, create the
    session from the record; anything else is a protocol violation that
    closes with CLIENT_CONNECT_ERROR and makes ReadStream return.
  */
  function OnKcpInfo(c: Conn, env: Env, payload: seq<uint8>, dataLen: int): (r: (Conn, bool))
    requires Inv(c) && (dataLen >= 0 ==> |payload| == dataLen)
    ensures Inv(r.0) && ReadKept(c.link, r.0.link)
    ensures r.1 <==> dataLen < KcpInfoSize || !KS.IsNull(c.kcp)
    ensures r.1 ==> Closed(r.0.link) && r.0.events == c.events + CloseEvents(c.cbs, ClientConnectError)
    ensures !r.1 ==> r.0.kcp.conv == DecodeKcpInfo(payload).kcpConv && ErrorsAfter(c.events, r.0.events)
    ensures !r.1 && (!env.kcpCreateOk || CreateOut(c, env, DecodeKcpInfo(payload)) == []) ==>
              r.0.link == c.link && r.0.events == c.events
    ensures !r.1 && r.0.link.tcpOpen ==> r.0.link.state == c.link.state && r.0.events == c.events
    ensures !r.1 ==> (!KS.IsNull(r.0.kcp) <==> env.kcpCreateOk)
    ensures r.0.peer == c.peer.(enableUdp := r.0.peer.enableUdp)
  {
    if dataLen >= KcpInfoSize && KS.IsNull(c.kcp) then (CreateKcp(c, env, DecodeKcpInfo(payload)), false)
    else (InnerClose(c, env, ClientConnectError), true)
  }

  /**
    DISCONNECT: a payload of at least 4 bytes carries the reason; SERVER_CLOSE,
    SERVER_FULL and FLOW_NOT_EXIST close with that reason and make ReadStream
    return, any other reason is ignored. A shorter payload closes with
    SERVER_CLOSE but ReadStream goes on.
  */
  function OnDisconnect(c: Conn, env: Env, payload: seq<uint8>, dataLen: int): (r: (Conn, bool))
    requires Inv(c) && (dataLen >= 0 ==> |payload| == dataLen)
    ensures Inv(r.0) && ReadKept(c.link, r.0.link)
    ensures dataLen >= 4 && Fatal(DecI32(payload[..4])) ==>
              && r.1 && Closed(r.0.link) && KS.IsNull(r.0.kcp) && !r.0.worker.running
              && Reported(c.events, r.0.events, CloseEvents(c.cbs, DecI32(payload[..4])))
    ensures dataLen >= 4 && !Fatal(DecI32(payload[..4])) ==> r == (c, false)
    ensures dataLen < 4 ==>
              && !r.1 && Closed(r.0.link) && KS.IsNull(r.0.kcp) && !r.0.worker.running
              && Reported(c.events, r.0.events, CloseEvents(c.cbs, ServerClose))
    ensures dataLen >= 4 && Fatal(DecI32(payload[..4])) && FlushOut(c, env) == [] ==>
              r.0.events == c.events + CloseEvents(c.cbs, DecI32(payload[..4]))
    ensures dataLen < 4 && FlushOut(c, env) == [] ==> r.0.events == c.events + CloseEvents(c.cbs, ServerClose)
  {
    if dataLen >= 4 then
      var reason := DecI32(payload[..4]);
      if Fatal(reason) then (InnerClose(c, env, reason), true) else (c, false)
    else (InnerClose(c, env, ServerClose), false)
  }

  /**
    SYNC_LABEL: the logical connect completes. Only while the first connect
    is pending does it count as the connect success (and clear the pending
    flag); every later one is a reconnect success.
  */
  function OnSync(c: Conn, env: Env): (r: Conn)
    requires Inv(c) && c.link.tcpOpen
    ensures Inv(r) && ReadKept(c.link, r.link)
    ensures !r.relink.isFirstConnect && r.relink.count == 0
    ensures r.link.tcpOpen ==> r.link.state == LogicConnected
    ensures r.link.tcpOpen ==> r.events == c.events + SuccessEvents(c, c.relink.isFirstConnect)
    ensures !r.link.tcpOpen ==>
              r.events == c.events + CloseEvents(c.cbs, ClientConnectError) + SuccessEvents(c, c.relink.isFirstConnect)
  {
    if c.relink.isFirstConnect then LogicConnect(c.(relink := c.relink.(isFirstConnect := false)), env, true)
    else LogicConnect(c, env, false)
  }

  /** Only the first SYNC_LABEL ever reports a first connect; the next one reports a reconnect. */
  lemma SecondSyncReconnects(c: Conn, env: Env, env2: Env)
    requires Inv(c) && c.link.tcpOpen && c.relink.isFirstConnect
    ensures var r := OnSync(c, env);
            r.link.tcpOpen ==>
              && r.events == c.events + SuccessEvents(c, true)
              && var r2 := OnSync(r, env2);
                 r2.link.tcpOpen ==> r2.events == r.events + SuccessEvents(c, false)
  {
  }

  /**
    One frame of ReadStream by command, given its payload (dataLen bytes;
    when dataLen is negative the payload is empty). Returns the connection
    and whether ReadStream returns at once instead of consuming the frame:
    it does so only after closing. RELIABLE goes to the session, UNRELIABLE
    to the script; commands without a branch are ignored.
  */
  function Dispatch(c: Conn, env: Env, cmd: uint8, payload: seq<uint8>, dataLen: int): (r: (Conn, bool))
    requires Inv(c) && c.link.tcpOpen
    requires dataLen >= 0 ==> |payload| == dataLen
    ensures Inv(r.0) && ReadKept(c.link, r.0.link)
    ensures r.1 ==> !r.0.link.tcpOpen
    ensures r.0.peer == c.peer.(enableUdp := r.0.peer.enableUdp)
    ensures cmd == CmdUnreliable ==> r == (Output(c, payload), false)
    ensures cmd > CmdSyncLabel || cmd == CmdBi || cmd == CmdLog ==> r == (c, false)
  {
    if cmd == CmdPing then OnPing(c, env, dataLen)
    else if cmd == CmdReliable then (InputToKcp(c, env, payload).0, false)
    else if cmd == CmdUnreliable then (Output(c, payload), false)
    else if cmd == CmdKcpInfo then OnKcpInfo(c, env, payload, dataLen)
    else if cmd == CmdDisconnect then OnDisconnect(c, env, payload, dataLen)
    else if cmd == CmdSyncLabel then (OnSync(c, env), false)
    else (c, false)
  }

  /** The header at the front of the receive buffer. */
  function Head(c: Conn): ConnHead
    requires Valid(c.link.readStream) && Len(c.link.readStream) >= TcpHeadSize
  {
    DecodeConnHead(Readable(c.link.readStream))
  }

  /** A complete frame is buffered: a header, and at least as many bytes as it declares. */
  predicate HasFrame(s: Stream)
    requires Valid(s)
  {
    Len(s) >= TcpHeadSize && DecodeConnHead(Readable(s)).len <= Len(s)
  }

  /**
    One round of ReadStream on a buffer holding a header: take flow and
    magic from it, return if the frame is incomplete, dispatch it, and
    consume its declared length. `strict` adds the check the source lacks:
    a declared length below the header size closes with CLIENT_CONNECT_ERROR.
    Returns the connection and whether the loop ends.
  */
  function ReadStep(c: Conn, env: Env, strict: bool): (r: (Conn, bool))
    requires Inv(c) && Len(c.link.readStream) >= TcpHeadSize
    ensures Inv(r.0) && (r.1 ==> ReadKept(c.link, r.0.link))
    ensures r.0.peer.flow == Head(c).flow && r.0.peer.magic == Head(c).magic as int32
    ensures !HasFrame(c.link.readStream) ==> r == (c.(peer := r.0.peer), true)
    ensures strict && HasFrame(c.link.readStream) && Head(c).len < TcpHeadSize ==>
              r.1 && Closed(r.0.link) && r.0.events == c.events + CloseEvents(c.cbs, ClientConnectError)
    ensures HasFrame(c.link.readStream) && r.0.link.tcpOpen && Head(c).len >= 0 ==>
              !r.1 && Readable(r.0.link.readStream) == Readable(c.link.readStream)[Head(c).len..]
    ensures Head(c).len < 0 && r.0.link.tcpOpen ==> r.0.link.readStream == c.link.readStream
    ensures !r.0.link.tcpOpen ==> Len(r.0.link.readStream) == 0
    ensures strict && !r.1 ==> Len(r.0.link.readStream) < Len(c.link.readStream)
  {
    var h := Head(c);
    var c1 := c.(peer := c.peer.(flow := h.flow, magic := h.magic as int32));
    if Len(c.link.readStream) < h.len then (c1, true)
    else if strict && h.len < TcpHeadSize then (InnerClose(c1, env, ClientConnectError), true)
    else Handle(c1, env, h)
  }

  /** Dispatch the complete frame at the front of the buffer (header h), then consume its declared length. */
  function Handle(c: Conn, env: Env, h: ConnHead): (r: (Conn, bool))
    requires Inv(c) && Len(c.link.readStream) >= TcpHeadSize && h.len <= Len(c.link.readStream)
    ensures Inv(r.0) && (r.1 ==> ReadKept(c.link, r.0.link))
    ensures r.0.peer.flow == c.peer.flow && r.0.peer.magic == c.peer.magic
    ensures r.0.link.tcpOpen && h.len >= 0 ==> !r.1 && Readable(r.0.link.readStream) == Readable(c.link.readStream)[h.len..]
    ensures r.0.link.tcpOpen && h.len < 0 ==> r.0.link.readStream == c.link.readStream
    ensures !r.0.link.tcpOpen ==> Len(r.0.link.readStream) == 0
    ensures h.len > 0 && !r.1 ==> Len(r.0.link.readStream) < Len(c.link.readStream)
  {
    var dataLen := h.len - TcpHeadSize;
    var (c2, stop) := Dispatch(c, env, h.cmd, Payload(c.link.readStream, h.len), dataLen);
    if stop then (c2, true) else Consume(c, c2, h.len)
  }

  /** The payload of the buffered frame with declared length n: its bytes after the header, none if n < 10. */
  function Payload(s: Stream, n: int): (r: seq<uint8>)
    requires Valid(s) && n <= Len(s)
    ensures n >= TcpHeadSize ==> r == Readable(s)[TcpHeadSize..n]
    ensures n < TcpHeadSize ==> r == []
  {
    if n >= TcpHeadSize then Readable(s)[TcpHeadSize..n] else []
  }

  /** Consume the dispatched frame: skip its declared length in the buffer as it now is. */
  function Consume(c1: Conn, c2: Conn, n: int32): (r: (Conn, bool))
    requires Inv(c1) && Inv(c2) && ReadKept(c1.link, c2.link)
    requires (c1.link.tcpOpen && 0 <= n <= Len(c1.link.readStream)) || n < 0
    ensures Inv(r.0) && !r.1
    ensures r.0 == c2.(link := r.0.link) && r.0.link == c2.link.(readStream := r.0.link.readStream)
    ensures r.0.link.tcpOpen && n >= 0 ==> Readable(r.0.link.readStream) == Readable(c1.link.readStream)[n..]
    ensures !r.0.link.tcpOpen ==> Len(r.0.link.readStream) == 0
    ensures n > 0 ==> Len(r.0.link.readStream) < Len(c1.link.readStream)
    ensures n < 0 ==> r.0 == c2
  {
    if n < 0 then (c2, false)
    else
      SkipLength(c2.link.readStream, n);
      (c2.(link := c2.link.(readStream := Skip(c2.link.readStream, n))), false)
  }

  /**
    ReadStream with the length check: handle complete frames until fewer
    bytes than a header, or only part of a frame, remain, or the connection
    closes. Every round consumes at least one byte, so the loop ends.
  */
  function ReadStream(c: Conn, env: Env): (r: Conn)
    requires Inv(c)
    ensures Inv(r)
    ensures r.link.tcpOpen ==> !HasFrame(r.link.readStream)
    ensures r.link.tcpOpen ==> IsSuffix(Readable(r.link.readStream), Readable(c.link.readStream))
    ensures Len(c.link.readStream) < TcpHeadSize ==> r == c
    decreases Len(c.link.readStream)
  {
    if Len(c.link.readStream) < TcpHeadSize then c
    else
      var (c1, stop) := Round(c, env);
      if stop then c1
      else
        SuffixTrans(Readable(c.link.readStream), Readable(c1.link.readStream), Readable(ReadStream(c1, env).link.readStream));
        ReadStream(c1, env)
  }

  /** One round of the checked ReadStream, seen from the loop: what it leaves unread and whether the loop ends. */
  function Round(c: Conn, env: Env): (r: (Conn, bool))
    requires Inv(c) && Len(c.link.readStream) >= TcpHeadSize
    ensures r == ReadStep(c, env, true)
    ensures Inv(r.0)
    ensures r.0.link.tcpOpen ==> IsSuffix(Readable(r.0.link.readStream), Readable(c.link.readStream))
    ensures r.1 && r.0.link.tcpOpen ==> !HasFrame(r.0.link.readStream)
    ensures !r.1 ==> Len(r.0.link.readStream) < Len(c.link.readStream)
  {
    RoundSteps(c, env);
    ReadStep(c, env, true)
  }

  /** Round's contract, case by case over what ReadStep did. */
  lemma RoundSteps(c: Conn, env: Env)
    requires Inv(c) && Len(c.link.readStream) >= TcpHeadSize
    ensures var r := ReadStep(c, env, true);
            && (r.0.link.tcpOpen ==> IsSuffix(Readable(r.0.link.readStream), Readable(c.link.readStream)))
            && (r.1 && r.0.link.tcpOpen ==> !HasFrame(r.0.link.readStream))
  {
    var r := ReadStep(c, env, true);
    var y := Readable(c.link.readStream);
    if r.0.link.tcpOpen {
      if !HasFrame(c.link.readStream) {
        assert r.0.link.readStream == c.link.readStream;
      } else {
        var n := Head(c).len;
        assert n >= TcpHeadSize;
        assert Readable(r.0.link.readStream) == y[n..];
        assert y[|y| - |y[n..]|..] == y[n..];
      }
    }
  }

  /** x is what is left of y once some of its front is consumed. */
  predicate IsSuffix(x: seq<uint8>, y: seq<uint8>) {
    |x| <= |y| && x == y[|y| - |x|..]
  }

  lemma SuffixTrans(a: seq<uint8>, b: seq<uint8>, d: seq<uint8>)
    ensures IsSuffix(b, a) && IsSuffix(d, b) ==> IsSuffix(d, a)
  {
  }

  /** Where the source's ReadStream loop stands once its rounds are used up. */
  datatype Outcome = Returned | Unfinished | Thrown

  /**
    The front of the buffer makes the source's loop throw: a complete
    UNRELIABLE frame whose declared length is below the header size, read
    while the output callback is set, has a negative payload length, and
    copying that many bytes into a string throws std::length_error, which
    nothing in the network thread catches.
  */
  predicate Throws(c: Conn)
    requires Valid(c.link.readStream)
  {
    && HasFrame(c.link.readStream) && Head(c).cmd == CmdUnreliable
    && Head(c).len < TcpHeadSize && c.cbs.output
  }

  /**
    ReadStream as the source writes it, with the number of rounds bounded
    by `fuel`: a declared length below the header size is dispatched like
    any other, and throws on an UNRELIABLE frame. Returns the connection
    and where the loop stands.
  */
  function ReadStreamAsWritten(c: Conn, env: Env, fuel: nat): (r: (Conn, Outcome))
    requires Inv(c)
    ensures Inv(r.0)
    ensures r.1 == Returned && r.0.link.tcpOpen ==> !HasFrame(r.0.link.readStream)
    ensures r.1 == Unfinished ==> fuel == 0 || Len(c.link.readStream) >= TcpHeadSize
    ensures r.1 == Thrown ==> Len(r.0.link.readStream) >= TcpHeadSize && Throws(r.0)
    ensures Len(c.link.readStream) < TcpHeadSize ==> r == (c, Returned)
    decreases fuel
  {
    if Len(c.link.readStream) < TcpHeadSize then (c, Returned)
    else if fuel == 0 then (c, Unfinished)
    else if Throws(c) then (c.(peer := c.peer.(flow := Head(c).flow, magic := Head(c).magic as int32)), Thrown)
    else
      var (c1, stop) := ReadStep(c, env, false);
      if stop then (c1, Returned) else ReadStreamAsWritten(c1, env, fuel - 1)
  }

  /**
    An UNRELIABLE frame that declares less than a header's length: with the
    output callback set the source's loop throws at once, while the
    checked ReadStream closes with CLIENT_CONNECT_ERROR and delivers
    nothing.
  */
  lemma ShortUnreliableThrows(c: Conn, env: Env, fuel: nat)
    requires Inv(c) && Len(c.link.readStream) >= TcpHeadSize && HasFrame(c.link.readStream)
    requires Head(c).cmd == CmdUnreliable && Head(c).len < TcpHeadSize
    ensures c.cbs.output ==> ReadStreamAsWritten(c, env, fuel + 1).1 == Thrown
    ensures var r := ReadStream(c, env);
            Closed(r.link) && r.events == c.events + CloseEvents(c.cbs, ClientConnectError)
  {
  }

  /** On a frame that declares at least a header's length the check changes nothing. */
  lemma StrictAgreesOnWellFormed(c: Conn, env: Env)
    requires Inv(c) && Len(c.link.readStream) >= TcpHeadSize
    requires HasFrame(c.link.readStream) ==> Head(c).len >= TcpHeadSize
    ensures ReadStep(c, env, true) == ReadStep(c, env, false)
  {
  }

  /** A buffer whose header declares length 0 with command BI (5). */
  predicate ZeroLengthBi(c: Conn)
    requires Valid(c.link.readStream)
  {
    Len(c.link.readStream) >= TcpHeadSize && Head(c).len == 0 && Head(c).cmd == CmdBi
  }

  /**
    A header that declares length 0 with a command no branch handles makes
    one round of the source's loop consume nothing: once the flow and magic
    have been taken from it, the connection is a fixed point.
  */
  lemma ZeroLengthFrameIsFixedPoint(c: Conn, env: Env)
    requires Inv(c) && ZeroLengthBi(c)
    requires c.peer.flow == Head(c).flow && c.peer.magic == Head(c).magic as int32
    ensures ReadStep(c, env, false) == (c, false)
  {
    var h := Head(c);
    assert c.(peer := c.peer.(flow := h.flow, magic := h.magic as int32)) == c;
    assert Dispatch(c, env, h.cmd, Payload(c.link.readStream, 0), -TcpHeadSize) == (c, false);
    SkipLength(c.link.readStream, 0);
    assert Readable(Skip(c.link.readStream, 0)) == Readable(c.link.readStream);
  }

  /** Hence the source's loop never returns on such a buffer, however many rounds it is given. */
  lemma {:induction false} ZeroLengthFrameSpins(c: Conn, env: Env, fuel: nat)
    requires Inv(c) && ZeroLengthBi(c)
    requires c.peer.flow == Head(c).flow && c.peer.magic == Head(c).magic as int32
    ensures ReadStreamAsWritten(c, env, fuel) == (c, Unfinished)
    decreases fuel
  {
    if fuel > 0 {
      ZeroLengthFrameIsFixedPoint(c, env);
      ZeroLengthFrameSpins(c, env, fuel - 1);
    }
  }

  /** With the check, the same buffer closes the connection with CLIENT_CONNECT_ERROR and the loop returns. */
  lemma ZeroLengthFrameCloses(c: Conn, env: Env)
    requires Inv(c) && ZeroLengthBi(c)
    ensures var r := ReadStream(c, env);
            Closed(r.link) && r.events == c.events + CloseEvents(c.cbs, ClientConnectError)
  {
  }

  /** The deliveries of those payloads, in order, when the output callback is set. */
  function Outputs(ps: seq<seq<uint8>>, output: bool): (r: seq<Event>)
    ensures |r| == if output then |ps| else 0
    decreases |ps|
  {
    if |ps| == 0 || !output then [] else [Delivered(ps[0])] + Outputs(ps[1..], output)
  }

  /** One round of ReadStream on an UNRELIABLE frame delivers its payload and consumes exactly the frame. */
  lemma ReadUnreliableStep(c: Conn, env: Env, flow: int32, magic: int, p: seq<uint8>, rest: seq<uint8>)
    requires Inv(c) && c.link.tcpOpen && TcpHeadSize + |p| < 0x8000_0000
    requires Readable(c.link.readStream) == TcpFrame(flow, magic, CmdUnreliable, p) + rest
    ensures var r := ReadStep(c, env, true);
            && !r.1 && Inv(r.0) && r.0.link.tcpOpen && Readable(r.0.link.readStream) == rest
            && r.0.cbs == c.cbs && r.0.events == c.events + Outputs([p], c.cbs.output)
  {
    TcpFrameRoundTrip(flow, magic, CmdUnreliable, p, rest);
    var h := Head(c);
    assert h == ConnHead(TcpHeadSize + |p|, flow, magic % 256, CmdUnreliable);
    assert Payload(c.link.readStream, h.len) == p;
  }

  /**
    A buffer holding whole UNRELIABLE frames followed by fewer bytes than a
    header: ReadStream delivers every payload in order, keeps the
    connection open and leaves only the trailing bytes.
  */
  lemma {:induction false} ReadStreamDeliversFrames(c: Conn, env: Env, flow: int32, magic: int, ps: seq<seq<uint8>>, tail: seq<uint8>)
    requires Inv(c) && c.link.tcpOpen && Framable(ps) && |tail| < TcpHeadSize
    requires Readable(c.link.readStream) == Frames(flow, magic, CmdUnreliable, ps) + tail
    ensures var r := ReadStream(c, env);
            && r.link.tcpOpen && Readable(r.link.readStream) == tail
            && r.events == c.events + Outputs(ps, c.cbs.output)
    decreases |ps|
  {
    if |ps| > 0 {
      FramesTail(flow, magic, ps, tail);
      var rest := Frames(flow, magic, CmdUnreliable, ps[1..]) + tail;
      ReadUnreliableStep(c, env, flow, magic, ps[0], rest);
      var c1 := ReadStep(c, env, true).0;
      ReadStreamStep(c, env);
      ReadStreamDeliversFrames(c1, env, flow, magic, ps[1..], tail);
      OutputsSplit(ps, c.cbs.output);
      EventsAssoc(c.events, Outputs([ps[0]], c.cbs.output), Outputs(ps[1..], c.cbs.output));
    }
  }

  lemma EventsAssoc(a: seq<Event>, b: seq<Event>, d: seq<Event>)
    ensures (a + b) + d == a + (b + d)
  {
  }

  lemma FramesTail(flow: int32, magic: int, ps: seq<seq<uint8>>, tail: seq<uint8>)
    requires Framable(ps) && |ps| > 0
    ensures Framable(ps[1..]) && TcpHeadSize + |ps[0]| < 0x8000_0000
    ensures Frames(flow, magic, CmdUnreliable, ps) + tail
         == TcpFrame(flow, magic, CmdUnreliable, ps[0]) + (Frames(flow, magic, CmdUnreliable, ps[1..]) + tail)
  {
    assert Framable(ps[1..]) by {
      forall i | 0 <= i < |ps| - 1 ensures TcpHeadSize + |ps[1..][i]| < 0x8000_0000 { assert ps[1..][i] == ps[i + 1]; }
    }
  }

  lemma OutputsSplit(ps: seq<seq<uint8>>, output: bool)
    requires |ps| > 0
    ensures Outputs(ps, output) == Outputs([ps[0]], output) + Outputs(ps[1..], output)
  {
  }

  /** A round that does not end the loop hands the rest of the buffer to the next round. */
  lemma ReadStreamStep(c: Conn, env: Env)
    requires Inv(c) && Len(c.link.readStream) >= TcpHeadSize
    ensures !ReadStep(c, env, true).1 ==> ReadStream(c, env) == ReadStream(ReadStep(c, env, true).0, env)
  {
  }

  /** recv gave nothing to read: it failed, or the peer closed the stream. */
  predicate NothingRead(a: TcpRecv) {
    a.TcpRecvFailed? || |a.bytes| == 0
  }

  /** The unread bytes once a recv that answered a is published: the buffered ones, then those received. */
  function Buffered(c: Conn, a: TcpRecv): (r: seq<uint8>)
    requires Valid(c.link.readStream) && a.Received?
  {
    Readable(c.link.readStream) + a.bytes
  }

  /** The receive buffer once received bytes are written at its end and published. */
  function Publish(s: Stream, b: seq<uint8>): (r: Stream)
    requires Valid(s) && s.size + |b| <= s.capacity
    ensures Valid(r) && Readable(r) == Readable(s) + b
  {
    WriteThenAddSize(s, b);
    AddSize(WriteAtEnd(s, b), |b|)
  }

  /**
    The read after the buffer has room: a failed recv or the peer's
    orderly close closes with CLIENT_CONNECT_ERROR; received bytes are
    published behind the buffered ones and ReadStream runs.
  */
  function AfterRecv(c: Conn, env: Env): (r: Conn)
    requires Inv(c) && c.link.readStream.capacity - c.link.readStream.size >= RecvOnce
    ensures Inv(r)
    ensures NothingRead(TcpRecvAnswer(c.link, env)) ==>
              Closed(r.link) && r.events == c.events + CloseEvents(c.cbs, ClientConnectError)
    ensures r.link.tcpOpen ==>
              && TcpRecvAnswer(c.link, env).Received?
              && var all := Buffered(c, TcpRecvAnswer(c.link, env));
                 Len(r.link.readStream) <= |all| && Readable(r.link.readStream) == all[|all| - Len(r.link.readStream)..]
  {
    var a := TcpRecvAnswer(c.link, env);
    if NothingRead(a) then InnerClose(c, env, ClientConnectError)
    else ReadStream(c.(link := c.link.(readStream := Publish(c.link.readStream, a.bytes))), env)
  }

  /** The buffer after EnsureWritable(RecvOnce), and the status of that call. */
  function Room(c: Conn): (r: (Conn, int))
    requires Inv(c)
    ensures Inv(r.0) && r.0 == c.(link := r.0.link) && r.0.link == c.link.(readStream := r.0.link.readStream)
    ensures Readable(r.0.link.readStream) == Readable(c.link.readStream)
    ensures r.1 == 0 <==> Len(c.link.readStream) + RecvOnce <= MaxSize
    ensures r.1 == 0 ==> r.0.link.readStream.capacity - r.0.link.readStream.size >= RecvOnce
  {
    var (rs, rc) := EnsureWritable(c.link.readStream, RecvOnce);
    (c.(link := c.link.(readStream := rs)), rc)
  }

  /**
    OnTcpRead with the missing return: when the buffer cannot take another
    RecvOnce bytes without passing its 16 MiB ceiling, close with
    CLIENT_CONNECT_ERROR and stop; otherwise read once.
  */
  function OnTcpRead(c: Conn, env: Env): (r: Conn)
    requires Inv(c)
    ensures Inv(r)
    ensures Len(c.link.readStream) + RecvOnce > MaxSize ==>
              Closed(r.link) && r.events == c.events + CloseEvents(c.cbs, ClientConnectError)
    ensures Len(c.link.readStream) + RecvOnce <= MaxSize && NothingRead(TcpRecvAnswer(c.link, env)) ==>
              Closed(r.link) && r.events == c.events + CloseEvents(c.cbs, ClientConnectError)
    ensures r.link.tcpOpen ==>
              && TcpRecvAnswer(c.link, env).Received?
              && var all := Buffered(c, TcpRecvAnswer(c.link, env));
                 Len(r.link.readStream) <= |all| && Readable(r.link.readStream) == all[|all| - Len(r.link.readStream)..]
  {
    var (c1, rc) := Room(c);
    if rc != 0 then InnerClose(c1, env, ClientConnectError) else AfterRecv(c1, env)
  }

  /**
    OnTcpRead as the source writes it: after the failed EnsureWritable it
    closes but goes on to recv on the closed socket, which fails and
    closes a second time.
  */
  function OnTcpReadAsWritten(c: Conn, env: Env): (r: Conn)
    requires Inv(c)
    ensures Inv(r)
  {
    var (c1, rc) := Room(c);
    var c2 := if rc != 0 then InnerClose(c1, env, ClientConnectError) else c1;
    assert c2.link.readStream.capacity >= GrowBlock;
    AfterRecv(c2, env)
  }

  /** The two agree whenever the buffer has room. */
  lemma TcpReadAgreesWithRoom(c: Conn, env: Env)
    requires Inv(c) && Len(c.link.readStream) + RecvOnce <= MaxSize
    ensures OnTcpReadAsWritten(c, env) == OnTcpRead(c, env)
  {
  }

  /**
    A buffer that cannot take RecvOnce more bytes: the source queues the
    disconnect twice, while the corrected read queues it once.
  */
  lemma OverflowDisconnectsTwice(c: Conn, env: Env)
    requires Inv(c) && Len(c.link.readStream) + RecvOnce > MaxSize
    ensures var r := OnTcpReadAsWritten(c, env);
            Closed(r.link)
            && r.events == c.events + CloseEvents(c.cbs, ClientConnectError) + CloseEvents(c.cbs, ClientConnectError)
    ensures OnTcpRead(c, env).events == c.events + CloseEvents(c.cbs, ClientConnectError)
  {
  }

  /**
    A frame that declares more bytes than are buffered is kept whole, so a
    header that declares 0x7FFFFFFF bytes lets the buffer fill until no
    further read fits.
  */
  lemma IncompleteFrameKept(c: Conn, env: Env)
    requires Inv(c) && Len(c.link.readStream) >= TcpHeadSize && Head(c).len > Len(c.link.readStream)
    ensures ReadStream(c, env).link.readStream == c.link.readStream
    ensures ReadStream(c, env).events == c.events
  {
  }

  /**
    An empty buffer that receives whole UNRELIABLE frames followed by fewer
    bytes than a header: every payload is delivered in order and only the
    trailing bytes stay buffered.
  */
  lemma TcpReadDeliversFrames(c: Conn, env: Env, flow: int32, magic: int, ps: seq<seq<uint8>>, tail: seq<uint8>)
    requires Inv(c) && c.link.tcpOpen && Len(c.link.readStream) == 0 && Framable(ps) && |tail| < TcpHeadSize
    requires env.tcpRecv == Received(Frames(flow, magic, CmdUnreliable, ps) + tail)
    requires 0 < |Frames(flow, magic, CmdUnreliable, ps) + tail| <= RecvOnce
    ensures var r := OnTcpRead(c, env);
            && r.link.tcpOpen && Readable(r.link.readStream) == tail
            && r.events == c.events + Outputs(ps, c.cbs.output)
  {
    var (c1, rc) := Room(c);
    var b := Frames(flow, magic, CmdUnreliable, ps) + tail;
    assert TcpRecvAnswer(c1.link, env) == Received(b);
    var c2 := c1.(link := c1.link.(readStream := Publish(c1.link.readStream, b)));
    ReadStreamDeliversFrames(c2, env, flow, magic, ps, tail);
  }

  /**
    OnUdpRead: with the UDP socket open, read one datagram. Six bytes or
    more carry a header: a route ping (12 bytes with flow 0) is only
    timed, a datagram of another flow is dropped, and by command the
    payload goes to the script (UNRELIABLE) or to the session (RELIABLE),
    or DISCONNECT closes with SERVER_CLOSE. Shorter datagrams are ignored;
    a failed recvfrom closes with CLIENT_CONNECT_ERROR unless it would block
    or was interrupted.
  */
  function OnUdpRead(c: Conn, env: Env): (r: Conn)
    requires Inv(c)
    ensures Inv(r) && ReadKept(c.link, r.link)
    ensures !c.link.udpOpen ==> r == c
    ensures c.link.udpOpen && UdpRecvAnswer(env) == UdpRecvFailed(OtherError) ==>
              Closed(r.link) && r.events == c.events + CloseEvents(c.cbs, ClientConnectError)
    ensures UdpRecvAnswer(env).UdpRecvFailed? && UdpRecvAnswer(env).err != OtherError ==> r == c
    ensures UdpRecvAnswer(env).Datagram? && !Accepted(c, UdpRecvAnswer(env).bytes) ==> r == c
    ensures c.link.udpOpen && UdpRecvAnswer(env).Datagram? && Accepted(c, UdpRecvAnswer(env).bytes) ==>
              var p := UdpRecvAnswer(env).bytes;
              var cmd := DecodeUdpHead(p).cmd;
              && (cmd == CmdUnreliable ==> r == c.(events := c.events + Outputs([p[UdpHeadSize..]], c.cbs.output)))
              && (cmd == CmdReliable ==> r == InputToKcp(c, env, p[UdpHeadSize..]).0)
              && (cmd == CmdDisconnect ==>
                    && Closed(r.link) && KS.IsNull(r.kcp) && !r.worker.running
                    && Reported(c.events, r.events, CloseEvents(c.cbs, ServerClose)))
              && (cmd != CmdUnreliable && cmd != CmdReliable && cmd != CmdDisconnect ==> r == c)
  {
    if !c.link.udpOpen then c
    else match UdpRecvAnswer(env)
      case UdpRecvFailed(e) => if e == OtherError then InnerClose(c, env, ClientConnectError) else c
      case Datagram(p) =>
        if !Accepted(c, p) then c
        else
          var cmd := DecodeUdpHead(p).cmd;
          var msg := p[UdpHeadSize..];
          if cmd == CmdUnreliable then Output(c, msg)
          else if cmd == CmdReliable then InputToKcp(c, env, msg).0
          else if cmd == CmdDisconnect then InnerClose(c, env, ServerClose)
          else c
  }

  /** A datagram the connection acts on: it carries a header, is not a route ping, and belongs to the current flow. */
  predicate Accepted(c: Conn, p: seq<uint8>) {
    |p| >= UdpHeadSize && !IsRoutePing(p) && DecodeUdpHead(p).flow == c.peer.flow
  }

  /** An UNRELIABLE datagram of the connection's flow delivers exactly its payload. */
  lemma UdpFrameDelivered(c: Conn, env: Env, magic: int, payload: seq<uint8>)
    requires Inv(c) && c.link.udpOpen
    requires env.udpRecv == Datagram(UdpFrame(c.peer.flow, magic, CmdUnreliable, payload))
    requires UdpHeadSize + |payload| <= MaxUdpPkgLen
    requires !(c.peer.flow == 0 && |payload| == RoutePingSize - UdpHeadSize)
    ensures OnUdpRead(c, env) == c.(events := c.events + Outputs([payload], c.cbs.output))
  {
    var p := UdpFrame(c.peer.flow, magic, CmdUnreliable, payload);
    UdpFrameRoundTrip(c.peer.flow, magic, CmdUnreliable, payload);
    assert p[0..4] == EncI32(c.peer.flow);
    I32RoundTrip(c.peer.flow);
    assert Accepted(c, p);
  }

  /** A route ping is never taken for a message, whatever the connection's flow. */
  lemma RoutePingIgnored(c: Conn, env: Env, time: int64)
    requires Inv(c)
    requires env.udpRecv == Datagram(EncodeRoutePing(time))
    ensures OnUdpRead(c, env) == c
  {
    RoutePingRoundTrip(time);
  }

  /**
    What select reported for the two sockets in one round of the network
    loop. The loop also asks about an exception set, but never puts a socket
    in it, so that report is always empty and a socket error shows up as
    readability.
  */
  datatype Ready = Ready(tcpRead: bool, tcpWrite: bool, udpRead: bool)

  /**
    The TCP socket became writable: stop watching writability; a pending
    connect has completed (CONNECTED), otherwise flush the write buffer.
  */
  function OnWritable(c: Conn, env: Env): (r: Conn)
    requires Inv(c)
    ensures Inv(r) && ReadKept(c.link, r.link)
    ensures c.link.state == Connecting ==>
              r == c.(link := c.link.(tcpWritable := false, state := Connected, stateTs := env.now))
    ensures c.link.state != Connecting && Len(c.link.writeStream) <= 0 ==> r == c.(link := c.link.(tcpWritable := false))
    ensures c.link.state != Connecting && r.link.tcpOpen ==>
              && InFlight(r) == InFlight(c) && r.events == c.events && r.link.state == c.link.state
              && (Len(r.link.writeStream) > 0 ==> r.link.tcpWritable)
    ensures c.link.state != Connecting && c.link.tcpOpen && !r.link.tcpOpen ==>
              Closed(r.link) && r.events == c.events + CloseEvents(c.cbs, ClientConnectError)
    ensures c.link.state != Connecting ==> Kept(c, r) && r.wire.udp == c.wire.udp
  {
    var c1 := c.(link := c.link.(tcpWritable := false));
    if c.link.state == Connecting then SetConnState(c1, Connected, env.now) else OnTcpWrite(c1, env)
  }

  /**
    The socket half of one round of the network loop: a readable or failed
    TCP socket is read, else a writable one is served (it is watched for
    writability only while tcp_writable_ is set); then the UDP socket, if
    it is still open, is read.
  */
  function OnSelect(c: Conn, env: Env, rd: Ready): (r: Conn)
    requires Inv(c)
    ensures Inv(r)
    ensures !c.link.tcpOpen ==> r == c
    ensures !rd.tcpRead && !rd.tcpWrite && !rd.udpRead ==> r == c
  {
    var c1 :=
      if c.link.tcpOpen && rd.tcpRead then OnTcpRead(c, env)
      else if c.link.tcpOpen && c.link.tcpWritable && rd.tcpWrite then OnWritable(c, env)
      else c;
    if rd.udpRead then OnUdpRead(c1, env) else c1
  }

  /** A pending connect completes on the first writable report: CONNECTED, nothing queued for the script. */
  lemma ConnectCompletes(c: Conn, env: Env, rd: Ready)
    requires Inv(c) && c.link.state == Connecting && c.link.tcpWritable
    requires !rd.tcpRead && rd.tcpWrite && !rd.udpRead
    ensures var r := OnSelect(c, env, rd);
            && r.link.state == Connected && r.link.tcpOpen && !r.link.tcpWritable
            && r.events == c.events && r.kcp == c.kcp
  {
  }

  /**
    r is c after a SYNC_LABEL completed the first connect: never CONNECTED;
    LOGIC_CONNECTED with the connect success reported while the link is
    open; closed, with the failed heartbeat's CLIENT_CONNECT_ERROR before
    the success, otherwise.
  */
  predicate SyncedFirst(c: Conn, r: Conn) {
    && r.link.state != Connected
    && (r.link.tcpOpen ==> r.link.state == LogicConnected && r.events == c.events + SuccessEvents(c, true))
    && (!r.link.tcpOpen ==>
          && Closed(r.link)
          && r.events == c.events + CloseEvents(c.cbs, ClientConnectError) + SuccessEvents(c, true))
  }

  /**
    Readability of the TCP socket shadows its writability: when both are
    reported while the first connect is pending, the read runs and the
    connect does not complete in that round. A SYNC_LABEL frame read then
    takes the link straight to LOGIC_CONNECTED, so CONNECTED is never set,
    and the connect success is reported.
  */
  lemma ReadBeforeWrite(c: Conn, env: Env, rd: Ready, flow: int32, magic: int)
    requires Inv(c) && c.link.tcpOpen && c.link.state == Connecting && c.link.tcpWritable
    requires c.relink.isFirstConnect && Len(c.link.readStream) == 0
    requires rd.tcpRead && rd.tcpWrite && !rd.udpRead
    requires env.tcpRecv == Received(TcpFrame(flow, magic, CmdSyncLabel, []))
    ensures SyncedFirst(c, OnSelect(c, env, rd))
  {
    SyncRead(c, env, flow, magic);
    assert OnSelect(c, env, rd) == OnTcpRead(c, env);
  }

  /** OnTcpRead receiving one SYNC_LABEL frame into an empty buffer while the first connect is pending. */
  lemma SyncRead(c: Conn, env: Env, flow: int32, magic: int)
    requires Inv(c) && c.link.tcpOpen && c.relink.isFirstConnect && Len(c.link.readStream) == 0
    requires env.tcpRecv == Received(TcpFrame(flow, magic, CmdSyncLabel, []))
    ensures SyncedFirst(c, OnTcpRead(c, env))
  {
    var f := TcpFrame(flow, magic, CmdSyncLabel, []);
    TcpReadPublishes(c, env, f);
    var c1 := Room(c).0;
    var c2 := c1.(link := c1.link.(readStream := Publish(c1.link.readStream, f)));
    ReadSyncStep(c2, env, flow, magic);
    assert c2.events == c.events && c2.cbs == c.cbs;
  }

  /** With room in the buffer, a recv that answers bytes publishes them and runs the checked ReadStream. */
  lemma TcpReadPublishes(c: Conn, env: Env, b: seq<uint8>)
    requires Inv(c) && Len(c.link.readStream) + RecvOnce <= MaxSize
    requires TcpRecvAnswer(c.link, env) == Received(b) && |b| > 0
    ensures var c1 := Room(c).0;
            && c1.link.readStream.size + |b| <= c1.link.readStream.capacity
            && OnTcpRead(c, env) == ReadStream(c1.(link := c1.link.(readStream := Publish(c1.link.readStream, b))), env)
  {
    var (c1, rc) := Room(c);
    assert TcpRecvAnswer(c1.link, env) == Received(b);
    AfterRecvReads(c1, env, b);
  }

  /** A recv that answers bytes publishes them behind the buffered ones and runs the checked ReadStream. */
  lemma AfterRecvReads(c: Conn, env: Env, b: seq<uint8>)
    requires Inv(c) && c.link.readStream.capacity - c.link.readStream.size >= RecvOnce
    requires TcpRecvAnswer(c.link, env) == Received(b) && |b| > 0
    ensures AfterRecv(c, env) == ReadStream(c.(link := c.link.(readStream := Publish(c.link.readStream, b))), env)
  {
  }

  /** ReadStream on a buffer holding one SYNC_LABEL frame while the first connect is pending. */
  lemma ReadSyncStep(c: Conn, env: Env, flow: int32, magic: int)
    requires Inv(c) && c.link.tcpOpen && c.relink.isFirstConnect
    requires Readable(c.link.readStream) == TcpFrame(flow, magic, CmdSyncLabel, [])
    ensures SyncedFirst(c, ReadStream(c, env))
  {
    var empty: seq<uint8> := [];
    TcpFrameRoundTrip(flow, magic, CmdSyncLabel, [], empty);
    assert TcpFrame(flow, magic, CmdSyncLabel, []) + empty == TcpFrame(flow, magic, CmdSyncLabel, []);
    var h := Head(c);
    assert h == ConnHead(TcpHeadSize, flow, magic % 256, CmdSyncLabel);
    var c1 := ReadStep(c, env, true).0;
    ReadStreamStep(c, env);
    assert Len(c1.link.readStream) == 0;
  }
}

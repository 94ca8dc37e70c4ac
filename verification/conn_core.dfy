/**
  The transport half of ConnClientPrivate: state changes, closing and
  connecting, framing outgoing TCP and UDP traffic, the heartbeats and the
  connect-success notifications. Every function takes the connection
  record and the environment for the current call and returns the new
  record; events the source would queue for the script side are appended
  to `events`, bytes a socket accepted to `wire`.
*/
module ConnCore {
  import opened Common
  import opened Bytes
  import opened Streams
  import opened Protocol
  import T = Timers
  import KS = KcpSessions
  import opened ConnTypes

  /** The disconnect event InnerClose queues: only for a non-negative reason with a callback set. */
  function CloseEvents(cbs: Callbacks, reason: int): (r: seq<Event>)
    ensures r == [] || r == [Disconnected(reason)]
    ensures r != [] <==> reason >= 0 && cbs.disconnect
  {
    if reason >= 0 && cbs.disconnect then [Disconnected(reason)] else []
  }

  /** The TCP bytes of the connection in order: those the socket took, then those still queued. */
  function InFlight(c: Conn): seq<uint8>
    requires Valid(c.link.writeStream)
  {
    c.wire.tcp + Readable(c.link.writeStream)
  }

  /** A transport after InnerClose: no sockets, INIT, writable again, both buffers empty. */
  predicate Closed(l: Link) {
    && !l.tcpOpen && !l.udpOpen && l.state == Init && l.tcpWritable
    && Valid(l.writeStream) && Valid(l.readStream)
    && Len(l.writeStream) == 0 && Len(l.readStream) == 0
  }

  /** The members no send path touches: the thread, the address and labels, the policy, the timers, the session. */
  predicate Kept(c: Conn, r: Conn) {
    && r.worker == c.worker && r.peer == c.peer && r.relink == c.relink
    && r.beats == c.beats && r.kcp == c.kcp && r.cbs == c.cbs
  }

  /**
    The outcome of a send path: either only the write buffer and the
    writable flag of the transport changed, or the connection has been
    closed with CLIENT_CONNECT_ERROR (which keeps the session and the
    running flag) and that disconnect queued.
  */
  predicate SentOrFailed(c: Conn, r: Conn) {
    && Kept(c, r)
    && r.wire.udp == c.wire.udp && c.wire.tcp <= r.wire.tcp
    && (|| (&& r.link == c.link.(writeStream := r.link.writeStream, tcpWritable := r.link.tcpWritable)
            && r.events == c.events)
        || (&& Closed(r.link) && r.wire.tcp == c.wire.tcp
            && r.events == c.events + CloseEvents(c.cbs, ClientConnectError)))
  }

  /** SetConnState: record the state and its timestamp; INIT re-arms writability, LOGIC_CONNECTED clears the relink count. */
  function SetConnState(c: Conn, s: ConnState, now: int64): (r: Conn)
    ensures r.link.state == s && r.link.stateTs == now
    ensures r.link.tcpWritable == (s == Init || c.link.tcpWritable)
    ensures r.relink.count == (if s == LogicConnected then 0 else c.relink.count)
    ensures r.link == c.link.(state := s, stateTs := now, tcpWritable := r.link.tcpWritable)
    ensures r.relink == c.relink.(count := r.relink.count)
    ensures r == c.(link := r.link, relink := r.relink)
  {
    var l := c.link.(state := s, stateTs := now);
    if s == Init then c.(link := l.(tcpWritable := true))
    else if s == LogicConnected then c.(link := l, relink := c.relink.(count := 0))
    else c.(link := l)
  }

  /**
    The part of InnerClose that every reason runs: close both sockets,
    return to INIT, drop both buffers, and queue the disconnect event. For
    CLIENT_CONNECT_ERROR and above it is all InnerClose does, so the send
    paths, which only ever close with that reason, use it directly.
  */
  function Teardown(c: Conn, reason: int, now: int64): (r: Conn)
    requires Valid(c.link.writeStream) && Valid(c.link.readStream)
    ensures Inv(r) && Closed(r.link) && r.link.stateTs == now
    ensures r.events == c.events + CloseEvents(c.cbs, reason)
    ensures r == c.(link := r.link, events := r.events)
  {
    var l := c.link;
    var l1 := l.(tcpOpen := false, udpOpen := false, state := Init, stateTs := now, tcpWritable := true);
    var l2 := l1.(writeStream := Streams.Reset(l.writeStream), readStream := Streams.Reset(l.readStream));
    c.(link := l2, events := c.events + CloseEvents(c.cbs, reason))
  }

  /** InnerConnect's address step: the port narrowed to 16 bits, the timeout clamped and kept unless positive. */
  function Target(c: Conn, ip: string, port: int, timeoutMs: int): (r: Conn)
    ensures r.peer == c.peer.(ip := ip, port := port % 0x1_0000)
    ensures r.relink == c.relink.(connectTimeoutMs := r.relink.connectTimeoutMs)
    ensures timeoutMs > 0 ==> r.relink.connectTimeoutMs == Min(timeoutMs, MaxConnectTimeout)
    ensures timeoutMs <= 0 ==> r.relink.connectTimeoutMs == c.relink.connectTimeoutMs
    ensures r == c.(peer := r.peer, relink := r.relink)
  {
    var t := if timeoutMs > MaxConnectTimeout then MaxConnectTimeout else timeoutMs;
    c.(peer := c.peer.(ip := ip, port := port % 0x1_0000),
       relink := c.relink.(connectTimeoutMs := if t > 0 then t else c.relink.connectTimeoutMs))
  }

  /**
    InnerConnect: remember the address, then open the TCP and the UDP
    socket; either failure closes with CLIENT_CONNECT_ERROR and returns -1,
    success enters CONNECTING and returns 0. Sockets already open are
    replaced without being closed, and the receive buffer is kept.
  */
  function InnerConnect(c: Conn, env: Env, ip: string, port: int, timeoutMs: int): (r: (Conn, int))
    requires Inv(c)
    ensures Inv(r.0) && ReadKept(c.link, r.0.link)
    ensures r.0.peer == Target(c, ip, port, timeoutMs).peer && r.0.relink == Target(c, ip, port, timeoutMs).relink
    ensures r.1 == 0 <==> env.tcpConnectOk && env.udpConnectOk
    ensures r.1 == 0 ==> r.0.link.state == Connecting && r.0.link.tcpOpen && r.0.link.udpOpen
    ensures r.1 == 0 ==> r.0.link.stateTs == env.now && r.0.link.writeStream == c.link.writeStream
    ensures r.1 == 0 ==> r.0.events == c.events
    ensures r.1 != 0 ==> r.1 == -1 && Closed(r.0.link)
    ensures r.1 != 0 ==> r.0.events == c.events + CloseEvents(c.cbs, ClientConnectError)
    ensures r.0.kcp == c.kcp && r.0.worker == c.worker && r.0.beats == c.beats && r.0.wire == c.wire
  {
    var c1 := Target(c, ip, port, timeoutMs);
    if !env.tcpConnectOk then
      (Teardown(c1.(link := c1.link.(tcpOpen := false)), ClientConnectError, env.now), -1)
    else if !env.udpConnectOk then
      (Teardown(c1.(link := c1.link.(tcpOpen := true, udpOpen := false)), ClientConnectError, env.now), -1)
    else
      (SetConnState(c1.(link := c1.link.(tcpOpen := true, udpOpen := true)), Connecting, env.now), 0)
  }

  /** Output: hand a message to the script side when an output callback is set. */
  function Output(c: Conn, data: seq<uint8>): (r: Conn)
    ensures r == c.(events := r.events)
    ensures c.cbs.output ==> r.events == c.events + [Delivered(data)]
    ensures !c.cbs.output ==> r.events == c.events
  {
    if c.cbs.output then c.(events := c.events + [Delivered(data)]) else c
  }

  /** Accepted bytes leave the front of the queue and join the bytes the socket took, in order. */
  function Advance(c: Conn, k: int): (r: Conn)
    requires Valid(c.link.writeStream) && 0 <= k <= Len(c.link.writeStream)
    ensures Valid(r.link.writeStream) && InFlight(r) == InFlight(c)
    ensures r.wire.tcp == c.wire.tcp + Readable(c.link.writeStream)[..k]
    ensures Len(r.link.writeStream) == Len(c.link.writeStream) - k
    ensures r == c.(link := r.link, wire := r.wire) && r.link == c.link.(writeStream := r.link.writeStream)
  {
    var pending := Readable(c.link.writeStream);
    var ws := Skip(c.link.writeStream, k);
    SkipSplit(c.link.writeStream, k);
    assert (c.wire.tcp + pending[..k]) + Readable(ws) == c.wire.tcp + (pending[..k] + Readable(ws));
    c.(link := c.link.(writeStream := ws), wire := c.wire.(tcp := c.wire.tcp + pending[..k]))
  }

  /**
    OnTcpWrite: offer the queued bytes to the TCP socket (a closed socket
    fails with an error). Accepted bytes leave the queue in order; would-block
    and interrupted sends keep them; any other error closes the connection.
    Whenever bytes remain queued the writable flag is raised.
  */
  function OnTcpWrite(c: Conn, env: Env): (r: Conn)
    requires Shape(c.link)
    ensures Inv(r) && ReadKept(c.link, r.link) && SentOrFailed(c, r)
    ensures r.link.tcpOpen ==> InFlight(r) == InFlight(c)
    ensures Len(r.link.writeStream) > 0 ==> r.link.tcpWritable
    ensures Len(c.link.writeStream) <= 0 ==> r == c
    ensures c.link.tcpOpen && !r.link.tcpOpen ==> TcpAnswer(c.link, env, Readable(c.link.writeStream)) == Failed(OtherError)
    ensures !c.link.tcpOpen ==> !r.link.tcpOpen && r.wire == c.wire
  {
    if Len(c.link.writeStream) <= 0 then c
    else
      var pending := Readable(c.link.writeStream);
      match TcpAnswer(c.link, env, pending)
      case Wrote(n) =>
        var c1 := Advance(c, Min(n, |pending|));
        if n < |pending| then c1.(link := c1.link.(tcpWritable := true)) else c1
      case Failed(e) =>
        if e == OtherError then Teardown(c, ClientConnectError, env.now)
        else c.(link := c.link.(tcpWritable := true))
  }

  /** Queuing a frame behind the bytes in flight, after compaction, extends them by exactly the frame. */
  lemma QueueKeepsOrder(c: Conn, ws: Stream, frame: seq<uint8>)
    requires Valid(c.link.writeStream) && Valid(ws) && Readable(ws) == Readable(c.link.writeStream)
    requires ws.size + |frame| <= ws.capacity
    ensures InFlight(c.(link := c.link.(writeStream := AddSize(WriteAtEnd(ws, frame), |frame|))))
            == InFlight(c) + frame
  {
    WriteThenAddSize(ws, frame);
  }

  /** The frame queued behind the bytes in flight, before the send attempt. */
  function Enqueue(c: Conn, ws: Stream, frame: seq<uint8>): (r: Conn)
    requires Shape(c.link) && Valid(ws) && Readable(ws) == Readable(c.link.writeStream)
    requires ws.size + |frame| <= ws.capacity
    ensures Shape(r.link) && InFlight(r) == InFlight(c) + frame
    ensures r == c.(link := c.link.(writeStream := r.link.writeStream))
  {
    QueueKeepsOrder(c, ws, frame);
    c.(link := c.link.(writeStream := AddSize(WriteAtEnd(ws, frame), |frame|)))
  }

  /**
    SendTCPBuf(cmd, data, len): a negative length is refused with -1; a
    frame that does not fit under the buffer ceiling closes the connection
    and returns -1; otherwise the frame (length 10+len in network order,
    the current flow and magic, cmd, the first len bytes of data) is queued
    after the bytes already in flight, a send is attempted, and 0 is
    returned whatever that send does.
  */
  function SendTcpBuf(c: Conn, env: Env, cmd: uint8, data: seq<uint8>, msgLen: int): (r: (Conn, int))
    requires Inv(c) && msgLen <= |data|
    ensures Inv(r.0) && ReadKept(c.link, r.0.link) && SentOrFailed(c, r.0)
    ensures r.1 == 0 || r.1 == -1
    ensures msgLen < 0 ==> r == (c, -1)
    ensures msgLen >= 0 ==> (r.1 == -1 <==> Len(c.link.writeStream) + TcpHeadSize + msgLen > MaxSize)
    ensures msgLen >= 0 && r.1 == -1 ==> Closed(r.0.link)
    ensures r.1 == 0 && r.0.link.tcpOpen ==>
              InFlight(r.0) == InFlight(c) + TcpFrame(c.peer.flow, c.peer.magic, cmd, data[..msgLen])
    ensures msgLen >= 0 && Len(r.0.link.writeStream) > 0 ==> r.0.link.tcpWritable
    ensures !c.link.tcpOpen ==> !r.0.link.tcpOpen && r.0.wire == c.wire
  {
    if msgLen < 0 then (c, -1)
    else
      var total := TcpHeadSize + msgLen;
      var (ws, rc) := EnsureWritable(c.link.writeStream, total);
      if rc != 0 then (Teardown(c.(link := c.link.(writeStream := ws)), ClientConnectError, env.now), -1)
      else
        var frame := TcpFrame(c.peer.flow, c.peer.magic, cmd, data[..msgLen]);
        (OnTcpWrite(Enqueue(c, ws, frame), env), 0)
  }

  /**
    UdpWrite: one datagram. A send error other than would-block or
    interrupted closes the connection; so does any send that did not take
    the whole datagram, which includes would-block. Returns the length
    sent, or -1.
  */
  function UdpWrite(c: Conn, env: Env, pkg: seq<uint8>): (r: (Conn, int))
    requires Valid(c.link.writeStream) && Valid(c.link.readStream)
    ensures var outcome := UdpAnswer(c.link, env, pkg);
            r.1 == |pkg| <==> outcome.Wrote? && outcome.n >= |pkg|
    ensures r.1 == |pkg| ==> r.0 == c.(wire := c.wire.(udp := c.wire.udp + [pkg]))
    ensures r.1 != |pkg| ==> r.1 == -1 && r.0 == Teardown(c, ClientConnectError, env.now)
  {
    var outcome := UdpAnswer(c.link, env, pkg);
    var sendLen := match outcome case Wrote(n) => Min(n, |pkg|) case Failed(_) => -1;
    if outcome.Failed? && outcome.err == OtherError then (Teardown(c, ClientConnectError, env.now), -1)
    else if sendLen != |pkg| then (Teardown(c, ClientConnectError, env.now), -1)
    else (c.(wire := c.wire.(udp := c.wire.udp + [pkg])), sendLen)
  }

  /**
    SendUDPBuf(cmd, data, len): refused with -1 (nothing sent, nothing
    changed) without a UDP socket or unless 0 <= len <= 2042; otherwise one
    datagram of 6+len bytes: the current flow and magic, cmd, the payload.
  */
  function SendUdpBuf(c: Conn, env: Env, cmd: uint8, data: seq<uint8>, msgLen: int): (r: (Conn, int))
    requires Inv(c) && msgLen <= |data|
    ensures Inv(r.0) && ReadKept(c.link, r.0.link)
    ensures !c.link.udpOpen || msgLen < 0 || msgLen > MaxUdpPkgLen - UdpHeadSize ==> r == (c, -1)
    ensures r.1 != -1 ==>
              && 0 <= msgLen <= MaxUdpPkgLen - UdpHeadSize && r.1 == UdpHeadSize + msgLen
              && r.0 == c.(wire := c.wire.(udp := c.wire.udp + [UdpFrame(c.peer.flow, c.peer.magic, cmd, data[..msgLen])]))
    ensures r.1 == -1 && c.link.udpOpen && 0 <= msgLen <= MaxUdpPkgLen - UdpHeadSize ==>
              r.0 == Teardown(c, ClientConnectError, env.now)
  {
    if !c.link.udpOpen then (c, -1)
    else if msgLen < 0 || msgLen > MaxUdpPkgLen - UdpHeadSize then (c, -1)
    else UdpWrite(c, env, UdpFrame(c.peer.flow, c.peer.magic, cmd, data[..msgLen]))
  }

  /**
    SendTcpPing(now, immediate): from CONNECTED on, send a heartbeat when
    asked to or when the heartbeat timer fires (the timer is consulted only
    when not immediate); the timestamp becomes the expected echo.
  */
  function SendTcpPing(c: Conn, env: Env, immediate: bool): (r: Conn)
    requires Inv(c)
    ensures Inv(r) && ReadKept(c.link, r.link)
    ensures var fires := Rank(c.link.state) >= Rank(Connected) && (immediate || T.TryExpire(c.beats.tcpPing, env.now).1);
            && (!fires ==> r == c)
            && (fires ==> r.beats.pingSeq == env.now && r.beats.udpPing == c.beats.udpPing)
            && (fires ==> SentOrFailed(c.(beats := r.beats), r))
            && (fires && r.link.tcpOpen ==>
                  InFlight(r) == InFlight(c) + TcpFrame(c.peer.flow, c.peer.magic, CmdPing, EncodePing(env.now)))
  {
    if Rank(c.link.state) >= Rank(Connected) then
      var (t, fired) := if immediate then (c.beats.tcpPing, true) else T.TryExpire(c.beats.tcpPing, env.now);
      if fired then
        var ping := EncodePing(env.now);
        assert ping[..PingSize] == ping;
        SendTcpBuf(c.(beats := c.beats.(tcpPing := t, pingSeq := env.now)), env, CmdPing, ping, PingSize).0
      else c
    else c
  }

  /**
    SendUdpPing(now): with a UDP socket and from CONNECTED on, send the
    route-ping datagram (a zero int and the timestamp) whenever the UDP
    heartbeat timer fires.
  */
  function SendUdpPing(c: Conn, env: Env): (r: Conn)
    requires Inv(c)
    ensures Inv(r) && ReadKept(c.link, r.link)
    ensures var fires := c.link.udpOpen && Rank(c.link.state) >= Rank(Connected) && T.TryExpire(c.beats.udpPing, env.now).1;
            && (!fires ==> r == c)
            && (fires && r.link.udpOpen ==> r.wire.udp == c.wire.udp + [EncodeRoutePing(env.now)])
            && (fires ==> r.beats.udpPing == T.TryExpire(c.beats.udpPing, env.now).0)
    ensures r.peer == c.peer && r.relink == c.relink && r.kcp == c.kcp && r.wire.tcp == c.wire.tcp
  {
    if !c.link.udpOpen then c
    else if Rank(c.link.state) >= Rank(Connected) then
      var (t, fired) := T.TryExpire(c.beats.udpPing, env.now);
      if fired then UdpWrite(c.(beats := c.beats.(udpPing := t)), env, EncodeRoutePing(env.now)).0 else c
    else c
  }

  /** The notification ConnectSuccess / ReConnectSuccess queues. */
  function SuccessEvents(c: Conn, first: bool): seq<Event> {
    if first then (if c.cbs.connectSuccess then [ConnectSucceeded] else [])
    else (if c.cbs.reconnectSuccess then [Reconnected] else [])
  }

  /**
    ConnectSuccess (first) / ReConnectSuccess: enter LOGIC_CONNECTED (which
    clears the relink count), restart the heartbeat timer, send a heartbeat
    at once, and queue the success notification. The notification is queued
    even when that heartbeat's send closed the connection.
  */
  function LogicConnect(c: Conn, env: Env, first: bool): (r: Conn)
    requires Inv(c) && c.link.tcpOpen
    ensures Inv(r) && ReadKept(c.link, r.link)
    ensures r.beats.pingSeq == env.now && r.relink == c.relink.(count := 0)
    ensures r.link.tcpOpen ==>
              && r.link.state == LogicConnected && r.link.stateTs == env.now
              && r.events == c.events + SuccessEvents(c, first)
              && InFlight(r) == InFlight(c) + TcpFrame(c.peer.flow, c.peer.magic, CmdPing, EncodePing(env.now))
    ensures !r.link.tcpOpen ==>
              && Closed(r.link)
              && r.events == c.events + CloseEvents(c.cbs, ClientConnectError) + SuccessEvents(c, first)
    ensures r.kcp == c.kcp && r.worker == c.worker && r.peer == c.peer
  {
    var c1 := SetConnState(c, LogicConnected, env.now);
    var c2 := c1.(beats := c1.beats.(tcpPing := T.Reset(c1.beats.tcpPing, env.now)));
    var c3 := SendTcpPing(c2, env, true);
    c3.(events := c3.events + SuccessEvents(c, first))
  }

  /** Payloads small enough for a TCP frame's 32-bit length field. */
  predicate Framable(ps: seq<seq<uint8>>) {
    forall i :: 0 <= i < |ps| ==> TcpHeadSize + |ps[i]| < 0x8000_0000
  }

  /** TCP frames with command cmd carrying the payloads ps, back to back. */
  function Frames(flow: int32, magic: int, cmd: uint8, ps: seq<seq<uint8>>): (r: seq<uint8>)
    requires Framable(ps)
    decreases |ps|
  {
    if |ps| == 0 then []
    else TcpFrame(flow, magic, cmd, ps[0]) + Frames(flow, magic, cmd, ps[1..])
  }

  /** The largest segment SendUDPBuf accepts. */
  const MaxUdpSegment: int := MaxUdpPkgLen - UdpHeadSize

  /** The RELIABLE datagrams that carry the segments, in order; a segment SendUDPBuf refuses has none. */
  function Datagrams(flow: int32, magic: int, segs: seq<seq<uint8>>): (r: seq<seq<uint8>>)
    ensures |r| <= |segs|
    decreases |segs|
  {
    if |segs| == 0 then []
    else (if |segs[0]| <= MaxUdpSegment then [UdpFrame(flow, magic, CmdReliable, segs[0])] else [])
         + Datagrams(flow, magic, segs[1..])
  }

  /** `after` is `before` followed only by CLIENT_CONNECT_ERROR disconnects, which is all a failed send reports. */
  predicate ErrorsAfter(before: seq<Event>, after: seq<Event>) {
    && before <= after
    && forall i :: |before| <= i < |after| ==> after[i] == Disconnected(ClientConnectError)
  }

  /** The sockets only ever take more bytes: what they took before is a prefix of what they took after. */
  predicate WireGrows(c: Conn, r: Conn) {
    c.wire.tcp <= r.wire.tcp && c.wire.udp <= r.wire.udp
  }

  /**
    KCPOutput: a segment the reliable session emits goes out as a
    RELIABLE_MSG datagram when the server enabled UDP, else as a TCP frame.
    Either way only the transport, the wire and the events can change, and
    a failure closes with CLIENT_CONNECT_ERROR.
  */
  function KcpOutput(c: Conn, env: Env, data: seq<uint8>): (r: (Conn, int))
    requires Inv(c)
    ensures Inv(r.0) && ReadKept(c.link, r.0.link) && Kept(c, r.0) && WireGrows(c, r.0)
    ensures || r.0.events == c.events
            || (Closed(r.0.link) && r.0.events == c.events + CloseEvents(c.cbs, ClientConnectError))
    ensures r.0.link.tcpOpen ==> c.link.tcpOpen && r.0.events == c.events && r.0.link.state == c.link.state
    ensures !c.link.tcpOpen ==> !r.0.link.tcpOpen && r.0.wire == c.wire
    ensures c.peer.enableUdp ==> r.0.wire.tcp == c.wire.tcp
    ensures c.peer.enableUdp && r.1 >= 0 ==>
              r.0.wire.udp == c.wire.udp + [UdpFrame(c.peer.flow, c.peer.magic, CmdReliable, data)]
    ensures c.peer.enableUdp && r.0.link.udpOpen ==>
              r.0.wire.udp == c.wire.udp + Datagrams(c.peer.flow, c.peer.magic, [data])
    ensures !c.peer.enableUdp ==> r.0.wire.udp == c.wire.udp
    ensures !c.peer.enableUdp && r.0.link.tcpOpen ==>
              && TcpHeadSize + |data| < 0x8000_0000
              && InFlight(r.0) == InFlight(c) + TcpFrame(c.peer.flow, c.peer.magic, CmdReliable, data)
  {
    if c.peer.enableUdp then
      UdpRoute(c, env, data);
      SendUdpBuf(c, env, CmdReliable, data, |data|)
    else
      TcpRoute(c, env, data);
      SendTcpBuf(c, env, CmdReliable, data, |data|)
  }

  /** KcpOutput's contract on the UDP route. */
  lemma UdpRoute(c: Conn, env: Env, data: seq<uint8>)
    requires Inv(c)
    ensures var r := SendUdpBuf(c, env, CmdReliable, data, |data|);
            && Kept(c, r.0) && WireGrows(c, r.0) && r.0.wire.tcp == c.wire.tcp
            && (|| r.0.events == c.events
                || (Closed(r.0.link) && r.0.events == c.events + CloseEvents(c.cbs, ClientConnectError)))
            && (r.0.link.tcpOpen ==> c.link.tcpOpen && r.0.events == c.events && r.0.link.state == c.link.state)
            && (!c.link.tcpOpen ==> !r.0.link.tcpOpen && r.0.wire == c.wire)
            && (r.1 >= 0 ==> r.0.wire.udp == c.wire.udp + [UdpFrame(c.peer.flow, c.peer.magic, CmdReliable, data)])
            && (r.0.link.udpOpen ==> r.0.wire.udp == c.wire.udp + Datagrams(c.peer.flow, c.peer.magic, [data]))
  {
    var one: seq<seq<uint8>> := [data];
    assert one[1..] == [];
    assert data[..|data|] == data;
  }

  /** KcpOutput's contract on the TCP route. */
  lemma TcpRoute(c: Conn, env: Env, data: seq<uint8>)
    requires Inv(c)
    ensures var r := SendTcpBuf(c, env, CmdReliable, data, |data|);
            && Kept(c, r.0) && WireGrows(c, r.0) && r.0.wire.udp == c.wire.udp
            && (|| r.0.events == c.events
                || (Closed(r.0.link) && r.0.events == c.events + CloseEvents(c.cbs, ClientConnectError)))
            && (r.0.link.tcpOpen ==> c.link.tcpOpen && r.0.events == c.events && r.0.link.state == c.link.state)
            && (r.0.link.tcpOpen ==>
                  && TcpHeadSize + |data| < 0x8000_0000
                  && InFlight(r.0) == InFlight(c) + TcpFrame(c.peer.flow, c.peer.magic, CmdReliable, data))
  {
    assert data[..|data|] == data;
    var r := SendTcpBuf(c, env, CmdReliable, data, |data|);
    if r.0.link.tcpOpen {
      assert r.1 == 0;
      assert Len(c.link.writeStream) + TcpHeadSize + |data| <= MaxSize;
    }
  }

  /**
    The segments one flush or update of the session hands to KCPOutput,
    sent in order. Once the connection is closed nothing reaches a socket;
    while it stays open every segment has reached the wire (over UDP) or
    been queued behind the bytes in flight (over TCP), and nothing is
    reported. Segments routed over TCP while the connection is already
    closed (the session outlives closes for CLIENT_CONNECT_ERROR and above)
    each fail to send and report one more CLIENT_CONNECT_ERROR disconnect.
  */
  function Emit(c: Conn, env: Env, segs: seq<seq<uint8>>): (r: Conn)
    requires Inv(c)
    ensures Inv(r) && ReadKept(c.link, r.link) && Kept(c, r) && WireGrows(c, r)
    ensures ErrorsAfter(c.events, r.events)
    ensures r.link.tcpOpen ==> c.link.tcpOpen && r.events == c.events && r.link.state == c.link.state
    ensures !c.link.tcpOpen ==> !r.link.tcpOpen && r.wire == c.wire
    ensures c.peer.enableUdp ==> r.wire.tcp == c.wire.tcp
    ensures c.peer.enableUdp && r.link.udpOpen ==>
              r.wire.udp == c.wire.udp + Datagrams(c.peer.flow, c.peer.magic, segs)
    ensures !c.peer.enableUdp ==> r.wire.udp == c.wire.udp
    ensures !c.peer.enableUdp && r.link.tcpOpen ==>
              && Framable(segs)
              && InFlight(r) == InFlight(c) + Frames(c.peer.flow, c.peer.magic, CmdReliable, segs)
    ensures |segs| == 0 ==> r == c
    ensures !c.link.tcpOpen && !c.peer.enableUdp && SegmentsFit(segs) ==>
              |r.events| == |c.events| + (if c.cbs.disconnect then |segs| else 0)
    decreases |segs|
  {
    if |segs| == 0 then c
    else
      var c1 := KcpOutput(c, env, segs[0]).0;
      var r := Emit(c1, env, segs[1..]);
      EmitStep(c, c1, r, env, segs);
      if !c.link.tcpOpen && !c.peer.enableUdp && SegmentsFit(segs) then
        EmitClosedStep(c, c1, r, env, segs);
        r
      else
        r
  }

  /** How one failed segment and the rest combine on a closed link. */
  lemma EmitClosedStep(c: Conn, c1: Conn, r: Conn, env: Env, segs: seq<seq<uint8>>)
    requires Inv(c) && !c.link.tcpOpen && !c.peer.enableUdp && |segs| > 0 && SegmentsFit(segs)
    requires c1 == KcpOutput(c, env, segs[0]).0
    requires !c1.link.tcpOpen && !c1.peer.enableUdp && SegmentsFit(segs[1..]) ==>
               |r.events| == |c1.events| + (if c1.cbs.disconnect then |segs| - 1 else 0)
    ensures |r.events| == |c.events| + (if c.cbs.disconnect then |segs| else 0)
  {
    KcpOutputWhileClosed(c, env, segs[0]);
  }

  /** How one segment and the rest combine in Emit's contract. */
  lemma EmitStep(c: Conn, c1: Conn, r: Conn, env: Env, segs: seq<seq<uint8>>)
    requires |segs| > 0 && Kept(c, c1) && Kept(c1, r)
    requires Valid(c.link.writeStream) && Valid(c1.link.writeStream) && Valid(r.link.writeStream)
    requires ErrorsAfter(c1.events, r.events)
    requires || c1.events == c.events
             || (Closed(c1.link) && c1.events == c.events + CloseEvents(c.cbs, ClientConnectError))
    requires c.peer.enableUdp && r.link.udpOpen ==>
               && c1.link.udpOpen
               && c1.wire.udp == c.wire.udp + Datagrams(c.peer.flow, c.peer.magic, [segs[0]])
               && r.wire.udp == c1.wire.udp + Datagrams(c.peer.flow, c.peer.magic, segs[1..])
    requires !c.peer.enableUdp && r.link.tcpOpen ==>
               && TcpHeadSize + |segs[0]| < 0x8000_0000 && Framable(segs[1..])
               && InFlight(c1) == InFlight(c) + TcpFrame(c.peer.flow, c.peer.magic, CmdReliable, segs[0])
               && InFlight(r) == InFlight(c1) + Frames(c.peer.flow, c.peer.magic, CmdReliable, segs[1..])
    ensures ErrorsAfter(c.events, r.events)
    ensures c.peer.enableUdp && r.link.udpOpen ==>
              r.wire.udp == c.wire.udp + Datagrams(c.peer.flow, c.peer.magic, segs)
    ensures !c.peer.enableUdp && r.link.tcpOpen ==>
              && Framable(segs)
              && InFlight(r) == InFlight(c) + Frames(c.peer.flow, c.peer.magic, CmdReliable, segs)
  {
    ErrorsCompose(c.events, c1.events, r.events, c.cbs);
    if c.peer.enableUdp && r.link.udpOpen {
      DatagramsStep(c.peer.flow, c.peer.magic, segs, c.wire.udp, c1.wire.udp, r.wire.udp);
    }
    if !c.peer.enableUdp && r.link.tcpOpen {
      FramesStep(c.peer.flow, c.peer.magic, segs, InFlight(c), InFlight(c1), InFlight(r));
    }
  }

  /** The datagrams of one segment followed by those of the rest are those of all. */
  lemma DatagramsStep(flow: int32, magic: int, segs: seq<seq<uint8>>, a: seq<seq<uint8>>, b: seq<seq<uint8>>, d: seq<seq<uint8>>)
    requires |segs| > 0
    requires b == a + Datagrams(flow, magic, [segs[0]])
    requires d == b + Datagrams(flow, magic, segs[1..])
    ensures d == a + Datagrams(flow, magic, segs)
  {
    DatagramsSplit(flow, magic, segs);
  }

  /** The frame of one segment followed by those of the rest are those of all. */
  lemma FramesStep(flow: int32, magic: int, segs: seq<seq<uint8>>, a: seq<uint8>, b: seq<uint8>, d: seq<uint8>)
    requires |segs| > 0 && TcpHeadSize + |segs[0]| < 0x8000_0000 && Framable(segs[1..])
    requires b == a + TcpFrame(flow, magic, CmdReliable, segs[0])
    requires d == b + Frames(flow, magic, CmdReliable, segs[1..])
    ensures Framable(segs)
    ensures d == a + Frames(flow, magic, CmdReliable, segs)
  {
    FramesSplit(flow, magic, segs);
  }

  lemma ErrorsCompose(a: seq<Event>, b: seq<Event>, d: seq<Event>, cbs: Callbacks)
    requires b == a || b == a + CloseEvents(cbs, ClientConnectError)
    requires ErrorsAfter(b, d)
    ensures ErrorsAfter(a, d)
  {
  }

  lemma DatagramsSplit(flow: int32, magic: int, segs: seq<seq<uint8>>)
    requires |segs| > 0
    ensures Datagrams(flow, magic, segs) == Datagrams(flow, magic, [segs[0]]) + Datagrams(flow, magic, segs[1..])
  {
    var one: seq<seq<uint8>> := [segs[0]];
    assert one[1..] == [];
  }

  lemma FramesSplit(flow: int32, magic: int, segs: seq<seq<uint8>>)
    requires |segs| > 0 && TcpHeadSize + |segs[0]| < 0x8000_0000 && Framable(segs[1..])
    ensures Framable(segs)
    ensures Frames(flow, magic, CmdReliable, segs)
         == TcpFrame(flow, magic, CmdReliable, segs[0]) + Frames(flow, magic, CmdReliable, segs[1..])
  {
    forall i | 0 <= i < |segs| ensures TcpHeadSize + |segs[i]| < 0x8000_0000 {
      if i > 0 { assert segs[i] == segs[1..][i - 1]; }
    }
  }

  /** The segments the flush in InnerClose emits: none without a live session. */
  function FlushOut(c: Conn, env: Env): seq<seq<uint8>> {
    if KS.IsNull(c.kcp) then [] else OutputAnswer(env, c.kcp.calls + [KS.LibFlush])
  }

  /**
    `after` is `before`, then the CLIENT_CONNECT_ERROR disconnects of sends
    that failed during a flush, then `last`.
  */
  predicate Reported(before: seq<Event>, after: seq<Event>, last: seq<Event>) {
    && |before| + |last| <= |after|
    && after[|after| - |last|..] == last
    && ErrorsAfter(before, after[..|after| - |last|])
  }

  lemma ReportedAppend(before: seq<Event>, mid: seq<Event>, last: seq<Event>)
    requires ErrorsAfter(before, mid)
    ensures Reported(before, mid + last, last)
  {
    assert (mid + last)[..|mid|] == mid;
  }

  /**
    InnerClose(reason): for reasons below CLIENT_CONNECT_ERROR, flush the
    reliable session first (its pending segments go through KCPOutput,
    whose failed sends each close with CLIENT_CONNECT_ERROR on the way),
    then release it and stop the loop; in every case then close both
    sockets, return to INIT, drop both buffers, and queue the disconnect.
  */
  function InnerClose(c: Conn, env: Env, reason: int): (r: Conn)
    requires Inv(c)
    ensures Inv(r) && Closed(r.link) && r.link.stateTs == env.now
    ensures reason >= ClientConnectError ==> r == Teardown(c, reason, env.now)
    ensures reason >= ClientConnectError ==> r.kcp == c.kcp && r.worker == c.worker && r.wire == c.wire
    ensures reason < ClientConnectError ==> KS.IsNull(r.kcp) && r.kcp.conv == 0 && !r.worker.running
    ensures reason < ClientConnectError && !KS.IsNull(c.kcp) ==> r.kcp.calls == c.kcp.calls + [KS.LibFlush, KS.LibRelease]
    ensures r.worker == c.worker.(running := r.worker.running)
    ensures r.peer == c.peer && r.relink == c.relink && r.beats == c.beats && r.cbs == c.cbs
    ensures WireGrows(c, r) && c.events <= r.events && Reported(c.events, r.events, CloseEvents(c.cbs, reason))
    ensures reason >= ClientConnectError || FlushOut(c, env) == [] ==>
              r.events == c.events + CloseEvents(c.cbs, reason) && r.wire == c.wire
  {
    if reason >= ClientConnectError then
      ReportedAppend(c.events, c.events, CloseEvents(c.cbs, reason));
      Teardown(c, reason, env.now)
    else
      var c1 := Emit(c.(kcp := KS.Flush(c.kcp)), env, FlushOut(c, env));
      var c2 := c1.(kcp := KS.Release(c1.kcp), worker := c1.worker.(running := false));
      ReportedAppend(c.events, c1.events, CloseEvents(c.cbs, reason));
      Teardown(c2, reason, env.now)
  }

  /** Closing an already closed connection changes nothing but the queued events. */
  lemma CloseTwice(c: Conn, env: Env, first: int, second: int)
    requires Inv(c)
    requires second >= ClientConnectError || first < ClientConnectError
    ensures var a := InnerClose(c, env, first);
            InnerClose(a, env, second) == a.(events := a.events + CloseEvents(c.cbs, second))
  {
  }

  /**
    A flush over UDP while the link is open and every datagram is taken
    whole: each segment the library emits reaches the wire as a RELIABLE
    datagram, in order, and only the close itself is reported.
  */
  lemma FlushReachesUdp(c: Conn, env: Env, reason: int)
    requires Inv(c) && reason < ClientConnectError && c.peer.enableUdp
    requires c.link.udpOpen && !KS.IsNull(c.kcp)
    requires forall p: seq<uint8> {:trigger env.udpSend(p)} :: env.udpSend(p).Wrote? && env.udpSend(p).n >= |p|
    ensures var r := InnerClose(c, env, reason);
            && r.wire.udp == c.wire.udp + Datagrams(c.peer.flow, c.peer.magic, FlushOut(c, env))
            && r.events == c.events + CloseEvents(c.cbs, reason)
  {
    var c0 := c.(kcp := KS.Flush(c.kcp));
    EmitUdpOpen(c0, env, FlushOut(c, env));
  }

  /** Over UDP, with every datagram taken whole, the link stays open through any number of segments. */
  lemma {:induction false} EmitUdpOpen(c: Conn, env: Env, segs: seq<seq<uint8>>)
    requires Inv(c) && c.peer.enableUdp && c.link.udpOpen
    requires forall p: seq<uint8> {:trigger env.udpSend(p)} :: env.udpSend(p).Wrote? && env.udpSend(p).n >= |p|
    ensures Emit(c, env, segs).link.udpOpen && Emit(c, env, segs).events == c.events
    decreases |segs|
  {
    if |segs| > 0 {
      var c1 := KcpOutput(c, env, segs[0]).0;
      if |segs[0]| <= MaxUdpSegment {
        assert env.udpSend(UdpFrame(c.peer.flow, c.peer.magic, CmdReliable, segs[0])).Wrote?;
      }
      assert c1.link.udpOpen;
      EmitUdpOpen(c1, env, segs[1..]);
    }
  }

  /** n copies of the CLIENT_CONNECT_ERROR disconnect event. */
  function ErrorRun(cbs: Callbacks, n: nat): (r: seq<Event>)
    ensures |r| == if cbs.disconnect then n else 0
  {
    if n == 0 then [] else CloseEvents(cbs, ClientConnectError) + ErrorRun(cbs, n - 1)
  }

  /** Every segment fits the session's MTU, as the library guarantees for its output. */
  predicate SegmentsFit(segs: seq<seq<uint8>>)
    decreases |segs|
  {
    |segs| == 0 || (|segs[0]| <= KS.KcpMtu && SegmentsFit(segs[1..]))
  }

  /**
    Segments routed over TCP while the connection is already closed (the
    session outlives closes for CLIENT_CONNECT_ERROR and above): each one
    fails to send and reports one more CLIENT_CONNECT_ERROR disconnect.
  */
  lemma EmitWhileClosed(c: Conn, env: Env, segs: seq<seq<uint8>>)
    requires Inv(c) && !c.link.tcpOpen && !c.peer.enableUdp
    requires SegmentsFit(segs)
    ensures Emit(c, env, segs).events == c.events + ErrorRun(c.cbs, |segs|)
  {
    ErrorsAfterIsRun(c.events, Emit(c, env, segs).events, c.cbs, |segs|);
  }

  /** Added events that are all CLIENT_CONNECT_ERROR and as many as a run of n are that run. */
  lemma ErrorsAfterIsRun(before: seq<Event>, after: seq<Event>, cbs: Callbacks, n: nat)
    requires ErrorsAfter(before, after)
    requires |after| == |before| + (if cbs.disconnect then n else 0)
    ensures after == before + ErrorRun(cbs, n)
  {
    var run := ErrorRun(cbs, n);
    ErrorRunAll(cbs, n);
    forall i | 0 <= i < |after| ensures after[i] == (before + run)[i] {
      if i >= |before| {
        assert after[i] == Disconnected(ClientConnectError);
        assert (before + run)[i] == run[i - |before|];
      }
    }
  }

  lemma {:induction false} ErrorRunAll(cbs: Callbacks, n: nat)
    ensures forall i :: 0 <= i < |ErrorRun(cbs, n)| ==> ErrorRun(cbs, n)[i] == Disconnected(ClientConnectError)
  {
    if n > 0 {
      ErrorRunAll(cbs, n - 1);
      var rest := ErrorRun(cbs, n - 1);
      assert ErrorRun(cbs, n) == CloseEvents(cbs, ClientConnectError) + rest;
      forall i | 0 <= i < |ErrorRun(cbs, n)| ensures ErrorRun(cbs, n)[i] == Disconnected(ClientConnectError) {
        if i >= |CloseEvents(cbs, ClientConnectError)| {
          assert ErrorRun(cbs, n)[i] == rest[i - |CloseEvents(cbs, ClientConnectError)|];
        }
      }
    }
  }

  /**
    Hence a session that outlived a CLIENT_CONNECT_ERROR close still
    flushes when a later close releases it: every segment it emits over TCP
    reports a CLIENT_CONNECT_ERROR disconnect before the close's own.
  */
  lemma FlushWhileClosed(c: Conn, env: Env, reason: int)
    requires Inv(c) && !c.link.tcpOpen && !c.peer.enableUdp && reason < ClientConnectError
    requires SegmentsFit(FlushOut(c, env))
    ensures InnerClose(c, env, reason).events
         == c.events + ErrorRun(c.cbs, |FlushOut(c, env)|) + CloseEvents(c.cbs, reason)
  {
    EmitWhileClosed(c.(kcp := KS.Flush(c.kcp)), env, FlushOut(c, env));
  }

  /**
    A segment routed over TCP while the connection is closed (the session
    outlives closes for reason CLIENT_CONNECT_ERROR and above) fails to send
    and reports one more CLIENT_CONNECT_ERROR disconnect.
  */
  lemma KcpOutputWhileClosed(c: Conn, env: Env, data: seq<uint8>)
    requires Inv(c) && !c.link.tcpOpen && !c.peer.enableUdp && |data| <= KS.KcpMtu
    ensures KcpOutput(c, env, data).0.events == c.events + CloseEvents(c.cbs, ClientConnectError)
    ensures var r := KcpOutput(c, env, data).0;
            Inv(r) && !r.link.tcpOpen && r.peer == c.peer && r.cbs == c.cbs
  {
    var (ws, rc) := EnsureWritable(c.link.writeStream, TcpHeadSize + |data|);
    assert rc == 0;
  }

  /** A UDP send that would block still closes the connection. */
  lemma UdpWouldBlockCloses(c: Conn, env: Env, pkg: seq<uint8>)
    requires Valid(c.link.writeStream) && Valid(c.link.readStream)
    requires UdpAnswer(c.link, env, pkg) == Failed(WouldBlock)
    ensures UdpWrite(c, env, pkg).1 == -1
    ensures UdpWrite(c, env, pkg).0.events == c.events + CloseEvents(c.cbs, ClientConnectError)
  {
  }
}

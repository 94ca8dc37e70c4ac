/**
  The state of one client connection (ConnClientPrivate) as an immutable
  record, the events it queues for the script side, and the environment
  that supplies every answer from the operating system, the clock and the
  reliable-session library.
*/
module ConnTypes {
  import opened Common
  import opened Bytes
  import opened Streams
  import opened Timers
  import opened KcpSessions
  import Protocol

  /** recv_one_time_size: at most 16 KiB are read from the TCP socket per call. */
  const RecvOnce: int := 16 * 1024
  /** The largest relink schedule AddRelinkInterval builds. */
  const MaxRelinkEntries: int := 5
  /** The connect timeout before any Connect call sets one. */
  const DefaultConnectTimeout: int := 3000
  /** InnerConnect caps the connect timeout at ten seconds. */
  const MaxConnectTimeout: int := 10000
  /** Both heartbeat timers start with a two-second interval. */
  const PingInterval: int := 2000

  datatype ConnState = Init | Connecting | Connected | LogicConnected

  /** The enum value; the source compares states with < and >=. */
  function Rank(s: ConnState): (r: int)
    ensures 0 <= r <= 3
  {
    match s
    case Init => 0
    case Connecting => 1
    case Connected => 2
    case LogicConnected => 3
  }

  /** What the script side observes, in queue order. */
  datatype Event =
    | Delivered(data: seq<uint8>)
    | Disconnected(reason: int)
    | ConnectSucceeded
    | Reconnected
    | Relinking(count: int)

  /** Which script callbacks are registered. */
  datatype Callbacks = Callbacks(output: bool, disconnect: bool, connectSuccess: bool, reconnectSuccess: bool, relink: bool)

  /** The work the script thread hands to the network thread. */
  datatype Job =
    | ConnectJob(ip: string, port: int, timeoutMs: int)
    | SendJob(msg: seq<uint8>)
    | CloseJob

  /** The network thread: whether its loop runs, whether it was ever started, its pending jobs. */
  datatype Worker = Worker(running: bool, started: bool, jobs: seq<Job>)

  /**
    The transport: which sockets are open, whether the TCP socket is
    watched for writability, the state with the time it was entered, and the
    outgoing and incoming byte buffers.
  */
  datatype Link = Link(
    tcpOpen: bool, udpOpen: bool, tcpWritable: bool,
    state: ConnState, stateTs: int,
    writeStream: Stream, readStream: Stream)

  /** Where to connect and how frames are labelled: the address, the flow and magic, the session's transport. */
  datatype Peer = Peer(ip: string, port: uint16, flow: int32, magic: int32, enableUdp: bool, enableKcpLog: bool)

  /** The reconnect policy: first connect pending, the relink schedule, attempts since the last success, the timeout. */
  datatype Relink = Relink(isFirstConnect: bool, intervals: seq<int32>, count: int, connectTimeoutMs: int)

  /** The two heartbeat timers and the timestamp of the last TCP heartbeat sent. */
  datatype Beats = Beats(tcpPing: Timer, udpPing: Timer, pingSeq: int64)

  /** What the sockets accepted, in order: the TCP byte stream and the UDP datagrams. */
  datatype Wire = Wire(tcp: seq<uint8>, udp: seq<seq<uint8>>)

  /** One client connection (ConnClientPrivate). */
  datatype Conn = Conn(
    worker: Worker, link: Link, peer: Peer, relink: Relink, beats: Beats,
    kcp: Session, cbs: Callbacks, events: seq<Event>, wire: Wire)

  type pos = x: int | x > 0 witness 1

  datatype Errno = WouldBlock | Interrupted | OtherError

  /** The answer of one send call: a positive byte count, or -1 with errno. */
  datatype SendOutcome = Wrote(n: pos) | Failed(err: Errno)

  /** The answer of recv on the TCP socket; an empty Received is the peer's orderly close. */
  datatype TcpRecv = Received(bytes: seq<uint8>) | TcpRecvFailed

  /** The answer of recvfrom on the UDP socket. */
  datatype UdpRecv = Datagram(bytes: seq<uint8>) | UdpRecvFailed(err: Errno)

  /**
    The outside world for one call: the clock, whether creating each socket
    succeeds, what the sockets accept and deliver, and the reliable-session
    library's answers, including the segments it emits through the output
    callback, as functions of the calls made into it so far.
  */
  datatype Env = Env(
    now: int64,
    tcpConnectOk: bool, udpConnectOk: bool,
    tcpSend: seq<uint8> -> SendOutcome,
    udpSend: seq<uint8> -> SendOutcome,
    tcpRecv: TcpRecv, udpRecv: UdpRecv,
    kcpCreateOk: bool,
    kcpInput: seq<LibCall> -> int,
    kcpSend: seq<LibCall> -> int,
    kcpRecv: seq<LibCall> -> RecvItem,
    kcpCheck: seq<LibCall> -> uint32,
    kcpOutput: seq<LibCall> -> seq<seq<uint8>>)

  /** What send on the TCP socket answers; a closed socket fails with an error. */
  function TcpAnswer(l: Link, env: Env, pending: seq<uint8>): SendOutcome {
    if l.tcpOpen then env.tcpSend(pending) else Failed(OtherError)
  }

  /** What send on the UDP socket answers; a closed socket fails with an error. */
  function UdpAnswer(l: Link, env: Env, pkg: seq<uint8>): SendOutcome {
    if l.udpOpen then env.udpSend(pkg) else Failed(OtherError)
  }

  /** What one recv of at most RecvOnce bytes answers on the TCP socket; a closed socket (fd -1) fails. */
  function TcpRecvAnswer(l: Link, env: Env): (r: TcpRecv)
    ensures !l.tcpOpen ==> r == TcpRecvFailed
    ensures r.Received? ==> |r.bytes| <= RecvOnce
  {
    if !l.tcpOpen then TcpRecvFailed
    else match env.tcpRecv
      case Received(b) => Received(if |b| > RecvOnce then b[..RecvOnce] else b)
      case TcpRecvFailed => TcpRecvFailed
  }

  /** What one recvfrom into the 2048-byte package buffer answers; a longer datagram is cut to the buffer. */
  function UdpRecvAnswer(env: Env): (r: UdpRecv)
    ensures r.Datagram? ==> |r.bytes| <= Protocol.MaxUdpPkgLen
  {
    match env.udpRecv
    case Datagram(b) => Datagram(if |b| > Protocol.MaxUdpPkgLen then b[..Protocol.MaxUdpPkgLen] else b)
    case UdpRecvFailed(e) => UdpRecvFailed(e)
  }

  /** The library's status for an input, given the calls made so far. */
  function InputAnswer(env: Env, calls: seq<LibCall>): int { env.kcpInput(calls) }

  /** The library's status for a send, given the calls made so far. */
  function SendAnswer(env: Env, calls: seq<LibCall>): int { env.kcpSend(calls) }

  /** The library's answer to recv, given the calls made so far. */
  function RecvAnswer(env: Env, calls: seq<LibCall>): RecvItem { env.kcpRecv(calls) }

  /** The library's next wake time, given the calls made so far. */
  function CheckAnswer(env: Env, calls: seq<LibCall>): uint32 { env.kcpCheck(calls) }

  /**
    The segments the library hands to the output callback (KCPOutput),
    in order, while it runs the last call of `calls`, a flush or an update.
  */
  function OutputAnswer(env: Env, calls: seq<LibCall>): seq<seq<uint8>> { env.kcpOutput(calls) }

  /**
    The shape every transport keeps: both buffers are well formed, the two
    sockets are open together, the state is INIT exactly when they are
    closed, and nothing received is buffered while they are closed.
  */
  predicate Shape(l: Link) {
    && Valid(l.writeStream) && Valid(l.readStream)
    && l.tcpOpen == l.udpOpen
    && (l.state == Init <==> !l.tcpOpen)
    && (!l.tcpOpen ==> Len(l.readStream) == 0)
  }

  /** The transport invariant: the shape, and nothing left to send while the sockets are closed. */
  predicate LinkInv(l: Link) {
    Shape(l) && (!l.tcpOpen ==> Len(l.writeStream) == 0)
  }

  /** The connection invariant is its transport's. */
  predicate Inv(c: Conn) {
    LinkInv(c.link)
  }

  /** The receive buffer is untouched, or the sockets are closed and it has been emptied. */
  predicate ReadKept(before: Link, after: Link) {
    after.readStream == before.readStream || (!after.tcpOpen && Len(after.readStream) == 0)
  }

  /** A new client satisfies the connection invariant. */
  function NewConn(cbs: Callbacks): (r: Conn)
    ensures Inv(r)
  {
    Fresh(cbs, NewStream())
  }

  /** The member defaults around one empty buffer shape used for both streams. */
  function Fresh(cbs: Callbacks, s: Stream): (r: Conn)
    requires Valid(s) && Len(s) == 0
    ensures Inv(r)
  {
    Conn(Worker(false, false, []),
         Link(false, false, true, Init, 0, s, s),
         Peer("", 0, 0, 0, false, false),
         Relink(true, [], 0, DefaultConnectTimeout),
         Beats(NewTimer(PingInterval), NewTimer(PingInterval), 0),
         NewSession(), cbs, [], Wire([], []))
  }

  /** The member defaults: INIT, not running, first connect pending, no schedule, no session. */
  lemma NewConnDefaults(cbs: Callbacks)
    ensures var r := NewConn(cbs);
            && r.link.state == Init && !r.worker.running && r.relink.isFirstConnect
            && |r.relink.intervals| == 0 && r.relink.connectTimeoutMs == DefaultConnectTimeout
            && r.link.tcpWritable && r.relink.count == 0 && !r.link.tcpOpen
            && IsNull(r.kcp) && |r.events| == 0 && r.beats.tcpPing.expireLong == PingInterval
            && Len(r.link.writeStream) == 0 && r.link.writeStream.capacity == GrowBlock
  {
  }
}

/**
  The wire formats of conn_protocol.h, written as explicit encoders and
  decoders over byte strings instead of packed structs cast over buffers.

  Only the TCP length field is converted to network order (htonl/ntohl);
  every other multi-byte field travels in host order, modelled here as
  little-endian. The asymmetry is kept on purpose: it is what peers expect.
*/
module Protocol {
  import opened Common
  import opened Bytes

  // CsConnCmd
  const CmdReliable: uint8 := 0
  const CmdUnreliable: uint8 := 1
  const CmdPing: uint8 := 2
  const CmdKcpInfo: uint8 := 3
  const CmdDisconnect: uint8 := 4
  const CmdBi: uint8 := 5
  const CmdLog: uint8 := 6
  const CmdSyncLabel: uint8 := 7
  const CmdQueue: uint8 := 8

  // ControlDisconnectReason
  const ServerClose: int := 0
  const ServerFull: int := 1
  const FlowNotExist: int := 2
  const OverpassLimitPkgPerSec: int := 3
  const ClientConnectTimeout: int := 4
  const ClientConnectError: int := 5
  const ClientConnectTimeoutContinue: int := 6
  const ClientConnectSwitch: int := 7

  const TcpHeadSize: int := 10
  const UdpHeadSize: int := 6
  const SsHeadSize: int := 18
  const PingSize: int := 8
  const RoutePingSize: int := 12
  const KcpInfoSize: int := 93
  /** max_udp_pkg_len: the largest datagram, header included. */
  const MaxUdpPkgLen: int := 2048

  /** The command codes 0..8 in declaration order. */
  function Commands(): seq<uint8> {
    [CmdReliable, CmdUnreliable, CmdPing, CmdKcpInfo, CmdDisconnect, CmdBi, CmdLog, CmdSyncLabel, CmdQueue]
  }

  /** The disconnect reasons 0..7 in declaration order. */
  function Reasons(): seq<int> {
    [ServerClose, ServerFull, FlowNotExist, OverpassLimitPkgPerSec, ClientConnectTimeout,
     ClientConnectError, ClientConnectTimeoutContinue, ClientConnectSwitch]
  }

  /** Codes are pairwise distinct; the server and terminal-timeout reasons sort below the client error. */
  lemma CodesDistinct()
    ensures forall i, j :: 0 <= i < j < |Commands()| ==> Commands()[i] != Commands()[j]
    ensures forall i, j :: 0 <= i < j < |Reasons()| ==> Reasons()[i] != Reasons()[j]
    ensures forall i :: 0 <= i < 5 ==> Reasons()[i] < ClientConnectError
    ensures forall i :: 5 <= i < |Reasons()| ==> Reasons()[i] >= ClientConnectError
  {
  }

  // ---------------------------------------------------------------- CsConnHead

  /** CsConnHead: total length, flow, magic, command. */
  datatype ConnHead = ConnHead(len: int32, flow: int32, magic: uint8, cmd: uint8)

  function EncodeConnHead(h: ConnHead): (r: seq<uint8>)
    ensures |r| == TcpHeadSize
  {
    BE(Bits32(h.len), 4) + EncI32(h.flow) + [h.magic, h.cmd]
  }

  function DecodeConnHead(s: seq<uint8>): ConnHead
    requires |s| >= TcpHeadSize
  {
    ConnHead(Signed32(FromBE(s[0..4])), DecI32(s[4..8]), s[8], s[9])
  }

  lemma ConnHeadRoundTrip(h: ConnHead, rest: seq<uint8>)
    ensures DecodeConnHead(EncodeConnHead(h) + rest) == h
  {
    var s := EncodeConnHead(h) + rest;
    assert s[0..4] == BE(Bits32(h.len), 4);
    assert s[4..8] == EncI32(h.flow);
    FromBEOfBE(Bits32(h.len), 4);
    I32RoundTrip(h.flow);
  }

  /** Every 10 bytes decode to a header that encodes back to them. */
  lemma ConnHeadBytesRoundTrip(s: seq<uint8>)
    requires |s| == TcpHeadSize
    ensures EncodeConnHead(DecodeConnHead(s)) == s
  {
    BEOfFromBE(s[0..4]);
    I32Surjective(s[4..8]);
    assert s == s[0..4] + s[4..8] + [s[8], s[9]];
  }

  // ------------------------------------------------------------- CsUdpConnHead

  /** CsUdpConnHead: flow, magic, command. */
  datatype UdpHead = UdpHead(flow: int32, magic: uint8, cmd: uint8)

  function EncodeUdpHead(h: UdpHead): (r: seq<uint8>)
    ensures |r| == UdpHeadSize
  {
    EncI32(h.flow) + [h.magic, h.cmd]
  }

  function DecodeUdpHead(s: seq<uint8>): UdpHead
    requires |s| >= UdpHeadSize
  {
    UdpHead(DecI32(s[0..4]), s[4], s[5])
  }

  lemma UdpHeadRoundTrip(h: UdpHead, rest: seq<uint8>)
    ensures DecodeUdpHead(EncodeUdpHead(h) + rest) == h
  {
    var s := EncodeUdpHead(h) + rest;
    assert s[0..4] == EncI32(h.flow);
    I32RoundTrip(h.flow);
  }

  // ---------------------------------------------------------------- SsConnHead

  /** SsConnHead, the 18-byte server-side header. */
  datatype SsHead = SsHead(flow: int32, transType: uint8, connCmd: uint8, customId: uint64, clientIp: uint32)

  function EncodeSsHead(h: SsHead): (r: seq<uint8>)
    ensures |r| == SsHeadSize
  {
    EncI32(h.flow) + [h.transType, h.connCmd] + EncU64(h.customId) + EncU32(h.clientIp)
  }

  function DecodeSsHead(s: seq<uint8>): SsHead
    requires |s| >= SsHeadSize
  {
    SsHead(DecI32(s[0..4]), s[4], s[5], DecU64(s[6..14]), DecU32(s[14..18]))
  }

  lemma SsHeadRoundTrip(h: SsHead, rest: seq<uint8>)
    ensures DecodeSsHead(EncodeSsHead(h) + rest) == h
  {
    var s := EncodeSsHead(h) + rest;
    assert s[0..4] == EncI32(h.flow);
    assert s[6..14] == EncU64(h.customId);
    assert s[14..18] == EncU32(h.clientIp);
    I32RoundTrip(h.flow);
    U64RoundTrip(h.customId);
    U32RoundTrip(h.clientIp);
  }

  // ------------------------------------------------------------ pings

  /** CsPing: the TCP heartbeat payload is one host-order int64 timestamp. */
  function EncodePing(time: int64): (r: seq<uint8>)
    ensures |r| == PingSize
  {
    EncI64(time)
  }

  function DecodePing(s: seq<uint8>): int64
    requires |s| >= PingSize
  {
    DecI64(s[..8])
  }

  lemma PingRoundTrip(t: int64)
    ensures DecodePing(EncodePing(t)) == t
  {
    assert EncodePing(t)[..8] == EncodePing(t);
    I64RoundTrip(t);
  }

  /** The route-ping datagram: a zero int followed by an int64 timestamp. */
  function EncodeRoutePing(time: int64): (r: seq<uint8>)
    ensures |r| == RoutePingSize
  {
    EncI32(0) + EncI64(time)
  }

  /** A route ping is told apart by its length and its zero leading int. */
  predicate IsRoutePing(s: seq<uint8>) {
    |s| == RoutePingSize && DecI32(s[0..4]) == 0
  }

  function RoutePingTime(s: seq<uint8>): int64
    requires |s| == RoutePingSize
  {
    DecI64(s[4..12])
  }

  lemma RoutePingRoundTrip(t: int64)
    ensures IsRoutePing(EncodeRoutePing(t))
    ensures RoutePingTime(EncodeRoutePing(t)) == t
  {
    var s := EncodeRoutePing(t);
    assert s[0..4] == EncI32(0);
    assert s[4..12] == EncI64(t);
    I32RoundTrip(0);
    I64RoundTrip(t);
  }

  // ------------------------------------------------------------ ControlKCPInfo

  /** ControlKCPInfo: the reliable-session configuration sent by the server. */
  datatype KcpInfo = KcpInfo(
    dupSendCount: int32, kcpConv: uint32, nodelay: int32, interval: int32,
    resend: int32, nc: int32, mtu: uint32, rxMinrto: int32, fastresend: int32,
    sndWnd: uint32, rcvWnd: uint32, rmtWnd: uint32, enableUdp: int32,
    dupAck: int32, dupDynamic: int32, dupWait: uint32, dupWndOn: uint32,
    enableSimulator: bool,
    rttMin: int32, rttMax: int32, lostRateLow: int32, lostRateHigh: int32,
    lowLostPeriod: int32, highLostPeriod: int32)

  /** Consecutive 4-byte host-order words. */
  function Words(ws: seq<uint32>): (r: seq<uint8>)
    ensures |r| == 4 * |ws|
  {
    if |ws| == 0 then [] else EncU32(ws[0]) + Words(ws[1..])
  }

  function ReadWords(s: seq<uint8>, n: nat): (r: seq<uint32>)
    requires |s| >= 4 * n
    ensures |r| == n
  {
    if n == 0 then [] else [DecU32(s[..4])] + ReadWords(s[4..], n - 1)
  }

  lemma {:induction false} ReadWordsOfWords(ws: seq<uint32>, rest: seq<uint8>)
    ensures ReadWords(Words(ws) + rest, |ws|) == ws
  {
    if |ws| > 0 {
      var s := Words(ws) + rest;
      assert s[..4] == EncU32(ws[0]);
      assert s[4..] == Words(ws[1..]) + rest;
      U32RoundTrip(ws[0]);
      ReadWordsOfWords(ws[1..], rest);
    }
  }

  /** Word i of an encoding sits at bytes 4i..4i+4. */
  lemma {:induction false} WordAt(ws: seq<uint32>, i: nat)
    requires i < |ws|
    ensures Words(ws)[4 * i..4 * i + 4] == EncU32(ws[i])
  {
    if i > 0 {
      WordAt(ws[1..], i - 1);
      assert Words(ws)[4 * i..4 * i + 4] == Words(ws[1..])[4 * (i - 1)..4 * (i - 1) + 4];
    }
  }

  /** The seventeen 4-byte fields before enable_simulator, as stored bits. */
  function HeadWords(k: KcpInfo): (r: seq<uint32>)
    ensures |r| == 17
  {
    [Bits32(k.dupSendCount), k.kcpConv, Bits32(k.nodelay), Bits32(k.interval),
     Bits32(k.resend), Bits32(k.nc), k.mtu, Bits32(k.rxMinrto), Bits32(k.fastresend),
     k.sndWnd, k.rcvWnd, k.rmtWnd, Bits32(k.enableUdp),
     Bits32(k.dupAck), Bits32(k.dupDynamic), k.dupWait, k.dupWndOn]
  }

  /** The six 4-byte fields after enable_simulator. */
  function TailWords(k: KcpInfo): (r: seq<uint32>)
    ensures |r| == 6
  {
    [Bits32(k.rttMin), Bits32(k.rttMax), Bits32(k.lostRateLow), Bits32(k.lostRateHigh),
     Bits32(k.lowLostPeriod), Bits32(k.highLostPeriod)]
  }

  function EncodeKcpInfo(k: KcpInfo): (r: seq<uint8>)
    ensures |r| == KcpInfoSize
  {
    Words(HeadWords(k)) + [if k.enableSimulator then 1 else 0] + Words(TailWords(k))
  }

  /** Reads the first 93 bytes; a KCP_INFO payload may be longer. */
  function DecodeKcpInfo(s: seq<uint8>): KcpInfo
    requires |s| >= KcpInfoSize
  {
    var h := ReadWords(s[..68], 17);
    var t := ReadWords(s[69..93], 6);
    KcpInfo(Signed32(h[0]), h[1], Signed32(h[2]), Signed32(h[3]), Signed32(h[4]),
            Signed32(h[5]), h[6], Signed32(h[7]), Signed32(h[8]), h[9], h[10], h[11],
            Signed32(h[12]), Signed32(h[13]), Signed32(h[14]), h[15], h[16],
            s[68] != 0,
            Signed32(t[0]), Signed32(t[1]), Signed32(t[2]), Signed32(t[3]),
            Signed32(t[4]), Signed32(t[5]))
  }

  lemma KcpInfoRoundTrip(k: KcpInfo, rest: seq<uint8>)
    ensures DecodeKcpInfo(EncodeKcpInfo(k) + rest) == k
  {
    var s := EncodeKcpInfo(k) + rest;
    assert s[..68] == Words(HeadWords(k)) + [];
    assert s[69..93] == Words(TailWords(k)) + [];
    ReadWordsOfWords(HeadWords(k), []);
    ReadWordsOfWords(TailWords(k), []);
  }

  /** Fields sit at fixed offsets in declaration order, e.g. enable_udp at 48..52 and enable_simulator at 68. */
  lemma KcpInfoLayout(k: KcpInfo)
    ensures EncodeKcpInfo(k)[0..4] == EncI32(k.dupSendCount)
    ensures EncodeKcpInfo(k)[4..8] == EncU32(k.kcpConv)
    ensures EncodeKcpInfo(k)[24..28] == EncU32(k.mtu)
    ensures EncodeKcpInfo(k)[48..52] == EncI32(k.enableUdp)
    ensures EncodeKcpInfo(k)[68] == if k.enableSimulator then 1 else 0
    ensures EncodeKcpInfo(k)[89..93] == EncI32(k.highLostPeriod)
  {
    var e := EncodeKcpInfo(k);
    WordAt(HeadWords(k), 0);
    WordAt(HeadWords(k), 1);
    WordAt(HeadWords(k), 6);
    WordAt(HeadWords(k), 12);
    WordAt(TailWords(k), 5);
    assert e[0..4] == Words(HeadWords(k))[0..4];
    assert e[4..8] == Words(HeadWords(k))[4..8];
    assert e[24..28] == Words(HeadWords(k))[24..28];
    assert e[48..52] == Words(HeadWords(k))[48..52];
    assert e[89..93] == Words(TailWords(k))[20..24];
  }

  // ------------------------------------------------------------ frames

  /**
    A TCP frame as SendTCPBuf lays it out: total length 10+L in network
    order, then the current flow and magic (magic_ is an int truncated to
    its low byte), the command and the payload.
  */
  function TcpFrame(flow: int32, magic: int, cmd: uint8, payload: seq<uint8>): (r: seq<uint8>)
    requires TcpHeadSize + |payload| < 0x8000_0000
    ensures |r| == TcpHeadSize + |payload|
  {
    EncodeConnHead(ConnHead(TcpHeadSize + |payload|, flow, magic % 256, cmd)) + payload
  }

  /** Splits one complete, well-formed TCP frame off the front of s. */
  function DecodeTcpFrame(s: seq<uint8>): Option<(ConnHead, seq<uint8>)>
  {
    if |s| < TcpHeadSize then None
    else
      var h := DecodeConnHead(s);
      if h.len < TcpHeadSize || h.len > |s| then None
      else Some((h, s[TcpHeadSize..h.len]))
  }

  /** Decoding a frame recovers its header (length 10+L) and exactly its payload. */
  lemma TcpFrameRoundTrip(flow: int32, magic: int, cmd: uint8, payload: seq<uint8>, rest: seq<uint8>)
    requires TcpHeadSize + |payload| < 0x8000_0000
    ensures DecodeTcpFrame(TcpFrame(flow, magic, cmd, payload) + rest)
         == Some((ConnHead(TcpHeadSize + |payload|, flow, magic % 256, cmd), payload))
  {
    var h := ConnHead(TcpHeadSize + |payload|, flow, magic % 256, cmd);
    var s := TcpFrame(flow, magic, cmd, payload) + rest;
    assert s == EncodeConnHead(h) + (payload + rest);
    ConnHeadRoundTrip(h, payload + rest);
    assert s[TcpHeadSize..TcpHeadSize + |payload|] == payload;
  }

  /** The length field of a frame is in network order... */
  lemma TcpFrameLenOrder(flow: int32, magic: int, cmd: uint8, payload: seq<uint8>)
    requires TcpHeadSize + |payload| < 0x8000_0000
    ensures TcpFrame(flow, magic, cmd, payload)[0..4] == BE(TcpHeadSize + |payload|, 4)
  {
    var h := ConnHead(TcpHeadSize + |payload|, flow, magic % 256, cmd);
    HeadByteOrder(h);
    var f, e := TcpFrame(flow, magic, cmd, payload), EncodeConnHead(h);
    assert f == e + payload;
    assert f[0..4] == e[0..4];
  }

  /** ...while its flow field is in host order. */
  lemma TcpFrameFlowOrder(flow: int32, magic: int, cmd: uint8, payload: seq<uint8>)
    requires TcpHeadSize + |payload| < 0x8000_0000
    ensures TcpFrame(flow, magic, cmd, payload)[4..8] == LE(Bits32(flow), 4)
  {
    var h := ConnHead(TcpHeadSize + |payload|, flow, magic % 256, cmd);
    HeadByteOrder(h);
    var f, e := TcpFrame(flow, magic, cmd, payload), EncodeConnHead(h);
    assert f == e + payload;
    assert f[4..8] == e[4..8];
  }

  lemma HeadByteOrder(h: ConnHead)
    requires h.len >= 0
    ensures EncodeConnHead(h)[0..4] == BE(h.len, 4)
    ensures EncodeConnHead(h)[4..8] == LE(Bits32(h.flow), 4)
  {
  }

  /** A UDP frame as SendUDPBuf lays it out: flow, magic, command, payload. */
  function UdpFrame(flow: int32, magic: int, cmd: uint8, payload: seq<uint8>): (r: seq<uint8>)
    ensures |r| == UdpHeadSize + |payload|
  {
    EncodeUdpHead(UdpHead(flow, magic % 256, cmd)) + payload
  }

  lemma UdpFrameRoundTrip(flow: int32, magic: int, cmd: uint8, payload: seq<uint8>)
    ensures DecodeUdpHead(UdpFrame(flow, magic, cmd, payload)) == UdpHead(flow, magic % 256, cmd)
    ensures UdpFrame(flow, magic, cmd, payload)[UdpHeadSize..] == payload
  {
    UdpHeadRoundTrip(UdpHead(flow, magic % 256, cmd), payload);
  }
}

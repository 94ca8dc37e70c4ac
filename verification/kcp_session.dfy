/**
  KcpSession: a guard around the external ikcp library. The library is an
  oracle: its answers (create success, input/send status, received
  messages, the next wake time from check) are parameters, and every call
  the wrapper makes into it is appended to `calls`, so that "does nothing
  without a session" is a statement about that log.
*/
module KcpSessions {
  import opened Common
  import opened Bytes
  import opened Protocol

  /** KCP_MTU: the largest MTU handed to the library. */
  const KcpMtu: int := 500
  /** The log mask that enables every library log category. */
  const FullLogMask: int := 0x7FFF_FFFF

  /** The duplicate-send (forward error correction) settings. */
  datatype DupConfig = DupConfig(count: int32, ack: int32, dynamic: int32, wait: uint32, wndOn: uint32)

  /** The configuration the wrapper applies to a freshly created library session. */
  datatype KcpConfig = KcpConfig(
    conv: uint32, nodelay: int32, interval: int32, resend: int32, nc: int32,
    sndWnd: uint32, rcvWnd: uint32, dup: Option<DupConfig>, mtu: int32,
    hasWriteLog: bool, logMask: int, rxMinrto: int32, fastresend: int32)

  datatype LibCall =
    | LibCreate(conv: uint32)
    | LibInput(data: seq<uint8>, at: uint32)
    | LibSend(data: seq<uint8>, at: uint32)
    | LibRecv
    | LibCheck(now: uint32)
    | LibUpdate(now: uint32)
    | LibFlush
    | LibRelease

  type nonpos = x: int | x <= 0

  /** One answer of the library's recv: a message, or a status that is not positive. */
  datatype RecvItem = Msg(bytes: seq<uint8>) | Code(code: nonpos)

  /** The int that recv returns for an answer. */
  function RecvLen(r: RecvItem): int {
    match r
    case Msg(b) => |b|
    case Code(c) => c
  }

  datatype Session = Session(kcp: Option<KcpConfig>, conv: uint32, nextTimeMs: uint32, updateNow: bool, calls: seq<LibCall>)

  /** The default member values: no session, conv 0, next wake 0, no forced update. */
  function NewSession(): (r: Session)
    ensures IsNull(r) && r.conv == 0 && r.nextTimeMs == 0 && !r.updateNow && r.calls == []
  {
    Session(None, 0, 0, false, [])
  }

  predicate IsNull(s: Session) { s.kcp.None? }

  function GetConv(s: Session): uint32 { s.conv }

  /** The MTU actually configured: the requested value read as an int, capped at KCP_MTU. */
  function ClampMtu(mtu: uint32): (r: int32)
    ensures r <= KcpMtu
    ensures r == Signed32(mtu) || r == KcpMtu
    ensures Signed32(mtu) <= KcpMtu ==> r == Signed32(mtu)
  {
    var m := Signed32(mtu);
    if m > KcpMtu then KcpMtu else m
  }

  /**
    CreateKCP: stores the conversation id, then asks the library for a
    session (createOk is its answer) and configures it. Returns 0 or -1.
  */
  function CreateKcp(s: Session, info: KcpInfo, createOk: bool, hasLogFun: bool, enableLog: bool): (r: (Session, int))
    ensures r.0.conv == info.kcpConv
    ensures r.1 == 0 <==> createOk
    ensures r.1 != 0 ==> r.1 == -1 && IsNull(r.0)
    ensures r.0.nextTimeMs == s.nextTimeMs && r.0.updateNow == s.updateNow
    ensures r.0.calls == s.calls + [LibCreate(info.kcpConv)]
    ensures createOk ==> !IsNull(r.0) && r.0.kcp.value.conv == info.kcpConv
    ensures createOk ==> r.0.kcp.value.mtu == Min(Signed32(info.mtu), KcpMtu)
    ensures createOk ==> (r.0.kcp.value.dup.Some? <==> info.dupSendCount > 0)
    ensures createOk ==> (r.0.kcp.value.logMask == FullLogMask <==> hasLogFun && enableLog)
  {
    var s1 := s.(conv := info.kcpConv, calls := s.calls + [LibCreate(info.kcpConv)]);
    if !createOk then (s1.(kcp := None), -1)
    else
      var dup := if info.dupSendCount > 0
        then Some(DupConfig(info.dupSendCount, info.dupAck, info.dupDynamic, info.dupWait, info.dupWndOn))
        else None;
      var cfg := KcpConfig(info.kcpConv, info.nodelay, info.interval, info.resend, info.nc,
                           info.sndWnd, info.rcvWnd, dup, ClampMtu(info.mtu),
                           hasLogFun, if hasLogFun && enableLog then FullLogMask else 0,
                           info.rxMinrto, info.fastresend);
      (s1.(kcp := Some(cfg)), 0)
  }

  /** Input: feed raw bytes to the library (libRet is its status); forces the next Tick to update. */
  function Input(s: Session, data: seq<uint8>, now: int, libRet: int): (r: (Session, int))
    ensures IsNull(s) ==> r == (s, 0)
    ensures !IsNull(s) ==> r.1 == libRet && r.0.updateNow && r.0.kcp == s.kcp
    ensures !IsNull(s) ==> r.0.calls == s.calls + [LibInput(data, TruncU32(now))]
  {
    if IsNull(s) then (s, 0)
    else (s.(updateNow := true, calls := s.calls + [LibInput(data, TruncU32(now))]), libRet)
  }

  /** Send: queue application bytes in the library. */
  function Send(s: Session, data: seq<uint8>, now: int, libRet: int): (r: (Session, int))
    ensures IsNull(s) ==> r == (s, 0)
    ensures !IsNull(s) ==> r.1 == libRet && r.0 == s.(calls := s.calls + [LibSend(data, TruncU32(now))])
  {
    if IsNull(s) then (s, 0)
    else (s.(calls := s.calls + [LibSend(data, TruncU32(now))]), libRet)
  }

  /** Recv: take one reassembled message; without a session the answer is 0. */
  function Recv(s: Session, lib: RecvItem): (r: (Session, RecvItem))
    ensures IsNull(s) ==> r == (s, Code(0))
    ensures !IsNull(s) ==> r == (s.(calls := s.calls + [LibRecv]), lib)
  {
    if IsNull(s) then (s, Code(0))
    else (s.(calls := s.calls + [LibRecv]), lib)
  }

  /** Check: the library's next wake time, 0 without a session. */
  function Check(s: Session, now: uint32, libNext: uint32): (r: (Session, uint32))
    ensures IsNull(s) ==> r == (s, 0)
    ensures !IsNull(s) ==> r == (s.(calls := s.calls + [LibCheck(now)]), libNext)
  {
    if IsNull(s) then (s, 0)
    else (s.(calls := s.calls + [LibCheck(now)]), libNext)
  }

  /** Update: run the library clock; clears the forced-update flag. */
  function Update(s: Session, now: uint32): (r: Session)
    ensures IsNull(s) ==> r == s
    ensures !IsNull(s) ==> !r.updateNow && r.kcp == s.kcp && r.nextTimeMs == s.nextTimeMs
    ensures !IsNull(s) ==> r.calls == s.calls + [LibUpdate(now)]
  {
    if IsNull(s) then s
    else s.(updateNow := false, calls := s.calls + [LibUpdate(now)])
  }

  /** Flush: push out pending segments. */
  function Flush(s: Session): (r: Session)
    ensures IsNull(s) ==> r == s
    ensures !IsNull(s) ==> r == s.(calls := s.calls + [LibFlush])
  {
    if IsNull(s) then s else s.(calls := s.calls + [LibFlush])
  }

  /** Release: free the library session; conv is cleared, the wake bookkeeping is kept. */
  function Release(s: Session): (r: Session)
    ensures IsNull(r) && r.conv == 0
    ensures r.nextTimeMs == s.nextTimeMs && r.updateNow == s.updateNow
    ensures r.calls == s.calls + (if IsNull(s) then [] else [LibRelease])
  {
    if IsNull(s) then s.(conv := 0)
    else s.(kcp := None, conv := 0, calls := s.calls + [LibRelease])
  }

  /** The destructor releases the session. */
  function Destroy(s: Session): (r: Session)
    ensures IsNull(r)
  {
    Release(s)
  }

  /** Tick has work to do: a live session whose wake time has come or whose last Input is not yet processed. */
  predicate Due(s: Session, now: uint32) {
    !IsNull(s) && (s.nextTimeMs <= now || s.updateNow)
  }

  /**
    Tick: run Update and remember Check's answer as the next wake time, but
    only when that time has come or an Input is waiting to be processed.
  */
  function Tick(s: Session, now: uint32, libNext: uint32): (r: Session)
    ensures IsNull(s) ==> r == s
    ensures Due(s, now) ==>
              && r.nextTimeMs == libNext && !r.updateNow && r.kcp == s.kcp
              && r.calls == s.calls + [LibUpdate(now), LibCheck(now)]
    ensures !IsNull(s) && s.nextTimeMs > now && !s.updateNow ==> r == s
  {
    if IsNull(s) then s
    else if Due(s, now) then
      var u := Update(s, now);
      var (c, next) := Check(u, now, libNext);
      c.(nextTimeMs := next)
    else s
  }

  /** The statistics getters; each answers 0 without a session. */
  datatype Stat = PeekSize | WaitSnd | NSndQue | SndWnd | SndUna | SndNxt | NSndBuf
                | NRcvQue | RcvWnd | NRcvBuf | RcvNxt | RxSrtt | Xmit | State

  function Query(s: Session, stat: Stat, lib: Stat -> int): (r: int)
    ensures IsNull(s) ==> r == 0
    ensures !IsNull(s) ==> r == lib(stat)
  {
    if IsNull(s) then 0 else lib(stat)
  }

  /** Releasing twice is releasing once. */
  lemma ReleaseIdempotent(s: Session)
    ensures Release(Release(s)) == Release(s)
  {
  }

  /** The first Tick after the first session is created always updates, since the wake time starts at 0. */
  lemma FirstTickUpdates(info: KcpInfo, hasLogFun: bool, enableLog: bool, now: uint32, libNext: uint32)
    ensures var s := CreateKcp(NewSession(), info, true, hasLogFun, enableLog).0;
            Tick(s, now, libNext).calls == s.calls + [LibUpdate(now), LibCheck(now)]
  {
  }

  /** A failed create leaves no session, yet the conversation id has been overwritten. */
  lemma FailedCreateKeepsConv(s: Session, info: KcpInfo, hasLogFun: bool, enableLog: bool)
    ensures IsNull(CreateKcp(s, info, false, hasLogFun, enableLog).0)
    ensures GetConv(CreateKcp(s, info, false, hasLogFun, enableLog).0) == info.kcpConv
  {
  }
}

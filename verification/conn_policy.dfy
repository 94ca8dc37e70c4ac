/**
  The policy half of ConnClientPrivate: the connect timeout, the relink
  schedule and attempts, switching networks, the calls the script side
  makes (Connect, Close, SendMsg) and the jobs they hand to the network
  thread, and the periodic work at the end of every round of its loop.
*/
module ConnPolicy {
  import opened Common
  import opened Bytes
  import opened Protocol
  import T = Timers
  import KS = KcpSessions
  import opened ConnTypes
  import opened ConnCore
  import ConnInput
  import RS = RelinkSchedule

  /** A pending connect (CONNECTING or CONNECTED) that has outlived the connect timeout. */
  predicate TimedOut(c: Conn, now: int64) {
    && Rank(Init) < Rank(c.link.state) < Rank(LogicConnected)
    && c.link.stateTs + c.relink.connectTimeoutMs < now
  }

  /** The close reason of a timeout: TIMEOUT_CONTINUE while relink attempts remain, else TIMEOUT. */
  function TimeoutReason(c: Conn): (r: int)
    ensures r == ClientConnectTimeoutContinue || r == ClientConnectTimeout
    ensures r < ClientConnectError <==> c.relink.count >= |c.relink.intervals|
  {
    if c.relink.count < |c.relink.intervals| then ClientConnectTimeoutContinue else ClientConnectTimeout
  }

  /**
    CheckTimeout(now): close a timed-out pending connect. With attempts
    left the reason (6) keeps the session and the loop; the last timeout
    (4) flushes and releases the session and stops the loop.
  */
  function CheckTimeout(c: Conn, env: Env): (r: Conn)
    requires Inv(c)
    ensures Inv(r) && r.relink == c.relink && r.peer == c.peer && r.cbs == c.cbs && WireGrows(c, r)
    ensures !TimedOut(c, env.now) ==> r == c
    ensures TimedOut(c, env.now) ==>
              && Closed(r.link) && r.link.stateTs == env.now
              && Reported(c.events, r.events, CloseEvents(c.cbs, TimeoutReason(c)))
    ensures TimedOut(c, env.now) && c.relink.count < |c.relink.intervals| ==>
              && r.worker == c.worker && r.kcp == c.kcp && r.wire == c.wire
              && r.events == c.events + CloseEvents(c.cbs, TimeoutReason(c))
    ensures TimedOut(c, env.now) && c.relink.count >= |c.relink.intervals| ==>
              !r.worker.running && KS.IsNull(r.kcp)
    ensures TimedOut(c, env.now) && FlushOut(c, env) == [] ==>
              r.events == c.events + CloseEvents(c.cbs, TimeoutReason(c))
  {
    if TimedOut(c, env.now) then InnerClose(c, env, TimeoutReason(c)) else c
  }

  /** relink_count_ as CheckRelink uses it: a negative count is first reset to 0. */
  function Attempts(c: Conn): (r: nat)
    ensures c.relink.count >= 0 ==> r == c.relink.count
  {
    if c.relink.count < 0 then 0 else c.relink.count
  }

  /** A relink attempt is due: the loop runs, an entry remains, the link is idle and has waited that entry's interval. */
  predicate RelinkDue(c: Conn, now: int64) {
    && c.worker.running
    && Attempts(c) < |c.relink.intervals|
    && c.link.state == Init
    && c.link.stateTs + c.relink.intervals[Attempts(c)] < now
  }

  /** The relink notification: the attempt number, when a relink callback is set. */
  function RelinkEvents(cbs: Callbacks, count: int): (r: seq<Event>)
    ensures r == [] || r == [Relinking(count)]
    ensures r != [] <==> cbs.relink
  {
    if cbs.relink then [Relinking(count)] else []
  }

  /**
    CheckRelink(now): only while the loop runs; clamp a negative attempt
    count to 0; when an attempt is due, count it, reconnect to the last
    address keeping the connect timeout, and queue the relink notification.
  */
  function CheckRelink(c: Conn, env: Env): (r: Conn)
    requires Inv(c)
    ensures Inv(r) && r.relink.intervals == c.relink.intervals && r.cbs == c.cbs
    ensures !c.worker.running ==> r == c
    ensures c.worker.running ==> r.relink.count == Attempts(c) + (if RelinkDue(c, env.now) then 1 else 0)
    ensures c.worker.running && !RelinkDue(c, env.now) ==> r == c.(relink := c.relink.(count := Attempts(c)))
    ensures RelinkDue(c, env.now) ==>
              && r.peer == c.peer && r.relink.connectTimeoutMs == c.relink.connectTimeoutMs
              && r.worker == c.worker && r.kcp == c.kcp
              && (env.tcpConnectOk && env.udpConnectOk ==>
                    && r.link.state == Connecting && r.link.stateTs == env.now
                    && r.events == c.events + RelinkEvents(c.cbs, Attempts(c) + 1))
              && (!(env.tcpConnectOk && env.udpConnectOk) ==>
                    && Closed(r.link)
                    && r.events == c.events + CloseEvents(c.cbs, ClientConnectError) + RelinkEvents(c.cbs, Attempts(c) + 1))
  {
    if !c.worker.running then c
    else
      var c1 := c.(relink := c.relink.(count := Attempts(c)));
      if !RelinkDue(c, env.now) then c1
      else Relink(c1, env)
  }

  /** One relink attempt: count it, reconnect to the remembered address, queue the notification. */
  function Relink(c: Conn, env: Env): (r: Conn)
    requires Inv(c) && c.relink.count >= 0
    ensures Inv(r) && r.relink == c.relink.(count := c.relink.count + 1) && r.cbs == c.cbs
    ensures r.peer == c.peer && r.worker == c.worker && r.kcp == c.kcp
    ensures env.tcpConnectOk && env.udpConnectOk ==>
              && r.link.state == Connecting && r.link.stateTs == env.now
              && r.events == c.events + RelinkEvents(c.cbs, c.relink.count + 1)
    ensures !(env.tcpConnectOk && env.udpConnectOk) ==>
              && Closed(r.link)
              && r.events == c.events + CloseEvents(c.cbs, ClientConnectError) + RelinkEvents(c.cbs, c.relink.count + 1)
  {
    var n := c.relink.count + 1;
    var c2 := InnerConnect(c.(relink := c.relink.(count := n)), env, c.peer.ip, c.peer.port as int, 0).0;
    c2.(events := c2.events + RelinkEvents(c.cbs, n))
  }

  /** Attempts never outrun the schedule: a count within it stays within it. */
  lemma RelinkCountBounded(c: Conn, env: Env)
    requires Inv(c) && 0 <= c.relink.count <= |c.relink.intervals|
    ensures var r := CheckRelink(c, env);
            0 <= r.relink.count <= |r.relink.intervals|
  {
  }

  /**
    The last timeout ends the relinks: once attempts reach the end of the
    schedule, a timeout stops the loop, and CheckRelink then does nothing.
  */
  lemma LastTimeoutStopsRelinks(c: Conn, env: Env)
    requires Inv(c) && TimedOut(c, env.now) && c.relink.count >= |c.relink.intervals|
    ensures var r := CheckTimeout(c, env);
            !r.worker.running && CheckRelink(r, env) == r
  {
  }

  /**
    A timeout with attempts left keeps the loop running, and the attempt it
    leads to is not made in the same round: the closed link has only just
    entered INIT.
  */
  lemma TimeoutThenRelinkLater(c: Conn, env: Env)
    requires Inv(c) && TimedOut(c, env.now) && 0 <= c.relink.count < |c.relink.intervals|
    requires c.relink.intervals[c.relink.count] >= 0
    ensures var r := CheckTimeout(c, env);
            r.worker.running == c.worker.running && r.link.state == Init && !RelinkDue(r, env.now)
  {
  }

  /** The relink after a timeout, once its interval has passed, is attempt count + 1. */
  lemma RelinkAfterInterval(c: Conn, env: Env)
    requires Inv(c) && c.worker.running && c.link.state == Init && 0 <= c.relink.count < |c.relink.intervals|
    requires c.link.stateTs + c.relink.intervals[c.relink.count] < env.now
    requires env.tcpConnectOk && env.udpConnectOk
    ensures var r := CheckRelink(c, env);
            && r.relink.count == c.relink.count + 1 && r.link.state == Connecting
            && r.events == c.events + RelinkEvents(c.cbs, c.relink.count + 1)
  {
  }

  /** AddRelinkInterval on the connection: only the schedule changes. */
  function AddRelinkInterval(c: Conn, msec: int32): (r: Conn)
    ensures r == c.(relink := r.relink) && r.relink == c.relink.(intervals := r.relink.intervals)
    ensures |c.relink.intervals| < RS.MaxEntries ==>
              && RS.Sorted(r.relink.intervals) && msec in r.relink.intervals
              && |r.relink.intervals| <= RS.MaxEntries
              && (|c.relink.intervals| == 0 || 0 in c.relink.intervals ==> 0 in r.relink.intervals)
    ensures |c.relink.intervals| >= RS.MaxEntries ==> r == c
  {
    if |c.relink.intervals| < RS.MaxEntries then
      RS.AddedPresent(c.relink.intervals, msec);
      c.(relink := c.relink.(intervals := RS.AddInterval(c.relink.intervals, msec)))
    else c.(relink := c.relink.(intervals := RS.AddInterval(c.relink.intervals, msec)))
  }

  /** ClearRelinkInterval on the connection: an empty schedule, so no relink is ever due. */
  function ClearRelinkInterval(c: Conn): (r: Conn)
    ensures r == c.(relink := c.relink.(intervals := []))
    ensures forall now: int64 {:trigger RelinkDue(r, now)} :: !RelinkDue(r, now)
  {
    c.(relink := c.relink.(intervals := RS.ClearIntervals(c.relink.intervals)))
  }

  /**
    SwitchNetwork: only a logically connected client that is not in the
    middle of relinking closes, with CLIENT_CONNECT_SWITCH (which keeps the
    session and the loop, so relinking takes over).
  */
  function SwitchNetwork(c: Conn, env: Env): (r: Conn)
    requires Inv(c)
    ensures Inv(r)
    ensures c.link.state == LogicConnected && c.relink.count == 0 ==>
              && Closed(r.link) && r.kcp == c.kcp && r.worker == c.worker
              && r.events == c.events + CloseEvents(c.cbs, ClientConnectSwitch)
    ensures !(c.link.state == LogicConnected && c.relink.count == 0) ==> r == c
  {
    if c.link.state == LogicConnected && c.relink.count == 0 then InnerClose(c, env, ClientConnectSwitch) else c
  }

  /**
    SendMsg (script side): refuse with -1 before LOGIC_CONNECTED; otherwise
    hand a copy of the message to the network thread and return 0.
  */
  function SendMsg(c: Conn, msg: seq<uint8>): (r: (Conn, int))
    ensures r.1 == 0 <==> c.link.state == LogicConnected
    ensures r.1 != 0 ==> r == (c, -1)
    ensures r.1 == 0 ==> r.0 == c.(worker := c.worker.(jobs := c.worker.jobs + [SendJob(msg)]))
  {
    if Rank(c.link.state) < Rank(LogicConnected) then (c, -1)
    else (c.(worker := c.worker.(jobs := c.worker.jobs + [SendJob(msg)])), 0)
  }

  /**
    SendKCPBuf (network thread): an empty message succeeds at once; before
    LOGIC_CONNECTED it fails; otherwise it goes to the session, and a
    library error is reported as -1.
  */
  function SendKcpBuf(c: Conn, env: Env, msg: seq<uint8>): (r: (Conn, int))
    ensures r.1 == 0 || r.1 == -1
    ensures r.0 == c.(kcp := r.0.kcp)
    ensures |msg| == 0 ==> r == (c, 0)
    ensures |msg| > 0 && c.link.state != LogicConnected ==> r == (c, -1)
    ensures |msg| > 0 && c.link.state == LogicConnected && !KS.IsNull(c.kcp) ==>
              && r.0.kcp.calls == c.kcp.calls + [KS.LibSend(msg, TruncU32(env.now))]
              && (r.1 == 0 <==> SendAnswer(env, c.kcp.calls) == 0)
  {
    if |msg| <= 0 then (c, 0)
    else if Rank(c.link.state) < Rank(LogicConnected) then (c, -1)
    else
      var (s, rc) := KS.Send(c.kcp, msg, env.now, SendAnswer(env, c.kcp.calls));
      (c.(kcp := s), if rc != 0 then -1 else 0)
  }

  /**
    Connect (script side): hand the connect to the network thread, start
    the thread if it was never started (which marks the loop running and
    clears the attempt count), and return 0.
  */
  function Connect(c: Conn, ip: string, port: int, timeoutMs: int): (r: (Conn, int))
    ensures r.1 == 0
    ensures r.0.worker.jobs == c.worker.jobs + [ConnectJob(ip, port, timeoutMs)] && r.0.worker.started
    ensures !c.worker.started ==> r.0.worker.running && r.0.relink == c.relink.(count := 0)
    ensures c.worker.started ==> r.0.worker.running == c.worker.running && r.0.relink == c.relink
    ensures r.0 == c.(worker := r.0.worker, relink := r.0.relink)
  {
    var w := c.worker.(jobs := c.worker.jobs + [ConnectJob(ip, port, timeoutMs)]);
    if c.worker.started then (c.(worker := w), 0)
    else (c.(worker := w.(started := true, running := true), relink := c.relink.(count := 0)), 0)
  }

  /** Close (script side): hand an InnerClose(-1) to the network thread. */
  function Close(c: Conn): (r: Conn)
    ensures r == c.(worker := c.worker.(jobs := c.worker.jobs + [CloseJob]))
  {
    c.(worker := c.worker.(jobs := c.worker.jobs + [CloseJob]))
  }

  /**
    One job on the network thread. The close job reports no disconnect of
    its own (the reason is -1); only the sends of its flush that fail
    report CLIENT_CONNECT_ERROR.
  */
  function RunJob(c: Conn, env: Env, j: Job): (r: Conn)
    requires Inv(c)
    ensures Inv(r) && r.worker.jobs == c.worker.jobs
    ensures j.CloseJob? ==> Closed(r.link) && ErrorsAfter(c.events, r.events) && KS.IsNull(r.kcp) && !r.worker.running
    ensures j.CloseJob? && FlushOut(c, env) == [] ==> r.events == c.events
    ensures j.SendJob? ==> r == SendKcpBuf(c, env, j.msg).0
    ensures j.ConnectJob? ==> r == InnerConnect(c, env, j.ip, j.port, j.timeoutMs).0
  {
    match j
    case ConnectJob(ip, port, timeoutMs) => InnerConnect(c, env, ip, port, timeoutMs).0
    case SendJob(msg) => SendKcpBuf(c, env, msg).0
    case CloseJob =>
      var r := InnerClose(c, env, -1);
      assert CloseEvents(c.cbs, -1) == [];
      assert r.events[..|r.events| - 0] == r.events;
      r
  }

  /** Run the given jobs in the order they were handed over. */
  function RunAll(c: Conn, env: Env, js: seq<Job>): (r: Conn)
    requires Inv(c)
    ensures Inv(r) && r.worker.jobs == c.worker.jobs
    decreases |js|
  {
    if |js| == 0 then c else RunAll(RunJob(c, env, js[0]), env, js[1..])
  }

  /** Jobs run in the order they were handed over: running a + b is running a, then b. */
  lemma {:induction false} RunAllAppend(c: Conn, env: Env, a: seq<Job>, b: seq<Job>)
    requires Inv(c)
    ensures RunAll(c, env, a + b) == RunAll(RunAll(c, env, a), env, b)
    decreases |a|
  {
    if |a| == 0 {
      assert a + b == b;
    } else {
      assert (a + b)[0] == a[0];
      assert (a + b)[1..] == a[1..] + b;
      RunAllAppend(RunJob(c, env, a[0]), env, a[1..], b);
    }
  }

  /** The job step of the loop: empty the queue, running every job in order. */
  function RunJobs(c: Conn, env: Env): (r: Conn)
    requires Inv(c)
    ensures Inv(r) && r.worker.jobs == []
  {
    var r := RunAll(c, env, c.worker.jobs);
    r.(worker := r.worker.(jobs := []))
  }

  /**
    Close is asynchronous: only when the network thread runs the job does
    the link close; no disconnect is reported for the close itself (the
    reason is -1), the session is flushed and released, and the loop stops.
  */
  lemma CloseThenRun(c: Conn, env: Env)
    requires Inv(c) && |c.worker.jobs| == 0
    ensures var r := RunJobs(Close(c), env);
            && Closed(r.link) && ErrorsAfter(c.events, r.events) && KS.IsNull(r.kcp)
            && !r.worker.running && r.worker.jobs == []
            && (FlushOut(c, env) == [] ==> r.events == c.events)
  {
    var c1 := Close(c);
    assert c1.worker.jobs == [CloseJob];
    assert c1.worker.jobs[1..] == [];
    var r1 := RunJob(c1, env, CloseJob);
    assert RunAll(c1, env, c1.worker.jobs) == RunAll(r1, env, []) == r1;
  }

  /** The segments the Update inside Tick hands to KCPOutput: none unless the session is due. */
  function TickOut(c: Conn, env: Env): seq<seq<uint8>> {
    var now32 := TruncU32(env.now);
    if KS.Due(c.kcp, now32) then OutputAnswer(env, c.kcp.calls + [KS.LibUpdate(now32)]) else []
  }

  /**
    kcp_session_.Tick(now) on the connection: when the session is due its
    Update runs, and the segments it emits go out through KCPOutput, over
    UDP when the server enabled it and as TCP frames otherwise; then Check
    sets the next wake time.
  */
  function TickSession(c: Conn, env: Env): (r: Conn)
    requires Inv(c)
    ensures Inv(r) && ReadKept(c.link, r.link) && WireGrows(c, r) && ErrorsAfter(c.events, r.events)
    ensures r.peer == c.peer && r.relink == c.relink && r.beats == c.beats && r.cbs == c.cbs && r.worker == c.worker
    ensures !KS.Due(c.kcp, TruncU32(env.now)) ==> r == c
    ensures KS.Due(c.kcp, TruncU32(env.now)) ==>
              && !r.kcp.updateNow && r.kcp.kcp == c.kcp.kcp
              && r.kcp.calls == c.kcp.calls + [KS.LibUpdate(TruncU32(env.now)), KS.LibCheck(TruncU32(env.now))]
    ensures r.link.tcpOpen ==> c.link.tcpOpen && r.events == c.events && r.link.state == c.link.state
    ensures c.peer.enableUdp && r.link.udpOpen ==>
              r.wire.udp == c.wire.udp + Datagrams(c.peer.flow, c.peer.magic, TickOut(c, env))
    ensures !c.peer.enableUdp && r.link.tcpOpen ==>
              && Framable(TickOut(c, env))
              && InFlight(r) == InFlight(c) + Frames(c.peer.flow, c.peer.magic, CmdReliable, TickOut(c, env))
  {
    var now32 := TruncU32(env.now);
    var s := KS.Tick(c.kcp, now32, CheckAnswer(env, c.kcp.calls + [KS.LibUpdate(now32)]));
    Emit(c.(kcp := s), env, TickOut(c, env))
  }

  /**
    The session outlives a CLIENT_CONNECT_ERROR close, so the loop keeps
    ticking it: over TCP every segment its Update emits fails on the closed
    link and reports one more CLIENT_CONNECT_ERROR disconnect.
  */
  lemma TickWhileClosed(c: Conn, env: Env)
    requires Inv(c) && !c.link.tcpOpen && !c.peer.enableUdp
    requires SegmentsFit(TickOut(c, env))
    ensures TickSession(c, env).events == c.events + ErrorRun(c.cbs, |TickOut(c, env)|)
  {
    var now32 := TruncU32(env.now);
    var s := KS.Tick(c.kcp, now32, CheckAnswer(env, c.kcp.calls + [KS.LibUpdate(now32)]));
    EmitWhileClosed(c.(kcp := s), env, TickOut(c, env));
  }

  /**
    The periodic step at the end of every round: tick the session, send
    a heartbeat when due (not forced), the UDP heartbeat, then the connect
    timeout and the relink check, in that order.
  */
  function Periodic(c: Conn, env: Env): (r: Conn)
    requires Inv(c)
    ensures Inv(r)
  {
    var c1 := TickSession(c, env);
    var c2 := SendTcpPing(c1, env, false);
    var c3 := SendUdpPing(c2, env);
    var c4 := CheckTimeout(c3, env);
    CheckRelink(c4, env)
  }

  /**
    One round of the network loop while it runs: the socket events select
    reported, the queued jobs, then the periodic step. A stopped loop does
    nothing.
  */
  function Round(c: Conn, env: Env, rd: ConnInput.Ready): (r: Conn)
    requires Inv(c)
    ensures Inv(r)
    ensures !c.worker.running ==> r == c
  {
    if !c.worker.running then c
    else Periodic(RunJobs(ConnInput.OnSelect(c, env, rd), env), env)
  }

  /**
    A server close stops the loop for good: the thread is not restarted
    because it was started before, so a later Connect only queues a job
    that no round runs.
  */
  lemma ConnectAfterStopQueuesOnly(c: Conn, env: Env, rd: ConnInput.Ready, ip: string, port: int, timeoutMs: int)
    requires Inv(c) && c.worker.started
    ensures var closed := InnerClose(c, env, ServerClose);
            var r := Connect(closed, ip, port, timeoutMs).0;
            && !r.worker.running
            && Round(r, env, rd) == r
            && r.worker.jobs == c.worker.jobs + [ConnectJob(ip, port, timeoutMs)]
  {
  }
}

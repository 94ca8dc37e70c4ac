/**
  TimeExpire: a last-fire timestamp and an interval. The clock is a
  parameter. The C++ sum last_time_ + expire_long_ is an int64 addition;
  the model adds unbounded integers.
*/
module Timers {
  import opened Bytes

  datatype Timer = Timer(lastTime: int64, expireLong: int32)

  /** TimeExpire(expire_long): the interval is stored, last_time_ starts at 0. */
  function NewTimer(interval: int32): (r: Timer)
    ensures r.lastTime == 0 && r.expireLong == interval
  {
    Timer(0, interval)
  }

  /** TryExpire(now): fires when the interval has strictly elapsed, and then restarts it. */
  function TryExpire(t: Timer, now: int64): (r: (Timer, bool))
    ensures r.1 <==> now > t.lastTime + t.expireLong
    ensures r.1 ==> r.0 == Timer(now, t.expireLong)
    ensures !r.1 ==> r.0 == t
  {
    if now > t.lastTime + t.expireLong then (t.(lastTime := now), true) else (t, false)
  }

  /** After(ms, now): re-arm. Negative is ignored, zero makes the next check fire, positive sets a new interval from now. */
  function After(t: Timer, ms: int32, now: int64): (r: Timer)
    ensures ms < 0 ==> r == t
    ensures ms == 0 ==> r == Timer(0, t.expireLong)
    ensures ms > 0 ==> r == Timer(now, ms)
  {
    if ms < 0 then t
    else if ms == 0 then t.(lastTime := 0)
    else Timer(now, ms)
  }

  /** Reset(now): restart the current interval from now. */
  function Reset(t: Timer, now: int64): (r: Timer)
    ensures r.lastTime == now && r.expireLong == t.expireLong
  {
    t.(lastTime := now)
  }

  /** With a non-negative interval, two checks at the same instant fire at most once. */
  lemma FiresOnceAtAnInstant(t: Timer, now: int64)
    requires t.expireLong >= 0
    ensures !(TryExpire(t, now).1 && TryExpire(TryExpire(t, now).0, now).1)
  {
  }

  /** A fresh timer fires on its first check exactly when now exceeds the interval. */
  lemma FreshTimerFirstCheck(interval: int32, now: int64)
    ensures TryExpire(NewTimer(interval), now).1 <==> now > interval
  {
  }

  /** The three mutators, for reasoning about sequences of calls. */
  datatype Op = TryOp(now: int64) | AfterOp(ms: int32, at: int64) | ResetOp(to: int64)

  function Apply(t: Timer, op: Op): Timer {
    match op
    case TryOp(now) => TryExpire(t, now).0
    case AfterOp(ms, at) => After(t, ms, at)
    case ResetOp(to) => Reset(t, to)
  }

  function Run(t: Timer, ops: seq<Op>): Timer
    decreases |ops|
  {
    if |ops| == 0 then t else Run(Apply(t, ops[0]), ops[1..])
  }

  predicate SetsInterval(op: Op) { op.AfterOp? && op.ms > 0 }

  /** ops[i] is the last call that sets the interval. */
  predicate LastSetter(ops: seq<Op>, i: int)
    requires 0 <= i < |ops|
  {
    SetsInterval(ops[i]) && forall j :: i < j < |ops| ==> !SetsInterval(ops[j])
  }

  /**
    Only After with a positive argument writes the interval: after any run of
    calls the interval is the last such argument, or the original one if none.
  */
  lemma {:induction false} IntervalWrittenOnlyByAfter(t: Timer, ops: seq<Op>)
    ensures (forall i :: 0 <= i < |ops| ==> !SetsInterval(ops[i])) ==>
              Run(t, ops).expireLong == t.expireLong
    ensures forall i :: 0 <= i < |ops| && LastSetter(ops, i) ==> Run(t, ops).expireLong == ops[i].ms
    decreases |ops|
  {
    if |ops| > 0 {
      var t1 := Apply(t, ops[0]);
      IntervalWrittenOnlyByAfter(t1, ops[1..]);
      assert forall i :: 1 <= i < |ops| ==> ops[i] == ops[1..][i - 1];
      forall i | 0 <= i < |ops| && LastSetter(ops, i)
        ensures Run(t, ops).expireLong == ops[i].ms
      {
        if i == 0 {
          assert forall k :: 0 <= k < |ops[1..]| ==> !SetsInterval(ops[1..][k]) by {
            forall k | 0 <= k < |ops[1..]| ensures !SetsInterval(ops[1..][k]) {
              assert ops[1..][k] == ops[k + 1];
            }
          }
        } else {
          assert SetsInterval(ops[1..][i - 1]);
          assert LastSetter(ops[1..], i - 1);
          assert forall j :: i - 1 < j < |ops[1..]| ==> !SetsInterval(ops[1..][j]) by {
            forall j | i - 1 < j < |ops[1..]| ensures !SetsInterval(ops[1..][j]) {
              assert ops[1..][j] == ops[j + 1];
            }
          }
        }
      }
    }
  }
}

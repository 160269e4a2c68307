/** The live channel's reconnection controller (web_server/index.js): every
    close or failed construction schedules a reconnect after the current
    delay and stretches the delay by 1.8, up to 30 s; a successful open, or
    the page becoming visible while the channel is closed, resets it to 2 s.
    Times are milliseconds, as exact reals. */
module Reconnect {

  const INITIAL_DELAY: real := 2000.0
  const MAX_DELAY: real := 30000.0
  const BACKOFF_FACTOR: real := 1.8

  /** The delay after one more failed attempt. */
  function NextDelay(d: real): (r: real)
    ensures r <= MAX_DELAY
    ensures r == MAX_DELAY || r == d * BACKOFF_FACTOR
    ensures 0.0 <= d <= MAX_DELAY ==> d <= r
  {
    if d * BACKOFF_FACTOR < MAX_DELAY then d * BACKOFF_FACTOR else MAX_DELAY
  }

  /** The delay in force after `n` failures in a row since the last reset. */
  function DelayAfter(n: nat): real {
    if n == 0 then INITIAL_DELAY else NextDelay(DelayAfter(n - 1))
  }

  /** The delay grows, never leaves [2000, 30000], and after five failures
      stays at the cap. */
  lemma {:induction false} DelayAfterBounds(n: nat)
    ensures INITIAL_DELAY <= DelayAfter(n) <= MAX_DELAY
    ensures n > 0 ==> DelayAfter(n - 1) <= DelayAfter(n)
    ensures n >= 5 ==> DelayAfter(n) == MAX_DELAY
  {
    if n > 0 {
      DelayAfterBounds(n - 1);
      if n > 5 {
        assert DelayAfter(n - 1) == MAX_DELAY;
      } else if n == 5 {
        DelaySequence();
      }
    }
  }

  /** The delays of the first six reconnects in a row, without rounding. */
  lemma DelaySequence()
    ensures DelayAfter(0) == 2000.0 && DelayAfter(1) == 3600.0 && DelayAfter(2) == 6480.0
    ensures DelayAfter(3) == 11664.0 && DelayAfter(4) == 20995.2 && DelayAfter(5) == 30000.0
  {
    assert DelayAfter(1) == 3600.0;
    assert DelayAfter(2) == 6480.0;
    assert DelayAfter(3) == 11664.0;
    assert DelayAfter(4) == 20995.2;
  }

  /** What the channel reports to the controller. */
  datatype ChannelEvent =
    | Opened
    | Closed
    | ConstructionFailed
    | VisibilityChanged(hidden: bool, channelClosed: bool)

  class ReconnectController {
    var reconnectDelay: real
    /** The delays of the reconnect timers started so far, in order. */
    var timers: seq<real>
    /** Failures since the delay was last reset. */
    ghost var failures: nat

    ghost predicate Valid()
      reads this
    {
      reconnectDelay == DelayAfter(failures)
    }

    constructor ()
      ensures Valid() && reconnectDelay == INITIAL_DELAY && timers == [] && failures == 0
    {
      reconnectDelay := INITIAL_DELAY;
      timers := [];
      failures := 0;
    }

    /** Starts a timer with the current delay, then lengthens the delay. */
    method ScheduleReconnect()
      requires Valid()
      modifies this
      ensures Valid() && failures == old(failures) + 1
      ensures timers == old(timers) + [old(reconnectDelay)]
      ensures reconnectDelay == NextDelay(old(reconnectDelay))
      ensures INITIAL_DELAY <= reconnectDelay <= MAX_DELAY
    {
      DelayAfterBounds(failures + 1);
      timers := timers + [reconnectDelay];
      reconnectDelay := if reconnectDelay * BACKOFF_FACTOR < MAX_DELAY then reconnectDelay * BACKOFF_FACTOR else MAX_DELAY;
      failures := failures + 1;
    }

    /** Puts the delay back at its floor. */
    method ResetDelay()
      modifies this
      ensures Valid() && failures == 0 && reconnectDelay == INITIAL_DELAY && timers == old(timers)
    {
      reconnectDelay := INITIAL_DELAY;
      failures := 0;
    }

    /** One event; the result says whether a connection attempt starts now. */
    method HandleEvent(e: ChannelEvent) returns (connectNow: bool)
      requires Valid()
      modifies this
      ensures Valid()
      ensures INITIAL_DELAY <= reconnectDelay <= MAX_DELAY
      ensures connectNow <==> e.VisibilityChanged? && !e.hidden && e.channelClosed
      ensures e.Opened? ==> reconnectDelay == INITIAL_DELAY && timers == old(timers)
      ensures e.Closed? || e.ConstructionFailed? ==>
                timers == old(timers) + [old(reconnectDelay)] && reconnectDelay == NextDelay(old(reconnectDelay))
      ensures connectNow ==> reconnectDelay == INITIAL_DELAY && timers == old(timers)
      ensures e.VisibilityChanged? && !connectNow ==>
                reconnectDelay == old(reconnectDelay) && timers == old(timers)
    {
      connectNow := false;
      match e {
        case Opened =>
          ResetDelay();
        case Closed =>
          ScheduleReconnect();
        case ConstructionFailed =>
          ScheduleReconnect();
        case VisibilityChanged(hidden, channelClosed) =>
          if !hidden && channelClosed {
            ResetDelay();
            connectNow := true;
          }
      }
      DelayAfterBounds(failures);
    }
  }

  /** After `k` failures in a row from a reset, the timers started were
      DelayAfter(0), ..., DelayAfter(k-1). */
  method FailRepeatedly(k: nat) returns (c: ReconnectController)
    ensures fresh(c) && c.Valid()
    ensures |c.timers| == k && forall i :: 0 <= i < k ==> c.timers[i] == DelayAfter(i)
  {
    c := new ReconnectController();
    var n := 0;
    while n < k
      invariant 0 <= n <= k
      invariant c.Valid() && c.failures == n && |c.timers| == n
      invariant forall i :: 0 <= i < n ==> c.timers[i] == DelayAfter(i)
    {
      c.ScheduleReconnect();
      n := n + 1;
    }
  }
}

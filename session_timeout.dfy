/** Automatic logout after ten minutes without user activity
    (hooks/useSessionTimeout.ts). Time is the millisecond clock `Date.now()`,
    passed to every event; a timer is the instant its callback is due, and firing
    it is an event at some instant not before that. Re-running the effect (a new
    user, or none) first runs the previous run's cleanup. */
module SessionTimeout {
  import opened Js

  /** `TIMEOUT_DURATION`: ten minutes. */
  const TimeoutMs: int := 10 * 60 * 1000

  /** `THROTTLE_TIME`: activity restarts the timer at most once per 120 s. */
  const ThrottleMs: int := 120 * 1000

  /** The shortest delay `checkActivity` reschedules itself with. */
  const MinDelayMs: int := 100

  /** What one run of `checkActivity` decides. */
  datatype Check = Logout | Reschedule(delay: int)

  /** `checkActivity` at `now`, with the latest activity at `lastActivity`: log out
      once ten minutes have passed; otherwise look again when they will have, but
      not sooner than 100 ms from now. */
  function CheckActivity(now: int, lastActivity: int): (r: Check)
    ensures r.Logout? <==> now - lastActivity >= TimeoutMs
    ensures r.Reschedule? ==> r.delay >= MinDelayMs && now + r.delay >= lastActivity + TimeoutMs
    ensures r.Reschedule? ==> now + r.delay == lastActivity + TimeoutMs || r.delay == MinDelayMs
  {
    var since := now - lastActivity;
    if since >= TimeoutMs then Logout
    else
      var remaining := TimeoutMs - since;
      Reschedule(if remaining < MinDelayMs then MinDelayMs else remaining)
  }

  /** Timers that fire when due log an idle user out by the second check at the
      latest, and that check comes no later than 100 ms after the deadline. */
  lemma OnTimeChecksLogOut(now: int, lastActivity: int)
    requires now >= lastActivity
    ensures var r := CheckActivity(now, lastActivity);
      r.Logout? || (CheckActivity(now + r.delay, lastActivity).Logout?
                    && now + r.delay <= lastActivity + TimeoutMs + MinDelayMs)
  {
    var r := CheckActivity(now, lastActivity);
    if r.Reschedule? {
      assert now + r.delay >= lastActivity + TimeoutMs;
    }
  }

  /** The timer state of one mounted `useSessionTimeout`. */
  class SessionTimeoutState {
    /** Whether the current run of the effect had a user. */
    var signedIn: bool
    /** Whether the activity listeners are attached. */
    var listening: bool
    /** When the pending `checkActivity` is due, if one is pending. */
    var timer: Option<int>
    var lastActivity: int
    var lastReset: int
    /** How many times this run of the effect has called `logout`. */
    var logouts: nat
    /** The latest instant any event happened at. */
    ghost var clock: int

    /** The listeners are attached exactly while there is a user; while a user is
        signed in a check is pending unless one has logged out, and a pending check
        is due no earlier than ten minutes after the last restart and no later than
        ten minutes and 100 ms after the latest activity. */
    ghost predicate Valid()
      reads this
    {
      (listening <==> signedIn)
      && (!signedIn ==> timer.None? && logouts == 0)
      && (signedIn && timer.None? ==> logouts > 0)
      && lastReset <= lastActivity <= clock
      && (timer.Some? ==>
            lastReset + TimeoutMs <= timer.value <= lastActivity + TimeoutMs + MinDelayMs)
    }

    /** The first run of the effect. */
    constructor(user: bool, now: int)
      ensures Valid() && clock == now
      ensures signedIn == user && listening == user && logouts == 0
      ensures user ==> timer == Some(now + TimeoutMs) && lastActivity == now && lastReset == now
      ensures !user ==> timer == None
    {
      signedIn := user;
      listening := user;
      logouts := 0;
      lastActivity := now;
      lastReset := now;
      clock := now;
      timer := if user then Some(now + TimeoutMs) else None;
    }

    /** The effect re-run for a changed user: the cleanup clears the timer and
        detaches the listeners; with no user nothing more happens, otherwise
        activity counts from now and a fresh ten-minute timer starts. */
    method Rerun(user: bool, now: int)
      requires Valid() && now >= clock
      modifies this
      ensures Valid() && clock == now
      ensures signedIn == user && listening == user && logouts == 0
      ensures !user ==> timer == None
      ensures user ==> timer == Some(now + TimeoutMs) && lastActivity == now && lastReset == now
    {
      timer := None;
      listening := false;
      logouts := 0;
      clock := now;
      signedIn := user;
      if user {
        lastActivity := now;
        lastReset := now;
        listening := true;
        timer := Some(now + TimeoutMs);
      }
    }

    /** `throttledResetTimer`, reached only while the listeners are attached:
        every event records the activity; the timer restarts only when more than
        120 s have passed since the last restart, even after a logout whose new
        render has not come yet. */
    method Activity(now: int)
      requires Valid() && now >= clock
      modifies this
      ensures Valid() && clock == now
      ensures signedIn == old(signedIn) && listening == old(listening) && logouts == old(logouts)
      ensures !listening ==>
        lastActivity == old(lastActivity) && lastReset == old(lastReset) && timer == old(timer)
      ensures listening ==> lastActivity == now
      ensures listening && now - old(lastReset) > ThrottleMs ==>
        lastReset == now && timer == Some(now + TimeoutMs)
      ensures !(listening && now - old(lastReset) > ThrottleMs) ==>
        lastReset == old(lastReset) && timer == old(timer)
    {
      clock := now;
      if listening {
        lastActivity := now;
        if now - lastReset > ThrottleMs {
          lastReset := now;
          timer := Some(now + TimeoutMs);
        }
      }
    }

    /** The pending `checkActivity` fires at `now`: it logs out exactly when ten
        minutes have passed since the latest activity, and otherwise is pending
        again. With no activity since the last restart it always logs out. */
    method Fire(now: int)
      requires Valid() && now >= clock
      requires timer.Some? && now >= timer.value
      modifies this
      ensures Valid() && clock == now
      ensures signedIn == old(signedIn) && listening == old(listening)
      ensures lastActivity == old(lastActivity) && lastReset == old(lastReset)
      ensures logouts == old(logouts) + 1 <==> now - lastActivity >= TimeoutMs
      ensures logouts == old(logouts) + 1 || logouts == old(logouts)
      ensures logouts == old(logouts) ==> timer == Some(now + CheckActivity(now, lastActivity).delay)
      ensures logouts == old(logouts) + 1 ==> timer == None
      ensures old(lastActivity) == old(lastReset) ==> logouts == old(logouts) + 1
    {
      clock := now;
      match CheckActivity(now, lastActivity)
      case Logout =>
        timer := None;
        logouts := logouts + 1;
      case Reschedule(delay) =>
        timer := Some(now + delay);
    }
  }

  /** Signed in at 0, idle: the first check, at ten minutes, logs out. */
  method IdleUserLoggedOut() returns (out: nat)
    ensures out == 1
  {
    var s := new SessionTimeoutState(true, 0);
    s.Fire(TimeoutMs);
    out := s.logouts;
  }

  /** Signed in at 0 and active at one minute (too soon to restart the timer):
      the check at ten minutes reschedules to eleven, which logs out. */
  method ActiveUserGetsMoreTime() returns (first: nat, due: Option<int>, second: nat)
    ensures first == 0 && due == Some(660000) && second == 1
  {
    var s := new SessionTimeoutState(true, 0);
    s.Activity(60000);
    s.Fire(600000);
    first := s.logouts;
    due := s.timer;
    s.Fire(660000);
    second := s.logouts;
  }
}

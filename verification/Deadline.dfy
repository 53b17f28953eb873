/**
 The inactivity deadline of a held session, as a machine over clock readings. A reading is whatever
 the clock function returned: a whole number of milliseconds, or a number that is not one.
 */
module Deadline {
  import opened Wrappers

  const MINUTE_MS: int := 60_000
  const MIN_SESSION_TIMEOUT_MINUTES: int := 1
  const MAX_SESSION_TIMEOUT_MINUTES: int := 1_440
  const MAX_SAFE_INTEGER: int := 0x1F_FFFF_FFFF_FFFF

  datatype Clock = Ms(ms: int) | NotAnInteger

  predicate IsSafeInteger(now: Clock) {
    now.Ms? && -MAX_SAFE_INTEGER <= now.ms <= MAX_SAFE_INTEGER
  }

  predicate IsTimeout(minutes: Clock) {
    minutes.Ms? && MIN_SESSION_TIMEOUT_MINUTES <= minutes.ms <= MAX_SESSION_TIMEOUT_MINUTES
  }

  /** `active` says that a session is held; the other fields are the controller's own. */
  datatype Timer = Timer(active: bool, expiresAt: Option<int>, lastSeen: Option<int>, minutes: int)

  function Idle(t: Timer): Timer {
    Timer(false, None, None, t.minutes)
  }

  /** A reading that is no safe integer, or runs backwards, drops the session. */
  function Observed(t: Timer, now: Clock): Timer {
    if !IsSafeInteger(now) || (t.lastSeen.Some? && now.ms < t.lastSeen.value) then Idle(t)
    else t.(lastSeen := Some(now.ms))
  }

  function Touched(t: Timer, now: Clock): Timer {
    if !t.active then t
    else
      var o := Observed(t, now);
      if !o.active then o else o.(expiresAt := Some(now.ms + t.minutes * MINUTE_MS))
  }

  function Expired(t: Timer, now: Clock): Timer {
    if !t.active then t
    else
      var o := Observed(t, now);
      if !o.active then o
      else if o.expiresAt.None? || now.ms < o.expiresAt.value then o
      else Idle(o)
  }

  function Resumed(t: Timer, now: Clock): Timer {
    if !t.active then t
    else
      var e := Expired(t, now);
      if !e.active then e else Touched(e, now)
  }

  function Retimed(t: Timer, minutes: Clock, now: Clock): Timer {
    if !IsTimeout(minutes) then t else Touched(t.(minutes := minutes.ms), now)
  }

  function Activated(t: Timer, now: Clock): Timer {
    Touched(t.(active := true, lastSeen := None), now)
  }

  // ---- Runs ----

  datatype Tick =
    | Activate(now: Clock)
    | Touch(now: Clock)
    | Deactivate(now: Clock)
    | Resume(now: Clock)
    | Expire(now: Clock)
    | SetTimeout(minutes: Clock, now: Clock)
    | Drop

  function AfterTick(t: Timer, tick: Tick): Timer {
    match tick
    case Activate(now) => Activated(t, now)
    case Touch(now) => Touched(t, now)
    case Deactivate(now) => Touched(t, now)
    case Resume(now) => Resumed(t, now)
    case Expire(now) => Expired(t, now)
    case SetTimeout(minutes, now) => Retimed(t, minutes, now)
    case Drop => Idle(t)
  }

  /** The time of the last activity, as the history of events tells it. */
  function LastActivity(t: Timer, tick: Tick, before: int): int {
    match tick
    case Activate(Ms(now)) => now
    case Touch(Ms(now)) => now
    case Deactivate(Ms(now)) => now
    case Resume(Ms(now)) => now
    case SetTimeout(minutes, Ms(now)) => if IsTimeout(minutes) then now else before
    case _ => before
  }

  function AfterTicks(t: Timer, ticks: seq<Tick>): Timer
    decreases ticks
  {
    if ticks == [] then t else AfterTicks(AfterTick(t, ticks[0]), ticks[1..])
  }

  function LastActivityOf(t: Timer, ticks: seq<Tick>, before: int): int
    decreases ticks
  {
    if ticks == [] then before
    else LastActivityOf(AfterTick(t, ticks[0]), ticks[1..], LastActivity(t, ticks[0], before))
  }

  /**
   While a session is held its deadline is the last activity plus the current timeout, and the last
   observed time lies strictly before it. Without a session there is neither.
   */
  predicate TimerInv(t: Timer, activity: int) {
    && MIN_SESSION_TIMEOUT_MINUTES <= t.minutes <= MAX_SESSION_TIMEOUT_MINUTES
    && if t.active then
         && t.expiresAt == Some(activity + t.minutes * MINUTE_MS)
         && t.lastSeen.Some? && activity <= t.lastSeen.value < t.expiresAt.value
       else t.expiresAt == None && t.lastSeen == None
  }

  lemma TickKeepsTimer(t: Timer, tick: Tick, activity: int)
    requires TimerInv(t, activity)
    ensures TimerInv(AfterTick(t, tick), LastActivity(t, tick, activity))
  {
  }

  lemma {:induction false} TicksKeepTimer(t: Timer, ticks: seq<Tick>, activity: int)
    requires TimerInv(t, activity)
    ensures TimerInv(AfterTicks(t, ticks), LastActivityOf(t, ticks, activity))
    decreases ticks
  {
    if ticks != [] {
      TickKeepsTimer(t, ticks[0], activity);
      TicksKeepTimer(AfterTick(t, ticks[0]), ticks[1..], LastActivity(t, ticks[0], activity));
    }
  }

  /** The timeout in minutes, as the history of events tells it: the last one that was acceptable. */
  function TimeoutOf(ticks: seq<Tick>, before: int): int
    decreases ticks
  {
    if ticks == [] then before
    else
      match ticks[0]
      case SetTimeout(Ms(minutes), _) => TimeoutOf(ticks[1..], if 1 <= minutes <= 1440 then minutes else before)
      case _ => TimeoutOf(ticks[1..], before)
  }

  lemma {:induction false} TimeoutIsLastSet(t: Timer, ticks: seq<Tick>)
    ensures AfterTicks(t, ticks).minutes == TimeoutOf(ticks, t.minutes)
    decreases ticks
  {
    if ticks != [] {
      TimeoutIsLastSet(AfterTick(t, ticks[0]), ticks[1..]);
    }
  }

  /** A reading that is a safe integer and not earlier than the one before. */
  predicate Forwards(now: Clock, earliest: int) {
    now.Ms? && -0x1F_FFFF_FFFF_FFFF <= now.ms <= 0x1F_FFFF_FFFF_FFFF && earliest <= now.ms
  }

  /** The session is held with a deadline some minutes after the given time. */
  predicate HeldFrom(t: Timer, now: int, minutes: int) {
    t == Timer(true, Some(now + minutes * 60_000), Some(now), minutes)
  }

  predicate Dropped(t: Timer, minutes: int) {
    t == Timer(false, None, None, minutes)
  }

  /**
   What each event makes of a held session, by the reading it brings, the last reading before it and the
   deadline. Expiring and resuming drop it from the deadline on; touching, deactivating and setting the
   timeout move the deadline whether or not it has passed; no other event moves it.
   */
  predicate Enforces(u: Timer, tick: Tick, seen: int, deadline: int) {
    var after := AfterTick(u, tick);
    match tick
    case Activate(now) =>
      if Forwards(now, -0x1F_FFFF_FFFF_FFFF) then HeldFrom(after, now.ms, u.minutes) else Dropped(after, u.minutes)
    case Touch(now) => if Forwards(now, seen) then HeldFrom(after, now.ms, u.minutes) else Dropped(after, u.minutes)
    case Deactivate(now) => if Forwards(now, seen) then HeldFrom(after, now.ms, u.minutes) else Dropped(after, u.minutes)
    case Resume(now) =>
      if Forwards(now, seen) && now.ms < deadline then HeldFrom(after, now.ms, u.minutes) else Dropped(after, u.minutes)
    case Expire(now) =>
      if Forwards(now, seen) && now.ms < deadline then after == Timer(true, Some(deadline), Some(now.ms), u.minutes)
      else Dropped(after, u.minutes)
    case SetTimeout(minutes, now) =>
      if !(minutes.Ms? && 1 <= minutes.ms <= 1440) then after == u
      else if Forwards(now, seen) then HeldFrom(after, now.ms, minutes.ms)
      else Dropped(after, minutes.ms)
    case Drop => Dropped(after, u.minutes)
  }

  lemma EventEnforces(u: Timer, tick: Tick, activity: int)
    requires TimerInv(u, activity)
    ensures if u.active then Enforces(u, tick, u.lastSeen.value, activity + u.minutes * 60_000)
            else AfterTick(u, tick).active ==> tick.Activate?
  {
  }

  /**
   After any run, a session still held has as its deadline the last activity plus the last acceptable
   timeout, the last reading lies before it, and every event treats it accordingly. Where no session is
   held there is no deadline, and only an activation makes one.
   */
  lemma RunsEnforceDeadline(t: Timer, ticks: seq<Tick>, activity: int, tick: Tick)
    requires TimerInv(t, activity)
    ensures var u := AfterTicks(t, ticks);
            var deadline := LastActivityOf(t, ticks, activity) + TimeoutOf(ticks, t.minutes) * 60_000;
            && u.minutes == TimeoutOf(ticks, t.minutes)
            && if u.active then
                 && u.expiresAt == Some(deadline) && u.lastSeen.Some? && u.lastSeen.value < deadline
                 && Enforces(u, tick, u.lastSeen.value, deadline)
               else
                 u.expiresAt.None? && u.lastSeen.None? && (AfterTick(u, tick).active ==> tick.Activate?)
  {
    hide AfterTicks, LastActivityOf, TimeoutOf, Enforces, AfterTick;
    TicksKeepTimer(t, ticks, activity);
    TimeoutIsLastSet(t, ticks);
    EventEnforces(AfterTicks(t, ticks), tick, LastActivityOf(t, ticks, activity));
  }

  /** Activity is not checked against the deadline: a touch after it moves it instead of dropping the session. */
  lemma LateTouchExtends(t: Timer, activity: int, now: int)
    requires TimerInv(t, activity) && t.active
    requires t.expiresAt.value <= now <= MAX_SAFE_INTEGER
    requires -MAX_SAFE_INTEGER <= now
    ensures AfterTick(t, Touch(Ms(now))).active && AfterTick(t, Deactivate(Ms(now))).active
    ensures AfterTick(t, Touch(Ms(now))).expiresAt.value > t.expiresAt.value
    ensures !AfterTick(t, Resume(Ms(now))).active
  {
  }
}

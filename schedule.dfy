/** The timing arithmetic of the handler: when a send is due, how long the
    worker sleeps, and the time-until-next figure of the state report.
    Time is counted in whole milliseconds; "never sent" is `None`. */
module Schedule {
  import opened Wrappers

  /** Interval between checks for sets of new records (5 s). */
  const PollInterval: int := 5000
  /** Longest a drain keeps polling once it has started (10 s). */
  const PollDurationMax: int := 10000
  /** Interval between sends (2 minutes). */
  const SendInterval: int := 120000
  /** `close` shrinks the drain window to at most this (0.25 s). */
  const ClosePollDurationMax: int := 250

  /** What one wake-up of the worker does: drain and send, or sleep. */
  datatype Decision = Process | Sleep(duration: int)

  /** A send is due once the clock is strictly past the last send plus the
      send interval; with no send yet it is always due. */
  predicate SendDue(last: Option<int>, now: int)
  {
    last.None? || now > last.value + SendInterval
  }

  /** The decision of one iteration of the worker loop. `now` is the clock
      reading compared with the next send time, `later` the second reading
      taken to compute the sleep. */
  function Decide(last: Option<int>, now: int, later: int): (d: Decision)
    ensures last.None? ==> d == Process
    ensures last.Some? ==> (d == Process <==> now > last.value + SendInterval)
    ensures d.Sleep? ==> d.duration >= 0 && later + d.duration == Max(later, last.value + SendInterval)
  {
    match last
    case None => Process
    case Some(t) =>
      var next := t + SendInterval;
      if now > next then Process else Sleep(Max(next - later, 0))
  }

  /** The earliest time a further send can happen, as the state report shows it. */
  function TimeUntilNext(last: Option<int>, now: int): (r: int)
    ensures r >= 0
    ensures last.None? ==> r == 0
    ensures last.Some? ==> now + r >= last.value + SendInterval
    ensures last.Some? && r > 0 ==> now + r == last.value + SendInterval
  {
    match last
    case None => 0
    case Some(t) => Max(now, t + SendInterval) - now
  }

  /** Time since the last send, when there was one. */
  function TimeSinceLast(last: Option<int>, now: int): (r: Option<int>)
    ensures r.Some? <==> last.Some?
    ensures r.Some? ==> last.value + r.value == now
  {
    match last
    case None => None
    case Some(t) => Some(now - t)
  }

  /** When no send is due, the worker sleeps exactly the time the state
      report gives until the next send, measured at the second reading. */
  lemma SleepIsTimeUntilNext(last: Option<int>, now: int, later: int)
    requires !SendDue(last, now)
    ensures Decide(last, now, later) == Sleep(TimeUntilNext(last, later))
  {
  }

  /** Whenever the worker decides to send, the state report shows no wait. */
  lemma ProcessShowsNoWait(last: Option<int>, now: int, later: int)
    requires Decide(last, now, later) == Process
    ensures TimeUntilNext(last, now) == 0
  {
  }

  /** The converse fails at one instant: exactly one send interval after a
      send, the report shows no wait but the worker still sleeps (for zero). */
  lemma BoundaryInstant(t: int)
    ensures TimeUntilNext(Some(t), t + SendInterval) == 0
    ensures Decide(Some(t), t + SendInterval, t + SendInterval) == Sleep(0)
  {
  }
}

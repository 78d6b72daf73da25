/**
 * The idle transition function (core/transitions.py). Time is a real number of seconds; the
 * clock reading and the sampled idle amount are parameters, and the call to `sleep` or
 * `sleep_until` is returned instead of performed.
 */
module CoreIdle {
  import opened Wrappers
  import opened Engine

  /** The sleeping call the idle function makes. */
  datatype SleepCall = Sleep(seconds: real) | SleepUntil(instant: real)

  /** `Idle`: the idle amount and the optional instant after which the user must not sleep. */
  datatype Idle = Idle(amount: real, endTime: Option<real>)

  function Min(a: real, b: real): real { if a <= b then a else b }

  /**
   * `Idle.__call__`: without an end time it sleeps for the amount; with one it sleeps until
   * `now + amount` or the end time, whichever is earlier.
   */
  function IdleCall(idle: Idle, now: real): (c: SleepCall)
    ensures idle.endTime.None? <==> c.Sleep?
    ensures c.Sleep? ==> c.seconds == idle.amount
    ensures c.SleepUntil? ==>
              c.instant <= idle.endTime.value && c.instant <= now + idle.amount
              && (c.instant == idle.endTime.value || c.instant == now + idle.amount)
  {
    match idle.endTime
    case None => Sleep(idle.amount)
    case Some(end) => SleepUntil(Min(now + idle.amount, end))
  }

  /** An end time that has already passed makes the user wake at once at that time, however long the amount. */
  lemma PastEndWakesAtEnd(amount: real, end: real, now: real)
    requires amount >= 0.0 && end <= now
    ensures IdleCall(Idle(amount, Some(end)), now) == SleepUntil(end)
  {
  }

  /** `IdleTransition`: a named transition whose function is an `Idle` with the same amount and end time. */
  datatype IdleTransition = IdleTransition(transition: Transition, idle: Idle)

  function NewIdleTransition(amount: real, endTime: Option<real>, name: string, target: Option<string>): (t: IdleTransition)
    ensures t.transition.name == name && t.transition.target == target
    ensures t.idle.amount == amount && t.idle.endTime == endTime
  {
    IdleTransition(Transition(name, target), Idle(amount, endTime))
  }
}

/**
 * The attacker's start times (aecid_attacker/sm.py): the attack start is taken relative to
 * the moment the machine is built, the escalation time relative to the attack start.
 */
module AttackerTimes {
  import opened AttackerConfig

  /** `_to_datetime`: a duration is taken relative to `base`, a point in time is kept. */
  function ToDatetime(v: TimeSpec, base: int): (r: int)
    ensures v.Delta? ==> r - base == v.seconds
    ensures v.Instant? ==> r == v.at
  {
    match v
    case Delta(d) => base + d
    case Instant(t) => t
  }

  /** The attack start (relative to now) and the escalation time (relative to the attack start). */
  function StartTimes(attackStart: TimeSpec, escalateStart: TimeSpec, now: int): (r: (int, int))
    ensures r.0 == ToDatetime(attackStart, now) && r.1 == ToDatetime(escalateStart, r.0)
  {
    var start := ToDatetime(attackStart, now);
    (start, ToDatetime(escalateStart, start))
  }

  /** With the defaults the attack starts now and escalation is due right away. */
  lemma DefaultTimesAreNow(now: int)
    ensures StartTimes(DefaultAttackStart, DefaultEscalateStart, now) == (now, now)
  {
  }

  /**
   * Durations that passed `_check_delta` never schedule into the past: the attack starts no
   * earlier than now and escalation no earlier than the attack start.
   */
  lemma CheckedDeltasOrdered(attackStart: TimeSpec, escalateStart: TimeSpec, now: int)
    requires CheckDelta(attackStart).Success? && CheckDelta(escalateStart).Success?
    ensures attackStart.Delta? ==> StartTimes(attackStart, escalateStart, now).0 >= now
    ensures escalateStart.Delta? ==> StartTimes(attackStart, escalateStart, now).1 >= StartTimes(attackStart, escalateStart, now).0
    ensures attackStart.Delta? && escalateStart.Delta? ==> StartTimes(attackStart, escalateStart, now).1 >= now
  {
  }
}

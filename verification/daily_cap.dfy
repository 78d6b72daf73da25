/**
 * The daily cap of the single-activity selection states of the horde, ownCloud, ssh,
 * WordPress editor and wpDiscuz users. Each chooses between entering its activity
 * (transition 0) and idling (transition 1); once the activity has been entered
 * `max_daily` times on one day its modifier is forced to 0 before every later selection,
 * and a new day clears the counter and resets the modifiers.
 */
module DailyCap {
  import opened Engine

  /** Position of the activity transition. */
  const Activity: nat := 0
  /** Position of the idle transition. */
  const Idle: nat := 1

  /** The default daily maximum of every single-activity selection state. */
  const DefaultMaxDaily: int := 10

  datatype Selection = Selection(base: Engine.State, count: nat, maxDaily: int, day: int)
  {
    predicate Valid()
    {
      base.Valid() && base.Size() == 2
    }
  }

  /** A new selection state for `[activity, idle]` with the given weights, dated `today`. */
  function New(activityWeight: real, idleWeight: real, maxDaily: int, today: int): (s: Selection)
    ensures s.Valid() && s.count == 0 && s.maxDaily == maxDaily && s.day == today
    ensures s.base.weights == [activityWeight, idleWeight]
    ensures s.base.modifiers == s.base.initial == [1.0, 1.0]
  {
    Selection(Make([activityWeight, idleWeight], Ones(2)), 0, maxDaily, today)
  }

  /**
   * `adapt_before`: on a new day store the day, zero the counter and reset the modifiers;
   * then, if the counter has reached the maximum, disable the activity.
   */
  function AdaptBefore(s: Selection, today: int): (r: Selection)
    requires s.Valid()
    ensures r.Valid() && r.day == today && r.maxDaily == s.maxDaily
    ensures r.base.weights == s.base.weights && r.base.initial == s.base.initial
    ensures r.count == (if s.day != today then 0 else s.count)
    ensures r.base.modifiers[Idle] == (if s.day != today then s.base.initial else s.base.modifiers)[Idle]
    ensures r.base.modifiers[Activity] ==
              if r.count >= s.maxDaily then 0.0
              else (if s.day != today then s.base.initial else s.base.modifiers)[Activity]
  {
    var t := if s.day != today then s.(day := today, count := 0, base := Reset(s.base)) else s;
    if t.count >= t.maxDaily then t.(base := SetModifier(t.base, Activity, 0.0)) else t
  }

  /** `adapt_after`: the counter rises exactly when the activity was selected; nothing else changes. */
  function AdaptAfter(s: Selection, selected: nat): (r: Selection)
    requires s.Valid() && selected < 2
    ensures r.Valid() && r.base == s.base && r.day == s.day && r.maxDaily == s.maxDaily
    ensures r.count == s.count + (if selected == Activity then 1 else 0)
  {
    if selected == Activity then s.(count := s.count + 1) else s
  }

  /** One full selection: `adapt_before`, a sample the engine may draw, then `adapt_after`. */
  function Step(s: Selection, today: int, selected: nat): (r: Selection)
    requires s.Valid() && selected < 2
    ensures r.Valid()
  {
    AdaptAfter(AdaptBefore(s, today), selected)
  }

  /** The counter never exceeds the daily maximum (or 0 for a non-positive maximum). */
  predicate WithinCap(s: Selection)
  {
    s.count <= if s.maxDaily < 0 then 0 else s.maxDaily
  }

  /** A new state is within its cap. */
  lemma NewWithinCap(aw: real, iw: real, maxDaily: int, today: int)
    ensures WithinCap(New(aw, iw, maxDaily, today))
  {
  }

  /**
   * The cap holds across any selection the engine can make: at the maximum the activity
   * has a zero modifier and so cannot be drawn, and below it one more entry stays in bounds.
   */
  lemma {:induction false} StepKeepsCap(s: Selection, today: int, selected: nat)
    requires s.Valid() && WithinCap(s) && selected < 2
    requires Selectable(AdaptBefore(s, today).base, selected)
    ensures WithinCap(Step(s, today, selected))
  {
  }

  /** A sequence of selections, one per day stamp, each drawn from the enabled transitions. */
  predicate Feasible(s: Selection, days: seq<int>, sels: seq<nat>)
    requires s.Valid()
    decreases |sels|
  {
    |days| == |sels|
    && (forall k :: 0 <= k < |sels| ==> sels[k] < 2)
    && (|sels| > 0 ==>
          Selectable(AdaptBefore(s, days[0]).base, sels[0])
          && Feasible(Step(s, days[0], sels[0]), days[1..], sels[1..]))
  }

  /** The state after a feasible run of selections. */
  function Run(s: Selection, days: seq<int>, sels: seq<nat>): (r: Selection)
    requires s.Valid() && Feasible(s, days, sels)
    ensures r.Valid() && r.maxDaily == s.maxDaily
    decreases |sels|
  {
    if |sels| == 0 then s else Run(Step(s, days[0], sels[0]), days[1..], sels[1..])
  }

  /** However long the run, the activity is entered at most `max_daily` times on the current day. */
  lemma {:induction false} RunKeepsCap(s: Selection, days: seq<int>, sels: seq<nat>)
    requires s.Valid() && WithinCap(s) && Feasible(s, days, sels)
    ensures WithinCap(Run(s, days, sels))
    decreases |sels|
  {
    if |sels| > 0 {
      StepKeepsCap(s, days[0], sels[0]);
      RunKeepsCap(Step(s, days[0], sels[0]), days[1..], sels[1..]);
    }
  }

  /** The first selection of a new day sees a zero counter and the initial modifiers (for a positive cap). */
  lemma NewDayClears(s: Selection, today: int)
    requires s.Valid() && s.day != today && s.maxDaily > 0
    ensures AdaptBefore(s, today).count == 0
    ensures AdaptBefore(s, today).base.modifiers == s.base.initial
  {
    assert AdaptBefore(s, today).base.modifiers[Activity] == s.base.initial[Activity];
  }
}

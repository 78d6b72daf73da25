/**
 * The beta user's activity selection state: idle plus every configured activity, each with
 * its own daily counter. Unlike the single-activity states the cap is checked after a
 * selection, so an activity is disabled as soon as its counter reaches the maximum.
 */
module BetaStates {
  import opened Wrappers
  import opened Engine

  /** The activities the beta user can enter, in the order the selection state lists them. */
  datatype Activity = Horde | Owncloud | SshUser | WebBrowser | WpEditor | Wpdiscuz

  /** Position of an activity in the fixed listing order. */
  function Rank(a: Activity): nat
  {
    match a
    case Horde => 0
    case Owncloud => 1
    case SshUser => 2
    case WebBrowser => 3
    case WpEditor => 4
    case Wpdiscuz => 5
  }

  /** One value per activity, as the six keyword groups of the constructor. */
  datatype PerActivity<T> = PerActivity(horde: T, owncloud: T, sshUser: T, webBrowser: T, wpEditor: T, wpdiscuz: T)
  {
    /** The replacement of one activity's value. */
    function With(a: Activity, v: T): (r: PerActivity<T>)
      ensures r.Get(a) == v && forall b :: b != a ==> r.Get(b) == Get(b)
    {
      match a
      case Horde => this.(horde := v)
      case Owncloud => this.(owncloud := v)
      case SshUser => this.(sshUser := v)
      case WebBrowser => this.(webBrowser := v)
      case WpEditor => this.(wpEditor := v)
      case Wpdiscuz => this.(wpdiscuz := v)
    }

    function Get(a: Activity): T
    {
      match a
      case Horde => horde
      case Owncloud => owncloud
      case SshUser => sshUser
      case WebBrowser => webBrowser
      case WpEditor => wpEditor
      case Wpdiscuz => wpdiscuz
    }
  }

  /** A transition of the selection state: the idle transition or an activity's entry transition. */
  datatype Choice = Idle | Enter(activity: Activity)

  datatype Selection = Selection(
    transitions: seq<Choice>,
    base: Engine.State,
    counts: PerActivity<nat>,
    maxes: PerActivity<int>,
    day: int)
  {
    /** Tables line up, every activity has a counter and a maximum, and each transition is listed once. */
    predicate Valid()
    {
      base.Valid() && |transitions| == base.Size() && |transitions| > 0
      && (forall i, j :: 0 <= i < j < |transitions| ==> transitions[i] != transitions[j])
    }
  }

  /** The activities listed after idle, in order horde, owncloud, ssh_user, web_browser, wp_editor, wpdiscuz. */
  function Listed(present: PerActivity<bool>, weights: PerActivity<real>, order: seq<Activity>): (r: (seq<Choice>, seq<real>))
    ensures |r.0| == |r.1|
    ensures forall i :: 0 <= i < |r.0| ==> r.0[i].Enter? && r.1[i] == weights.Get(r.0[i].activity)
  {
    if |order| == 0 then ([], [])
    else
      var rest := Listed(present, weights, order[1..]);
      if present.Get(order[0]) then ([Enter(order[0])] + rest.0, [weights.Get(order[0])] + rest.1)
      else rest
  }

  const Order: seq<Activity> := [Horde, Owncloud, SshUser, WebBrowser, WpEditor, Wpdiscuz]

  /** An activity is listed iff it is present and in the given order. */
  lemma {:induction false} ListedMembers(present: PerActivity<bool>, weights: PerActivity<real>, order: seq<Activity>, a: Activity)
    ensures Enter(a) in Listed(present, weights, order).0 <==> present.Get(a) && a in order
    decreases |order|
  {
    if |order| > 0 {
      ListedMembers(present, weights, order[1..], a);
      assert a in order <==> a == order[0] || a in order[1..] by {
        assert order == [order[0]] + order[1..];
      }
    }
  }

  /** Listed activities keep the ranking of `order` when `order` is strictly ranked. */
  lemma {:induction false} ListedOrdered(present: PerActivity<bool>, weights: PerActivity<real>, order: seq<Activity>)
    requires forall i, j :: 0 <= i < j < |order| ==> Rank(order[i]) < Rank(order[j])
    ensures forall i, j :: 0 <= i < j < |Listed(present, weights, order).0| ==>
              Rank(Listed(present, weights, order).0[i].activity) < Rank(Listed(present, weights, order).0[j].activity)
    decreases |order|
  {
    if |order| > 0 {
      var rest := Listed(present, weights, order[1..]);
      ListedOrdered(present, weights, order[1..]);
      forall c | c in rest.0
        ensures Rank(order[0]) < Rank(c.activity)
      {
        ListedMembers(present, weights, order[1..], c.activity);
        var k :| 0 <= k < |order[1..]| && order[1..][k] == c.activity;
        assert order[k + 1] == c.activity;
      }
    }
  }

  /**
   * The constructor: idle is transition 0 with `idle_weight`, followed by the entry transition
   * and weight of each present activity in the fixed order; a `None` maximum is stored as 0,
   * and every counter starts at 0.
   */
  function New(present: PerActivity<bool>, weights: PerActivity<real>, idleWeight: real,
               maxDaily: PerActivity<Option<int>>, today: int): (s: Selection)
    ensures s.Valid() && s.day == today
    ensures s.transitions[0] == Idle && s.base.weights[0] == idleWeight
    ensures s.base.modifiers == s.base.initial
    ensures forall a :: Enter(a) in s.transitions <==> present.Get(a)
    ensures forall i :: 1 <= i < |s.transitions| ==>
              s.transitions[i].Enter? && s.base.weights[i] == weights.Get(s.transitions[i].activity)
    ensures forall i, j :: 1 <= i < j < |s.transitions| ==>
              Rank(s.transitions[i].activity) < Rank(s.transitions[j].activity)
    ensures forall a :: s.counts.Get(a) == 0 && s.maxes.Get(a) == maxDaily.Get(a).GetOr(0)
  {
    var listed := Listed(present, weights, Order);
    var transitions := [Idle] + listed.0;
    var ws := [idleWeight] + listed.1;
    ListedWithIdle(present, weights, idleWeight);
    Selection(
      transitions,
      Make(ws, Ones(|ws|)),
      PerActivity(0, 0, 0, 0, 0, 0),
      PerActivity(maxDaily.horde.GetOr(0), maxDaily.owncloud.GetOr(0), maxDaily.sshUser.GetOr(0),
                  maxDaily.webBrowser.GetOr(0), maxDaily.wpEditor.GetOr(0), maxDaily.wpdiscuz.GetOr(0)),
      today)
  }

  /** Idle followed by the listed activities names each present activity, and only those. */
  lemma IdleListedMembers(present: PerActivity<bool>, weights: PerActivity<real>)
    ensures var t := [Idle] + Listed(present, weights, Order).0;
            forall a :: Enter(a) in t <==> present.Get(a)
  {
    var listed := Listed(present, weights, Order);
    forall a: Activity ensures Enter(a) in [Idle] + listed.0 <==> present.Get(a) {
      ListedMembers(present, weights, Order, a);
    }
  }

  /** After idle the activities are strictly ranked, so no transition is listed twice. */
  lemma IdleListedOrdered(present: PerActivity<bool>, weights: PerActivity<real>)
    ensures var t := [Idle] + Listed(present, weights, Order).0;
            (forall i, j :: 1 <= i < j < |t| ==> Rank(t[i].activity) < Rank(t[j].activity))
            && (forall i, j :: 0 <= i < j < |t| ==> t[i] != t[j])
  {
    var listed := Listed(present, weights, Order);
    ListedOrdered(present, weights, Order);
    var t := [Idle] + listed.0;
    assert forall i :: 1 <= i < |t| ==> t[i] == listed.0[i - 1];
  }

  /** Idle followed by the listed activities: each present activity once, strictly ranked, with its weight. */
  lemma {:induction false} ListedWithIdle(present: PerActivity<bool>, weights: PerActivity<real>, idleWeight: real)
    ensures var listed := Listed(present, weights, Order);
            var t := [Idle] + listed.0;
            var ws := [idleWeight] + listed.1;
            |t| == |ws| && t[0] == Idle && ws[0] == idleWeight
            && (forall a :: Enter(a) in t <==> present.Get(a))
            && (forall i :: 1 <= i < |t| ==> t[i].Enter? && ws[i] == weights.Get(t[i].activity))
            && (forall i, j :: 1 <= i < j < |t| ==> Rank(t[i].activity) < Rank(t[j].activity))
            && (forall i, j :: 0 <= i < j < |t| ==> t[i] != t[j])
  {
    var listed := Listed(present, weights, Order);
    IdleListedMembers(present, weights);
    IdleListedOrdered(present, weights);
    var t := [Idle] + listed.0;
    var ws := [idleWeight] + listed.1;
    assert forall i :: 1 <= i < |t| ==> t[i] == listed.0[i - 1] && ws[i] == listed.1[i - 1];
  }

  /** `reset`: restore the initial modifiers and zero every counter. */
  function Reset(s: Selection): (r: Selection)
    requires s.Valid()
    ensures r.Valid() && r.transitions == s.transitions && r.maxes == s.maxes && r.day == s.day
    ensures r.base.weights == s.base.weights && r.base.modifiers == s.base.initial
    ensures forall a :: r.counts.Get(a) == 0
  {
    s.(base := Engine.Reset(s.base), counts := PerActivity(0, 0, 0, 0, 0, 0))
  }

  /** `adapt_before`: a new day is stored and resets; on the same day nothing changes. */
  function AdaptBefore(s: Selection, today: int): (r: Selection)
    requires s.Valid()
    ensures r.Valid() && r.day == today
    ensures s.day == today ==> r == s
    ensures s.day != today ==> r == Reset(s).(day := today)
  {
    if s.day != today then Reset(s).(day := today) else s
  }

  /**
   * `adapt_after`: selecting an activity increments its counter alone and, once the counter
   * reaches the maximum, disables it; selecting idle changes nothing.
   */
  function AdaptAfter(s: Selection, selected: nat): (r: Selection)
    requires s.Valid() && selected < |s.transitions|
    ensures r.Valid() && r.transitions == s.transitions && r.maxes == s.maxes && r.day == s.day
    ensures r.base.weights == s.base.weights && r.base.initial == s.base.initial
    ensures s.transitions[selected] == Idle ==> r == s
    ensures s.transitions[selected].Enter? ==>
              var a := s.transitions[selected].activity;
              r.counts == s.counts.With(a, s.counts.Get(a) + 1)
              && r.base.modifiers[selected] == (if r.counts.Get(a) >= s.maxes.Get(a) then 0.0 else s.base.modifiers[selected])
              && forall j :: 0 <= j < |s.transitions| && j != selected ==> r.base.modifiers[j] == s.base.modifiers[j]
  {
    match s.transitions[selected]
    case Idle => s
    case Enter(a) =>
      var counted := s.(counts := s.counts.With(a, s.counts.Get(a) + 1));
      if counted.counts.Get(a) >= s.maxes.Get(a) then counted.(base := SetModifier(s.base, selected, 0.0))
      else counted
  }

  /** The position of an activity's transition, when it is listed. */
  function IndexOf(s: Selection, a: Activity): (r: Option<nat>)
    ensures r.Some? ==> r.value < |s.transitions| && s.transitions[r.value] == Enter(a)
    ensures r.None? ==> Enter(a) !in s.transitions
  {
    IndexFrom(s.transitions, a, 0)
  }

  function IndexFrom(ts: seq<Choice>, a: Activity, from: nat): (r: Option<nat>)
    requires from <= |ts|
    ensures r.Some? ==> from <= r.value < |ts| && ts[r.value] == Enter(a)
    ensures r.None? ==> forall k :: from <= k < |ts| ==> ts[k] != Enter(a)
    decreases |ts| - from
  {
    if from == |ts| then None
    else if ts[from] == Enter(a) then Some(from)
    else IndexFrom(ts, a, from + 1)
  }

  /**
   * The state invariant the selection keeps: an activity that has been entered and has
   * reached its maximum is disabled, and no counter exceeds `max(maximum, 1)`.
   */
  predicate CapInvariant(s: Selection)
    requires s.Valid()
  {
    forall i :: 0 <= i < |s.transitions| && s.transitions[i].Enter? ==>
      var a := s.transitions[i].activity;
      (s.counts.Get(a) > 0 && s.counts.Get(a) >= s.maxes.Get(a) ==> s.base.modifiers[i] == 0.0)
      && s.counts.Get(a) <= (if s.maxes.Get(a) < 1 then 1 else s.maxes.Get(a))
  }

  /** A freshly built selection state satisfies the invariant. */
  lemma NewKeepsInvariant(present: PerActivity<bool>, weights: PerActivity<real>, idleWeight: real,
                          maxDaily: PerActivity<Option<int>>, today: int)
    ensures CapInvariant(New(present, weights, idleWeight, maxDaily, today))
  {
  }

  /** Counters reset only together with the modifiers, so a reset state satisfies the invariant. */
  lemma ResetKeepsInvariant(s: Selection)
    requires s.Valid()
    ensures CapInvariant(Reset(s))
  {
  }

  /**
   * Every selection the engine can draw keeps the invariant: a capped activity has a zero
   * modifier and cannot be drawn, and any other entry either stays below the cap or hits it
   * and is disabled.
   */
  lemma {:induction false} StepKeepsInvariant(s: Selection, today: int, selected: nat)
    requires s.Valid() && CapInvariant(s) && selected < |s.transitions|
    requires Selectable(AdaptBefore(s, today).base, selected)
    ensures CapInvariant(AdaptAfter(AdaptBefore(s, today), selected))
  {
    var b := AdaptBefore(s, today);
    if s.day != today {
      ResetKeepsInvariant(s);
    }
    var r := AdaptAfter(b, selected);
    forall i | 0 <= i < |r.transitions| && r.transitions[i].Enter?
      ensures var a := r.transitions[i].activity;
              (r.counts.Get(a) > 0 && r.counts.Get(a) >= r.maxes.Get(a) ==> r.base.modifiers[i] == 0.0)
              && r.counts.Get(a) <= (if r.maxes.Get(a) < 1 then 1 else r.maxes.Get(a))
    {
      var a := r.transitions[i].activity;
      if b.transitions[selected] == Enter(a) {
        assert i == selected;
      }
    }
  }

  /**
   * A cap of 0 still allows one entry per day: from a fresh day the activity is selectable
   * (given positive weight and initial modifier), and is disabled right after.
   */
  lemma ZeroCapAllowsOne(s: Selection, today: int, i: nat)
    requires s.Valid() && s.day != today && i < |s.transitions| && s.transitions[i].Enter?
    requires s.maxes.Get(s.transitions[i].activity) == 0
    requires s.base.weights[i] > 0.0 && s.base.initial[i] > 0.0
    ensures Selectable(AdaptBefore(s, today).base, i)
    ensures AdaptAfter(AdaptBefore(s, today), i).base.modifiers[i] == 0.0
    ensures AdaptAfter(AdaptBefore(s, today), i).counts.Get(s.transitions[i].activity) == 1
  {
    var w, m := s.base.weights[i], s.base.initial[i];
    assert AdaptBefore(s, today).base.modifiers[i] == m;
    assert w * m > 0.0;
  }
}

/**
 * `ActivityState`: an adaptive state that makes leaving the activity more likely the longer
 * the user stays, and forgets that boost once the user leaves.
 */
module CoreStates {
  import opened Wrappers
  import opened Engine

  /** The default factor applied to the return modifier per step spent in the activity. */
  const DefaultRetIncrease: real := 1.03125

  datatype ActivityState = ActivityState(base: Engine.State, ret: nat, retIncrease: real)
  {
    /** The return transition is one of the state's transitions. */
    predicate Valid()
    {
      base.Valid() && ret < base.Size()
    }
  }

  /**
   * An activity state over `weights` with return transition `ret`. The optional `modifiers` are
   * the starting modifiers and the ones `reset` restores; without them the engine starts every
   * transition at 1.
   */
  function NewActivity(weights: seq<real>, modifiers: Option<seq<real>>, ret: nat, retIncrease: real): (a: ActivityState)
    requires ret < |weights|
    requires modifiers.Some? ==> |modifiers.value| == |weights|
    ensures a.Valid() && a.base.weights == weights && a.ret == ret && a.retIncrease == retIncrease
    ensures a.base.modifiers == a.base.initial
    ensures modifiers.Some? ==> a.base.modifiers == modifiers.value
    ensures modifiers.None? ==> a.base.modifiers == Ones(|weights|)
  {
    match modifiers
    case Some(m) => ActivityState(Make(weights, m), ret, retIncrease)
    case None => ActivityState(Make(weights, Ones(|weights|)), ret, retIncrease)
  }

  /**
   * `adapt_after`: choosing the return transition (recognised by position, i.e. identity)
   * resets every modifier; any other choice multiplies the return modifier alone.
   */
  function AdaptAfter(a: ActivityState, selected: nat): (r: ActivityState)
    requires a.Valid() && selected < a.base.Size()
    ensures r.Valid() && r.ret == a.ret && r.retIncrease == a.retIncrease
    ensures r.base.weights == a.base.weights && r.base.initial == a.base.initial
    ensures selected == a.ret ==> r.base.modifiers == a.base.initial
    ensures selected != a.ret ==>
              r.base.modifiers[a.ret] == a.base.modifiers[a.ret] * a.retIncrease
              && forall j :: 0 <= j < a.base.Size() && j != a.ret ==>
                               r.base.modifiers[j] == a.base.modifiers[j]
  {
    if selected == a.ret then
      a.(base := Reset(a.base))
    else
      a.(base := SetModifier(a.base, a.ret, a.base.modifiers[a.ret] * a.retIncrease))
  }

  /** Every selection of a run names a transition of the state. */
  predicate InRange(a: ActivityState, sels: seq<nat>)
  {
    forall k :: 0 <= k < |sels| ==> sels[k] < a.base.Size()
  }

  /** The state after `adapt_after` has seen each selection of `sels` in turn. */
  function Run(a: ActivityState, sels: seq<nat>): (r: ActivityState)
    requires a.Valid() && InRange(a, sels)
    ensures r.Valid() && r.ret == a.ret && r.retIncrease == a.retIncrease
    ensures r.base.weights == a.base.weights && r.base.initial == a.base.initial
    decreases |sels|
  {
    if |sels| == 0 then a else Run(AdaptAfter(a, sels[0]), sels[1..])
  }

  /**
   * After k consecutive selections other than the return transition, the return modifier has
   * been multiplied by `ret_increase^k` and every other modifier is untouched.
   */
  lemma {:induction false} BoostAfterRun(a: ActivityState, sels: seq<nat>)
    requires a.Valid() && InRange(a, sels)
    requires forall k :: 0 <= k < |sels| ==> sels[k] != a.ret
    ensures Run(a, sels).base.modifiers[a.ret] == a.base.modifiers[a.ret] * Pow(a.retIncrease, |sels|)
    ensures forall j :: 0 <= j < a.base.Size() && j != a.ret ==>
                          Run(a, sels).base.modifiers[j] == a.base.modifiers[j]
    decreases |sels|
  {
    if |sels| > 0 {
      var b := AdaptAfter(a, sels[0]);
      assert InRange(b, sels[1..]);
      BoostAfterRun(b, sels[1..]);
      assert Run(a, sels) == Run(b, sels[1..]);
      calc {
        Run(a, sels).base.modifiers[a.ret];
        b.base.modifiers[a.ret] * Pow(a.retIncrease, |sels| - 1);
        (a.base.modifiers[a.ret] * a.retIncrease) * Pow(a.retIncrease, |sels| - 1);
        a.base.modifiers[a.ret] * (a.retIncrease * Pow(a.retIncrease, |sels| - 1));
      }
    }
  }

  /** From a freshly reset state with unit modifiers, the return modifier after k steps is `ret_increase^k`. */
  lemma {:induction false} FreshBoost(a: ActivityState, sels: seq<nat>)
    requires a.Valid() && InRange(a, sels)
    requires a.base.modifiers == a.base.initial && a.base.initial[a.ret] == 1.0
    requires forall k :: 0 <= k < |sels| ==> sels[k] != a.ret
    ensures Run(a, sels).base.modifiers[a.ret] == Pow(a.retIncrease, |sels|)
  {
    BoostAfterRun(a, sels);
  }

  /** Whatever came before, a run that ends with the return transition leaves the initial modifiers. */
  lemma {:induction false} ReturnRestores(a: ActivityState, sels: seq<nat>)
    requires a.Valid() && InRange(a, sels)
    requires |sels| > 0 && sels[|sels| - 1] == a.ret
    ensures Run(a, sels).base.modifiers == a.base.initial
    decreases |sels|
  {
    if |sels| > 1 {
      var b := AdaptAfter(a, sels[0]);
      assert InRange(b, sels[1..]);
      ReturnRestores(b, sels[1..]);
    }
  }

  /**
   * With `ret_increase >= 1` and a non-negative return modifier, staying in the activity never
   * lowers the return modifier: between resets it only grows.
   */
  lemma {:induction false} ReturnModifierNonDecreasing(a: ActivityState, sels: seq<nat>)
    requires a.Valid() && InRange(a, sels)
    requires forall k :: 0 <= k < |sels| ==> sels[k] != a.ret
    requires a.retIncrease >= 1.0 && a.base.modifiers[a.ret] >= 0.0
    ensures Run(a, sels).base.modifiers[a.ret] >= a.base.modifiers[a.ret]
  {
    BoostAfterRun(a, sels);
    var p := Pow(a.retIncrease, |sels|);
    var m := a.base.modifiers[a.ret];
    var q := Run(a, sels).base.modifiers[a.ret];
    assert q == m * p;
    PowAtLeastOne(a.retIncrease, |sels|);
    ScaleAtLeast(m, p);
    assert q >= m;
  }
}

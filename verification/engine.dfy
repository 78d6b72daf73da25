/**
 * The adaptive probabilistic state of the external simulation engine, reduced to the data
 * the repository's states read and write: one base weight and one modifier per transition,
 * and the modifiers that `reset` restores. A transition is identified by its position in the
 * transition list, which is how the engine's identity-keyed modifier table behaves.
 */
module Engine {
  import opened Wrappers

  /** A transition as the states see it: its name and the name of the state it leads to. */
  datatype Transition = Transition(name: string, target: Option<string>)

  datatype State = State(weights: seq<real>, modifiers: seq<real>, initial: seq<real>)
  {
    /** Every table has one entry per transition. */
    predicate Valid()
    {
      |weights| == |modifiers| == |initial|
    }

    /** Number of transitions of the state. */
    function Size(): nat { |weights| }
  }

  /** A freshly constructed state: the given modifiers are both current and initial. */
  function Make(weights: seq<real>, modifiers: seq<real>): (s: State)
    requires |weights| == |modifiers|
    ensures s.Valid() && s.weights == weights && s.modifiers == modifiers
    ensures s.initial == s.modifiers
  {
    State(weights, modifiers, modifiers)
  }

  /** The engine's default modifiers: 1 for every transition. */
  function Ones(n: nat): (r: seq<real>)
    ensures |r| == n && forall i :: 0 <= i < n ==> r[i] == 1.0
  {
    seq(n, _ => 1.0)
  }

  /** `reset`: restore the initial modifiers, keep the weights. */
  function Reset(s: State): (r: State)
    requires s.Valid()
    ensures r.Valid() && r.modifiers == s.initial
    ensures r.weights == s.weights && r.initial == s.initial
  {
    s.(modifiers := s.initial)
  }

  /** `self._modifiers[t] = v`: only the modifier of transition `i` changes. */
  function SetModifier(s: State, i: nat, v: real): (r: State)
    requires s.Valid() && i < s.Size()
    ensures r.Valid() && r.weights == s.weights && r.initial == s.initial
    ensures r.modifiers[i] == v
    ensures forall j :: 0 <= j < |s.modifiers| && j != i ==> r.modifiers[j] == s.modifiers[j]
  {
    s.(modifiers := s.modifiers[i := v])
  }

  /** The modifier of a transition that is switched on (1) or off (0). */
  function Flag(b: bool): real
  {
    if b then 1.0 else 0.0
  }

  /** `self._modifiers[t] = 1 if enabled else 0`: the on/off rule every page state uses. */
  function Enable(s: State, i: nat, enabled: bool): (r: State)
    requires s.Valid() && i < s.Size()
    ensures r.Valid() && r.weights == s.weights && r.initial == s.initial
    ensures r.modifiers[i] == (if enabled then 1.0 else 0.0)
    ensures forall j :: 0 <= j < |s.modifiers| && j != i ==> r.modifiers[j] == s.modifiers[j]
  {
    SetModifier(s, i, Flag(enabled))
  }

  /**
   * The engine samples transition `i` only with a positive probability, i.e. a positive
   * product of base weight and modifier; a modifier of 0 disables a transition.
   */
  predicate Selectable(s: State, i: nat)
    requires s.Valid()
  {
    i < s.Size() && s.weights[i] * s.modifiers[i] > 0.0
  }

  /** `b ** k` for a natural exponent. */
  function Pow(b: real, k: nat): real
  {
    if k == 0 then 1.0 else b * Pow(b, k - 1)
  }

  /** A non-negative base gives a non-negative power. */
  lemma {:induction false} PowNonNegative(b: real, k: nat)
    requires b >= 0.0
    ensures Pow(b, k) >= 0.0
  {
    if k > 0 {
      PowNonNegative(b, k - 1);
    }
  }

  /** A base of at least 1 gives a power of at least 1. */
  lemma {:induction false} PowAtLeastOne(b: real, k: nat)
    requires b >= 1.0
    ensures Pow(b, k) >= 1.0
  {
    if k > 0 {
      PowAtLeastOne(b, k - 1);
    }
  }

  /** Scaling a non-negative value by a factor of at least 1 does not lower it. */
  lemma ScaleAtLeast(m: real, f: real)
    requires m >= 0.0 && f >= 1.0
    ensures m * f >= m
  {
    assert m * f - m == m * (f - 1.0);
  }

  /** A base in (0, 1] gives a power in (0, 1]. */
  lemma {:induction false} PowInUnit(b: real, k: nat)
    requires 0.0 < b <= 1.0
    ensures 0.0 < Pow(b, k) <= 1.0
  {
    if k > 0 {
      PowInUnit(b, k - 1);
      var p := Pow(b, k - 1);
      assert b * p <= 1.0 * p;
      assert b * p > 0.0;
    }
  }

  /** Every power of 1 is 1. */
  lemma {:induction false} PowOfOne(k: nat)
    ensures Pow(1.0, k) == 1.0
  {
    if k > 0 {
      PowOfOne(k - 1);
    }
  }

  /** The sum of a weight list. */
  function Sum(s: seq<real>): real
  {
    if |s| == 0 then 0.0 else s[0] + Sum(s[1..])
  }
}

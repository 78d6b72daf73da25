/**
 * The login page and the logout choice, which the horde and ownCloud users define with the
 * same logic (horde_user/states.py and owncloud_user/states.py).
 */
module CommonPages {
  import opened Wrappers
  import opened Engine

  /** Position of the successful login transition. */
  const Login: nat := 0
  /** Position of the failed login transition. */
  const FailLogin: nat := 1

  datatype LoginPage = LoginPage(base: Engine.State, failDecrease: real)
  {
    predicate Valid() { base.Valid() && base.Size() == 2 }
  }

  /** A login page failing with base probability `failWeight`: weights `[1 - f, f]`, unit modifiers. */
  function NewLoginPage(failWeight: real, failDecrease: real): (p: LoginPage)
    ensures p.Valid() && p.failDecrease == failDecrease
    ensures p.base.weights[Login] + p.base.weights[FailLogin] == 1.0
    ensures p.base.weights[FailLogin] == failWeight
    ensures p.base.modifiers == p.base.initial == [1.0, 1.0]
  {
    LoginPage(Make([1.0 - failWeight, failWeight], Ones(2)), failDecrease)
  }

  /** `adapt_after`: a failed login scales the fail modifier down; a successful one resets. */
  function LoginAdaptAfter(p: LoginPage, selected: nat): (r: LoginPage)
    requires p.Valid() && selected < 2
    ensures r.Valid() && r.failDecrease == p.failDecrease
    ensures r.base.weights == p.base.weights && r.base.initial == p.base.initial
    ensures selected == FailLogin ==>
              r.base.modifiers[FailLogin] == p.base.modifiers[FailLogin] * p.failDecrease
              && r.base.modifiers[Login] == p.base.modifiers[Login]
    ensures selected == Login ==> r.base.modifiers == p.base.initial
  {
    if selected == FailLogin then
      p.(base := SetModifier(p.base, FailLogin, p.base.modifiers[FailLogin] * p.failDecrease))
    else
      p.(base := Reset(p.base))
  }

  /** The login page after seeing each selection of `sels` in turn. */
  function LoginRun(p: LoginPage, sels: seq<nat>): (r: LoginPage)
    requires p.Valid() && forall k :: 0 <= k < |sels| ==> sels[k] < 2
    ensures r.Valid() && r.failDecrease == p.failDecrease && r.base.initial == p.base.initial
    decreases |sels|
  {
    if |sels| == 0 then p else LoginRun(LoginAdaptAfter(p, sels[0]), sels[1..])
  }

  /** After k failed logins in a row the fail modifier has been scaled by `fail_decrease_factor^k`. */
  lemma {:induction false} FailuresDecay(p: LoginPage, k: nat)
    requires p.Valid()
    ensures LoginRun(p, seq(k, _ => FailLogin)).base.modifiers[FailLogin]
              == p.base.modifiers[FailLogin] * Pow(p.failDecrease, k)
    ensures LoginRun(p, seq(k, _ => FailLogin)).base.modifiers[Login] == p.base.modifiers[Login]
    decreases k
  {
    if k > 0 {
      var sels := seq(k, _ => FailLogin);
      var q := LoginAdaptAfter(p, FailLogin);
      assert sels[1..] == seq(k - 1, _ => FailLogin);
      FailuresDecay(q, k - 1);
      var m, d, pw := p.base.modifiers[FailLogin], p.failDecrease, Pow(p.failDecrease, k - 1);
      assert LoginRun(p, sels) == LoginRun(q, sels[1..]);
      assert (m * d) * pw == m * (d * pw);
    }
  }

  /** A successful login, after any history, leaves the initial modifiers. */
  lemma {:induction false} LoginRestores(p: LoginPage, sels: seq<nat>)
    requires p.Valid() && forall k :: 0 <= k < |sels| ==> sels[k] < 2
    requires |sels| > 0 && sels[|sels| - 1] == Login
    ensures LoginRun(p, sels).base.modifiers == p.base.initial
    decreases |sels|
  {
    if |sels| > 1 {
      LoginRestores(LoginAdaptAfter(p, sels[0]), sels[1..]);
    }
  }

  /** The logout choice: log out, or keep the session open in the background. */
  datatype LogoutChoice = LogoutChoice(logout: Transition, background: Transition, weights: seq<real>)

  /**
   * A logout choice that logs out with probability `p`; the background noop, named
   * `backgroundName`, leads to the same state as the logout transition.
   */
  function NewLogoutChoice(logout: Transition, p: real, backgroundName: string): (c: LogoutChoice)
    ensures c.logout == logout && c.background.name == backgroundName
    ensures c.background.target == logout.target
    ensures |c.weights| == 2 && c.weights[0] == p && c.weights[0] + c.weights[1] == 1.0
  {
    LogoutChoice(logout, Transition(backgroundName, logout.target), [p, 1.0 - p])
  }
}

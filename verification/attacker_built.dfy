/**
 * The machine the attacker's factory builds (aecid_attacker/sm.py): its states and names, the
 * timing of the wait choice, and how the escalation phase ends the attack.
 */
module AttackerBuilt {
  import opened Wrappers
  import opened Engine
  import opened AttackPhase
  import opened AttackerConfig
  import opened AttackerTimes
  import opened AttackerMachine
  import opened AttackerGraph

  /** The states carry the listed names, and only "end" is final. */
  lemma StatesNamed(cfg: AttackConfig, escalateTime: int)
    ensures var ss := States(cfg, escalateTime, ListenReverseShellT, VpnPause);
            && (forall i :: 0 <= i < 14 ==> ss[i].name == StateNames[i])
            && (forall i :: 0 <= i < 14 ==> (ss[i].kind.Final? <==> ss[i].name == "end"))
  {
    var ss := States(cfg, escalateTime, ListenReverseShellT, VpnPause);
    forall i | 0 <= i < 14
      ensures ss[i].name == StateNames[i] && (ss[i].kind.Final? <==> ss[i].name == "end")
    {
      assert ss[i] == StateAt(cfg, escalateTime, ListenReverseShellT, VpnPause, i);
    }
  }

  /**
   * The intended build succeeds for every configuration: it starts at "initial", lists the
   * fourteen states under their names, every transition leads to one of them, "end" is
   * its only final state, and the wait choice escalates through the reverse-shell listener
   * and otherwise pauses the VPN to crack passwords.
   */
  lemma {:induction false} BuildResolves(cfg: AttackConfig, now: int)
    ensures Build(cfg, now).Success?
    ensures var m := Build(cfg, now).value;
            && m.initialState == "initial" == m.states[0].name
            && |m.states| == |StateNames|
            && (forall i :: 0 <= i < |m.states| ==> m.states[i].name == StateNames[i])
            && (forall i :: 0 <= i < |m.states| ==> Resolves(m.states[i]))
            && (forall i :: 0 <= i < |m.states| ==> (m.states[i].kind.Final? <==> m.states[i].name == "end"))
            && m.states[5].kind.TimeChoice? && m.states[5].transitions == [ListenReverseShellT, VpnPause]
  {
    BuildBinds(cfg, now);
    var e := StartTimes(cfg.attackStart, cfg.escalateStart, now).1;
    StatesResolve(cfg, e);
    StatesNamed(cfg, e);
  }

  /**
   * In the built machine the wait choice escalates iff the escalation time has come, and with
   * the default times that is at once.
   */
  lemma WaitChoiceTiming(cfg: AttackConfig, now: int, at: int)
    ensures Build(cfg, now).Success?
    ensures var m := Build(cfg, now).value;
            && m.states[5].kind == TimeChoice(StartTimes(cfg.attackStart, cfg.escalateStart, now).1)
            && (WaitChoice(at, m.states[5].kind.escalateTime) == ListenReverseShell <==> at >= m.states[5].kind.escalateTime)
            && m.startTime == StartTimes(cfg.attackStart, cfg.escalateStart, now).0
    ensures cfg.attackStart == DefaultAttackStart && cfg.escalateStart == DefaultEscalateStart ==>
              WaitChoice(now, Build(cfg, now).value.states[5].kind.escalateTime) == ListenReverseShell
  {
    BuildBinds(cfg, now);
  }

  /**
   * Once the escalation phase's steps are all drawn, it leaves through the VPN disconnect into
   * the final state; with the default commands that happens after exactly five steps.
   */
  lemma {:induction false} EscalationEnds(cfg: AttackConfig, now: int, choices: seq<nat>)
    requires cfg.escalateCommands == DefaultEscalateCommands
    ensures Build(cfg, now).Success? && Build(cfg, now).value.states[12].kind.AttackKind?
    ensures var p := Build(cfg, now).value.states[12].kind.phase;
            CountAll(p.pool) == 5
            && (Feasible(p.pool, choices) && |choices| == 5 ==>
                  Next(p.(pool := Remaining(p.pool, choices)), 0).1 == Some(VpnDisconnect))
  {
    EscalatedState(cfg, now);
    var p := Build(cfg, now).value.states[12].kind.phase;
    assert p == NewPhase("escalated", ToSteps(DefaultEscalateCommands), Some(VpnDisconnect));
    DefaultEscalateTree("escalated");
    assert CountAll(p.pool) == 5;
    if Feasible(p.pool, choices) && |choices| == 5 {
      RunDrains(p, choices);
    }
  }

  /** The built machine's thirteenth state is the escalation phase over the configured commands. */
  lemma EscalatedState(cfg: AttackConfig, now: int)
    ensures Build(cfg, now).Success?
    ensures Build(cfg, now).value.states[12] == PhaseState("escalated", ToSteps(cfg.escalateCommands), VpnDisconnect)
  {
    BuildBinds(cfg, now);
    var e := StartTimes(cfg.attackStart, cfg.escalateStart, now).1;
    assert States(cfg, e, ListenReverseShellT, VpnPause)[12] == StateAt(cfg, e, ListenReverseShellT, VpnPause, 12);
  }
}

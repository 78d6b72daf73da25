/**
 * The attacker's state graph is closed (aecid_attacker/sm.py): every transition of every
 * state the factory lists leads to a state of the machine.
 */
module AttackerGraph {
  import opened Wrappers
  import opened Engine
  import opened AttackPhase
  import opened AttackerConfig
  import opened AttackerMachine

  /** Every transition of the state leads to a state of the machine. */
  predicate Resolves(s: StateDef)
  {
    forall k :: 0 <= k < |s.transitions| ==> Leads(s.transitions[k])
  }

  /** The transition leads to a state of the machine. */
  predicate Leads(t: Transition)
  {
    t.target.Some? && t.target.value in StateNames
  }

  /** A phase's transitions lead back to the phase or on to the next phase's target. */
  lemma PhaseResolves(name: string, steps: seq<Step>, next: Transition)
    requires name in StateNames && next.target.Some? && next.target.value in StateNames
    ensures Resolves(PhaseState(name, steps, next))
  {
    NewPhaseTransitions(name, steps, Some(next));
    var p := NewPhase(name, steps, Some(next));
    var ts := PhaseTransitions(p);
    assert ts == [next] + FlattenAll(p.pool);
    forall k | 0 < k < |ts|
      ensures Leads(ts[k])
    {
      assert ts[k] in FlattenAll(p.pool);
    }
  }

  /** A sequential state resolves when its one transition leads to the `k`-th listed state. */
  lemma SeqResolves(name: string, t: Transition, k: nat)
    requires k < |StateNames| && t.target == Some(StateNames[k])
    ensures Resolves(Seq(name, t))
  {
  }

  /** The connection states and the first cracking state resolve. */
  lemma FrontResolves(cfg: AttackConfig, escalateTime: int, i: nat)
    requires i < 7 && !(2 <= i <= 5)
    ensures Resolves(States(cfg, escalateTime, ListenReverseShellT, VpnPause)[i])
  {
    if i == 0 { SeqResolves("initial", VpnConnect, 1); }
    else if i == 1 { SeqResolves("vpn_connected", TracerouteInternet, 2); }
    else { SeqResolves("cracking_passwords", WaitUntilEscalate, 7); }
  }

  /** Both branches of the wait choice resolve. */
  lemma WaitResolves(cfg: AttackConfig, escalateTime: int)
    ensures Resolves(States(cfg, escalateTime, ListenReverseShellT, VpnPause)[5])
  {
    assert ListenReverseShellT.target == Some(StateNames[9]);
    assert VpnPause.target == Some(StateNames[6]);
  }

  /** The three recon phases resolve. */
  lemma ReconResolves(cfg: AttackConfig, escalateTime: int, i: nat)
    requires 2 <= i <= 4
    ensures Resolves(States(cfg, escalateTime, ListenReverseShellT, VpnPause)[i])
  {
    if i == 2 { ReconNetworksResolves(cfg, escalateTime); }
    else if i == 3 { ReconWordpressResolves(cfg, escalateTime); }
    else { ReconHostResolves(cfg, escalateTime); }
  }

  lemma ReconNetworksResolves(cfg: AttackConfig, escalateTime: int)
    ensures Resolves(States(cfg, escalateTime, ListenReverseShellT, VpnPause)[2])
  {
    var ss := States(cfg, escalateTime, ListenReverseShellT, VpnPause);
    assert ss[2] == PhaseState("recon_networks", [DnsScan, DmzScan], ReconNetworksFinish);
    PhaseResolves("recon_networks", [DnsScan, DmzScan], ReconNetworksFinish);
  }

  lemma ReconWordpressResolves(cfg: AttackConfig, escalateTime: int)
    ensures Resolves(States(cfg, escalateTime, ListenReverseShellT, VpnPause)[3])
  {
    var ss := States(cfg, escalateTime, ListenReverseShellT, VpnPause);
    assert ss[3] == PhaseState("recon_wordpress", WordpressSteps, UploadRceShell);
    PhaseResolves("recon_wordpress", WordpressSteps, UploadRceShell);
  }

  lemma ReconHostResolves(cfg: AttackConfig, escalateTime: int)
    ensures Resolves(States(cfg, escalateTime, ListenReverseShellT, VpnPause)[4])
  {
    var ss := States(cfg, escalateTime, ListenReverseShellT, VpnPause);
    assert ss[4] == PhaseState("recon_host", ToSteps(cfg.webShellCommands), ReconHostFinish);
    PhaseResolves("recon_host", ToSteps(cfg.webShellCommands), ReconHostFinish);
  }

  /** The last seven states resolve: the cracking wait, the reverse shell, escalation and the end. */
  lemma BackResolves(cfg: AttackConfig, escalateTime: int, i: nat)
    requires 7 <= i < 14
    ensures Resolves(States(cfg, escalateTime, ListenReverseShellT, VpnPause)[i])
  {
    if i == 7 { SeqResolves("cracked_passwords", VpnReconnect, 8); }
    else if i == 8 { SeqResolves("vpn_reconnected", ListenReverseShellT, 9); }
    else if i == 9 { SeqResolves("reverse_shell_listening", OpenReverseShell, 10); }
    else if i == 10 { SeqResolves("opening_reverse_shell", WaitReverseShell, 11); }
    else if i == 11 { SeqResolves("reverse_shell", LoginUser, 12); }
    else if i == 12 { PhaseResolves("escalated", ToSteps(cfg.escalateCommands), VpnDisconnect); }
  }

  /** Every transition of every state leads to a state of the machine. */
  lemma StatesResolve(cfg: AttackConfig, escalateTime: int)
    ensures forall i :: 0 <= i < 14 ==> Resolves(States(cfg, escalateTime, ListenReverseShellT, VpnPause)[i])
  {
    forall i | 0 <= i < 14
      ensures Resolves(States(cfg, escalateTime, ListenReverseShellT, VpnPause)[i])
    {
      if 2 <= i <= 4 { ReconResolves(cfg, escalateTime, i); }
      else if i == 5 { WaitResolves(cfg, escalateTime); }
      else if i < 7 { FrontResolves(cfg, escalateTime, i); }
      else { BackResolves(cfg, escalateTime, i); }
    }
  }
}

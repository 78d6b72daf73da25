/**
 * The attacker's state machine (aecid_attacker/sm.py): the fourteen states from the VPN
 * connection through the recon phases, the wait for the escalation time, the password
 * cracking and the reverse shell up to the final VPN disconnect. Transition functions are
 * represented by their names and targets only; the start times are in `AttackerTimes`.
 *
 * The factory passes the VPN pause to `WaitChoice` under the keyword `vpn_disconnect`, which
 * `WaitChoice` does not accept; `BuildAsWritten` models that call, `Build` the intended one.
 */
module AttackerMachine {
  import opened Wrappers
  import opened Engine
  import opened AttackPhase
  import opened AttackerConfig
  import opened AttackerTimes

  // ---------------------------------------------------------------- transitions

  const VpnConnect: Transition := Transition("vpn_connect", Some("vpn_connected"))
  const TracerouteInternet: Transition := Transition("traceroute_internet", Some("recon_networks"))
  const ReconNetworksFinish: Transition := Transition("recon_networks_finish", Some("recon_wordpress"))
  const UploadRceShell: Transition := Transition("upload_rce_shell", Some("recon_host"))
  const ReconHostFinish: Transition := Transition("recon_host_finish", Some("wait_escalate_choice"))
  const VpnPause: Transition := Transition("vpn_disconnect", Some("cracking_passwords"))
  const WaitUntilEscalate: Transition := Transition("wait_until_escalate", Some("cracked_passwords"))
  const VpnReconnect: Transition := Transition("vpn_connect", Some("vpn_reconnected"))
  const ListenReverseShellT: Transition := Transition("reverse_shell_listen", Some("reverse_shell_listening"))
  const OpenReverseShell: Transition := Transition("open_reverse_shell", Some("opening_reverse_shell"))
  const WaitReverseShell: Transition := Transition("wait_reverse_shell", Some("reverse_shell"))
  const LoginUser: Transition := Transition("login_user", Some("escalated"))
  const VpnDisconnect: Transition := Transition("vpn_disconnect", Some("end"))

  /** The keyword the factory passes the VPN pause under, and the one `WaitChoice` declares for it. */
  const PauseKeywordAsWritten: string := "vpn_disconnect"
  const PauseKeyword: string := "decide_cracking_method"

  // ---------------------------------------------------------------- states and the machine

  /** How a state picks its next transition. */
  datatype Kind = Sequential | AttackKind(phase: Phase) | TimeChoice(escalateTime: int) | Final

  datatype StateDef = StateDef(name: string, kind: Kind, transitions: seq<Transition>)

  datatype Machine = Machine(initialState: string, states: seq<StateDef>, startTime: int)

  /** The configuration parts that shape the machine: the times and the two command trees. */
  datatype AttackConfig = AttackConfig(
    attackStart: TimeSpec, escalateStart: TimeSpec, webShellCommands: seq<Cmd>, escalateCommands: seq<Cmd>)

  /** The state names, in the order the factory lists the states. */
  const StateNames: seq<string> := [
    "initial", "vpn_connected", "recon_networks", "recon_wordpress", "recon_host",
    "wait_escalate_choice", "cracking_passwords", "cracked_passwords", "vpn_reconnected",
    "reverse_shell_listening", "opening_reverse_shell", "reverse_shell", "escalated", "end"
  ]

  function Seq(name: string, t: Transition): StateDef
  {
    StateDef(name, Sequential, [t])
  }

  function PhaseState(name: string, steps: seq<Step>, next: Transition): StateDef
  {
    var p := NewPhase(name, steps, Some(next));
    StateDef(name, AttackKind(p), PhaseTransitions(p))
  }

  /** The WordPress recon steps: a wpscan and a dirb scan, independent of each other. */
  const WordpressSteps: seq<Step> := [Step("wpscan", []), Step("dirb_scan", [])]

  /** The fourteen states, given the bound branches of the wait choice. */
  function States(cfg: AttackConfig, escalateTime: int, listen: Transition, decide: Transition): (ss: seq<StateDef>)
    ensures |ss| == 14
  {
    seq(14, i => StateAt(cfg, escalateTime, listen, decide, i))
  }

  /** The `i`-th state the factory lists; from the thirteenth on, the final state. */
  function StateAt(cfg: AttackConfig, escalateTime: int, listen: Transition, decide: Transition, i: int): StateDef
  {
    if i == 0 then Seq("initial", VpnConnect)
    else if i == 1 then Seq("vpn_connected", TracerouteInternet)
    else if i == 2 then PhaseState("recon_networks", [DnsScan, DmzScan], ReconNetworksFinish)
    else if i == 3 then PhaseState("recon_wordpress", WordpressSteps, UploadRceShell)
    else if i == 4 then PhaseState("recon_host", ToSteps(cfg.webShellCommands), ReconHostFinish)
    else if i == 5 then StateDef("wait_escalate_choice", TimeChoice(escalateTime), [listen, decide])
    else if i == 6 then Seq("cracking_passwords", WaitUntilEscalate)
    else if i == 7 then Seq("cracked_passwords", VpnReconnect)
    else if i == 8 then Seq("vpn_reconnected", ListenReverseShellT)
    else if i == 9 then Seq("reverse_shell_listening", OpenReverseShell)
    else if i == 10 then Seq("opening_reverse_shell", WaitReverseShell)
    else if i == 11 then Seq("reverse_shell", LoginUser)
    else if i == 12 then PhaseState("escalated", ToSteps(cfg.escalateCommands), VpnDisconnect)
    else StateDef("end", Final, [])
  }

  /** `StatemachineFactory.build` with the VPN pause passed to the wait choice under `pauseKeyword`. */
  function BuildWith(cfg: AttackConfig, now: int, pauseKeyword: string): (r: Result<Machine>)
    ensures r.Failure? <==> BindWaitChoice([("listen_reverse_shell", ListenReverseShellT), (pauseKeyword, VpnPause)]).Failure?
  {
    var times := StartTimes(cfg.attackStart, cfg.escalateStart, now);
    match BindWaitChoice([("listen_reverse_shell", ListenReverseShellT), (pauseKeyword, VpnPause)])
    case Failure(e) => Failure(e)
    case Success(branches) => Success(Machine("initial", States(cfg, times.1, branches.0, branches.1), times.0))
  }

  /** The factory as written: building raises for every configuration and every start time. */
  function BuildAsWritten(cfg: AttackConfig, now: int): (r: Result<Machine>)
  {
    BuildWith(cfg, now, PauseKeywordAsWritten)
  }

  /** The factory as intended. */
  function Build(cfg: AttackConfig, now: int): (r: Result<Machine>)
  {
    BuildWith(cfg, now, PauseKeyword)
  }

  /** `vpn_disconnect` is not a parameter of `WaitChoice`, so the written call is a type error. */
  lemma AsWrittenBuildFails(cfg: AttackConfig, now: int)
    ensures BuildAsWritten(cfg, now).Failure?
  {
    var args := [("listen_reverse_shell", ListenReverseShellT), (PauseKeywordAsWritten, VpnPause)];
    assert args[1].0 !in WaitChoiceParams;
  }

  /** The intended call binds the escalation branch to the listener and the cracking branch to the VPN pause. */
  lemma BuildBinds(cfg: AttackConfig, now: int)
    ensures Build(cfg, now) == Success(Machine(
              "initial",
              States(cfg, StartTimes(cfg.attackStart, cfg.escalateStart, now).1, ListenReverseShellT, VpnPause),
              StartTimes(cfg.attackStart, cfg.escalateStart, now).0))
  {
    var args := [("listen_reverse_shell", ListenReverseShellT), (PauseKeyword, VpnPause)];
    assert AllDeclared(args) by { assert args[1..][1..] == []; }
    assert Lookup(args, "listen_reverse_shell") == Some(ListenReverseShellT);
    assert Lookup(args, "decide_cracking_method") == Some(VpnPause);
  }

  /** State names are pairwise distinct, so a target names exactly one state. */
  lemma StateNamesDistinct()
    ensures forall i, j :: 0 <= i < j < |StateNames| ==> StateNames[i] != StateNames[j]
  {
  }
}

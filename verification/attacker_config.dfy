/**
 * The attacker's configuration (aecid_attacker/config.py): the admin-ajax path check, the
 * start-time check, the time defaults, and the command trees run through the web shell and
 * the reverse shell. Times are whole seconds; a point in time and a duration are told apart
 * as Python's `datetime` and `timedelta` are.
 */
module AttackerConfig {
  import opened Wrappers
  import opened AttackPhase

  // ---------------------------------------------------------------- admin ajax path

  const DefaultAdminAjax: string := "wp-admin/admin-ajax.php"

  /** `no_slash`: the admin-ajax path is accepted iff it is non-empty and does not start with `/`. */
  function NoSlash(v: string): (r: Result<string>)
    ensures r.Success? <==> |v| > 0 && v[0] != '/'
    ensures r.Success? ==> r.value == v
  {
    if |v| > 0 && v[0] != '/' then Success(v) else Failure("The ajax endpoint path must not start with a /")
  }

  /** The default path passes its own check. */
  lemma DefaultAdminAjaxValid()
    ensures NoSlash(DefaultAdminAjax) == Success(DefaultAdminAjax)
  {
  }

  // ---------------------------------------------------------------- start times

  /** `Union[timedelta, datetime]`: a duration relative to some base, or a point in time. */
  datatype TimeSpec = Delta(seconds: int) | Instant(at: int)

  /** `_check_delta`: a negative duration is rejected; points in time and other durations pass unchanged. */
  function CheckDelta(v: TimeSpec): (r: Result<TimeSpec>)
    ensures r.Failure? <==> v.Delta? && v.seconds < 0
    ensures r.Success? ==> r.value == v
  {
    if v.Delta? && v.seconds < 0 then Failure("The relative time must be positive") else Success(v)
  }

  /** Both start times default to a zero duration: start now, escalate right at the attack start. */
  const DefaultAttackStart: TimeSpec := Delta(0)
  const DefaultEscalateStart: TimeSpec := Delta(0)

  lemma DefaultStartsValid()
    ensures CheckDelta(DefaultAttackStart) == Success(Delta(0))
    ensures CheckDelta(DefaultEscalateStart) == Success(Delta(0))
  {
  }

  // ---------------------------------------------------------------- command trees

  /** `WebShellCMD` / `HostCMD`: a named command (its argv or text) and the commands it unlocks. */
  datatype Cmd = Cmd(name: string, cmd: seq<string>, children: seq<Cmd>)

  /** `web_shell_cmd_to_step` / `host_cmd_to_step`: a command tree as an attack-step tree of the same names. */
  function ToStep(c: Cmd): Step
    decreases c
  {
    Step(c.name, seq(|c.children|, i requires 0 <= i < |c.children| => ToStep(c.children[i])))
  }

  /** A list of command trees as steps. */
  function ToSteps(cs: seq<Cmd>): (r: seq<Step>)
    ensures |r| == |cs|
  {
    seq(|cs|, i requires 0 <= i < |cs| => ToStep(cs[i]))
  }

  /** The names of a forest of commands in pre-order. */
  function CmdNamesAll(cs: seq<Cmd>): seq<string>
    decreases cs
  {
    if |cs| == 0 then [] else [cs[0].name] + CmdNamesAll(cs[0].children) + CmdNamesAll(cs[1..])
  }

  /** Turning commands into steps keeps every name at its pre-order position. */
  lemma {:induction false} ToStepsNames(cs: seq<Cmd>)
    ensures StepNamesAll(ToSteps(cs)) == CmdNamesAll(cs)
    decreases cs
  {
    if |cs| > 0 {
      var ss := ToSteps(cs);
      assert ss[0].children == ToSteps(cs[0].children);
      assert ss[1..] == ToSteps(cs[1..]);
      ToStepsNames(cs[0].children);
      ToStepsNames(cs[1..]);
    }
  }

  /** The commands run through the web shell by default: five independent ones. */
  const DefaultWebShellCommands: seq<Cmd> := [
    Cmd("check_user_id", ["id"], []),
    Cmd("check_network_config", ["ip", "addr"], []),
    Cmd("check_pwd", ["pwd"], []),
    Cmd("list_web_dir", ["ls", "-laR", "/var/www"], []),
    Cmd("read_passwd", ["cat", "/etc/passwd"], [])
  ]

  /** The commands run through the reverse shell by default; reading the shadow file and root's home follow the sudo check. */
  const DefaultEscalateCommands: seq<Cmd> := [
    Cmd("check_ssh_keys", ["ls -la ~/.ssh"], []),
    Cmd("check_groups", ["groups"], []),
    Cmd("check_sudo", ["sudo -l"], [
      Cmd("read_shadow", ["sudo cat /etc/shadow"], []),
      Cmd("list_root", ["sudo ls -laR /root/"], [])
    ])
  ]

  /**
   * The default escalation phase has three roots and five steps, so it hands over after
   * exactly five draws; the two sudo reads are the only steps that wait for another.
   */
  lemma DefaultEscalateTree(name: string)
    ensures |DefaultEscalateCommands| == 3 && |DefaultEscalateCommands[2].children| == 2
    ensures CmdNamesAll(DefaultEscalateCommands) ==
              ["check_ssh_keys", "check_groups", "check_sudo", "read_shadow", "list_root"]
    ensures CountAll(NewPhase(name, ToSteps(DefaultEscalateCommands), None).pool) == 5
  {
    var cs := DefaultEscalateCommands;
    assert CmdNamesAll(cs[2].children) == ["read_shadow", "list_root"] by {
      assert cs[2].children[1..] == [Cmd("list_root", ["sudo ls -laR /root/"], [])];
    }
    assert CmdNamesAll(cs[2..]) == ["check_sudo", "read_shadow", "list_root"] by {
      assert cs[2..][1..] == [];
    }
    assert cs[1..][1..] == cs[2..];
    assert CmdNamesAll(cs[1..]) == ["check_groups", "check_sudo", "read_shadow", "list_root"];
    ToStepsNames(cs);
    ConvertFlatten(ToSteps(cs), name);
    FlattenCount(NewPhase(name, ToSteps(cs), None).pool);
  }
}

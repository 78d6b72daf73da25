/**
 * The ssh user's actions (ssh_user/actions.py) as far as they decide something: picking a
 * host, the ssh command line, the line sent for a (sudo) command, when a command counts as
 * finished, and the wrong password typed at a sudo prompt. The shell process itself is not
 * modelled; what it shows (the prompt match) is a parameter.
 */
module SshActions {
  import opened Wrappers
  import opened SshConfig
  import opened Strings

  /** The part of the ssh user context the actions read and write. */
  datatype SshContext = SshContext(host: Option<Host>, shell: bool, commands: seq<Command>, output: seq<string>)

  /**
   * `SelectHost`: with no host weights nothing changes; otherwise the drawn host id
   * (`ids[sampled]`) becomes the current host and the command list is cleared. A drawn id
   * without a host fails as the dictionary lookup does.
   */
  function SelectHost(ids: seq<string>, configs: map<string, Host>, sampled: nat, ctx: SshContext): (r: Result<SshContext>)
    requires |ids| > 0 ==> sampled < |ids|
    ensures |ids| == 0 ==> r == Success(ctx)
    ensures |ids| > 0 ==> (r.Success? <==> ids[sampled] in configs)
    ensures |ids| > 0 && r.Success? ==>
              r.value.host == Some(configs[ids[sampled]]) && r.value.commands == [] && r.value.output == ctx.output
  {
    if |ids| == 0 then Success(ctx)
    else if ids[sampled] !in configs then Failure("unknown host id")
    else Success(ctx.(host := Some(configs[ids[sampled]]), commands := []))
  }

  /**
   * The value of the `ProxyCommand` option for a host with a proxy: ssh to the proxy forwarding
   * to the target. Key paths go through `Path.absolute()`, which resolves them against the
   * working directory; that resolution is the parameter `absolute`.
   */
  function ProxyCommand(h: Host, absolute: string -> string): string
    requires h.proxyHost.Some? && h.proxySshKey.Some? && h.proxyUsername.Some?
  {
    "'ssh -o StrictHostKeyChecking=" + (if h.proxyVerifyHost then "yes" else "no")
    + " -i " + absolute(h.proxySshKey.value) + " -W %h:%p -p " + IntToString(h.proxyPort) + " "
    + h.proxyUsername.value + "@" + h.proxyHost.value + "'"
  }

  /** The option groups of the ssh command line, in order. */
  function ProxyArgs(h: Host, absolute: string -> string): seq<string>
    requires h.proxyHost.Some? ==> h.proxySshKey.Some? && h.proxyUsername.Some?
  {
    if h.proxyHost.Some? then ["-o", "ProxyCommand=" + ProxyCommand(h, absolute)] else []
  }

  function PasswordArgs(h: Host): seq<string>
  {
    if h.forcePassword then ["-o", "PreferredAuthentications=password"] else []
  }

  function KeyArgs(h: Host, absolute: string -> string): seq<string>
  {
    if h.sshKey.Some? then ["-o", "IdentitiesOnly=yes", "-i", absolute(h.sshKey.value)] else []
  }

  function VerifyArgs(h: Host): seq<string>
  {
    ["-o", if h.verifyHost then "StrictHostKeyChecking=accept-new" else "StrictHostKeyChecking=no"]
  }

  /**
   * The argument list `connect` joins into the ssh command line. A proxy host without a proxy
   * key or user fails the source's assertions. Both key paths are passed through `absolute`.
   */
  function ConnectArgs(h: Host, absolute: string -> string): (r: Result<seq<string>>)
    ensures r.Failure? <==> h.proxyHost.Some? && (h.proxySshKey.None? || h.proxyUsername.None?)
    ensures r.Success? ==>
              |r.value| >= 6 && r.value[0] == "ssh"
              && r.value[|r.value| - 3..] == ["-p", IntToString(h.port), h.username + "@" + h.host]
  {
    if h.proxyHost.Some? && (h.proxySshKey.None? || h.proxyUsername.None?) then Failure("proxy without key or user")
    else
      Success(["ssh"] + ProxyArgs(h, absolute) + PasswordArgs(h) + KeyArgs(h, absolute) + VerifyArgs(h)
              + ["-p", IntToString(h.port), h.username + "@" + h.host])
  }

  /** What an ssh command line of this shape asks for: the reading side of `ConnectArgs`. */
  datatype ConnectSummary = ConnectSummary(
    proxied: bool, forcePassword: bool, identity: Option<string>, verifyHost: bool, port: string, destination: string)

  predicate StartsWith(s: string, prefix: string)
  {
    |prefix| <= |s| && s[..|prefix|] == prefix
  }

  /** Reads `-o` option groups until the closing `-p <port> <destination>`. */
  function ParseOptions(a: seq<string>, acc: ConnectSummary): Option<ConnectSummary>
    decreases |a|
  {
    if |a| == 3 && a[0] == "-p" then Some(acc.(port := a[1], destination := a[2]))
    else if |a| >= 2 && a[0] == "-o" then
      if a[1] == "PreferredAuthentications=password" then ParseOptions(a[2..], acc.(forcePassword := true))
      else if a[1] == "IdentitiesOnly=yes" && |a| >= 4 && a[2] == "-i" then ParseOptions(a[4..], acc.(identity := Some(a[3])))
      else if a[1] == "StrictHostKeyChecking=accept-new" then ParseOptions(a[2..], acc.(verifyHost := true))
      else if a[1] == "StrictHostKeyChecking=no" then ParseOptions(a[2..], acc.(verifyHost := false))
      else if StartsWith(a[1], "ProxyCommand=") then ParseOptions(a[2..], acc.(proxied := true))
      else None
    else None
  }

  /** Reads an ssh command line back into the settings it encodes. */
  function ParseConnect(a: seq<string>): Option<ConnectSummary>
  {
    if |a| > 0 && a[0] == "ssh" then ParseOptions(a[1..], ConnectSummary(false, false, None, false, "", ""))
    else None
  }

  lemma {:induction false} ParseProxy(h: Host, absolute: string -> string, rest: seq<string>, acc: ConnectSummary)
    requires h.proxyHost.Some? ==> h.proxySshKey.Some? && h.proxyUsername.Some?
    requires |rest| >= 3
    ensures ParseOptions(ProxyArgs(h, absolute) + rest, acc)
            == ParseOptions(rest, if h.proxyHost.Some? then acc.(proxied := true) else acc)
  {
    if h.proxyHost.Some? {
      var opt := "ProxyCommand=" + ProxyCommand(h, absolute);
      assert opt[..|"ProxyCommand="|] == "ProxyCommand=";
      assert opt[2] == 'o';
      assert opt[0] == 'P';
      assert (ProxyArgs(h, absolute) + rest)[2..] == rest;
    } else {
      assert ProxyArgs(h, absolute) + rest == rest;
    }
  }

  lemma {:induction false} ParsePassword(h: Host, rest: seq<string>, acc: ConnectSummary)
    requires |rest| >= 3
    ensures ParseOptions(PasswordArgs(h) + rest, acc)
            == ParseOptions(rest, if h.forcePassword then acc.(forcePassword := true) else acc)
  {
    if h.forcePassword {
      assert (PasswordArgs(h) + rest)[2..] == rest;
    } else {
      assert PasswordArgs(h) + rest == rest;
    }
  }

  lemma {:induction false} ParseKey(h: Host, absolute: string -> string, rest: seq<string>, acc: ConnectSummary)
    requires |rest| >= 3
    ensures ParseOptions(KeyArgs(h, absolute) + rest, acc)
            == ParseOptions(rest, if h.sshKey.Some? then acc.(identity := Some(absolute(h.sshKey.value))) else acc)
  {
    if h.sshKey.Some? {
      assert (KeyArgs(h, absolute) + rest)[4..] == rest;
    } else {
      assert KeyArgs(h, absolute) + rest == rest;
    }
  }

  lemma ParseVerify(h: Host, acc: ConnectSummary)
    ensures ParseOptions(VerifyArgs(h) + ["-p", IntToString(h.port), h.username + "@" + h.host], acc)
            == Some(acc.(verifyHost := h.verifyHost, port := IntToString(h.port), destination := h.username + "@" + h.host))
  {
    var tail := ["-p", IntToString(h.port), h.username + "@" + h.host];
    assert (VerifyArgs(h) + tail)[2..] == tail;
  }

  /**
   * The command line states exactly the host's settings: a proxy command iff a proxy host is
   * set, password authentication iff `force_password`, the absolute identity file iff
   * `ssh_key`, host key checking as accept-new iff `verify_host`, then the port and
   * `username@host`.
   */
  lemma ConnectArgsRoundTrip(h: Host, absolute: string -> string)
    requires ConnectArgs(h, absolute).Success?
    ensures ParseConnect(ConnectArgs(h, absolute).value)
            == Some(ConnectSummary(h.proxyHost.Some?, h.forcePassword,
                                   if h.sshKey.Some? then Some(absolute(h.sshKey.value)) else None,
                                   h.verifyHost, IntToString(h.port), h.username + "@" + h.host))
  {
    var a := ConnectArgs(h, absolute).value;
    var p, w, k, v := ProxyArgs(h, absolute), PasswordArgs(h), KeyArgs(h, absolute), VerifyArgs(h);
    var tail := ["-p", IntToString(h.port), h.username + "@" + h.host];
    var s0 := ConnectSummary(false, false, None, false, "", "");
    var s1 := s0.(proxied := h.proxyHost.Some?);
    var s2 := s1.(forcePassword := h.forcePassword);
    var s3 := s2.(identity := if h.sshKey.Some? then Some(absolute(h.sshKey.value)) else None);
    assert a[1..] == p + (w + (k + (v + tail)));
    ParseProxy(h, absolute, w + (k + (v + tail)), s0);
    ParsePassword(h, k + (v + tail), s1);
    ParseKey(h, absolute, v + tail, s2);
    ParseVerify(h, s3);
  }

  /** The line sent for a command: sudo commands are prefixed with `sudo` or `sudo -u <user>`. */
  function CommandLine(c: Command): (line: string)
    ensures !c.sudo ==> line == c.cmd
    ensures c.sudo && c.sudoUser.None? ==> line == "sudo " + c.cmd
    ensures c.sudo && c.sudoUser.Some? ==> line == "sudo -u " + c.sudoUser.value + " " + c.cmd
  {
    if !c.sudo then c.cmd
    else if c.sudoUser.Some? then "sudo -u " + c.sudoUser.value + " " + c.cmd
    else "sudo " + c.cmd
  }

  /** The command text always ends the sent line, so the prefix never changes the command. */
  lemma CommandLineEndsWithCommand(c: Command)
    ensures var line := CommandLine(c); |line| >= |c.cmd| && line[|line| - |c.cmd|..] == c.cmd
  {
  }

  /** `_finish_command`: exactly the first command is dropped from the chain. */
  function FinishCommand(ctx: SshContext): (r: SshContext)
    requires |ctx.commands| > 0
    ensures [ctx.commands[0]] + r.commands == ctx.commands
    ensures r.host == ctx.host && r.output == ctx.output
  {
    ctx.(commands := ctx.commands[1..])
  }

  /**
   * `select_chain`: on a host, the drawn command chain (`host.commands[sampled]`) replaces the
   * command list and the output is cleared; without a host nothing changes. A host without
   * chains fails as the random choice over an empty list does.
   */
  function SelectChain(ctx: SshContext, sampled: nat): (r: Result<SshContext>)
    requires ctx.host.Some? && |ctx.host.value.commands| > 0 ==> sampled < |ctx.host.value.commands|
    ensures ctx.host.None? ==> r == Success(ctx)
    ensures ctx.host.Some? ==> (r.Failure? <==> |ctx.host.value.commands| == 0)
    ensures r.Success? && ctx.host.Some? ==>
              r.value.commands in ctx.host.value.commands && r.value.output == []
              && r.value.host == ctx.host && r.value.shell == ctx.shell
  {
    if ctx.host.None? then Success(ctx)
    else if |ctx.host.value.commands| == 0 then Failure("host has no command chains")
    else Success(ctx.(commands := ctx.host.value.commands[sampled], output := []))
  }

  /**
   * `execute_command` without a shell's I/O: the output is replaced by the new `output`, and the
   * command is finished unless it is a sudo command whose output ends at a password prompt.
   * Without a shell or without a command nothing happens.
   */
  function ExecuteCommand(ctx: SshContext, output: seq<string>, isPrompt: string -> bool): (r: SshContext)
    requires |output| > 0
    ensures !ctx.shell || |ctx.commands| == 0 ==> r == ctx
    ensures ctx.shell && |ctx.commands| > 0 ==>
              r.output == output && r.host == ctx.host && r.shell
              && (if ctx.commands[0].sudo && isPrompt(output[|output| - 1])
                  then r.commands == ctx.commands
                  else r.commands == ctx.commands[1..])
  {
    if !ctx.shell || |ctx.commands| == 0 then ctx
    else
      var c := ctx.commands[0];
      var after := ctx.(output := output);
      if !c.sudo || !isPrompt(output[|output| - 1]) then FinishCommand(after) else after
  }

  /**
   * `enter_sudo_password`: at a sudo prompt the password is sent, the command's further output
   * is appended and the command is finished; without the prompt (or without shell, host or
   * output) nothing changes. `more` is what the shell prints after the password.
   */
  function EnterSudoPassword(ctx: SshContext, more: seq<string>, isPrompt: string -> bool): (r: SshContext)
    requires |ctx.commands| > 0
    ensures var ready := ctx.shell && ctx.host.Some? && |ctx.output| > 0 && isPrompt(ctx.output[|ctx.output| - 1]);
            (ready ==> r.output == ctx.output + more && r.commands == ctx.commands[1..] && r.host == ctx.host)
            && (!ready ==> r == ctx)
  {
    if ctx.shell && ctx.host.Some? && |ctx.output| > 0 && isPrompt(ctx.output[|ctx.output| - 1]) then
      FinishCommand(ctx.(output := ctx.output + more))
    else ctx
  }

  /** The context after executing once per element of `outputs`, each being the shell's output of one step. */
  function ExecuteAll(ctx: SshContext, outputs: seq<seq<string>>, isPrompt: string -> bool): (r: SshContext)
    requires forall i :: 0 <= i < |outputs| ==> |outputs[i]| > 0
    ensures r.host == ctx.host && r.shell == ctx.shell
    decreases |outputs|
  {
    if |outputs| == 0 then ctx else ExecuteAll(ExecuteCommand(ctx, outputs[0], isPrompt), outputs[1..], isPrompt)
  }

  /** A chain without sudo commands is worked off one command per step: after `n` steps `n` commands are gone. */
  lemma {:induction false} PlainChainDrains(ctx: SshContext, outputs: seq<seq<string>>, isPrompt: string -> bool)
    requires forall i :: 0 <= i < |outputs| ==> |outputs[i]| > 0
    requires ctx.shell && forall i :: 0 <= i < |ctx.commands| ==> !ctx.commands[i].sudo
    requires |outputs| <= |ctx.commands|
    ensures ExecuteAll(ctx, outputs, isPrompt).commands == ctx.commands[|outputs|..]
    decreases |outputs|
  {
    if |outputs| > 0 {
      var next := ExecuteCommand(ctx, outputs[0], isPrompt);
      assert next.commands == ctx.commands[1..];
      PlainChainDrains(next, outputs[1..], isPrompt);
      assert ctx.commands[1..][|outputs| - 1..] == ctx.commands[|outputs|..];
    }
  }

  /**
   * `fail_sudo`'s password: candidates are drawn until one differs from the actual password.
   * The draws are the parameter; `None` means every candidate drawn matched.
   */
  method WrongPassword(candidates: seq<string>, actual: string) returns (r: Option<string>)
    ensures r.Some? ==> r.value != actual && r.value in candidates
    ensures r.Some? ==> exists i :: 0 <= i < |candidates| && candidates[i] == r.value
                                    && forall j :: 0 <= j < i ==> candidates[j] == actual
    ensures r.None? <==> forall j :: 0 <= j < |candidates| ==> candidates[j] == actual
  {
    var i := 0;
    while i < |candidates|
      invariant 0 <= i <= |candidates|
      invariant forall j :: 0 <= j < i ==> candidates[j] == actual
    {
      if candidates[i] != actual {
        return Some(candidates[i]);
      }
      i := i + 1;
    }
    return None;
  }
}

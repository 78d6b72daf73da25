/**
 * The ssh user's configuration (ssh_user/config.py): command chains as configured and as
 * executed, the host configurations, the validators of the user configuration, and
 * `get_hosts`, which merges every host configuration with the global defaults.
 */
module SshConfig {
  import opened Wrappers

  /** A compiled regular expression, represented by its source text. */
  type Pattern = string

  /** The named idle lengths of the idle configuration (`Idle`); their durations are configured elsewhere. */
  datatype Idle = Big | Medium | Small | Tiny

  /** `idle_after` when a command does not set it. */
  const DefaultIdleAfter: Option<Idle> := Some(Tiny)

  /** `CommandConfig`: a command as configured; `expect` may be left unset. */
  datatype CommandConfig = CommandConfig(
    cmd: string, chdir: Option<string>, sudo: bool, sudoUser: Option<string>, idleAfter: Option<Idle>,
    waitFor: Option<Pattern>)

  /** `Command`: a command ready to run, always with the pattern to wait for. */
  datatype Command = Command(
    cmd: string, chdir: Option<string>, sudo: bool, sudoUser: Option<string>, idleAfter: Option<Idle>, waitFor: Pattern)

  /** An element of a configured chain: a bare command string or a command configuration. */
  datatype ChainItem = Plain(text: string) | Configured(config: CommandConfig)

  /** `CommandChain`: a single string, a single configuration, or a list of either. */
  datatype CommandChain = Single(text: string) | SingleConfig(config: CommandConfig) | Chain(items: seq<ChainItem>)

  /** A bare command string run with the default fields, waiting for `prompt`. */
  function PlainCommand(cmd: string, prompt: Pattern): (c: Command)
    ensures c.cmd == cmd && c.waitFor == prompt && !c.sudo && c.chdir.None? && c.sudoUser.None?
    ensures c.idleAfter == Some(Tiny)
  {
    Command(cmd, None, false, None, DefaultIdleAfter, prompt)
  }

  /** `convert_command`: every field is copied; `expect` falls back to the host prompt when unset. */
  function ConvertCommand(c: CommandConfig, prompt: Pattern): (r: Command)
    ensures r.cmd == c.cmd && r.chdir == c.chdir && r.sudo == c.sudo && r.sudoUser == c.sudoUser
    ensures r.idleAfter == c.idleAfter
    ensures c.waitFor.Some? ==> r.waitFor == c.waitFor.value
    ensures c.waitFor.None? ==> r.waitFor == prompt
  {
    Command(c.cmd, c.chdir, c.sudo, c.sudoUser, c.idleAfter, if c.waitFor.Some? then c.waitFor.value else prompt)
  }

  /** The configuration a command came from, with its pattern made explicit. */
  function AsConfig(c: Command): CommandConfig
  {
    CommandConfig(c.cmd, c.chdir, c.sudo, c.sudoUser, c.idleAfter, Some(c.waitFor))
  }

  /** Converting is idempotent: a converted command no longer depends on the prompt. */
  lemma ConvertIdempotent(c: CommandConfig, prompt: Pattern, other: Pattern)
    ensures ConvertCommand(AsConfig(ConvertCommand(c, prompt)), other) == ConvertCommand(c, prompt)
  {
  }

  function ConvertItem(i: ChainItem, prompt: Pattern): Command
  {
    match i
    case Plain(text) => PlainCommand(text, prompt)
    case Configured(config) => ConvertCommand(config, prompt)
  }

  /**
   * `convert_chain`: a string becomes one command waiting for the host prompt, a
   * configuration one converted command, and a list is converted element by element.
   */
  function ConvertChain(chain: CommandChain, prompt: Pattern): (r: seq<Command>)
    ensures chain.Single? ==> r == [PlainCommand(chain.text, prompt)]
    ensures chain.SingleConfig? ==> r == [ConvertCommand(chain.config, prompt)]
    ensures chain.Chain? ==>
              |r| == |chain.items| && forall k :: 0 <= k < |r| ==> r[k] == ConvertItem(chain.items[k], prompt)
  {
    match chain
    case Single(text) => [PlainCommand(text, prompt)]
    case SingleConfig(config) => [ConvertCommand(config, prompt)]
    case Chain(items) => seq(|items|, k requires 0 <= k < |items| => ConvertItem(items[k], prompt))
  }

  /** No element of the chain sets its own pattern. */
  predicate NoOwnExpect(chain: CommandChain)
  {
    match chain
    case Single(_) => true
    case SingleConfig(config) => config.waitFor.None?
    case Chain(items) => forall k :: 0 <= k < |items| ==> items[k].Plain? || items[k].config.waitFor.None?
  }

  /** A chain whose commands set no pattern of their own waits for the host prompt after every command. */
  lemma ChainWaitsForPrompt(chain: CommandChain, prompt: Pattern)
    requires NoOwnExpect(chain)
    ensures forall c :: c in ConvertChain(chain, prompt) ==> c.waitFor == prompt
  {
    var r := ConvertChain(chain, prompt);
    forall c | c in r ensures c.waitFor == prompt {
      var k :| 0 <= k < |r| && r[k] == c;
      if chain.Chain? {
        assert r[k] == ConvertItem(chain.items[k], prompt);
      }
    }
  }

  /** `[convert_chain(chain, host_cfg) for chain in chains]`. */
  function ConvertChains(chains: seq<CommandChain>, prompt: Pattern): (r: seq<seq<Command>>)
    ensures |r| == |chains| && forall k :: 0 <= k < |r| ==> r[k] == ConvertChain(chains[k], prompt)
  {
    seq(|chains|, k requires 0 <= k < |chains| => ConvertChain(chains[k], prompt))
  }

  /** `HostConfig`: one host as configured; unset values fall back to the global ones. */
  datatype HostConfig = HostConfig(
    host: string,
    port: int,
    username: Option<string>,
    password: Option<string>,
    maxSudoTries: int,
    sshKey: Option<string>,
    forcePassword: bool,
    verifyHost: Option<bool>,
    proxyHost: Option<string>,
    proxyPort: int,
    proxyUsername: Option<string>,
    proxySshKey: Option<string>,
    proxyVerifyHost: bool,
    shellPrompt: Pattern,
    commands: seq<CommandChain>,
    includeDefaultCommands: bool,
    useDefaultProxy: bool,
    useDefaultKey: bool)

  /** `Host`: a host with every default applied; username and password are always present. */
  datatype Host = Host(
    host: string,
    port: int,
    username: string,
    password: string,
    maxSudoTries: int,
    sshKey: Option<string>,
    forcePassword: bool,
    verifyHost: bool,
    proxyHost: Option<string>,
    proxyPort: int,
    proxyUsername: Option<string>,
    proxySshKey: Option<string>,
    proxyVerifyHost: bool,
    shellPrompt: Pattern,
    commands: seq<seq<Command>>)

  /** `SSHUserConfig`: the global defaults, the host weights and the host configurations. */
  datatype SshUserConfig = SshUserConfig(
    username: Option<string>,
    password: Option<string>,
    sshKey: Option<string>,
    verifyHost: bool,
    proxyHost: Option<string>,
    proxyPort: int,
    proxyUsername: Option<string>,
    proxySshKey: Option<string>,
    proxyVerifyHost: bool,
    commands: seq<CommandChain>,
    hosts: map<string, real>,
    hostConfigs: map<string, HostConfig>,
    maxDaily: int)

  /** A string value Python treats as true: present and non-empty. */
  predicate Truthy(v: Option<string>)
  {
    v.Some? && v.value != ""
  }

  /** Python's `a or b` on optional strings: `a` unless it is missing or empty. */
  function OrElse(a: Option<string>, b: Option<string>): (r: Option<string>)
    ensures Truthy(a) ==> r == a
    ensures !Truthy(a) ==> r == b
  {
    if Truthy(a) then a else b
  }

  /** Python's `a or b` on ports: `a` unless it is 0. */
  function PortOr(a: int, b: int): (r: int)
    ensures a != 0 ==> r == a
    ensures a == 0 ==> r == b
  {
    if a != 0 then a else b
  }

  /** The validators of `host_configs`. */
  predicate HostHasConfig(c: SshUserConfig)
  {
    forall h :: h in c.hosts ==> h in c.hostConfigs
  }

  predicate HostsHaveCredentials(c: SshUserConfig)
  {
    forall h :: h in c.hostConfigs ==>
      (c.hostConfigs[h].username.Some? || c.username.Some?)
      && (c.hostConfigs[h].password.Some? || c.password.Some?)
  }

  /** A host that uses a proxy (its own or the global one) has a proxy user and key to use. */
  predicate ProxyComplete(c: SshUserConfig, cfg: HostConfig)
  {
    (cfg.proxyHost.Some? || (c.proxyHost.Some? && cfg.useDefaultProxy)) ==>
      (cfg.proxyUsername.Some? || (cfg.useDefaultProxy && c.proxyUsername.Some?))
      && (cfg.proxySshKey.Some? || (cfg.useDefaultProxy && c.proxySshKey.Some?))
  }

  /** Every validator of `SSHUserConfig.host_configs` accepts the configuration. */
  predicate ValidConfig(c: SshUserConfig)
  {
    HostHasConfig(c) && HostsHaveCredentials(c)
    && forall h :: h in c.hostConfigs ==> ProxyComplete(c, c.hostConfigs[h])
  }

  /**
   * The `get_hosts` loop body for one host: fails where the source raises (a missing
   * username or password, or one whose `or` fallback ends at `None`), otherwise applies the
   * defaults field by field.
   */
  function ToHost(c: SshUserConfig, cfg: HostConfig): (r: Result<Host>)
    ensures r.Success? <==> (Truthy(cfg.username) || c.username.Some?) && (Truthy(cfg.password) || c.password.Some?)
    ensures r.Success? ==>
              var h := r.value;
              Some(h.username) == OrElse(cfg.username, c.username)
              && Some(h.password) == OrElse(cfg.password, c.password)
              && h.verifyHost == (if cfg.verifyHost.Some? then cfg.verifyHost.value else c.verifyHost)
              && h.commands == ConvertChains(cfg.commands, cfg.shellPrompt)
                               + (if cfg.includeDefaultCommands then ConvertChains(c.commands, cfg.shellPrompt) else [])
              && h.sshKey == (if cfg.useDefaultKey && cfg.sshKey.None? then c.sshKey else cfg.sshKey)
              && h.proxyHost == (if cfg.useDefaultProxy then OrElse(cfg.proxyHost, c.proxyHost) else cfg.proxyHost)
              && h.proxyPort == (if cfg.useDefaultProxy then PortOr(cfg.proxyPort, c.proxyPort) else cfg.proxyPort)
              && h.proxyUsername == (if cfg.useDefaultProxy then OrElse(cfg.proxyUsername, c.proxyUsername) else cfg.proxyUsername)
              && h.proxySshKey == (if cfg.useDefaultProxy then OrElse(cfg.proxySshKey, c.proxySshKey) else cfg.proxySshKey)
              && h.host == cfg.host && h.port == cfg.port && h.maxSudoTries == cfg.maxSudoTries
              && h.forcePassword == cfg.forcePassword && h.proxyVerifyHost == cfg.proxyVerifyHost
              && h.shellPrompt == cfg.shellPrompt
  {
    if c.username.None? && cfg.username.None? then Failure("no username")
    else if c.password.None? && cfg.password.None? then Failure("no password")
    else
      var username := OrElse(cfg.username, c.username);
      var password := OrElse(cfg.password, c.password);
      if username.None? then Failure("username is None")
      else if password.None? then Failure("password is None")
      else
        var commands := ConvertChains(cfg.commands, cfg.shellPrompt)
                        + (if cfg.includeDefaultCommands then ConvertChains(c.commands, cfg.shellPrompt) else []);
        var proxied := cfg.useDefaultProxy;
        Success(Host(
          cfg.host, cfg.port, username.value, password.value, cfg.maxSudoTries,
          if cfg.useDefaultKey && cfg.sshKey.None? then c.sshKey else cfg.sshKey,
          cfg.forcePassword,
          if cfg.verifyHost.Some? then cfg.verifyHost.value else c.verifyHost,
          if proxied then OrElse(cfg.proxyHost, c.proxyHost) else cfg.proxyHost,
          if proxied then PortOr(cfg.proxyPort, c.proxyPort) else cfg.proxyPort,
          if proxied then OrElse(cfg.proxyUsername, c.proxyUsername) else cfg.proxyUsername,
          if proxied then OrElse(cfg.proxySshKey, c.proxySshKey) else cfg.proxySshKey,
          cfg.proxyVerifyHost, cfg.shellPrompt, commands))
  }

  /** `get_hosts`: one host per configured host id, or the failure of the first host that cannot be built. */
  function GetHosts(c: SshUserConfig): (r: Result<map<string, Host>>)
    ensures r.Failure? <==> exists h :: h in c.hostConfigs && ToHost(c, c.hostConfigs[h]).Failure?
    ensures r.Success? ==> r.value.Keys == c.hostConfigs.Keys
    ensures r.Success? ==> forall h :: h in r.value ==> ToHost(c, c.hostConfigs[h]) == Success(r.value[h])
  {
    if exists h :: h in c.hostConfigs && ToHost(c, c.hostConfigs[h]).Failure? then
      Failure("invalid host configuration")
    else
      Success(map h | h in c.hostConfigs :: ToHost(c, c.hostConfigs[h]).value)
  }

  /** No host sets an empty username or password (an empty string falls through to the global value). */
  predicate NoEmptyCredentials(c: SshUserConfig)
  {
    forall h :: h in c.hostConfigs ==> c.hostConfigs[h].username != Some("") && c.hostConfigs[h].password != Some("")
  }

  /** A validated configuration without empty host credentials always yields its hosts. */
  lemma ValidConfigYieldsHosts(c: SshUserConfig)
    requires ValidConfig(c) && NoEmptyCredentials(c)
    ensures GetHosts(c).Success?
  {
    forall h | h in c.hostConfigs ensures ToHost(c, c.hostConfigs[h]).Success? {
    }
  }

  /**
   * The validators do not reject an empty host username when there is no global one, but
   * `get_hosts` then falls back to the missing global value and cannot build the host.
   */
  lemma EmptyUsernamePassesValidation(cfg: HostConfig)
    requires cfg.username == Some("") && cfg.password == Some("secret")
    requires cfg.proxyHost.None?
    ensures var c := SshUserConfig(None, None, None, true, None, 22, None, None, true, [], map[], map["h" := cfg], 10);
            ValidConfig(c) && GetHosts(c).Failure?
  {
    var c := SshUserConfig(None, None, None, true, None, 22, None, None, true, [], map[], map["h" := cfg], 10);
    assert ToHost(c, c.hostConfigs["h"]).Failure?;
  }

  /** Proxy fields that are set are not empty. */
  predicate NoEmptyProxyFields(c: SshUserConfig)
  {
    forall h :: h in c.hostConfigs ==>
      c.hostConfigs[h].proxyUsername != Some("") && c.hostConfigs[h].proxySshKey != Some("")
  }

  /** In every host built from a validated configuration, a proxy host comes with a proxy user and key. */
  lemma ValidProxyHostsComplete(c: SshUserConfig, h: string)
    requires ValidConfig(c) && NoEmptyProxyFields(c)
    requires GetHosts(c).Success? && h in GetHosts(c).value
    ensures var host := GetHosts(c).value[h];
            host.proxyHost.Some? ==> host.proxyUsername.Some? && host.proxySshKey.Some?
  {
    var cfg := c.hostConfigs[h];
    assert ProxyComplete(c, cfg);
  }
}

/**
 * The beta user's state machine factory (beta_user/sm.py): which activities are built, how
 * their entry transitions are routed through a VPN connection, and the activity selection
 * state it starts in. The activity builders themselves are wiring: each contributes one entry
 * transition, given here as a parameter.
 */
module BetaMachine {
  import opened Wrappers
  import opened BetaStates

  /** A state name, optionally qualified by an activity's name prefix. */
  datatype QName = QName(prefix: Option<string>, name: string)

  /** A transition: its name, the action it runs (by name) and its target state. */
  datatype Trans = Trans(name: string, action: string, target: QName)

  /** The `vpn_connected` state added in front of a wrapped activity: it runs the original entry transition. */
  datatype Connected = Connected(name: QName, transition: Trans)

  /** The VPN settings: whether it is used, whether every activity goes through it, and per-activity opt-ins. */
  datatype VpnConfig = VpnConfig(enabled: bool, config: Option<string>, eager: bool, flags: PerActivity<bool>)

  /**
   * What the factory reads from its configuration: the selection weights, each activity's user
   * configuration (present or not, with its daily maximum), and whether its states
   * configuration is present.
   */
  datatype BetaConfig = BetaConfig(
    weights: PerActivity<real>, idleWeight: real, userMax: PerActivity<Option<int>>, statesPresent: PerActivity<bool>)

  /** The name prefix of an activity's states. */
  function PrefixOf(a: Activity): string
  {
    match a
    case Horde => "horde"
    case Owncloud => "owncloud"
    case SshUser => "ssh_user"
    case WebBrowser => "web_browser"
    case WpEditor => "wp_editor"
    case Wpdiscuz => "wpdiscuz"
  }

  lemma PrefixInjective(a: Activity, b: Activity)
    ensures PrefixOf(a) == PrefixOf(b) <==> a == b
  {
    if a != b {
      assert PrefixOf(a) != PrefixOf(b) by {
        match a
        case Horde =>
        case Owncloud =>
        case SshUser => assert PrefixOf(a)[1] == 's';
        case WebBrowser =>
        case WpEditor => assert PrefixOf(a)[2] == '_';
        case Wpdiscuz => assert PrefixOf(a)[2] == 'd';
      }
    }
  }

  /** A per-activity table built from a function of the activity. */
  function Tabulate<T>(f: Activity -> T): (r: PerActivity<T>)
    ensures forall a :: r.Get(a) == f(a)
  {
    PerActivity(f(Horde), f(Owncloud), f(SshUser), f(WebBrowser), f(WpEditor), f(Wpdiscuz))
  }

  // ---------------------------------------------------------------- building the activities

  /** An activity is built iff its weight is positive and both its user and its states configuration are present. */
  predicate Loaded(cfg: BetaConfig, a: Activity)
  {
    cfg.weights.Get(a) > 0.0 && cfg.userMax.Get(a).Some? && cfg.statesPresent.Get(a)
  }

  /** The entry transitions after building: the builder's transition for a built activity, none otherwise. */
  function Entries(cfg: BetaConfig, gotos: PerActivity<Trans>): (r: PerActivity<Option<Trans>>)
    ensures forall a :: r.Get(a).Some? <==> Loaded(cfg, a)
    ensures forall a :: r.Get(a).Some? ==> r.Get(a).value == gotos.Get(a)
  {
    Tabulate(a => if Loaded(cfg, a) then Some(gotos.Get(a)) else None)
  }

  /** The names of the loaded activities, in the order they are built. */
  function LoadedList(cfg: BetaConfig, order: seq<Activity>): (r: seq<Activity>)
    ensures forall a :: a in r <==> a in order && Loaded(cfg, a)
  {
    if |order| == 0 then []
    else
      var rest := LoadedList(cfg, order[1..]);
      assert forall a :: a in order <==> a == order[0] || a in order[1..] by {
        assert order == [order[0]] + order[1..];
      }
      if Loaded(cfg, order[0]) then [order[0]] + rest else rest
  }

  /** The loaded list follows the building order horde, owncloud, ssh_user, web_browser, wp_editor, wpdiscuz. */
  lemma {:induction false} LoadedListOrdered(cfg: BetaConfig, order: seq<Activity>)
    requires forall i, j :: 0 <= i < j < |order| ==> Rank(order[i]) < Rank(order[j])
    ensures forall i, j :: 0 <= i < j < |LoadedList(cfg, order)| ==>
              Rank(LoadedList(cfg, order)[i]) < Rank(LoadedList(cfg, order)[j])
    decreases |order|
  {
    if |order| > 0 {
      LoadedListOrdered(cfg, order[1..]);
      forall a | a in LoadedList(cfg, order[1..])
        ensures Rank(order[0]) < Rank(a)
      {
        var k :| 0 <= k < |order[1..]| && order[1..][k] == a;
        assert order[k + 1] == a;
      }
    }
  }

  // ---------------------------------------------------------------- the VPN

  /** The action all VPN wrappers share: one connect function for the configured VPN. */
  function VpnAction(config: string): string
  {
    "vpn_connect(" + config + ")"
  }

  /**
   * `__pre_vpn`: a `vpn_connected` state under the activity's prefix that runs the original
   * entry transition, and a `vpn_connect` transition into it.
   */
  function PreVpn(a: Activity, original: Trans, config: string): (r: (Connected, Trans))
    ensures r.0.transition == original && r.0.name == QName(Some(PrefixOf(a)), "vpn_connected")
    ensures r.1.target == r.0.name && r.1.name == "vpn_connect" && r.1.action == VpnAction(config)
  {
    var connected := Connected(QName(Some(PrefixOf(a)), "vpn_connected"), original);
    (connected, Trans("vpn_connect", VpnAction(config), connected.name))
  }

  /** Whether an activity's entry goes through the VPN: every activity when eager, else those that opt in; only built ones. */
  predicate Wraps(vpn: VpnConfig, a: Activity, entries: PerActivity<Option<Trans>>)
  {
    (vpn.eager || vpn.flags.Get(a)) && entries.Get(a).Some?
  }

  /** The added `vpn_connected` states, one per wrapped activity, in building order. */
  function VpnStates(vpn: VpnConfig, config: string, entries: PerActivity<Option<Trans>>, order: seq<Activity>)
    : (r: seq<Connected>)
    ensures |r| <= |order|
  {
    if |order| == 0 then []
    else
      (if Wraps(vpn, order[0], entries) then [PreVpn(order[0], entries.Get(order[0]).value, config).0] else [])
      + VpnStates(vpn, config, entries, order[1..])
  }

  /** `configure_vpn`: wrapped entries are replaced by their `vpn_connect` transitions; the others are kept, absent ones stay absent. */
  function ConfigureVpn(vpn: VpnConfig, entries: PerActivity<Option<Trans>>): (r: Result<(PerActivity<Option<Trans>>, seq<Connected>)>)
    ensures r.Failure? <==> vpn.config.None?
    ensures r.Success? ==> forall a :: r.value.0.Get(a).Some? <==> entries.Get(a).Some?
    ensures r.Success? ==> forall a :: !Wraps(vpn, a, entries) ==> r.value.0.Get(a) == entries.Get(a)
  {
    if vpn.config.None? then Failure("vpn config must be set when the VPN is enabled")
    else
      var config := vpn.config.value;
      Success((
        Tabulate(a => if Wraps(vpn, a, entries) then Some(PreVpn(a, entries.Get(a).value, config).1) else entries.Get(a)),
        VpnStates(vpn, config, entries, Order)))
  }

  /**
   * A wrapped activity's `vpn_connected` state is among the added states exactly when the
   * activity is wrapped, so every wrapped entry targets a state that runs the original entry.
   */
  lemma {:induction false} VpnStateFor(vpn: VpnConfig, config: string, entries: PerActivity<Option<Trans>>,
                                       order: seq<Activity>, a: Activity)
    ensures (exists s :: s in VpnStates(vpn, config, entries, order) && s.name.prefix == Some(PrefixOf(a)))
            <==> Wraps(vpn, a, entries) && a in order
    ensures Wraps(vpn, a, entries) && a in order ==>
              PreVpn(a, entries.Get(a).value, config).0 in VpnStates(vpn, config, entries, order)
    decreases |order|
  {
    if |order| > 0 {
      VpnStateFor(vpn, config, entries, order[1..], a);
      PrefixInjective(order[0], a);
      assert a in order <==> a == order[0] || a in order[1..] by {
        assert order == [order[0]] + order[1..];
      }
      var rs := VpnStates(vpn, config, entries, order);
      var rest := VpnStates(vpn, config, entries, order[1..]);
      if Wraps(vpn, order[0], entries) {
        var head := PreVpn(order[0], entries.Get(order[0]).value, config).0;
        assert rs == [head] + rest;
        assert forall s :: s in rs <==> s == head || s in rest;
      } else {
        assert rs == rest;
      }
    }
  }

  /**
   * With the VPN enabled, an entry goes through a shared VPN connect transition iff it is built
   * and the VPN is eager or the activity opts in; the added state under its prefix then runs
   * the original entry, and absent entries stay absent.
   */
  lemma VpnWrapping(vpn: VpnConfig, entries: PerActivity<Option<Trans>>, a: Activity)
    requires vpn.config.Some?
    ensures var r := ConfigureVpn(vpn, entries).value;
            && (Wraps(vpn, a, entries) ==>
                  && r.0.Get(a).value.target == QName(Some(PrefixOf(a)), "vpn_connected")
                  && r.0.Get(a).value.action == VpnAction(vpn.config.value)
                  && Connected(QName(Some(PrefixOf(a)), "vpn_connected"), entries.Get(a).value) in r.1)
            && (!Wraps(vpn, a, entries) ==> r.0.Get(a) == entries.Get(a))
            && (entries.Get(a).None? ==> r.0.Get(a).None?)
  {
    VpnStateFor(vpn, vpn.config.value, entries, Order, a);
  }

  /** Every wrapped entry runs the same VPN connect action. */
  lemma SharedVpnConnect(vpn: VpnConfig, entries: PerActivity<Option<Trans>>, a: Activity, b: Activity)
    requires vpn.config.Some? && Wraps(vpn, a, entries) && Wraps(vpn, b, entries)
    ensures ConfigureVpn(vpn, entries).value.0.Get(a).value.action == ConfigureVpn(vpn, entries).value.0.Get(b).value.action
  {
  }

  // ---------------------------------------------------------------- the machine

  const InitialState: string := "selecting_activity"

  datatype BetaMachine = BetaMachine(initialState: string, selection: Selection, vpnStates: seq<Connected>, loaded: seq<Activity>)

  /** The entry transitions handed to the selection state: VPN-configured when enabled, passed through otherwise. */
  function RoutedEntries(vpn: VpnConfig, entries: PerActivity<Option<Trans>>): (r: Result<(PerActivity<Option<Trans>>, seq<Connected>)>)
    ensures !vpn.enabled ==> r == Success((entries, []))
    ensures vpn.enabled ==> r == ConfigureVpn(vpn, entries)
  {
    if vpn.enabled then ConfigureVpn(vpn, entries) else Success((entries, []))
  }

  /**
   * `build`: the activities are built, their entries routed, and the selection state created
   * with the activity weights, the idle weight, and each activity's daily maximum when its
   * user configuration exists. It fails only when the VPN is enabled without a VPN config.
   */
  function Build(cfg: BetaConfig, vpn: VpnConfig, gotos: PerActivity<Trans>, today: int): (r: Result<BetaMachine>)
    ensures r.Failure? <==> vpn.enabled && vpn.config.None?
  {
    var entries := Entries(cfg, gotos);
    match RoutedEntries(vpn, entries)
    case Failure(e) => Failure(e)
    case Success((routed, states)) =>
      var present := Tabulate(a => routed.Get(a).Some?);
      Success(BetaMachine(
        InitialState,
        New(present, cfg.weights, cfg.idleWeight, cfg.userMax, today),
        states,
        LoadedList(cfg, Order)))
  }

  /**
   * The selection lists idle first and then exactly the built activities, in building order,
   * with their configured weights, whether or not the VPN is used; its daily maximum for an
   * activity is the configured one when the user configuration exists and 0 otherwise.
   */
  lemma BuildSelection(cfg: BetaConfig, vpn: VpnConfig, gotos: PerActivity<Trans>, today: int, a: Activity)
    requires Build(cfg, vpn, gotos, today).Success?
    ensures var m := Build(cfg, vpn, gotos, today).value;
            && m.initialState == "selecting_activity"
            && m.selection.transitions[0] == Idle && m.selection.base.weights[0] == cfg.idleWeight
            && (Enter(a) in m.selection.transitions <==> Loaded(cfg, a))
            && (a in m.loaded <==> Loaded(cfg, a))
            && m.selection.maxes.Get(a) == (if cfg.userMax.Get(a).Some? then cfg.userMax.Get(a).value else 0)
            && m.selection.counts.Get(a) == 0
  {
  }

  /** Without the VPN the entries are passed through unchanged and no state is added. */
  lemma NoVpnPassThrough(cfg: BetaConfig, vpn: VpnConfig, gotos: PerActivity<Trans>, today: int)
    requires !vpn.enabled
    ensures Build(cfg, vpn, gotos, today).Success?
    ensures Build(cfg, vpn, gotos, today).value.vpnStates == []
  {
  }

  /** The loaded activities are listed in building order. */
  lemma LoadedInOrder(cfg: BetaConfig)
    ensures forall i, j :: 0 <= i < j < |LoadedList(cfg, Order)| ==>
              Rank(LoadedList(cfg, Order)[i]) < Rank(LoadedList(cfg, Order)[j])
  {
    LoadedListOrdered(cfg, Order);
  }
}

/**
 * The attacker's phases (aecid_attacker/states.py). A phase holds a forest of attack steps.
 * At first only the roots are available. Each call of `next` draws one available step,
 * returns its transition and makes its children available. Once nothing is left, the phase
 * hands over to the next phase. The random draw is the `choice` parameter: the position, in
 * the available list, of the step drawn.
 */
module AttackPhase {
  import opened Wrappers
  import opened Engine

  // ---------------------------------------------------------------- steps and their transitions

  /** `AttackStep`: a named action (the action itself is not modelled) and its follow-up steps. */
  datatype Step = Step(name: string, children: seq<Step>)

  /** `AttackStepTransition`: the transition of a converted step and its converted children. */
  datatype StepTransition = StepTransition(transition: Transition, children: seq<StepTransition>)

  /** The pre-order list of all transitions of a forest: each step's own, then its children's. */
  function FlattenAll(ts: seq<StepTransition>): seq<Transition>
    decreases ts
  {
    if |ts| == 0 then [] else [ts[0].transition] + FlattenAll(ts[0].children) + FlattenAll(ts[1..])
  }

  /** `AttackStepTransition.transitions`: the step's own transition, then each child's list in order. */
  function Flatten(t: StepTransition): (r: seq<Transition>)
    ensures |r| > 0 && r[0] == t.transition
  {
    [t.transition] + FlattenAll(t.children)
  }

  /** The number of steps of a forest. */
  function CountAll(ts: seq<StepTransition>): nat
    decreases ts
  {
    if |ts| == 0 then 0 else 1 + CountAll(ts[0].children) + CountAll(ts[1..])
  }

  /** A forest flattens to one transition per step. */
  lemma {:induction false} FlattenCount(ts: seq<StepTransition>)
    ensures |FlattenAll(ts)| == CountAll(ts)
    decreases ts
  {
    if |ts| > 0 {
      FlattenCount(ts[0].children);
      FlattenCount(ts[1..]);
    }
  }

  /** Flattening a forest flattens its trees one after the other. */
  lemma {:induction false} FlattenAllConcat(a: seq<StepTransition>, b: seq<StepTransition>)
    ensures FlattenAll(a + b) == FlattenAll(a) + FlattenAll(b)
    decreases a
  {
    if |a| == 0 {
      assert a + b == b;
    } else {
      assert (a + b)[0] == a[0];
      assert (a + b)[1..] == a[1..] + b;
      FlattenAllConcat(a[1..], b);
    }
  }

  /** A non-empty forest has steps and a forest with steps is non-empty. */
  lemma CountPositive(ts: seq<StepTransition>)
    ensures CountAll(ts) > 0 <==> |ts| > 0
  {
  }

  // ---------------------------------------------------------------- conversion

  /** The names of a forest of steps in pre-order. */
  function StepNamesAll(ss: seq<Step>): seq<string>
    decreases ss
  {
    if |ss| == 0 then [] else [ss[0].name] + StepNamesAll(ss[0].children) + StepNamesAll(ss[1..])
  }

  /** `AttackStep.convert`: the step's transition to `target`, with its children converted alike. */
  function Convert(s: Step, target: string): StepTransition
    decreases s
  {
    StepTransition(Transition(s.name, Some(target)),
                   seq(|s.children|, i requires 0 <= i < |s.children| => Convert(s.children[i], target)))
  }

  /** A list of steps converted one by one. */
  function ConvertAll(ss: seq<Step>, target: string): (r: seq<StepTransition>)
    ensures |r| == |ss|
  {
    seq(|ss|, i requires 0 <= i < |ss| => Convert(ss[i], target))
  }

  /** Transitions named `names`, in order, all leading to `target`. */
  function Targeted(names: seq<string>, target: string): (r: seq<Transition>)
    ensures |r| == |names|
  {
    seq(|names|, i requires 0 <= i < |names| => Transition(names[i], Some(target)))
  }

  /**
   * Conversion keeps the forest's shape: the converted forest flattens to one transition per
   * step, in the same pre-order, each named after its step and leading to `target`.
   */
  lemma {:induction false} ConvertFlatten(ss: seq<Step>, target: string)
    ensures FlattenAll(ConvertAll(ss, target)) == Targeted(StepNamesAll(ss), target)
    decreases ss
  {
    if |ss| > 0 {
      var cs := ConvertAll(ss, target);
      assert cs[0].children == ConvertAll(ss[0].children, target);
      assert cs[1..] == ConvertAll(ss[1..], target);
      ConvertFlatten(ss[0].children, target);
      ConvertFlatten(ss[1..], target);
      var names := StepNamesAll(ss);
      var a, b := StepNamesAll(ss[0].children), StepNamesAll(ss[1..]);
      assert names == [ss[0].name] + a + b;
      assert Targeted(names, target) == [Transition(ss[0].name, Some(target))] + Targeted(a, target) + Targeted(b, target);
    }
  }

  // ---------------------------------------------------------------- the phase

  /** `AttackPhaseState`: the available steps and the transition into the next phase, if any. */
  datatype Phase = Phase(pool: seq<StepTransition>, nextPhase: Option<Transition>)

  /** A phase named `name` over the root steps `steps`: every step transition loops back to the phase. */
  function NewPhase(name: string, steps: seq<Step>, nextPhase: Option<Transition>): (p: Phase)
    ensures |p.pool| == |steps| && p.nextPhase == nextPhase
  {
    Phase(ConvertAll(steps, name), nextPhase)
  }

  /** The phase's transition list: the next-phase transition if present, then every step's, in pre-order. */
  function PhaseTransitions(p: Phase): seq<Transition>
  {
    (if p.nextPhase.Some? then [p.nextPhase.value] else []) + FlattenAll(p.pool)
  }

  /**
   * A new phase lists exactly the next-phase transition and one transition per step, in
   * pre-order, each named after its step and leading back to the phase.
   */
  lemma NewPhaseTransitions(name: string, steps: seq<Step>, nextPhase: Option<Transition>)
    ensures PhaseTransitions(NewPhase(name, steps, nextPhase)) ==
              (if nextPhase.Some? then [nextPhase.value] else []) + Targeted(StepNamesAll(steps), name)
    ensures forall t :: t in FlattenAll(NewPhase(name, steps, nextPhase).pool) ==> t.target == Some(name)
  {
    ConvertFlatten(steps, name);
  }

  /** The available steps once the step at `c` is drawn: it leaves the list and its children join the end. */
  function Pick(pool: seq<StepTransition>, c: nat): (r: seq<StepTransition>)
    requires c < |pool|
    ensures |r| == |pool| - 1 + |pool[c].children|
  {
    pool[..c] + pool[c + 1..] + pool[c].children
  }

  /**
   * Drawing a step removes exactly its own transition from what remains to be run: the
   * remaining transitions plus the drawn one are those of before, and one step fewer is left.
   */
  lemma {:induction false} PickConserves(pool: seq<StepTransition>, c: nat)
    requires c < |pool|
    ensures multiset(FlattenAll(Pick(pool, c))) + multiset{pool[c].transition} == multiset(FlattenAll(pool))
    ensures CountAll(Pick(pool, c)) + 1 == CountAll(pool)
  {
    FlattenAround(pool, c);
    FlattenPick(pool, c);
    FlattenCount(pool);
    FlattenCount(Pick(pool, c));
  }

  /** The flattening of a forest around its tree at `c`. */
  lemma FlattenAround(pool: seq<StepTransition>, c: nat)
    requires c < |pool|
    ensures FlattenAll(pool) ==
              FlattenAll(pool[..c]) + ([pool[c].transition] + FlattenAll(pool[c].children)) + FlattenAll(pool[c + 1..])
  {
    var a, b, t := pool[..c], pool[c + 1..], pool[c];
    SplitAt(pool, c);
    FlattenAllConcat(a, [t] + b);
    FlattenCons(t, b);
    var fa, ft, fb := FlattenAll(a), [t.transition] + FlattenAll(t.children), FlattenAll(b);
    assert fa + (ft + fb) == fa + ft + fb;
  }

  lemma SplitAt<T>(s: seq<T>, c: nat)
    requires c < |s|
    ensures s == s[..c] + ([s[c]] + s[c + 1..])
  {
  }

  lemma FlattenCons(t: StepTransition, b: seq<StepTransition>)
    ensures FlattenAll([t] + b) == [t.transition] + FlattenAll(t.children) + FlattenAll(b)
  {
    assert ([t] + b)[0] == t && ([t] + b)[1..] == b;
  }

  /** The flattening of the forest left after drawing the tree at `c`. */
  lemma FlattenPick(pool: seq<StepTransition>, c: nat)
    requires c < |pool|
    ensures FlattenAll(Pick(pool, c)) == FlattenAll(pool[..c]) + FlattenAll(pool[c + 1..]) + FlattenAll(pool[c].children)
  {
    FlattenAllConcat(pool[..c] + pool[c + 1..], pool[c].children);
    FlattenAllConcat(pool[..c], pool[c + 1..]);
  }

  /**
   * `AttackPhaseState.next`: with steps available, the drawn step's transition; its children
   * become available and it does not. With none left, the next-phase transition (None at the
   * end of the attack).
   */
  function Next(p: Phase, choice: nat): (r: (Phase, Option<Transition>))
    requires |p.pool| > 0 ==> choice < |p.pool|
    ensures |p.pool| == 0 ==> r == (p, p.nextPhase)
    ensures |p.pool| > 0 ==>
              r.1 == Some(p.pool[choice].transition) && r.0.nextPhase == p.nextPhase
              && multiset(FlattenAll(r.0.pool)) + multiset{p.pool[choice].transition} == multiset(FlattenAll(p.pool))
              && CountAll(r.0.pool) + 1 == CountAll(p.pool)
  {
    if |p.pool| > 0 then
      PickConserves(p.pool, choice);
      (p.(pool := Pick(p.pool, choice)), Some(p.pool[choice].transition))
    else (p, p.nextPhase)
  }

  /** Every drawn transition is one the phase lists. */
  lemma NextListed(p: Phase, choice: nat)
    requires |p.pool| > 0 ==> choice < |p.pool|
    requires Next(p, choice).1.Some?
    ensures Next(p, choice).1.value in PhaseTransitions(p)
  {
    if |p.pool| > 0 {
      var t := p.pool[choice].transition;
      assert t in multiset(FlattenAll(p.pool));
    }
  }

  // ---------------------------------------------------------------- runs of the phase

  /** A sequence of draws the phase can make: each names an available step. */
  predicate Feasible(pool: seq<StepTransition>, choices: seq<nat>)
    decreases |choices|
  {
    |choices| > 0 ==>
      choices[0] < |pool| && Feasible(Pick(pool, choices[0]), choices[1..])
  }

  /** The steps drawn, in order. */
  function Drawn(pool: seq<StepTransition>, choices: seq<nat>): (r: seq<StepTransition>)
    requires Feasible(pool, choices)
    ensures |r| == |choices|
    decreases |choices|
  {
    if |choices| == 0 then [] else [pool[choices[0]]] + Drawn(Pick(pool, choices[0]), choices[1..])
  }

  /** The steps still available after the draws. */
  function Remaining(pool: seq<StepTransition>, choices: seq<nat>): seq<StepTransition>
    requires Feasible(pool, choices)
    decreases |choices|
  {
    if |choices| == 0 then pool else Remaining(Pick(pool, choices[0]), choices[1..])
  }

  /** The transitions of a list of steps. */
  function Transitions(rs: seq<StepTransition>): (r: seq<Transition>)
    ensures |r| == |rs| && forall i :: 0 <= i < |rs| ==> r[i] == rs[i].transition
  {
    seq(|rs|, i requires 0 <= i < |rs| => rs[i].transition)
  }

  /**
   * Nothing is lost or invented along a run: the transitions returned so far and those still
   * to run are together exactly the phase's step transitions, and every draw removes one step.
   */
  lemma {:induction false} RunConserves(pool: seq<StepTransition>, choices: seq<nat>)
    requires Feasible(pool, choices)
    ensures multiset(Transitions(Drawn(pool, choices))) + multiset(FlattenAll(Remaining(pool, choices)))
              == multiset(FlattenAll(pool))
    ensures CountAll(Remaining(pool, choices)) + |choices| == CountAll(pool)
    decreases |choices|
  {
    if |choices| > 0 {
      var c := choices[0];
      var next := Pick(pool, c);
      PickConserves(pool, c);
      RunConserves(next, choices[1..]);
      var d := Drawn(next, choices[1..]);
      assert Drawn(pool, choices) == [pool[c]] + d;
      TransitionsCons(pool[c], d);
    }
  }

  lemma TransitionsCons(t: StepTransition, d: seq<StepTransition>)
    ensures Transitions([t] + d) == [t.transition] + Transitions(d)
  {
    assert Transitions([t] + d) == [t.transition] + Transitions(d);
  }

  /** However the draws fall, the phase makes at most as many draws as it has steps. */
  lemma {:induction false} RunBounded(pool: seq<StepTransition>, choices: seq<nat>)
    requires Feasible(pool, choices)
    ensures |choices| <= CountAll(pool)
  {
    RunConserves(pool, choices);
  }

  /**
   * After as many draws as there are steps the pool is empty, every step transition has been
   * returned exactly as often as the phase lists it, and the next call hands over to the next phase.
   */
  lemma {:induction false} RunDrains(p: Phase, choices: seq<nat>)
    requires Feasible(p.pool, choices) && |choices| == CountAll(p.pool)
    ensures Remaining(p.pool, choices) == []
    ensures multiset(Transitions(Drawn(p.pool, choices))) == multiset(FlattenAll(p.pool))
    ensures Next(p.(pool := Remaining(p.pool, choices)), 0).1 == p.nextPhase
  {
    RunConserves(p.pool, choices);
    CountPositive(Remaining(p.pool, choices));
  }

  /** A run can always go on while steps remain: drawing the first available step every time never gets stuck. */
  lemma {:induction false} FirstAlwaysFeasible(pool: seq<StepTransition>, k: nat)
    requires k <= CountAll(pool)
    ensures Feasible(pool, seq(k, _ => 0))
    decreases k
  {
    if k > 0 {
      CountPositive(pool);
      assert CountAll(Pick(pool, 0)) + 1 == CountAll(pool) by {
        PickConserves(pool, 0);
      }
      FirstAlwaysFeasible(Pick(pool, 0), k - 1);
      var zeros: seq<nat> := seq(k, _ => 0);
      assert zeros[0] == 0 && zeros[1..] == seq(k - 1, _ => 0);
    }
  }

  // ---------------------------------------------------------------- order of the draws

  /** All children of a list of steps, in order. */
  function ChildrenOf(rs: seq<StepTransition>): seq<StepTransition>
  {
    if |rs| == 0 then [] else ChildrenOf(rs[..|rs| - 1]) + rs[|rs| - 1].children
  }

  /** A child of the drawn steps is the child of one particular drawn step. */
  lemma {:induction false} ChildOfSome(rs: seq<StepTransition>, x: StepTransition)
    requires x in ChildrenOf(rs)
    ensures exists j :: 0 <= j < |rs| && x in rs[j].children
    decreases |rs|
  {
    var last := rs[|rs| - 1];
    if x in last.children {
      assert x in rs[|rs| - 1].children;
    } else {
      ChildOfSome(rs[..|rs| - 1], x);
      var j :| 0 <= j < |rs| - 1 && x in rs[..|rs| - 1][j].children;
      assert x in rs[j].children;
    }
  }

  /** A step is available only as a root or as a child of a step already drawn. */
  predicate Introduced(x: StepTransition, roots: seq<StepTransition>, done: seq<StepTransition>)
  {
    x in roots || x in ChildrenOf(done)
  }

  /**
   * Children only after their parents: in any run, each drawn step is a root of the phase or
   * a child of a step drawn before it.
   */
  lemma {:induction false} ParentFirst(roots: seq<StepTransition>, done: seq<StepTransition>,
                                       pool: seq<StepTransition>, choices: seq<nat>)
    requires Feasible(pool, choices)
    requires forall x :: x in pool ==> Introduced(x, roots, done)
    ensures forall k :: 0 <= k < |choices| ==>
              Introduced(Drawn(pool, choices)[k], roots, done + Drawn(pool, choices)[..k])
    decreases |choices|
  {
    if |choices| > 0 {
      var c := choices[0];
      var t := pool[c];
      var next := Pick(pool, c);
      var done' := done + [t];
      assert ChildrenOf(done') == ChildrenOf(done) + t.children by {
        assert done'[..|done'| - 1] == done;
      }
      forall x | x in next ensures Introduced(x, roots, done') {
        if x in t.children {
        } else {
          assert x in pool[..c] + pool[c + 1..];
          assert x in pool;
        }
      }
      ParentFirst(roots, done', next, choices[1..]);
      var r := Drawn(pool, choices);
      var r' := Drawn(next, choices[1..]);
      assert r == [t] + r';
      forall k | 0 <= k < |r| ensures Introduced(r[k], roots, done + r[..k]) {
        if k == 0 {
          assert done + r[..0] == done;
          assert r[0] == t && t in pool;
        } else {
          assert r[k] == r'[k - 1];
          assert Introduced(r'[k - 1], roots, done' + r'[..k - 1]);
          assert r[..k] == [t] + r'[..k - 1];
          assert done + r[..k] == done' + r'[..k - 1];
        }
      }
    }
  }

  /** A set of steps that holds the children of each of its members. */
  predicate Closed(s: set<StepTransition>)
  {
    forall x, y :: x in s && y in x.children ==> y in s
  }

  /** In a run that starts from steps of a closed set, every step drawn comes from that set. */
  lemma {:induction false} DrawnWithin(s: set<StepTransition>, pool: seq<StepTransition>, choices: seq<nat>)
    requires Closed(s) && Feasible(pool, choices)
    requires forall x :: x in pool ==> x in s
    ensures forall k :: 0 <= k < |choices| ==> Drawn(pool, choices)[k] in s
    decreases |choices|
  {
    if |choices| > 0 {
      var c := choices[0];
      var next := Pick(pool, c);
      forall x | x in next ensures x in s {
        if x !in pool[c].children {
          assert x in pool[..c] + pool[c + 1..];
          assert x in pool;
        }
      }
      DrawnWithin(s, next, choices[1..]);
      assert Drawn(pool, choices) == [pool[c]] + Drawn(next, choices[1..]);
    }
  }

  // ---------------------------------------------------------------- the concrete phases

  /**
   * `ReconNetworks`: a DNS brute force, followed by a host discovery in the intranet, followed by
   * a service scan; and independently a host discovery in the DMZ.
   */
  const ServiceScan: Step := Step("service_scan", [])
  const IntranetScan: Step := Step("host_discover_local", [ServiceScan])
  const DnsScan: Step := Step("dns_brute_force", [IntranetScan])
  const DmzScan: Step := Step("host_discover_dmz", [])

  function ReconNetworks(name: string, nextPhase: Option<Transition>): Phase
  {
    NewPhase(name, [DnsScan, DmzScan], nextPhase)
  }

  /** The recon phase lists its four scans in pre-order, each leading back to the phase. */
  lemma ReconTransitions(name: string)
    ensures FlattenAll(ReconNetworks(name, None).pool) ==
              Targeted(["dns_brute_force", "host_discover_local", "service_scan", "host_discover_dmz"], name)
    ensures CountAll(ReconNetworks(name, None).pool) == 4
  {
    var roots := [DnsScan, DmzScan];
    ConvertFlatten(roots, name);
    assert StepNamesAll([ServiceScan]) == ["service_scan"];
    assert StepNamesAll([IntranetScan]) == ["host_discover_local", "service_scan"];
    assert StepNamesAll([DmzScan]) == ["host_discover_dmz"];
    assert roots[1..] == [DmzScan];
    assert StepNamesAll(roots) == ["dns_brute_force", "host_discover_local", "service_scan", "host_discover_dmz"];
    FlattenCount(ReconNetworks(name, None).pool);
  }

  /** The converted recon steps: the tree shape of the phase's pool. */
  lemma ReconShape(name: string, nextPhase: Option<Transition>)
    ensures ReconNetworks(name, nextPhase).pool == [Convert(DnsScan, name), Convert(DmzScan, name)]
    ensures Convert(DnsScan, name).children == [Convert(IntranetScan, name)]
    ensures Convert(IntranetScan, name).children == [Convert(ServiceScan, name)]
    ensures Convert(ServiceScan, name).children == [] && Convert(DmzScan, name).children == []
  {
  }

  /** The steps of the recon phase, which hold each other's children. */
  function ReconSet(name: string): (s: set<StepTransition>)
    ensures Closed(s)
    ensures forall y, x :: y in s && x in y.children && x.transition.name == "service_scan" ==>
              y.transition.name == "host_discover_local"
    ensures forall y, x :: y in s && x in y.children && x.transition.name == "host_discover_local" ==>
              y.transition.name == "dns_brute_force"
  {
    ReconShape(name, None);
    {Convert(DnsScan, name), Convert(IntranetScan, name), Convert(ServiceScan, name), Convert(DmzScan, name)}
  }

  /**
   * Whatever the draws, the recon phase runs the service scan only after the intranet
   * discovery, and the intranet discovery only after the DNS brute force.
   */
  lemma ReconOrder(name: string, nextPhase: Option<Transition>, choices: seq<nat>)
    requires Feasible(ReconNetworks(name, nextPhase).pool, choices)
    ensures var r := Drawn(ReconNetworks(name, nextPhase).pool, choices);
            forall k :: 0 <= k < |r| && r[k].transition.name == "service_scan" ==>
              exists j :: 0 <= j < k && r[j].transition.name == "host_discover_local"
    ensures var r := Drawn(ReconNetworks(name, nextPhase).pool, choices);
            forall k :: 0 <= k < |r| && r[k].transition.name == "host_discover_local" ==>
              exists j :: 0 <= j < k && r[j].transition.name == "dns_brute_force"
  {
    var pool := ReconNetworks(name, nextPhase).pool;
    var s := ReconSet(name);
    ReconShape(name, nextPhase);
    DrawnWithin(s, pool, choices);
    ParentFirst(pool, [], pool, choices);
    var r := Drawn(pool, choices);
    forall k | 0 <= k < |r| && r[k].transition.name in {"service_scan", "host_discover_local"}
      ensures exists j :: 0 <= j < k && r[j].transition.name ==
                (if r[k].transition.name == "service_scan" then "host_discover_local" else "dns_brute_force")
    {
      assert [] + r[..k] == r[..k];
      assert Introduced(r[k], pool, [] + r[..k]);
      assert r[k] !in pool;
      ChildOfSome(r[..k], r[k]);
      var j :| 0 <= j < k && r[k] in r[..k][j].children;
      assert r[j] in s;
    }
  }

  // ---------------------------------------------------------------- choices

  /** The branches of the wait choice. */
  datatype WaitBranch = ListenReverseShell | DecideCrackingMethod

  /** `WaitChoice`: the reverse shell is awaited once the escalation time has come. */
  function WaitChoice(now: int, escalateTime: int): (b: WaitBranch)
    ensures b == ListenReverseShell <==> now >= escalateTime
  {
    if now >= escalateTime then ListenReverseShell else DecideCrackingMethod
  }

  /** The escalation branch, once taken, is taken at every later time too. */
  lemma WaitMonotone(now: int, later: int, escalateTime: int)
    requires now <= later && WaitChoice(now, escalateTime) == ListenReverseShell
    ensures WaitChoice(later, escalateTime) == ListenReverseShell
  {
  }

  // ---------------------------------------------------------------- the wait choice's keywords

  /** Every parameter `WaitChoice.__init__` declares. */
  const WaitChoiceParams: seq<string> := [
    "name", "escalate_time", "listen_reverse_shell", "decide_cracking_method", "name_prefix"
  ]

  /** Some keyword argument of the call is named `key`. */
  predicate Passed(args: seq<(string, Transition)>, key: string)
  {
    |args| > 0 && (args[0].0 == key || Passed(args[1..], key))
  }

  /** Every keyword of the call is a parameter `WaitChoice.__init__` declares. */
  predicate AllDeclared(args: seq<(string, Transition)>)
  {
    |args| == 0 || (args[0].0 in WaitChoiceParams && AllDeclared(args[1..]))
  }

  /** The value passed under `key`, the first binding winning. */
  function Lookup(args: seq<(string, Transition)>, key: string): (r: Option<Transition>)
    ensures r.Some? <==> Passed(args, key)
    ensures r.Some? ==> (key, r.value) in args
  {
    if |args| == 0 then None
    else if args[0].0 == key then Some(args[0].1)
    else
      var r := Lookup(args[1..], key);
      assert args == [args[0]] + args[1..];
      r
  }

  /**
   * Binding the transition keywords of a `WaitChoice` call: Python raises a type error
   * for a keyword the constructor does not declare (it has no catch-all keyword parameter) and for a missing
   * required branch; otherwise the escalation and the cracking branch are bound.
   */
  function BindWaitChoice(args: seq<(string, Transition)>): (r: Result<(Transition, Transition)>)
    ensures r.Failure? <==>
              !AllDeclared(args) || !Passed(args, "listen_reverse_shell") || !Passed(args, "decide_cracking_method")
    ensures r.Success? ==>
              ("listen_reverse_shell", r.value.0) in args && ("decide_cracking_method", r.value.1) in args
    ensures r.Success? ==>
              r.value == (Lookup(args, "listen_reverse_shell").value, Lookup(args, "decide_cracking_method").value)
  {
    if !AllDeclared(args) then
      Failure("WaitChoice got an unexpected keyword argument")
    else if Lookup(args, "listen_reverse_shell").None? || Lookup(args, "decide_cracking_method").None? then
      Failure("WaitChoice is missing a required argument")
    else
      Success((Lookup(args, "listen_reverse_shell").value, Lookup(args, "decide_cracking_method").value))
  }

  /** `CrackChoice`: offline cracking with probability `p`, the WordPress hash cracker otherwise. */
  function NewCrackChoice(p: real): (s: Engine.State)
    ensures s.Valid() && s.Size() == 2 && Sum(s.weights) == 1.0
    ensures s.weights[0] == p && s.modifiers == [1.0, 1.0]
    ensures 0.0 <= p <= 1.0 <==> forall i :: 0 <= i < 2 ==> 0.0 <= s.weights[i] <= 1.0
  {
    assert Sum([p, 1.0 - p]) == p + Sum([1.0 - p]);
    Make([p, 1.0 - p], Ones(2))
  }
}

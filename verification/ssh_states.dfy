/**
 * The ssh user's states (ssh_user/states.py): the connected state that only offers command
 * chains the host has, the choice between executing and finishing a chain, the sudo prompt
 * check, and the sudo dialog that escalates to a final failure after too many wrong passwords.
 */
module SshStates {
  import opened Wrappers
  import opened Engine
  import opened CoreStates

  // ---------------------------------------------------------------- connected

  const SelectChain: nat := 0
  const Disconnect: nat := 1

  predicate ConnectedValid(c: ActivityState)
  {
    c.Valid() && c.base.Size() == 2 && c.ret == Disconnect
  }

  /** The connected state (select chain 0.9, disconnect 0.1); disconnecting is boosted threefold per step. */
  function NewConnected(): (c: ActivityState)
    ensures ConnectedValid(c) && c.retIncrease == 3.0 && Sum(c.base.weights) == 1.0
    ensures c.base.modifiers == c.base.initial == [1.0, 1.0]
  {
    NewActivity([0.9, 0.1], Some([1.0, 1.0]), Disconnect, 3.0)
  }

  /** `Connected.adapt_before`: selecting a chain is possible iff the host has at least one command chain. */
  function ConnectedAdaptBefore(c: ActivityState, hostChains: nat): (r: ActivityState)
    requires ConnectedValid(c)
    ensures ConnectedValid(r) && r.retIncrease == c.retIncrease
    ensures r.base.weights == c.base.weights && r.base.initial == c.base.initial
    ensures r.base.modifiers[SelectChain] == 1.0 <==> hostChains > 0
    ensures r.base.modifiers[SelectChain] == 0.0 <==> hostChains == 0
    ensures r.base.modifiers[Disconnect] == c.base.modifiers[Disconnect]
  {
    c.(base := Enable(c.base, SelectChain, hostChains > 0))
  }

  /** On a host without command chains the user can only disconnect. */
  lemma NoChainsOnlyDisconnect(c: ActivityState, i: nat)
    requires ConnectedValid(c) && Selectable(ConnectedAdaptBefore(c, 0).base, i)
    ensures i == Disconnect
  {
    var b := ConnectedAdaptBefore(c, 0).base;
    assert b.weights[SelectChain] * b.modifiers[SelectChain] == 0.0;
  }

  // ---------------------------------------------------------------- choices

  /** The outcomes of the two choice states. */
  datatype ChainChoice = ExecuteCommand | Finished
  datatype PromptChoice = RequirePassword | NoPasswordRequired

  /** `ExecutingCommandChain`: execute the next command while any remain, otherwise finish. */
  function ExecutingNext<T>(commands: seq<T>): (c: ChainChoice)
    ensures c == ExecuteCommand <==> |commands| > 0
  {
    if |commands| > 0 then ExecuteCommand else Finished
  }

  /**
   * `SudoDialogCheck`: the password dialog is entered iff the last output line shows the sudo
   * prompt (`isPrompt` stands for the prompt pattern). Without any output the source fails on
   * the index.
   */
  function SudoCheckNext(output: seq<string>, isPrompt: string -> bool): (r: Result<PromptChoice>)
    ensures r.Failure? <==> |output| == 0
    ensures r.Success? ==> (r.value == RequirePassword <==> isPrompt(output[|output| - 1]))
  {
    if |output| == 0 then Failure("no output") else
      Success(if isPrompt(output[|output| - 1]) then RequirePassword else NoPasswordRequired)
  }

  // ---------------------------------------------------------------- sudo dialog

  /** Positions of the dialog's probabilistic transitions; the escalation is not among them. */
  const EnterPassword: nat := 0
  const FailPassword: nat := 1

  /** What `SudoDialog.next` returns. */
  datatype SudoChoice = Enter | Fail | FailEscalation

  datatype SudoDialog = SudoDialog(base: Engine.State, fails: nat, failIncrease: real)
  {
    predicate Valid() { base.Valid() && base.Size() == 2 }
  }

  /** The sudo dialog (enter 0.95, fail 0.05, unit modifiers, fail boost 4). */
  function NewSudoDialog(): (d: SudoDialog)
    ensures d.Valid() && d.fails == 0 && d.failIncrease == 4.0 && Sum(d.base.weights) == 1.0
    ensures d.base.modifiers == [1.0, 1.0]
  {
    SudoDialog(Make([0.95, 0.05], [1.0, 1.0]), 0, 4.0)
  }

  /**
   * `SudoDialog.adapt_after`: a wrong password counts one more failure and makes the next
   * one likelier; the right password clears the count and the fail modifier.
   */
  function SudoAdaptAfter(d: SudoDialog, selected: nat): (r: SudoDialog)
    requires d.Valid() && selected < 2
    ensures r.Valid() && r.failIncrease == d.failIncrease
    ensures r.base.weights == d.base.weights && r.base.initial == d.base.initial
    ensures r.base.modifiers[EnterPassword] == d.base.modifiers[EnterPassword]
    ensures selected == FailPassword ==>
              r.fails == d.fails + 1 && r.base.modifiers[FailPassword] == d.base.modifiers[FailPassword] * d.failIncrease
    ensures selected == EnterPassword ==> r.fails == 0 && r.base.modifiers[FailPassword] == 1.0
  {
    if selected == FailPassword then
      d.(fails := d.fails + 1, base := SetModifier(d.base, FailPassword, d.base.modifiers[FailPassword] * d.failIncrease))
    else
      d.(fails := 0, base := SetModifier(d.base, FailPassword, 1.0))
  }

  /**
   * `SudoDialog.next`: the engine draws `sampled` and runs `adapt_after`; a wrong password
   * that brings the failures to `max_sudo_tries` becomes the escalation failure instead.
   */
  function SudoNext(d: SudoDialog, sampled: nat, maxTries: int): (r: (SudoDialog, SudoChoice))
    requires d.Valid() && sampled < 2
    ensures r.0 == SudoAdaptAfter(d, sampled)
    ensures r.1 == FailEscalation <==> sampled == FailPassword && d.fails + 1 >= maxTries
    ensures r.1 == Enter <==> sampled == EnterPassword
  {
    var after := SudoAdaptAfter(d, sampled);
    var choice := if sampled == EnterPassword then Enter else Fail;
    if after.fails >= maxTries && choice == Fail then (after, FailEscalation) else (after, choice)
  }

  /** The dialog after `k` wrong passwords in a row. */
  function FailRun(d: SudoDialog, k: nat): (r: SudoDialog)
    requires d.Valid()
    ensures r.Valid() && r.failIncrease == d.failIncrease
    decreases k
  {
    if k == 0 then d else FailRun(SudoAdaptAfter(d, FailPassword), k - 1)
  }

  /** After `k` wrong passwords in a row the count has grown by `k` and the fail modifier by `fail_increase^k`. */
  lemma {:induction false} FailRunCounts(d: SudoDialog, k: nat)
    requires d.Valid()
    ensures FailRun(d, k).fails == d.fails + k
    ensures FailRun(d, k).base.modifiers[FailPassword] == d.base.modifiers[FailPassword] * Pow(d.failIncrease, k)
    decreases k
  {
    if k > 0 {
      var e := SudoAdaptAfter(d, FailPassword);
      FailRunCounts(e, k - 1);
      var m, f, p := d.base.modifiers[FailPassword], d.failIncrease, Pow(d.failIncrease, k - 1);
      assert (m * f) * p == m * (f * p);
    }
  }

  /**
   * From a fresh dialog, the wrong password that follows `k` wrong ones escalates exactly
   * when it is the `max_sudo_tries`-th: earlier failures are returned as ordinary ones.
   */
  lemma EscalatesOnLastTry(d: SudoDialog, k: nat, maxTries: int)
    requires d.Valid() && d.fails == 0
    ensures SudoNext(FailRun(d, k), FailPassword, maxTries).1 == FailEscalation <==> k + 1 >= maxTries
  {
    FailRunCounts(d, k);
  }

  /** The escalation is never drawn by the engine: it is only the override of a wrong password. */
  lemma EscalationOnlyOverridesFail(d: SudoDialog, sampled: nat, maxTries: int)
    requires d.Valid() && sampled < 2
    ensures SudoNext(d, sampled, maxTries).1 == FailEscalation ==> sampled == FailPassword
    ensures SudoNext(d, sampled, maxTries).1 != FailEscalation ==>
              SudoNext(d, sampled, maxTries).1 == (if sampled == EnterPassword then Enter else Fail)
  {
  }
}

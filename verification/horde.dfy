/**
 * The horde user's page states (horde_user/states.py): the selecting menu that visits the
 * preferences page at most once, the mails page, and the groups, notes and tasks pages
 * whose delete/edit transitions depend on what the page shows.
 */
module HordeStates {
  import opened Wrappers
  import opened Engine
  import opened CoreStates

  // ---------------------------------------------------------------- selecting menu

  const NavMail: nat := 0
  const NavPreferences: nat := 1
  const NavAdmin: nat := 2
  const NavNotes: nat := 3
  const MenuReturn: nat := 4

  /** The selecting menu: an activity state plus the flag recording a visit to the preferences page. */
  datatype SelectingMenu = SelectingMenu(act: ActivityState, preferencesSet: bool)
  {
    predicate Valid() { act.Valid() && act.base.Size() == 5 && act.ret == MenuReturn }
  }

  /** The menu with the default weights (mail 0.5, preferences 0.1, admin 0, notes 0.2, return 0.2) and boost 1.2. */
  function NewSelectingMenu(): (m: SelectingMenu)
    ensures m.Valid() && !m.preferencesSet
    ensures m.act.base.weights == [0.5, 0.1, 0.0, 0.2, 0.2] && m.act.retIncrease == 1.2 && Sum(m.act.base.weights) == 1.0
  {
    SelectingMenu(NewActivity([0.5, 0.1, 0.0, 0.2, 0.2], None, MenuReturn, 1.2), false)
  }

  /** `adapt_before`: once preferences has been visited its modifier is 0; otherwise nothing changes. */
  function MenuAdaptBefore(m: SelectingMenu): (r: SelectingMenu)
    requires m.Valid()
    ensures r.Valid() && r.preferencesSet == m.preferencesSet
    ensures r.act.base.weights == m.act.base.weights && r.act.base.initial == m.act.base.initial
    ensures m.preferencesSet ==> r.act.base.modifiers[NavPreferences] == 0.0
    ensures forall j :: 0 <= j < 5 && (j != NavPreferences || !m.preferencesSet) ==>
              r.act.base.modifiers[j] == m.act.base.modifiers[j]
  {
    if m.preferencesSet then m.(act := m.act.(base := SetModifier(m.act.base, NavPreferences, 0.0)))
    else m
  }

  /** `adapt_after`: the activity-state rule, then the preferences flag is raised (and never cleared). */
  function MenuAdaptAfter(m: SelectingMenu, selected: nat): (r: SelectingMenu)
    requires m.Valid() && selected < 5
    ensures r.Valid() && r.act == CoreStates.AdaptAfter(m.act, selected)
    ensures r.preferencesSet <==> m.preferencesSet || selected == NavPreferences
  {
    SelectingMenu(CoreStates.AdaptAfter(m.act, selected), m.preferencesSet || selected == NavPreferences)
  }

  /** A run of menu selections, each one drawable by the engine after `adapt_before`. */
  predicate MenuFeasible(m: SelectingMenu, sels: seq<nat>)
    requires m.Valid()
    decreases |sels|
  {
    |sels| > 0 ==>
      sels[0] < 5
      && Selectable(MenuAdaptBefore(m).act.base, sels[0])
      && MenuFeasible(MenuAdaptAfter(MenuAdaptBefore(m), sels[0]), sels[1..])
  }

  /** Number of occurrences of `x` in `s`. */
  function Occurrences(s: seq<nat>, x: nat): nat
  {
    if |s| == 0 then 0 else (if s[0] == x then 1 else 0) + Occurrences(s[1..], x)
  }

  /** However long the user stays, the preferences page is visited at most once, and never again once visited. */
  lemma {:induction false} PreferencesAtMostOnce(m: SelectingMenu, sels: seq<nat>)
    requires m.Valid() && MenuFeasible(m, sels)
    ensures Occurrences(sels, NavPreferences) <= if m.preferencesSet then 0 else 1
    decreases |sels|
  {
    if |sels| > 0 {
      var b := MenuAdaptBefore(m);
      var next := MenuAdaptAfter(b, sels[0]);
      PreferencesAtMostOnce(next, sels[1..]);
      if m.preferencesSet {
        assert b.act.base.modifiers[NavPreferences] == 0.0;
        assert sels[0] != NavPreferences by {
          assert b.act.base.weights[NavPreferences] * 0.0 == 0.0;
        }
      }
    }
  }

  // ---------------------------------------------------------------- mails page

  const ViewMail: nat := 0
  const NewMail: nat := 1
  const RefreshMail: nat := 2
  const MailsReturn: nat := 3

  predicate MailsValid(p: ActivityState) { p.Valid() && p.base.Size() == 4 && p.ret == MailsReturn }

  /** The mails page with the default weights (view 0.45, new 0.35, refresh 0.1, return 0.1) and boost 1.2. */
  function NewMailsPage(): (p: ActivityState)
    ensures MailsValid(p)
    ensures p.base.weights == [0.45, 0.35, 0.1, 0.1] && p.retIncrease == 1.2 && Sum(p.base.weights) == 1.0
  {
    NewActivity([0.45, 0.35, 0.1, 0.1], None, MailsReturn, 1.2)
  }

  /**
   * `adapt_before`: on the mail page, view_mail is enabled iff at least one mail row is shown;
   * on any other page view_mail and new_mail are disabled so that only refresh and return remain.
   */
  function MailsAdaptBefore(p: ActivityState, onMailPage: bool, mailRows: nat): (r: ActivityState)
    requires MailsValid(p)
    ensures MailsValid(r) && r.base.weights == p.base.weights && r.base.initial == p.base.initial
    ensures onMailPage ==>
              (r.base.modifiers[ViewMail] == 1.0 <==> mailRows > 0)
              && (r.base.modifiers[ViewMail] == 0.0 <==> mailRows == 0)
              && forall j :: 1 <= j < 4 ==> r.base.modifiers[j] == p.base.modifiers[j]
    ensures !onMailPage ==>
              r.base.modifiers[ViewMail] == 0.0 && r.base.modifiers[NewMail] == 0.0
              && r.base.modifiers[RefreshMail] == p.base.modifiers[RefreshMail]
              && r.base.modifiers[MailsReturn] == p.base.modifiers[MailsReturn]
  {
    if onMailPage then p.(base := Enable(p.base, ViewMail, mailRows > 0))
    else p.(base := SetModifier(SetModifier(p.base, ViewMail, 0.0), NewMail, 0.0))
  }

  /** Off the mail page the engine can only refresh or leave. */
  lemma OffMailPageOnlyRefreshOrLeave(p: ActivityState, mailRows: nat, i: nat)
    requires MailsValid(p) && Selectable(MailsAdaptBefore(p, false, mailRows).base, i)
    ensures i == RefreshMail || i == MailsReturn
  {
  }

  // ---------------------------------------------------------------- item pages

  /**
   * The rule the admin groups, notes and tasks pages share: the transition at `i` is enabled
   * iff the page shows at least one item; nothing else changes.
   */
  function EnableIfItems(p: ActivityState, i: nat, items: nat): (r: ActivityState)
    requires p.Valid() && i < p.base.Size()
    ensures r.Valid() && r.ret == p.ret && r.retIncrease == p.retIncrease
    ensures |r.base.modifiers| == |p.base.modifiers|
    ensures r.base.weights == p.base.weights && r.base.initial == p.base.initial
    ensures r.base.modifiers[i] == 1.0 <==> items > 0
    ensures r.base.modifiers[i] == 0.0 <==> items == 0
    ensures forall j :: 0 <= j < p.base.Size() && j != i ==> r.base.modifiers[j] == p.base.modifiers[j]
  {
    p.(base := Enable(p.base, i, items > 0))
  }

  /** Positions on the admin groups page: add, delete, return. */
  const GroupDelete: nat := 1

  /** The admin groups page (add 0.45, delete 0.35, return 0.2, boost 2). */
  function NewAdminGroupsPage(): (p: ActivityState)
    ensures p.Valid() && p.base.Size() == 3 && p.ret == 2
    ensures p.base.weights == [0.45, 0.35, 0.2] && p.retIncrease == 2.0 && Sum(p.base.weights) == 1.0
  {
    NewActivity([0.45, 0.35, 0.2], None, 2, 2.0)
  }

  /** `adapt_before` of the admin groups page: delete is possible iff a group row is listed. */
  function AdminGroupsAdaptBefore(p: ActivityState, groups: nat): (r: ActivityState)
    requires p.Valid() && p.base.Size() == 3
    ensures r.Valid() && |r.base.modifiers| == 3
    ensures (r.base.modifiers[GroupDelete] == 1.0 <==> groups > 0)
    ensures r.base.modifiers[GroupDelete] == 0.0 <==> groups == 0
    ensures r.base.modifiers[0] == p.base.modifiers[0] && r.base.modifiers[2] == p.base.modifiers[2]
  {
    EnableIfItems(p, GroupDelete, groups)
  }

  /** Positions on the notes and tasks pages: new, edit, return. */
  const EditItem: nat := 1

  /** The notes page (new 0.5, edit 0.4, return 0.1, boost 2). */
  function NewNotesPage(): (p: ActivityState)
    ensures p.Valid() && p.base.Size() == 3 && p.ret == 2
    ensures p.base.weights == [0.5, 0.4, 0.1] && p.retIncrease == 2.0 && Sum(p.base.weights) == 1.0
  {
    NewActivity([0.5, 0.4, 0.1], None, 2, 2.0)
  }

  /**
   * `adapt_before` of the notes page and of the tasks page: edit is possible iff an item (a memo,
   * a task) with an edit link is listed.
   */
  function EditPageAdaptBefore(p: ActivityState, items: nat): (r: ActivityState)
    requires p.Valid() && p.base.Size() == 3
    ensures r.Valid() && |r.base.modifiers| == 3
    ensures (r.base.modifiers[EditItem] == 1.0 <==> items > 0)
    ensures r.base.modifiers[EditItem] == 0.0 <==> items == 0
    ensures r.base.modifiers[0] == p.base.modifiers[0] && r.base.modifiers[2] == p.base.modifiers[2]
  {
    EnableIfItems(p, EditItem, items)
  }

  /** The tasks page (new 0.5, edit 0.4, return 0.1, boost 1.4). */
  function NewTasksPage(): (p: ActivityState)
    ensures p.Valid() && p.base.Size() == 3 && p.ret == 2
    ensures p.base.weights == [0.5, 0.4, 0.1] && p.retIncrease == 1.4 && Sum(p.base.weights) == 1.0
  {
    NewActivity([0.5, 0.4, 0.1], None, 2, 1.4)
  }

  /** An empty list page never lets the engine draw its delete/edit transition. */
  lemma EmptyPageDisablesItem(p: ActivityState, i: nat)
    requires p.Valid() && i < p.base.Size()
    ensures !Selectable(EnableIfItems(p, i, 0).base, i)
  {
    var b := EnableIfItems(p, i, 0).base;
    assert b.weights[i] * b.modifiers[i] == 0.0;
  }
}

# kyoushi state machines in Dafny

A functional model of the decision logic of the kyoushi state machines. These drive simulated
users and an attacker through web applications, a groupware suite and ssh sessions in a cyber
range. The external simulation engine samples a transition of the current state by its weight
times its modifier. The states of this repository only adjust those modifiers before and after
each selection, choose forced transitions, and build command lines and configurations.
Those adjustments are what the model covers:

- **Engine view** (`Engine`). The adaptive probabilistic state is reduced to base weights, one
  modifier per transition and the modifiers `reset` restores. A transition is identified by its
  position, which matches the engine's identity-keyed modifier table. The sampled position, the
  clock and every page observation are parameters.
- **Core** (`CoreStates`, `CoreIdle`, `CoreUtil`, `ProbConfig`, `Selenium`). This covers the
  activity state's return boost and reset, the idle wake-up time, `filter_none_keys` and
  `BaseInfo.clear`, and the probability-configuration validators. From the selenium helpers it
  covers the webdriver enum, the driver and option checks, viewport containment, new-window
  detection, the scroll-stability check and `slow_type`.
- **Daily caps** (`DailyCap`, `BetaStates`). The single-activity selection states of the horde,
  ownCloud, ssh, WordPress editor and wpDiscuz users share one cap. The beta user's
  multi-activity selection state has one counter per activity.
- **Per-user states.**
  - Horde pages (`Horde`) and the login page and logout choice shared with ownCloud (`CommonPages`).
  - ownCloud gathering and states (`OwncloudGather`, `OwncloudStates`).
  - ssh configuration, actions and states (`SshConfig`, `SshActions`, `SshStates`).
  - wpDiscuz actions, configuration and states (`WpdiscuzActions`, `WpdiscuzConfig`, `WpdiscuzStates`).
  - The web browser user (`WebBrowser`).
- **Beta user** (`BetaMachine`). Which activities are built, and how their entry transitions are
  wrapped by the VPN.
- **AECID attacker.**
  - The attack-phase step forest, in which a child step becomes available only after its parent
    has run (`AttackPhase`).
  - Its configuration (`AttackerConfig`) and its start times (`AttackerTimes`).
  - The command lines, retry loop and guards of its actions (`AttackerActions`).
  - The state graph the factory builds (`AttackerMachine`), its closure (`AttackerGraph`) and the
    built machine's names, timing and end (`AttackerBuilt`).

## Model

| member | source | states |
|---|---|---|
| CoreStates.NewActivity | src/cr_kyoushi/statemachines/core/states.py:18-36 | a new activity state keeps the given weights, starts with the given modifiers (unit modifiers when none are given), which are also the ones `reset` restores, and remembers the return transition and its increase factor |
| CoreStates.AdaptAfter | src/cr_kyoushi/statemachines/core/states.py:38-49 | selecting the return transition restores every modifier to its initial value; any other selection multiplies the return modifier by the increase factor and leaves every other modifier and the weights alone |
| CoreStates.BoostAfterRun | src/cr_kyoushi/statemachines/core/states.py:47-49 | after k selections that are not the return transition, the return modifier has grown by the factor raised to k and no other modifier has changed |
| CoreStates.FreshBoost | src/cr_kyoushi/statemachines/core/states.py:25-49 | from a freshly reset state with unit modifiers, the return modifier after k steps in the activity is exactly the increase factor raised to k (1.03125^k by default) |
| CoreStates.ReturnRestores | src/cr_kyoushi/statemachines/core/states.py:44-46 | whatever happened before, a run that ends with the return transition leaves the initial modifiers |
| CoreStates.ReturnModifierNonDecreasing | src/cr_kyoushi/statemachines/core/states.py:47-49 | with an increase factor of at least 1, staying in the activity never makes leaving it less likely |
| CoreIdle.IdleCall | src/cr_kyoushi/statemachines/core/transitions.py:35-51 | without an end time the idle function sleeps for the amount; with one it sleeps until the earlier of now plus the amount and the end time |
| CoreIdle.PastEndWakesAtEnd | src/cr_kyoushi/statemachines/core/transitions.py:44-51 | an end time already in the past is the instant slept until, however large the idle amount |
| CoreIdle.NewIdleTransition | src/cr_kyoushi/statemachines/core/transitions.py:54-71 | an idle transition carries the given name and target and an idle function with the same amount and end time |
| CoreUtil.FilterNoneKeys | src/cr_kyoushi/statemachines/core/util.py:18-29 | a key survives exactly when its value is present, and its value is the present value |
| CoreUtil.FilterIdempotent | src/cr_kyoushi/statemachines/core/util.py:18-29 | filtering an already filtered dictionary changes nothing |
| CoreUtil.FilterKeepsComplete | src/cr_kyoushi/statemachines/core/util.py:18-29 | a dictionary without `None` values comes back unchanged |
| CoreUtil.FilterShrinks | src/cr_kyoushi/statemachines/core/util.py:18-29 | the result's keys are a subset of the input's, and the result is empty exactly when every value is `None` |
| CoreUtil.Clear | src/cr_kyoushi/statemachines/core/model.py:7-13 | clearing keeps the set of fields and sets every one of them to `None` |
| CoreUtil.ClearIdempotent | src/cr_kyoushi/statemachines/core/model.py:7-13 | clearing twice equals clearing once, and a cleared object has no field left after filtering out `None` |
| ProbConfig.Validate | src/cr_kyoushi/statemachines/core/config.py:35-105 | a configuration is accepted exactly when every field is declared as a number, every value lies in [0, 100] and the values sum to 1 or to 100; an accepted configuration is returned unchanged |
| ProbConfig.UniformAccepted | src/cr_kyoushi/statemachines/core/config.py:80-98 | n numeric fields of 1/n each form an accepted configuration |
| ProbConfig.OtherKindRejected | src/cr_kyoushi/statemachines/core/config.py:52-78 | a single field declared with a non-numeric type makes the configuration fail, whatever the values |
| Selenium.FromName | src/cr_kyoushi/statemachines/core/selenium.py:75-83 | a text gives a driver type exactly when it is that member's enum value; no member has a value that yields `None` |
| Selenium.ValidateDriver | src/cr_kyoushi/statemachines/core/selenium.py:89-101 | a member passes unchanged; a string is accepted exactly when its form with ASCII letters upper-cased is some member's value, and it yields that member; any other value is rejected |
| Selenium.ValidateAnyCase | src/cr_kyoushi/statemachines/core/selenium.py:95-100 | the validator is case-insensitive: every member's value, as written or in lower case, parses to that member |
| Selenium.ValidateSelenium | src/cr_kyoushi/statemachines/core/selenium.py:235-258 | a selenium configuration loads exactly when the type parses, Edge gets no arguments, and neither IE nor Edge is headless; the loaded configuration holds the parsed type |
| Selenium.OtherDriversUnrestricted | src/cr_kyoushi/statemachines/core/selenium.py:235-258 | Chrome, Chromium, Firefox and Opera accept every combination of headless mode and arguments |
| Selenium.InViewportIffAllPoints | src/cr_kyoushi/statemachines/core/selenium.py:586-619 | the four-bound viewport test holds exactly when every point of the element's rectangle lies inside the window's |
| Selenium.GetNewWindow | src/cr_kyoushi/statemachines/core/selenium.py:498-515 | with no more handles than before there is no new window; otherwise the call succeeds exactly when some handle is new, and the handle returned is one present now and absent before |
| Selenium.GrowthHasNewWindow | src/cr_kyoushi/statemachines/core/selenium.py:512-514 | when the browser's handles are distinct and their number grew, a new handle exists, so the `pop` cannot fail |
| Selenium.CheckStable | src/cr_kyoushi/statemachines/core/selenium.py:663-670 | the check reports stability exactly when the offset has not moved, and the offset read becomes the one remembered |
| Selenium.SecondEqualReadingStable | src/cr_kyoushi/statemachines/core/selenium.py:663-670 | two checks in a row that read the same offset: the second always reports stability |
| Selenium.SlowType | src/cr_kyoushi/statemachines/core/selenium.py:417-441 | every character is sent once and in order, each followed by a pause, so the keys sent are exactly the text |
| WebBrowser.HttpLinks | src/cr_kyoushi/statemachines/web_browser/transitions.py:35-43 | a link is kept exactly when its scheme is http or https, and never more links come out than went in |
| WebBrowser.HttpLinksConcat | src/cr_kyoushi/statemachines/web_browser/transitions.py:39-43 | filtering keeps the page order: filtering two parts is the same as filtering the whole |
| WebBrowser.HttpLinksIdempotent | src/cr_kyoushi/statemachines/web_browser/transitions.py:39-43 | every kept link is http(s), so filtering the kept links again changes nothing |
| WebBrowser.NewSelection | src/cr_kyoushi/statemachines/web_browser/states.py:19-35 | the selection state holds the website weight, then the idle weight, and the daily maximum; it is refused unless the two weights sum to 1 |
| WebBrowser.NewWebsiteState | src/cr_kyoushi/statemachines/web_browser/states.py:54-69 | the website state holds the link weight, then the leave weight, and the maximum depth; it is refused unless the two weights sum to 1 |
| WebBrowser.DefaultStatesBuild | src/cr_kyoushi/statemachines/web_browser/config.py:50-96 | the configured defaults (visit 0.7, idle 0.3, five websites a day; link 0.7, leave 0.3, depth 2) form distributions, so both states build with them |
| WebBrowser.SelectionNext | src/cr_kyoushi/statemachines/web_browser/states.py:38-51 | a new day is stored and clears the visit count, nothing else in the context changes, and once the count has reached the daily maximum the idle transition is taken whatever was sampled |
| WebBrowser.WebsiteNext | src/cr_kyoushi/statemachines/web_browser/states.py:72-83 | the user leaves exactly when the page has no links, the depth has reached the maximum, or leaving was sampled |
| WebBrowser.VisitWebsite | src/cr_kyoushi/statemachines/web_browser/transitions.py:83-113 | a visit raises the count and makes the drawn website current; a load error takes the count back and names the fallback state; a loaded page replaces the links with its http(s) links; an empty website list raises with the count left raised |
| WebBrowser.OpenLink | src/cr_kyoushi/statemachines/web_browser/transitions.py:120-149 | the depth is raised whatever happens; the call succeeds exactly when there are links and the page loads, and then the browser's URL becomes current and the links are the new page's http(s) links; on failure nothing else changes |
| WebBrowser.LeaveWebsite | src/cr_kyoushi/statemachines/web_browser/transitions.py:152-161 | leaving sets the depth to 0, drops the current website and its links, and keeps the day's count |
| WebBrowser.FailedVisitNotCounted | src/cr_kyoushi/statemachines/web_browser/transitions.py:105-113 | a website that fails to load does not count towards the day's visits |
| WebBrowser.VisitsWithinDailyLimit | src/cr_kyoushi/statemachines/web_browser/states.py:41-51 | if the count is within the daily maximum, the selection and the visit it chooses keep it within |
| WebBrowser.DepthWithinLimit | src/cr_kyoushi/statemachines/web_browser/states.py:75-83 | if the depth is within the maximum, the website state's choice keeps it within: opening a link stays at or under the maximum, leaving goes back to 0 |
| DailyCap.New | src/cr_kyoushi/statemachines/wordpress_editor/states.py:16-42 | a new selection state is dated today with a zero counter, the given weights for entering the activity and idling, and unit modifiers that are also the ones restored on reset |
| DailyCap.AdaptBefore | src/cr_kyoushi/statemachines/wordpress_editor/states.py:44-57 | a new day is stored, zeroes the counter and restores the initial modifiers; then, once the counter has reached the daily maximum, the activity's modifier is 0 and otherwise it is unchanged; the horde, ownCloud, ssh and wpDiscuz activity selections (ssh_user/states.py:53-66 and the like) repeat this rule |
| DailyCap.AdaptAfter | src/cr_kyoushi/statemachines/wordpress_editor/states.py:59-65 | the counter rises by one exactly when the activity was selected; modifiers, day and maximum stay; wordpress_wpdiscuz/states.py:70-76 and the other single-activity selections count the same way |
| DailyCap.NewWithinCap | src/cr_kyoushi/statemachines/wordpress_editor/states.py:40-41 | a new selection state starts within its daily maximum |
| DailyCap.StepKeepsCap | src/cr_kyoushi/statemachines/wordpress_editor/states.py:55-65 | one selection the engine can draw (a positive-probability transition) keeps the counter within the daily maximum, for the ownCloud selection (owncloud_user/states.py:50-108) and the others alike |
| DailyCap.RunKeepsCap | src/cr_kyoushi/statemachines/wordpress_editor/states.py:44-65 | however many selections follow, the activity is entered at most the daily maximum number of times on one day; horde's selection (horde_user/states.py:18-74) is capped the same way |
| DailyCap.NewDayClears | src/cr_kyoushi/statemachines/wordpress_editor/states.py:48-53 | with a positive maximum, the first selection of a new day sees a zero counter and the initial modifiers |
| HordeStates.NewSelectingMenu | src/cr_kyoushi/statemachines/horde_user/states.py:123-168 | the selecting menu has five transitions with the return transition last and has not yet visited the preferences page |
| HordeStates.MenuAdaptBefore | src/cr_kyoushi/statemachines/horde_user/states.py:170-173 | once the preferences page has been visited its modifier is 0; every other modifier, and every modifier before that visit, is unchanged |
| HordeStates.MenuAdaptAfter | src/cr_kyoushi/statemachines/horde_user/states.py:175-179 | the activity-state rule applies, and the preferences flag is set exactly when it already was or the preferences page was selected |
| HordeStates.PreferencesAtMostOnce | src/cr_kyoushi/statemachines/horde_user/states.py:167-179 | however long the user stays in the menu, the engine draws the preferences page at most once, and never once it has been visited |
| HordeStates.NewMailsPage | src/cr_kyoushi/statemachines/horde_user/states.py:198-232 | the mails page has four transitions with the return transition last |
| HordeStates.MailsAdaptBefore | src/cr_kyoushi/statemachines/horde_user/states.py:234-253 | on the mail page, viewing a mail is enabled exactly when a mail row is shown, and nothing else changes; on any other page, viewing and writing mails are disabled while refresh and return keep their modifiers |
| HordeStates.OffMailPageOnlyRefreshOrLeave | src/cr_kyoushi/statemachines/horde_user/states.py:245-253 | off the mail page the engine can only refresh or return |
| HordeStates.EnableIfItems | src/cr_kyoushi/statemachines/horde_user/states.py:401-410 | the rule the groups, notes and tasks pages share: the transition is enabled (modifier 1) exactly when the page lists an item and disabled (0) exactly when it lists none; no other modifier changes |
| HordeStates.NewAdminGroupsPage | src/cr_kyoushi/statemachines/horde_user/states.py:371-399 | the admin groups page has three transitions with the return transition last |
| HordeStates.AdminGroupsAdaptBefore | src/cr_kyoushi/statemachines/horde_user/states.py:401-410 | deleting a group is enabled exactly when a group row is listed; adding and returning keep their modifiers |
| HordeStates.NewNotesPage | src/cr_kyoushi/statemachines/horde_user/states.py:424-444 | the notes page has three transitions with the return transition last |
| HordeStates.EditPageAdaptBefore | src/cr_kyoushi/statemachines/horde_user/states.py:446-454 | editing is enabled exactly when a memo (or, on the tasks page at horde_user/states.py:498-506, a task) with an edit link is listed; the others keep their modifiers |
| HordeStates.NewTasksPage | src/cr_kyoushi/statemachines/horde_user/states.py:476-496 | the tasks page has three transitions with the return transition last |
| HordeStates.EmptyPageDisablesItem | src/cr_kyoushi/statemachines/horde_user/states.py:407-410 | a list page that shows nothing never lets the engine draw its delete or edit transition |
| CommonPages.NewLoginPage | src/cr_kyoushi/statemachines/horde_user/states.py:96-111 | the login page fails with the given base weight, the two weights sum to 1, and the modifiers start at 1 |
| CommonPages.LoginAdaptAfter | src/cr_kyoushi/statemachines/horde_user/states.py:113-120 | a failed login scales the fail modifier by the decrease factor and leaves the login modifier; a successful login restores the initial modifiers; the ownCloud login page (owncloud_user/states.py:163-170) behaves identically |
| CommonPages.FailuresDecay | src/cr_kyoushi/statemachines/horde_user/states.py:117-118 | after k failed logins in a row the fail modifier has been scaled by the decrease factor raised to k, and the login modifier is untouched |
| CommonPages.LoginRestores | src/cr_kyoushi/statemachines/horde_user/states.py:119-120 | whatever came before, a successful login leaves the initial modifiers |
| CommonPages.NewLogoutChoice | src/cr_kyoushi/statemachines/horde_user/states.py:182-192 | the logout choice logs out with the given probability; otherwise a no-op transition leads to the same state as logging out, and the two probabilities sum to 1 |
| OwncloudGather.IsPermissions | src/cr_kyoushi/statemachines/owncloud_user/gather.py:85-98 | a missing permission value grants nothing; a present one grants the checked flags exactly when every bit set in them is set in it |
| OwncloudGather.AllSubsumed | src/cr_kyoushi/statemachines/owncloud_user/gather.py:91-95 | the special case for ALL adds nothing: ALL already holds every flag combination by the bit test |
| OwncloudGather.SingleFlag | src/cr_kyoushi/statemachines/owncloud_user/gather.py:17-23 | checking one flag 2^k is testing bit k of the row's permissions |
| OwncloudGather.ReadDeleteFlags | src/cr_kyoushi/statemachines/owncloud_user/gather.py:17-23 | READ is bit 0 and DELETE is bit 3 of the row's permissions |
| OwncloudGather.Condition | src/cr_kyoushi/statemachines/owncloud_user/gather.py:127-132 | the condition is empty exactly when no type (or an empty type) is given, and otherwise starts with " and " |
| OwncloudGather.ConditionInjective | src/cr_kyoushi/statemachines/owncloud_user/gather.py:127-132 | two type filters that produce the same condition agree on both the type and whether it is excluded |
| OwncloudGather.GetData | src/cr_kyoushi/statemachines/owncloud_user/gather.py:106-139 | a row is returned exactly when it is not a pending share, matches (or, when excluding, does not match) the type, and grants the requested permissions |
| OwncloudGather.GetDataConcat | src/cr_kyoushi/statemachines/owncloud_user/gather.py:134-139 | filtering keeps the page order: filtering two parts is the same as filtering the whole |
| OwncloudGather.DirsFilesPartition | src/cr_kyoushi/statemachines/owncloud_user/gather.py:142-163 | directories and files split the unfiltered rows between them: every row is in exactly one of the two lists, and their lengths add up |
| OwncloudGather.SharableUsers | src/cr_kyoushi/statemachines/owncloud_user/gather.py:179-198 | a configured user can still be shared with exactly when the item is not yet shared with them |
| OwncloudGather.SharableEmptyIff | src/cr_kyoushi/statemachines/owncloud_user/gather.py:188-198 | nobody is left to share with exactly when every configured user already has the item |
| OwncloudStates.NewSelectingMenu | src/cr_kyoushi/statemachines/owncloud_user/states.py:180-232 | the selecting menu has five transitions with the return transition last, weights summing to 1 and a boost of 1.25 |
| OwncloudStates.ScrollModifier | src/cr_kyoushi/statemachines/owncloud_user/states.py:273-286 | scrolling down is off (0) exactly when less than the minimum scroll space remains, and on (1) otherwise |
| OwncloudStates.CountFavored | src/cr_kyoushi/statemachines/owncloud_user/gather.py:73-82 | the favoured (or unfavoured) count is positive exactly when the list holds such a row, and never exceeds the list length |
| OwncloudStates.FavoredSplit | src/cr_kyoushi/statemachines/owncloud_user/gather.py:73-82 | every row is either favoured or not: the favoured and unfavoured counts add up to the number of rows |
| OwncloudStates.FavoriteActions | src/cr_kyoushi/statemachines/owncloud_user/states.py:289-315 | favouring is off when every row is favoured and otherwise weighs the factor raised to the favoured count; removing is off when none is and otherwise weighs the factor raised to the unfavoured count; for a factor in (0, 1] each is positive exactly when it is possible, and at most 1 |
| OwncloudStates.FavoriteDefaultFactor | src/cr_kyoushi/statemachines/owncloud_user/states.py:289-315 | with a factor of 1 both favourite rules are plain on/off switches |
| OwncloudStates.ReadActions | src/cr_kyoushi/statemachines/owncloud_user/states.py:318-365 | details can be viewed exactly when some row is listed; directories can be opened and downloaded exactly when a listed directory grants READ; files can be downloaded exactly when a listed non-directory grants READ |
| OwncloudStates.DeleteActions | src/cr_kyoushi/statemachines/owncloud_user/states.py:368-406 | a directory (file) can be deleted exactly when some listed directory (non-directory) grants DELETE and lies on a path the modify patterns accept |
| OwncloudStates.NavRootModifier | src/cr_kyoushi/statemachines/owncloud_user/states.py:548-556 | navigating to the root is off exactly on the root directory |
| OwncloudStates.RootDepth | src/cr_kyoushi/statemachines/owncloud_user/states.py:580 | the root directory has one path part and the empty directory of an empty view has none |
| OwncloudStates.ChildDepth | src/cr_kyoushi/statemachines/owncloud_user/states.py:580 | a sub directory named by a proper component has exactly one path part more than its parent |
| OwncloudStates.CreateActions | src/cr_kyoushi/statemachines/owncloud_user/states.py:558-595 | where the new button is shown and the directory may be modified, uploading is on exactly when there are files to upload and creating a directory is on exactly when the count and depth limits allow it; elsewhere both are off |
| OwncloudStates.CreateDepthStops | src/cr_kyoushi/statemachines/owncloud_user/states.py:578-589 | a modifiable directory at the maximum creation depth may get a sub directory when no directory count limit applies, but inside that one no further directory can be created |
| OwncloudStates.NewAllFilesView | src/cr_kyoushi/statemachines/owncloud_user/states.py:412-525 | the all files view has thirteen transitions with the return transition last, weights summing to 1 and a boost of 1.2 |
| OwncloudStates.AllFilesAdaptBefore | src/cr_kyoushi/statemachines/owncloud_user/states.py:597-634 | every transition but the return one is recomputed from the page by the scroll, favourite, read, delete, root and create rules; the return modifier keeps its boost |
| OwncloudStates.NewFilesView | src/cr_kyoushi/statemachines/owncloud_user/states.py:647-742 | a files view (favourites, shared by me) has ten transitions with the return transition last, weights summing to 1 and a boost of 1.2 |
| OwncloudStates.FilesAdaptBefore | src/cr_kyoushi/statemachines/owncloud_user/states.py:759-797 | the files view recomputes scrolling, favouring, reading and deleting from the page and keeps the return modifier |
| OwncloudStates.NewSharingInView | src/cr_kyoushi/statemachines/owncloud_user/states.py:808-854 | the shared-with-me view has four transitions with the return transition last and weights summing to 1 |
| OwncloudStates.SharingInAdaptBefore | src/cr_kyoushi/statemachines/owncloud_user/states.py:863-882 | accepting and declining are on together exactly when a share is pending; scrolling is off exactly at the bottom of the page and otherwise weighs 1, or 4 when nothing is pending |
| OwncloudStates.NewFileDetailsView | src/cr_kyoushi/statemachines/owncloud_user/states.py:893-940 | the file details view has four transitions with closing last and weights summing to 1 |
| OwncloudStates.FileDetailsAdaptBefore | src/cr_kyoushi/statemachines/owncloud_user/states.py:944-956 | each tab transition is on exactly when its tab is available, and is always 0 or 1; closing keeps its modifier |
| OwncloudStates.NewSharingDetails | src/cr_kyoushi/statemachines/owncloud_user/states.py:962-1011 | the sharing tab has three transitions with the return transition last and weights summing to 1 |
| OwncloudStates.SharingDetailsAdaptBefore | src/cr_kyoushi/statemachines/owncloud_user/states.py:1013-1036 | unsharing is on exactly when the item is shared with someone; sharing is on exactly when the item is sharable, some configured user lacks it and the share count is below the maximum, if one is set |
| OwncloudStates.NewCloseCheck | src/cr_kyoushi/statemachines/owncloud_user/states.py:1042-1089 | the close check holds one no-op per known view, named with the prefix and leading to that view, and a fallback no-op named "unknown_view" |
| OwncloudStates.CloseCheckNext | src/cr_kyoushi/statemachines/owncloud_user/states.py:1091-1110 | the no-op of the active view is chosen; an unknown view, or no active view at all, gives the fallback |
| OwncloudStates.CloseCheckTargets | src/cr_kyoushi/statemachines/owncloud_user/states.py:1039-1110 | with the default fallback, closing the details always leads to one of the three views or back to the menu |
| OwncloudStates.NewUploadMenu | src/cr_kyoushi/statemachines/owncloud_user/states.py:1116-1158 | the upload menu starts with a no-op for a new file that leads where keeping the new file leads and has weight 0; the weights sum to 1 |
| OwncloudStates.UploadMenuNext | src/cr_kyoushi/statemachines/owncloud_user/states.py:1160-1164 | without the file-exists dialog the new-file no-op is chosen; with it the weighted draw decides |
| OwncloudStates.NewFileOnlyWithoutDialog | src/cr_kyoushi/statemachines/owncloud_user/states.py:1133-1164 | the new-file no-op is chosen exactly when no dialog is shown, because its zero weight keeps the draw from ever choosing it |
| SshConfig.PlainCommand | src/cr_kyoushi/statemachines/ssh_user/config.py:386-387 | a bare command string runs without sudo or directory change, idles for the default tiny idle afterwards, and waits for the host prompt |
| SshConfig.ConvertCommand | src/cr_kyoushi/statemachines/ssh_user/config.py:370-376 | every field of the command configuration is kept, the idle after the command included, and the pattern to wait for is the command's own or, when unset, the host prompt |
| SshConfig.ConvertIdempotent | src/cr_kyoushi/statemachines/ssh_user/config.py:370-376 | converting an already converted command, with any prompt, changes nothing |
| SshConfig.ConvertChain | src/cr_kyoushi/statemachines/ssh_user/config.py:379-395 | a string becomes one command waiting for the prompt, a configuration one converted command, and a list is converted element by element in order |
| SshConfig.ChainWaitsForPrompt | src/cr_kyoushi/statemachines/ssh_user/config.py:379-395 | a chain whose commands set no pattern of their own waits for the host prompt after every command |
| SshConfig.ConvertChains | src/cr_kyoushi/statemachines/ssh_user/config.py:418-420 | every configured chain is converted, in order |
| SshConfig.OrElse | src/cr_kyoushi/statemachines/ssh_user/config.py:427-428 | Python's `or` on optional strings: the first value unless it is missing or empty, else the second |
| SshConfig.PortOr | src/cr_kyoushi/statemachines/ssh_user/config.py:444 | Python's `or` on ports: the host's port unless it is 0, else the global one |
| SshConfig.ToHost | src/cr_kyoushi/statemachines/ssh_user/config.py:410-451 | a host is built exactly when the username and password fall back to present values; it then takes each default by the `or` rule, the global key only when asked and unset, the global proxy fields only when asked, and its own chains followed by the converted global ones when asked |
| SshConfig.GetHosts | src/cr_kyoushi/statemachines/ssh_user/config.py:398-455 | the hosts are built exactly when every host configuration can be built, one host per configuration key, each from its own configuration |
| SshConfig.ValidConfigYieldsHosts | src/cr_kyoushi/statemachines/ssh_user/config.py:292-367 | a configuration the validators accept, with no empty host credentials, always yields its hosts |
| SshConfig.EmptyUsernamePassesValidation | src/cr_kyoushi/statemachines/ssh_user/config.py:306-318 | the validators accept an empty host username when there is no global one, yet building the hosts then fails because `or` falls back to the missing global value |
| SshConfig.ValidProxyHostsComplete | src/cr_kyoushi/statemachines/ssh_user/config.py:333-367 | in every host built from an accepted configuration, a proxy host comes with a proxy user and a proxy key |
| SshActions.SelectHost | src/cr_kyoushi/statemachines/ssh_user/actions.py:51-73 | without host weights the context is untouched; otherwise the drawn host becomes current and the command list is cleared, and a drawn id with no host configuration fails like the dictionary lookup |
| SshActions.ConnectArgs | src/cr_kyoushi/statemachines/ssh_user/actions.py:88-118 | the ssh command line fails exactly when a proxy host lacks its key or user, and otherwise starts with `ssh` and ends with the port and `username@host`; both key paths are passed as their absolute paths |
| SshActions.ConnectArgsRoundTrip | src/cr_kyoushi/statemachines/ssh_user/actions.py:93-118 | reading the command line back recovers every host setting it encodes: proxy use, forced password, the absolute path of the identity file, host key checking, port and destination |
| SshActions.CommandLine | src/cr_kyoushi/statemachines/ssh_user/actions.py:245-256 | a plain command is sent as is; a sudo command is prefixed by `sudo` or `sudo -u <user>` |
| SshActions.CommandLineEndsWithCommand | src/cr_kyoushi/statemachines/ssh_user/actions.py:252-256 | whatever the prefix, the configured command text ends the sent line unchanged |
| SshActions.FinishCommand | src/cr_kyoushi/statemachines/ssh_user/actions.py:176-193 | exactly the first command of the chain is dropped, host and output untouched |
| SshActions.SelectChain | src/cr_kyoushi/statemachines/ssh_user/actions.py:196-216 | with a host, one of its chains becomes the pending command list and the output is cleared (a host without chains fails as `random.choice` does); without a host nothing changes |
| SshActions.ExecuteCommand | src/cr_kyoushi/statemachines/ssh_user/actions.py:219-275 | the new output replaces the old and the command is finished unless it is a sudo command stopped at the password prompt; without shell or pending command nothing changes |
| SshActions.EnterSudoPassword | src/cr_kyoushi/statemachines/ssh_user/actions.py:278-314 | at a sudo prompt the further output is appended and the command is finished; in every other case the context is unchanged |
| SshActions.PlainChainDrains | src/cr_kyoushi/statemachines/ssh_user/actions.py:219-267 | on a chain without sudo commands, n execution steps remove exactly the first n commands |
| SshActions.WrongPassword | src/cr_kyoushi/statemachines/ssh_user/actions.py:340-346 | the password typed is the first drawn candidate differing from the real one, and none is found only when every candidate equals it |
| SshStates.NewConnected | src/cr_kyoushi/statemachines/ssh_user/states.py:87-115 | the connected state chooses between selecting a chain (0.9) and disconnecting (0.1), disconnect being the return transition boosted threefold, starting from the explicit modifiers [1, 1] |
| SshStates.ConnectedAdaptBefore | src/cr_kyoushi/statemachines/ssh_user/states.py:118-127 | chain selection gets modifier 1 when the host has command chains and 0 when it has none; weights and the disconnect modifier stay |
| SshStates.NoChainsOnlyDisconnect | src/cr_kyoushi/statemachines/ssh_user/states.py:123-127 | on a host without command chains the only transition the engine can draw is disconnect |
| SshStates.ExecutingNext | src/cr_kyoushi/statemachines/ssh_user/states.py:159-174 | the chain state executes a command exactly when commands remain, and finishes otherwise |
| SshStates.SudoCheckNext | src/cr_kyoushi/statemachines/ssh_user/states.py:203-217 | the sudo dialog is entered exactly when the last output line is the sudo prompt; with no output the lookup of the last line fails |
| SshStates.NewSudoDialog | src/cr_kyoushi/statemachines/ssh_user/states.py:226-258 | the dialog enters the right password with 0.95 and a wrong one with 0.05, unit modifiers, no failures yet and fail increase 4 |
| SshStates.SudoAdaptAfter | src/cr_kyoushi/statemachines/ssh_user/states.py:260-270 | a wrong password counts one more failure and multiplies the fail modifier by the increase; the right one clears both |
| SshStates.SudoNext | src/cr_kyoushi/statemachines/ssh_user/states.py:272-283 | a drawn wrong password that brings the failures to the host's maximum tries becomes the escalation failure; every other draw is returned as is |
| SshStates.FailRunCounts | src/cr_kyoushi/statemachines/ssh_user/states.py:260-270 | after k wrong passwords in a row the failure count has grown by k and the fail modifier by the increase to the k-th power |
| SshStates.EscalatesOnLastTry | src/cr_kyoushi/statemachines/ssh_user/states.py:272-283 | from a fresh dialog, the wrong password following k wrong ones escalates exactly when k + 1 reaches the maximum tries |
| SshStates.EscalationOnlyOverridesFail | src/cr_kyoushi/statemachines/ssh_user/states.py:272-283 | the escalation failure only ever replaces a drawn wrong password; the right password is never overridden |
| WpdiscuzActions.CommentIsMaxLevel | src/cr_kyoushi/statemachines/wordpress_wpdiscuz/actions.py:106-112 | a comment is within the level limit exactly when a level is read from its class and is at most the limit; reading fails exactly when the marker has no ASCII digits |
| WpdiscuzActions.LevelRead | src/cr_kyoushi/statemachines/wordpress_wpdiscuz/actions.py:107-109 | a class attribute naming its level once on one line is read as exactly that number |
| WpdiscuzActions.LevelWithin | src/cr_kyoushi/statemachines/wordpress_wpdiscuz/actions.py:106-112 | such a comment passes the level check exactly when its level is at most the limit |
| WpdiscuzActions.NoMarkerNoLevel | src/cr_kyoushi/statemachines/wordpress_wpdiscuz/actions.py:108-112 | a class attribute without the level marker never passes the level check, whatever the limit |
| WpdiscuzActions.GetComments | src/cr_kyoushi/statemachines/wordpress_wpdiscuz/actions.py:115-139 | without a limit every comment by others is returned; with one, exactly the comments within it are kept, and any comment whose level cannot be read makes the call fail |
| WpdiscuzActions.WithinLevelConcat | src/cr_kyoushi/statemachines/wordpress_wpdiscuz/actions.py:132-138 | filtering keeps page order: the filter of two lists joined is the two filters joined |
| WpdiscuzActions.CommentIds | src/cr_kyoushi/statemachines/wordpress_wpdiscuz/actions.py:168-179 | reading fails exactly when the id without its prefix has no underscore; otherwise the cid is the text before the first underscore and the parent the text from there to the next underscore or the end, neither containing an underscore |
| WpdiscuzActions.CommentIdsRoundTrip | src/cr_kyoushi/statemachines/wordpress_wpdiscuz/actions.py:168-179 | for numeric ids the element id `wpd-comm-<cid>_<parent>` is read back as the pair (parent, cid) |
| WpdiscuzActions.WriteCommentAsWritten | src/cr_kyoushi/statemachines/wordpress_wpdiscuz/actions.py:358-425 | as written: off a post page only an error is logged; on one, the call raises exactly when an element it looks up (editor, submit button, and the name and email inputs when not logged in) is absent, whether or not the writer is shown; otherwise the thread's form is filled in |
| WpdiscuzActions.WriteComment | src/cr_kyoushi/statemachines/wordpress_wpdiscuz/actions.py:358-425 | corrected: only an error is logged exactly when the page is no post page or the thread's editor or submit button is not shown; otherwise it raises exactly when an element it looks up is absent; a new comment uses wpDiscuz's `0_0` thread and a reply the `<cid>_<parent>` thread of its ids, editor and submit button included; a logged-in user comments under the page's user name with no email and types no name or email, anyone else types the configured author and email into the thread's inputs |
| WpdiscuzActions.ShownWriterAgrees | src/cr_kyoushi/statemachines/wordpress_wpdiscuz/actions.py:384-385 | once the thread's editor and submit button are shown, the code as written and the corrected guard behave the same |
| WpdiscuzActions.UncalledWriterCheck | src/cr_kyoushi/statemachines/wordpress_wpdiscuz/actions.py:384-385 | a reply on a post page without the thread's editor raises as written, where the corrected guard only logs an error |
| WpdiscuzActions.ReplyAnswersComment | src/cr_kyoushi/statemachines/wordpress_wpdiscuz/actions.py:168-179 | a reply is written in the form of the comment its ids were read from: the comment's element id is read as (parent, cid), and the form written with those ids has that element id without its prefix as its thread |
| WpdiscuzActions.NewCommentThread | src/cr_kyoushi/statemachines/wordpress_wpdiscuz/actions.py:375-385 | a comment without ids is written in the editor `wpd-editor-0_0`, whose thread reads back as the ids ("0", "0") |
| WpdiscuzActions.RatePost | src/cr_kyoushi/statemachines/wordpress_wpdiscuz/actions.py:36-58 | on an unrated post page a rating between the configured minimum and maximum is stored, failing when the range is empty; otherwise the rating is untouched |
| WpdiscuzConfig.DefaultTablesValid | src/cr_kyoushi/statemachines/wordpress_wpdiscuz/config.py:29-139 | the default weights of the posts page, the close choice and the post page each load as probabilities summing to 1 |
| WpdiscuzConfig.RatingErrors | src/cr_kyoushi/statemachines/wordpress_wpdiscuz/config.py:79-98 | the rating settings have no error exactly when both ratings are star counts 1 to 5 and the minimum does not exceed the maximum; an out-of-range rating always yields an error |
| WpdiscuzConfig.ValidateExtra | src/cr_kyoushi/statemachines/wordpress_wpdiscuz/config.py:73-98 | the rating settings are accepted unchanged exactly when 1 <= min_rating <= max_rating <= 5 |
| WpdiscuzConfig.DefaultExtraValid | src/cr_kyoushi/statemachines/wordpress_wpdiscuz/config.py:74-87 | the default settings (level 3, ratings 1 to 5) are accepted |
| WpdiscuzConfig.AcceptedRatingsAlwaysDraw | src/cr_kyoushi/statemachines/wordpress_wpdiscuz/config.py:89-98 | with accepted settings rating an unrated post never fails and stores a star count from 1 to 5 |
| WpdiscuzStates.NewSelection | src/cr_kyoushi/statemachines/wordpress_wpdiscuz/states.py:19-53 | the wpDiscuz selection state enters the activity with 0.6 and idles with 0.4, dated today with a zero counter and a daily maximum of 10 |
| WpdiscuzStates.NewPostsPage | src/cr_kyoushi/statemachines/wordpress_wpdiscuz/states.py:79-109 | the posts page defaults: older 0.15, newer 0.25, post 0.35, return 0.25 summing to 1, unit modifiers, return boost 1.5, last page 3 |
| WpdiscuzStates.PostsAdaptBefore | src/cr_kyoushi/statemachines/wordpress_wpdiscuz/states.py:111-138 | paging back is possible exactly below the last allowed page when the page has a next link, paging forward exactly when it has a previous link, opening a post exactly when articles are shown; returning keeps its modifier |
| WpdiscuzStates.NoOlderPastMaxPage | src/cr_kyoushi/statemachines/wordpress_wpdiscuz/states.py:114-123 | at or beyond the last allowed page the engine never pages further back, whatever the page offers |
| WpdiscuzStates.EmptyPostsPageOnlyReturns | src/cr_kyoushi/statemachines/wordpress_wpdiscuz/states.py:111-138 | a posts page without links or articles leaves only the return transition drawable |
| WpdiscuzStates.FreshPostsPageAllEnabled | src/cr_kyoushi/statemachines/wordpress_wpdiscuz/states.py:111-138 | on a fresh posts page below the last page that offers everything, every transition can be drawn |
| WpdiscuzStates.NewCloseChoice | src/cr_kyoushi/statemachines/wordpress_wpdiscuz/states.py:141-162 | the close choice is a two-way choice between leaving the page open and closing it with unit modifiers |
| WpdiscuzStates.DefaultCloseChoice | src/cr_kyoushi/statemachines/wordpress_wpdiscuz/states.py:153-154 | the default close choice weights (0.6, 0.4) sum to 1 |
| WpdiscuzStates.NewPostPage | src/cr_kyoushi/statemachines/wordpress_wpdiscuz/states.py:165-217 | the post page defaults: rate 0.1, down 0.1, up 0.15, comment 0.25, reply 0.2, return 0.2 summing to 1, unit modifiers, boost 1.5, level 3 |
| WpdiscuzStates.PostAdaptBefore | src/cr_kyoushi/statemachines/wordpress_wpdiscuz/states.py:219-248 | voting is possible exactly when another author commented, rating exactly when the post is unrated, replying exactly when some such comment is within the level limit; commenting and returning keep their modifiers, and an unreadable level makes the step fail |
| WpdiscuzStates.ReplyCandidates | src/cr_kyoushi/statemachines/wordpress_wpdiscuz/states.py:238-248 | the reply candidates are non-empty exactly when some comment by others passes the level check |
| WpdiscuzStates.ReplyImpliesVotes | src/cr_kyoushi/statemachines/wordpress_wpdiscuz/states.py:222-248 | whenever replying is enabled, up- and down-voting are enabled too |
| WpdiscuzStates.ShallowCommentEnablesReply | src/cr_kyoushi/statemachines/wordpress_wpdiscuz/states.py:238-248 | a comment naming a level within the limit enables replying |
| BetaStates.ListedMembers | src/cr_kyoushi/statemachines/beta_user/states.py:65-90 | an activity's entry transition is listed exactly when that activity is configured |
| BetaStates.ListedOrdered | src/cr_kyoushi/statemachines/beta_user/states.py:65-90 | listed activities keep the fixed order horde, owncloud, ssh_user, web_browser, wp_editor, wpdiscuz |
| BetaStates.New | src/cr_kyoushi/statemachines/beta_user/states.py:65-115 | idle comes first with its weight, then exactly the configured activities in the fixed order with their weights; counters start at 0, each maximum is the configured one or 0 when unset, and the state is dated today |
| BetaStates.Reset | src/cr_kyoushi/statemachines/beta_user/states.py:117-121 | reset restores the initial modifiers and zeroes every counter, keeping transitions, weights and maxima |
| BetaStates.AdaptBefore | src/cr_kyoushi/statemachines/beta_user/states.py:123-131 | on a new day the day is stored and the state reset; on the same day nothing changes |
| BetaStates.AdaptAfter | src/cr_kyoushi/statemachines/beta_user/states.py:133-143 | selecting an activity increments its counter alone and zeroes its modifier once the counter reaches the maximum; every other modifier stays, and selecting idle changes nothing |
| BetaStates.IndexOf | src/cr_kyoushi/statemachines/beta_user/states.py:138-143 | the position found for an activity holds its entry transition, and none is found only when the activity is not listed |
| BetaStates.NewKeepsInvariant | src/cr_kyoushi/statemachines/beta_user/states.py:98-115 | a freshly built selection state disables every activity that reached its maximum and no counter exceeds max(maximum, 1) |
| BetaStates.ResetKeepsInvariant | src/cr_kyoushi/statemachines/beta_user/states.py:117-121 | a reset state satisfies the same cap invariant |
| BetaStates.StepKeepsInvariant | src/cr_kyoushi/statemachines/beta_user/states.py:123-143 | every selection the engine can draw keeps the cap invariant, so no activity is entered more than max(maximum, 1) times a day |
| BetaStates.ZeroCapAllowsOne | src/cr_kyoushi/statemachines/beta_user/states.py:107-143 | an activity with maximum 0 (or unset) can still be entered once on a fresh day and is disabled right after |
| BetaMachine.Entries | src/cr_kyoushi/statemachines/beta_user/sm.py:694-757 | an activity gets its entry transition exactly when it is built: its weight is positive and both its user and its states configuration are present |
| BetaMachine.LoadedList | src/cr_kyoushi/statemachines/beta_user/sm.py:692-757 | the list of loaded activities holds exactly the built ones |
| BetaMachine.LoadedInOrder | src/cr_kyoushi/statemachines/beta_user/sm.py:703-757 | the loaded activities are listed in building order horde, owncloud, ssh_user, web_browser, wp_editor, wpdiscuz |
| BetaMachine.PreVpn | src/cr_kyoushi/statemachines/beta_user/sm.py:612-620 | a wrapped activity gets a `vpn_connected` state under its prefix that runs the original entry, and a `vpn_connect` transition into that state |
| BetaMachine.ConfigureVpn | src/cr_kyoushi/statemachines/beta_user/sm.py:622-686 | configuring the VPN fails exactly without a VPN config; otherwise the built entries stay built, absent ones stay absent, and unwrapped ones are unchanged |
| BetaMachine.VpnStateFor | src/cr_kyoushi/statemachines/beta_user/sm.py:642-677 | a `vpn_connected` state under an activity's prefix is added exactly when that activity is wrapped, and then it runs the original entry |
| BetaMachine.VpnWrapping | src/cr_kyoushi/statemachines/beta_user/sm.py:642-686 | an entry goes through the VPN exactly when it is built and the VPN is eager or the activity opts in; its new transition targets the added state, which runs the original entry |
| BetaMachine.SharedVpnConnect | src/cr_kyoushi/statemachines/beta_user/sm.py:641 | every wrapped entry runs the same VPN connect action |
| BetaMachine.RoutedEntries | src/cr_kyoushi/statemachines/beta_user/sm.py:766-791 | with the VPN disabled the entries pass through unchanged and no state is added; otherwise they are VPN-configured |
| BetaMachine.Build | src/cr_kyoushi/statemachines/beta_user/sm.py:688-845 | building fails exactly when the VPN is enabled without a VPN config |
| BetaMachine.BuildSelection | src/cr_kyoushi/statemachines/beta_user/sm.py:793-834 | the machine starts in `selecting_activity`, which lists idle first and exactly the built activities, with zero counters and each activity's maximum taken from its user configuration or 0 when that is absent |
| BetaMachine.NoVpnPassThrough | src/cr_kyoushi/statemachines/beta_user/sm.py:766-791 | without the VPN building always succeeds and adds no VPN state |
| AttackPhase.Flatten | src/cr_kyoushi/statemachines/aecid_attacker/states.py:47-52 | a step's transition list starts with its own transition |
| AttackPhase.FlattenCount | src/cr_kyoushi/statemachines/aecid_attacker/states.py:47-52 | a forest of steps flattens to exactly one transition per step |
| AttackPhase.FlattenAllConcat | src/cr_kyoushi/statemachines/aecid_attacker/states.py:112-113 | flattening two forests one after the other is flattening their concatenation |
| AttackPhase.CountPositive | src/cr_kyoushi/statemachines/aecid_attacker/states.py:117-130 | a phase has steps left exactly when its list of available steps is non-empty |
| AttackPhase.ConvertAll | src/cr_kyoushi/statemachines/aecid_attacker/states.py:103-105 | each root step is converted to one step transition |
| AttackPhase.ConvertFlatten | src/cr_kyoushi/statemachines/aecid_attacker/states.py:84-90 | conversion keeps the tree: the converted forest flattens to one transition per step, in pre-order, named after the step and leading back to the target |
| AttackPhase.NewPhase | src/cr_kyoushi/statemachines/aecid_attacker/states.py:93-105 | a phase holds one converted step per root step and the given next-phase transition |
| AttackPhase.NewPhaseTransitions | src/cr_kyoushi/statemachines/aecid_attacker/states.py:107-115 | a new phase lists the next-phase transition if any, then one transition per step in pre-order, and every step transition loops back to the phase |
| AttackPhase.Pick | src/cr_kyoushi/statemachines/aecid_attacker/states.py:120-125 | drawing a step removes it from the available steps and appends its children |
| AttackPhase.PickConserves | src/cr_kyoushi/statemachines/aecid_attacker/states.py:120-126 | a draw removes exactly the drawn step's transition from those still to run, and one step fewer remains |
| AttackPhase.FlattenPick | src/cr_kyoushi/statemachines/aecid_attacker/states.py:120-125 | after a draw the transitions still to run are those before and after the drawn tree, then its children's |
| AttackPhase.Next | src/cr_kyoushi/statemachines/aecid_attacker/states.py:117-130 | with steps available the drawn step's transition is returned and its children take its place; with none left the next-phase transition is returned and nothing changes |
| AttackPhase.NextListed | src/cr_kyoushi/statemachines/aecid_attacker/states.py:107-130 | every transition a phase returns is one it lists |
| AttackPhase.Drawn | src/cr_kyoushi/statemachines/aecid_attacker/states.py:117-126 | a run of draws returns one step per draw |
| AttackPhase.RunConserves | src/cr_kyoushi/statemachines/aecid_attacker/states.py:117-126 | along any run the transitions returned plus those still to run are exactly the phase's step transitions, and each draw removes one step |
| AttackPhase.RunBounded | src/cr_kyoushi/statemachines/aecid_attacker/states.py:117-126 | a phase makes at most as many draws as it has steps |
| AttackPhase.RunDrains | src/cr_kyoushi/statemachines/aecid_attacker/states.py:117-130 | after as many draws as steps nothing remains, every step transition was returned exactly as often as listed, and the next call hands over to the next phase |
| AttackPhase.FirstAlwaysFeasible | src/cr_kyoushi/statemachines/aecid_attacker/states.py:117-126 | a run never gets stuck while steps remain |
| AttackPhase.ParentFirst | src/cr_kyoushi/statemachines/aecid_attacker/states.py:117-126 | in any run each drawn step is a root or a child of a step drawn before it |
| AttackPhase.DrawnWithin | src/cr_kyoushi/statemachines/aecid_attacker/states.py:117-126 | a run starting from steps of a set closed under children only draws steps of that set |
| AttackPhase.ReconTransitions | src/cr_kyoushi/statemachines/aecid_attacker/states.py:136-185 | the network recon phase lists its four scans in pre-order (DNS brute force, intranet discovery, service scan, DMZ discovery), each leading back to the phase |
| AttackPhase.ReconShape | src/cr_kyoushi/statemachines/aecid_attacker/states.py:146-185 | the DNS brute force unlocks the intranet discovery, which unlocks the service scan; the DMZ discovery stands alone |
| AttackPhase.ReconOrder | src/cr_kyoushi/statemachines/aecid_attacker/states.py:136-185 | whatever the draws, the service scan runs only after the intranet discovery, and the intranet discovery only after the DNS brute force |
| AttackPhase.WaitChoice | src/cr_kyoushi/statemachines/aecid_attacker/states.py:245-264 | the reverse shell is awaited exactly when the current time has reached the escalation time |
| AttackPhase.WaitMonotone | src/cr_kyoushi/statemachines/aecid_attacker/states.py:263-264 | once the escalation branch is taken it is taken at every later time |
| AttackPhase.NewCrackChoice | src/cr_kyoushi/statemachines/aecid_attacker/states.py:267-281 | offline cracking gets probability p and the hash cracker 1 - p, summing to 1, both probabilities exactly when p lies in [0, 1] |
| AttackerConfig.NoSlash | src/cr_kyoushi/statemachines/aecid_attacker/config.py:203-208 | the admin-ajax path is accepted unchanged exactly when it is non-empty and does not start with a slash |
| AttackerConfig.DefaultAdminAjaxValid | src/cr_kyoushi/statemachines/aecid_attacker/config.py:129-132 | the default path passes its own check |
| AttackerConfig.CheckDelta | src/cr_kyoushi/statemachines/aecid_attacker/config.py:268-272 | a negative relative time is rejected; points in time and other relative times pass unchanged |
| AttackerConfig.DefaultStartsValid | src/cr_kyoushi/statemachines/aecid_attacker/config.py:294-308 | both default start times pass the check |
| AttackerConfig.ToSteps | src/cr_kyoushi/statemachines/aecid_attacker/states.py:220-226 | each command tree becomes exactly one attack-step tree |
| AttackerConfig.ToStepsNames | src/cr_kyoushi/statemachines/aecid_attacker/states.py:294-300 | converting commands to steps keeps every command name at its pre-order position |
| AttackerConfig.DefaultEscalateTree | src/cr_kyoushi/statemachines/aecid_attacker/config.py:251-265 | the default escalation commands form three roots and five steps, with the shadow and root-home reads waiting for the sudo check |
| AttackerActions.TracerouteArgs | src/cr_kyoushi/statemachines/aecid_attacker/actions.py:198-205 | the traceroute command line is the executable followed by the host, nothing else |
| AttackerActions.NmapScanArgs | src/cr_kyoushi/statemachines/aecid_attacker/actions.py:212-255 | the nmap host and service scans run the executable, the scan option, the extra arguments and then the networks, each part in place |
| AttackerActions.DnsBruteArgs | src/cr_kyoushi/statemachines/aecid_attacker/actions.py:262-291 | the DNS brute force runs the executable, the extra arguments, the dns-brute script with its domain argument, then the DNS servers |
| AttackerActions.DnsBruteDomain | src/cr_kyoushi/statemachines/aecid_attacker/actions.py:279-288 | when the executable and extra arguments name no domain, the domain nmap reads from the command line is the configured one |
| AttackerActions.WpscanArgs | src/cr_kyoushi/statemachines/aecid_attacker/actions.py:298-322 | the wpscan command line is the executable, the extra arguments, then `--url` and the URL |
| AttackerActions.TargetUrl | src/cr_kyoushi/statemachines/aecid_attacker/actions.py:315-319 | a command line names a target exactly when it ends in `--url` and a value, and the target is that value |
| AttackerActions.WpscanTargets | src/cr_kyoushi/statemachines/aecid_attacker/actions.py:298-322 | whatever the extra arguments, wpscan targets the configured URL |
| AttackerActions.DirbArgs | src/cr_kyoushi/statemachines/aecid_attacker/actions.py:329-349 | the dirb command line is the executable, the URLs, the word lists, then the extra arguments, each part in place |
| AttackerActions.AjaxEndpoint | src/cr_kyoushi/statemachines/aecid_attacker/actions.py:405 | the upload endpoint is the WordPress URL, one slash and the relative admin-ajax path, with no doubled slash when the path passed its check |
| AttackerActions.DefaultEndpoint | src/cr_kyoushi/statemachines/aecid_attacker/actions.py:390-405 | with the default path the endpoint is `<url>/wp-admin/admin-ajax.php` |
| AttackerActions.ShellName | src/cr_kyoushi/statemachines/aecid_attacker/actions.py:407-408 | the uploaded file is the configured image name, or the jpeg's stem when that name is missing or empty, with `.php` appended |
| AttackerActions.EmptyImageNameUsesStem | src/cr_kyoushi/statemachines/aecid_attacker/actions.py:407 | an empty image name falls back to the stem, just like a missing one |
| AttackerActions.PlainHttpRejectedAsWritten | src/cr_kyoushi/statemachines/aecid_attacker/actions.py:490-508 | the URL pattern as written rejects every plain-HTTP upload location, while the corrected pattern accepts it |
| AttackerActions.SchemeMatchesWidens | src/cr_kyoushi/statemachines/aecid_attacker/actions.py:492 | the corrected pattern accepts every URL the written one does, and URLs with either scheme |
| AttackerActions.MaxAttempts | src/cr_kyoushi/statemachines/aecid_attacker/actions.py:677-705 | a request makes one attempt plus one per allowed retry (10 with the default limit 9) |
| AttackerActions.SendRequest | src/cr_kyoushi/statemachines/aecid_attacker/actions.py:670-710 | the request succeeds exactly when one of its allowed attempts gets through, and then at the first such attempt; every earlier attempt hit a connection error, the c-th error is followed by a c-second sleep, and a failed request used every allowed attempt |
| AttackerActions.ExecWebShellCommand | src/cr_kyoushi/statemachines/aecid_attacker/actions.py:713-751 | the command is sent to the uploaded web shell; the action fails exactly when there is none or when every allowed attempt of its request hits a connection error, and without a shell it raises the missing-shell error |
| AttackerActions.LastRetrySuffices | src/cr_kyoushi/statemachines/aecid_attacker/actions.py:695-705 | with the retry limit n, a command whose first n attempts hit connection errors still goes through, and one whose attempt n errs as well fails |
| AttackerActions.DownloadCmd | src/cr_kyoushi/statemachines/aecid_attacker/actions.py:570-572 | the archive download is `wget <url>`, with `-O <name>` appended exactly when a download name is set |
| AttackerActions.HashCrackCall | src/cr_kyoushi/statemachines/aecid_attacker/actions.py:555-632 | without a web shell the call fails and sends nothing; otherwise it sends the download, unpacks the archive under the download name (the file name when unset), fetches the word list and runs the cracker against the attacked user, stopping with a connection error at the first request whose every attempt fails; the download name is set exactly when the download got through, even when a later request fails |
| AttackerActions.HashCrackUnpacksDownload | src/cr_kyoushi/statemachines/aecid_attacker/actions.py:569-592 | when a download name is set, the archive unpacked (if the run gets that far) is the one the download saved |
| AttackerActions.HashCrackSettles | src/cr_kyoushi/statemachines/aecid_attacker/actions.py:585-592 | a run whose download failed leaves the settings alone; once a download got through the settings are fixed: later runs send the same commands as far as they get, the download now saving under the file name |
| AttackerTimes.ToDatetime | src/cr_kyoushi/statemachines/aecid_attacker/sm.py:42-45 | a relative time is added to the base, a point in time is kept as is |
| AttackerTimes.StartTimes | src/cr_kyoushi/statemachines/aecid_attacker/sm.py:62-63 | the attack starts relative to now, and escalation is due relative to the attack start |
| AttackerTimes.CheckedDeltasOrdered | src/cr_kyoushi/statemachines/aecid_attacker/sm.py:62-63 | with relative times that passed validation, the attack never starts before now and escalation never before the attack start |
| AttackerTimes.DefaultTimesAreNow | src/cr_kyoushi/statemachines/aecid_attacker/sm.py:62-63 | with the default times the attack starts now and escalation is due right away |
| AttackPhase.Lookup | src/cr_kyoushi/statemachines/aecid_attacker/states.py:245-261 | a keyword argument is found exactly when it was passed, and then with the value it was passed |
| AttackPhase.BindWaitChoice | src/cr_kyoushi/statemachines/aecid_attacker/states.py:245-261 | constructing the wait choice fails exactly when an undeclared keyword is passed or a branch is missing; otherwise its two branches are the values passed for them |
| AttackerMachine.States | src/cr_kyoushi/statemachines/aecid_attacker/sm.py:158-254 | the factory lists fourteen states |
| AttackerMachine.BuildWith | src/cr_kyoushi/statemachines/aecid_attacker/sm.py:191-196 | building fails exactly when binding the wait choice's keywords fails |
| AttackerMachine.AsWrittenBuildFails | src/cr_kyoushi/statemachines/aecid_attacker/sm.py:191-196 | passing the VPN pause under `vpn_disconnect` makes building fail for every configuration and start time |
| AttackerMachine.BuildBinds | src/cr_kyoushi/statemachines/aecid_attacker/sm.py:158-256 | the corrected factory binds the escalation branch to the reverse-shell listener and the other branch to the VPN pause, with the computed start time |
| AttackerGraph.PhaseResolves | src/cr_kyoushi/statemachines/aecid_attacker/states.py:93-130 | every transition of an attack phase leads back to the phase or to the next phase's target |
| AttackerGraph.StatesResolve | src/cr_kyoushi/statemachines/aecid_attacker/sm.py:65-254 | every transition of every state leads to a state of the machine |
| AttackerBuilt.StatesNamed | src/cr_kyoushi/statemachines/aecid_attacker/sm.py:160-254 | the states carry their listed names in order, and only "end" is final |
| AttackerBuilt.BuildResolves | src/cr_kyoushi/statemachines/aecid_attacker/sm.py:158-256 | the corrected build succeeds for every configuration, starts at "initial", lists the fourteen states, every transition leads to one of them, "end" is the only final state, and the wait choice branches to the listener or the VPN pause |
| AttackerMachine.StateNamesDistinct | src/cr_kyoushi/statemachines/aecid_attacker/sm.py:239-254 | the state names are pairwise distinct, so a target names exactly one state |
| AttackerBuilt.WaitChoiceTiming | src/cr_kyoushi/statemachines/aecid_attacker/sm.py:62-63 | in the built machine the wait choice escalates exactly once the escalation time has come, and with the default times at once |
| AttackerBuilt.EscalationEnds | src/cr_kyoushi/statemachines/aecid_attacker/sm.py:228-233 | with the default commands the escalation phase has five steps and, once all are drawn, leaves through the VPN disconnect |

## Left out

- The simulation engine itself is not part of this model. That covers weighted sampling,
  `normalize_propabilities`, `now`, `sleep` and `sleep_until`, and the base classes of the
  states. The engine's order is assumed to be `adapt_before`, then sampling, then `adapt_after`,
  then the state's own `next` logic. The sampled position and the clock are parameters.
- Selenium and DOM work (`*/nav.py`, `*/wait.py`, the page actions) is not modelled. Its results
  (counts, flags, the current directory, the content id, the window handles, the scroll offset)
  enter as parameters.
- The working directory is not modelled. `Path.absolute()` on the ssh key paths is the
  parameter `absolute` of `SshActions.ConnectArgs`.
- The sleep after a finished ssh command is left out with the clock. The command's `idle_after`
  is carried through the configuration, but `SshActions.FinishCommand` only drops the command.
- WebBrowser.NewSelection: the engine's check of `allow_uneven_probabilites=False` is taken to
  be an exact sum of 1. The engine is not part of this model.
- Processes, pseudo-terminals, sockets, HTTP and VPN connections are not modelled. That covers
  `execute`/`read_output`, the ssh process and its password loop, the upload request, the
  reverse shell and `beta_user/actions.py`. Of `send_request` only the attempt count, the sleeps
  and whether it returns or raises are modelled; which attempts hit a connection error is a
  parameter.
- Regular expressions (the ssh, sudo and attacker prompt patterns) are opaque predicates
  `string -> bool`. The one exception is the comment-level pattern, which is modelled as the
  greedy match it is, with `\d` narrowed to the ASCII digits (next two lines).
- WpdiscuzActions.CommentIsMaxLevel: reads only ASCII digits after the marker. Python's `\d` and
  `int()` also accept the other Unicode decimal digits, so `"wpd_comment_level-٣"` with the
  limit 5 is read as level 3 and passes in the source, but fails in the model as an empty run.
  The Unicode digit table is not modelled.
- WpdiscuzActions.GetComments: inherits that narrowing. A comment whose level is written in
  non-ASCII decimal digits makes the model's call fail, where the source reads the level.
- WpdiscuzActions.WriteComment: the lookups of the text area inside the editor and of the
  logged-in author link are taken to succeed, and the submission's outcome and the scroll wait
  are not modelled.
- `encode_cmd` (JSON and Base64 from section 4 of RFC 4648) and `decode_response` (HTML parsing)
  are not modelled. Neither is URL parsing (RFC 3986): the scheme of a link is a parameter of
  `WebBrowser.HttpLinks`.
- Weights and modifiers are `real`. IEEE rounding is not modelled, including whether a float sum
  equals exactly 1.0 in the probability-configuration check.
- Selenium.Upper: upper-cases ASCII letters only. Python's `str.upper` also maps other
  characters, some of them onto ASCII letters: `'ﬁ'` becomes `"FI"` and `'ı'` becomes `"I"`.
- Selenium.ValidateDriver: rejects strings that reach a driver name only through such non-ASCII
  case mappings, such as `"ﬁrefox"` or `"chromıum"`. The source accepts them.
- Selenium.GetNewWindow: returns the first new handle in list order. The source pops an
  arbitrary element of a set, so the model only promises that some new handle is returned.
- OwncloudGather.SharableUsers: models only the set of remaining users. The renormalisation of
  their weights by an engine helper is left out.
- The builder and wiring files (`*/activities.py`, and every `sm.py` except the attacker's and
  the beta user's) are not modelled, and neither is `FakerStatemachine`. Faker content,
  `get_title` and delays drawn from approximate floats are left out as well.
- State name prefixes are kept as a pair of prefix and name (`BetaMachine.QName`). The string
  format the engine joins them into is not modelled.
- The weighted states that have no logic of their own are covered only by the engine view, with
  no separate model. These are horde's `MailView`, `MailInfo`, `AdminPage`, `NoteEditor` and
  `LoggedInCheck`, and the attacker's sequential states.
- The web browser's `Idle` state repeats the core `Idle`, so `CoreIdle` models both.
  `background_website` and `close_website` only drive the browser and are not modelled.
- Attacker times are whole seconds. `_check_delta` (aecid_attacker/config.py:268-272) compares
  `total_seconds()`, so it also rejects sub-second negative deltas such as
  `timedelta(microseconds=-1)`, which the model cannot express.
- Exceptions are modelled as `Failure` results. Assertions that only guard a state reached in
  the wrong order are not: `Connected.adapt_before` asserts a selected host (ssh_user/states.py:119),
  which `SshStates.ConnectedAdaptBefore` takes as given through its chain count, since `SelectHost`
  always sets the host before `Connected` is entered. The partial changes an action makes to its
  context before it raises are modelled only where the source relies on them: the website
  counter of `VisitWebsite`, the depth of `OpenLink` and the download name of `WPHashCrack`.
- `UploadWebShell`: only the endpoint, the file name and the scheme of the reconstructed shell
  URL are modelled. The rest of the pattern and the request are left out.

### How the code behaves where it might be expected to differ

- The state-machine engine is an external package. Only its interface is modelled.
- A failed action can change the context before it raises: `OpenLink` counts the depth even
  when the link fails to load, and `WPHashCrack` fixes its download name once the download got
  through. `VisitWebsite` takes its count back before raising.
- A wrong keyword in the attacker factory is only caught as a Python type error when the
  machine is built (see Findings).
- Transitions with weight 0 are legal: `UploadMenu`'s `new_file` and every disabled modifier.
- `beta_user/sm.py` reads a `vpn` field and a per-activity `max_daily`. The configuration classes
  shown (`beta_user/config.py`, the horde and web browser configurations) declare neither. The
  model follows `sm.py` and takes both as configuration inputs.

## Findings

| source | as written | input that shows it | evidently intended | confidence | as-written member | corrected member |
|---|---|---|---|---|---|---|
| src/cr_kyoushi/statemachines/aecid_attacker/sm.py:191-196 | the wait choice is built with the keyword `vpn_disconnect=vpn_pause`, but `WaitChoice.__init__` (states.py:245-253) declares `decide_cracking_method` and takes no other keywords | any configuration: `build` raises a type error before any state machine exists | pass the VPN pause as `decide_cracking_method=vpn_pause` | high, not executed | AttackerMachine.AsWrittenBuildFails | AttackerBuilt.BuildResolves |
| src/cr_kyoushi/statemachines/aecid_attacker/actions.py:492 | the shell URL pattern starts with `http[s]:\/\/`; the bracket admits exactly one `s`, so only `https://` URLs match | a WordPress at `http://intranet/`: the upload location `http://intranet/wp-content/uploads/...` does not match, and the upload is reported as an error (line 508) | `https?:\/\/`, accepting both schemes | medium, not executed | AttackerActions.PlainHttpRejectedAsWritten | AttackerActions.SchemeMatchesWidens |
| src/cr_kyoushi/statemachines/wordpress_wpdiscuz/actions.py:384 | the guard `check_post_page(driver) and CheckCommentWriter(parent_cid, cid)` constructs the writer check but never applies it to the driver; the object has no `__bool__` or `__len__` (wait.py:195-229), so it is always true | a reply on a post page whose thread editor is not rendered: `find_element_by_id("wpd-editor-<cid>_<parent>")` at line 385 raises instead of the error being logged | `CheckCommentWriter(parent_cid, cid)(driver)`, applied to the driver as `check_post_page(driver)` beside it is | high, not executed | WpdiscuzActions.UncalledWriterCheck | WpdiscuzActions.WriteComment |

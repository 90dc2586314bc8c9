# obsctl: verified core

obsctl is a daemon that keeps one OBS Studio connection, caches what OBS reports, applies a user's
config to it and answers many clients over a local socket. This project models the parts of it where
several things happen at once or where one pass has to agree with another, and proves what they promise.

`dafny verify dfyconfig.toml` checks everything. One module per file:

| file | models |
|---|---|
| `Names`, `Decimal`, `Wrappers`, `Errors` | usable names and name equality, numerals, shared types |
| `ConfigModel`, `Schema` | the config document, scene visibility, validation |
| `Aliases`, `Listings`, `Dump`, `Resolution` | alias rules, OBS listings, the dump merge, target resolution, and how they compose |
| `Snapshots`, `StateStore` | the cached snapshot as a value, and the store that is updated in place |
| `RefreshProtocol` | the steps of OBS, the event pump, the refresh worker and the other writers on one store |
| `RefreshFields`, `RefreshFence` | what events do to single fields, and when a refresh leaves the store current |
| `RefreshOverlap`, `RefreshLists`, `RefreshLinks` | two refreshes at once, wake-ups that must not be lost, and the connection mark |
| `SceneProfiles`, `ConfigEdits`, `ConfigRaces` | scene-profile edits, the commands that rewrite the config file, and those commands racing |
| `ConfigViews` | the config clients see, with commands and refreshes both writing it |
| `Codec`, `Sessions`, `Lanes` | framing, replies, per-connection lanes and the shutdown drain |
| `ObsClient` | matching OBS responses to requests |
| `Parser` | the palette's command line and its inverse |
| `Reconnect` | the reconnect policy |

Code that updates fields in place is a class whose methods are proved against functions on values;
protocols are step relations in which each section that holds a lock is one step, and theorems about
them range over every run. Where a method and a function describe the same operation, the function is
what lemmas talk about and the method's contract ties the loop or the field updates to it.

## Where a promise fails

The code is what is modelled. Where a natural promise turned out false of it, a lemma gives the
failing family and another gives the condition under which it holds. The first three contradict the
code's own comments.

- `FrameReader::next_frame` documents its empty answer as a close between frames. It is also the
  answer when the peer leaves half a frame behind that an earlier, dropped call had read
  (`Codec.HalfFrameMistakenForClose`); which answer is given depends only on whether the last call
  read anything (`Codec.CloseMeaning`).
- The quoted mark of a token is documented as a quote having taken part in it. An empty pair of quotes
  marks the next token (`Parser.EmptyQuotesLeak`).
- A bounded reconnect policy is documented to stop once the delay tops out. The exponent is the
  unsigned attempt counter read as a signed number, so a delay that has not topped out by exponent
  2^31 - 1 never does (`Reconnect.StopsExactlyWhen`, `Reconnect.SlowGrowthNeverStops`).
- White space after a palette prefix is no longer trimmed, and a second prefix after it no longer stripped,
  so some commands parse without the prefix and not with it (`Parser.PrefixDoesNotMatter`, exactly when).
- The dump refuses an alias that would shadow another OBS scene. It compares folded names, so when OBS
  lists two names that differ only in case, the exact name of one can resolve to the other
  (`Resolution.ShadowedVariant`, `Resolution.ExactNameCondition`).
- A rename of the live scene, profile or collection is announced only as a list change, and a rename of
  an input as an event obsctl does not know, so the cached name is old until some later refresh
  (`RefreshFence.RenameUnannounced`, `RefreshFence.InputRenameUnannounced`).
- A failed refresh is logged and not retried, so the wake-up it answered is lost
  (`RefreshLists.FailedFetchLosesWakeUp`; exactly when, `RefreshLists.StepExactLists`).
- A refresh on connecting that overlaps the worker's can defeat the counter
  (`RefreshOverlap.OverlappingRefreshesDefeatFence`; exactly when, `RefreshFence.SwapExact`).
- A refresh that read the config before an edit publishes the old one after it, and if the follow-up
  fails clients keep seeing it (`ConfigViews.StaleConfigPublished`; exactly when,
  `ConfigViews.SwapViewExact` and `ConfigViews.StepExact`).
- A refresh that finishes after the connection was marked lost says OBS is connected again. It finds that
  it was overtaken and asks for another, which fails on the lost connection
  (`RefreshLinks.LostConnectionRevived`; exactly when, `RefreshLinks.MarkSurvives`).
- An input OBS creates appears without the alias and shortcut the config has for it
  (`Snapshots.MergeCommutesWithEvent`, `ConfigViews.OtherWriteView`).
- A dump that cannot read its own file back reports success with a note, and leaves file and memory
  disagreeing (`ConfigRaces.FailedReadBackDiverges`).

## Model

| member | source | states |
|---|---|---|
| `Names.CheckedNameFixpoint` | src/domain/names.rs:78-86 | the name check accepts exactly the usable names (no control character, no outer white space, 1 to 256 characters) unchanged, so checking twice is checking once |
| `Names.CheckedIsUsable` | src/support/validation.rs:142-157 | whatever text the check is given, what it lets through is usable |
| `Names.NormalizedIdempotent` | src/domain/names.rs:88-90 | a normalized name is usable, is its own normal form, and does not depend on outer white space |
| `Names.TrimCuts` | src/support/validation.rs:142-157 | trimming returns a stretch of the text with only white space around it and none at its ends |
| `Names.SameNameMeaning` | src/domain/names.rs:78-90 | two spellings are one name exactly when both pass the check and, white space around them aside, differ at most in the case of ASCII letters |
| `Names.CheckedMeaning` | src/support/validation.rs:142-157 | what the check answers: control characters anywhere, nothing but white space, too long once trimmed, or else the trimmed text |
| `Decimal.ParseOfPrint` | src/domain/parser.rs:448-450 | every 64-bit number is read back from its printed form |
| `Decimal.ParseForms` | src/domain/parser.rs:448-450 | leading zeros and one plus sign make no difference, and nothing else but a numeral below 2^64 is a number |
| `Aliases.EnsureUniqueAliasesAndShortcuts` | src/domain/aliases.rs:47-73 | the two-set loop agrees with the recursive check on every claim list, including which claim is reported first |
| `Aliases.UniqueClaimsMeansDistinct` | src/domain/aliases.rs:47-73 | the check passes exactly when every alias and shortcut is usable and no two aliases, and no two shortcuts, are the same name |
| `Aliases.UniqueCaseInsensitiveMatch` | src/domain/aliases.rs:170-190 | the loop that keeps a candidate and reports a second one agrees with the recursive form |
| `Aliases.UniqueMatchMeaning` | src/domain/aliases.rs:170-190 | no match, one match and ambiguity mean no, exactly one and at least two matching entries, and the one match is the entry returned |
| `Aliases.ResolveMeetsPriority` | src/domain/aliases.rs:121-162 | on any well-formed table the answer is the one the priority rules allow: exact shortcut, alias, name, then folded alias, folded name, then row number; the alias round is never ambiguous |
| `Aliases.PriorityIsFunctional` | src/domain/aliases.rs:79-90 | the priority rules allow at most one answer, so they determine resolution |
| `Aliases.ResolvePermutation` | src/domain/aliases.rs:121-162 | reordering the entries changes the answer only when resolution falls through to row numbers |
| `Aliases.ExactFirst` | src/domain/aliases.rs:133-137 | an exactly spelled shortcut finds its entry, failing any an exactly spelled alias, failing any an exactly spelled name |
| `Aliases.FoldedNext` | src/domain/aliases.rs:139-145 | what nothing answers exactly an alias answers up to case, and then a name, unless two names do, which is ambiguous |
| `Aliases.RowNumberMeaning` | src/domain/aliases.rs:147-161 | what nothing answers names a scene by its row if it is all digits and from 1 to the number of rows, and otherwise, or of an audio input, is reported as not found |
| `Aliases.PrintedRowNumber` | src/domain/aliases.rs:147-158 | the printed number of a row finds that row |
| `Aliases.UnreadableRow` | src/domain/aliases.rs:170-190 | a row with an unusable spelling stops the scan with its error, unless two rows before it already made it ambiguous |
| `Aliases.FirstBadClaim` | src/domain/aliases.rs:47-73 | a refused list is refused for its first claim that repeats or is unusable, alias before shortcut, and says which and why |
| `ConfigModel.ProfilePosition` | src/server/command_executor.rs:984-1005 | the position found is the first profile of that name, and none is found only when no profile has it |
| `ConfigModel.VisibilityMeaning` | src/domain/scene_profiles.rs:58-85 | a scene is hidden exactly when the profile switched on lists its name, or, with none switched on, when a configured scene of its name is flagged hidden |
| `Schema.ValidateMeansValid` | src/config/schema.rs:26-40 | the section checks in order succeed exactly on configs whose settings are in range, whose names normalize, whose claims are distinct and whose scene profiles have distinct names |
| `Schema.FirstDuplicateMeaning` | src/config/schema.rs:254-270 | the duplicate check finds nothing exactly when the profile names are distinct under normalization |
| `Schema.FindDuplicateProfile` | src/config/schema.rs:254-270 | the loop over a seen-set finds the first duplicate, and none exactly when the names are distinct |
| `Schema.CollectHiddenWarnings` | src/config/schema.rs:272-313 | the nested loop warns about each hidden name no configured scene has, in order |
| `Schema.ValidateSceneProfiles` | src/config/schema.rs:254-313 | the whole profile check, duplicate error first and warnings in order |
| `Schema.WarningsMeaning` | src/config/schema.rs:254-313 | a valid config is warned of exactly an active profile nobody defined and, once scenes are configured, each hidden name that no configured scene has |
| `Schema.DuplicateExactly` | src/config/schema.rs:254-270 | a duplicate is found exactly when some profile has the name of an earlier one, unusable names aside |
| `Schema.BlamedProfile` | src/config/schema.rs:254-270 | a duplicate is reported by the spelling of the first profile that repeats an earlier one |
| `Schema.BlamedSetting` | src/config/schema.rs:26-40 | the setting a refusal names is the first bad one in the order of the check |
| `Schema.EntryNamesBlame` | src/config/schema.rs:218-252 | a refused name list is refused for its first unusable name and what is wrong with it |
| `Listings.CollectUniqueNames` | src/obs/validation.rs:53-85 | an OBS listing is accepted exactly when every name is its own checked form and none occurs twice; names that differ only in case pass |
| `Dump.MergeEntriesInPlace` | src/config/dump.rs:108-138 | the loop that restamps the old entries and pushes the new ones computes the merge, errors included and in the same order |
| `Dump.PushUndiscovered` | src/config/dump.rs:122-134 | the push loop appends one bare entry for each listed name no existing entry has, in listing order |
| `Dump.MergeKeeps` | src/config/dump.rs:108-138 | after one merge the old entries are an in-order prefix that lost nothing but their stale mark, the rest are bare, listed and new, every listed name has an entry, and stale is exactly absence from the listing |
| `Dump.MergeIdempotent` | src/config/dump.rs:108-138 | merging the same listing again succeeds and changes nothing |
| `Dump.MergeHistory` | src/config/dump.rs:28-35 | across any run of merges the first config's entries stay an in-order prefix with alias, shortcut, group and hidden intact, every name ever listed has an entry, and stale speaks of the last listing |
| `Dump.MergeKeepsValidity` | src/config/dump.rs:28-35 | merging into a config that validates gives a config that validates |
| `Dump.MergedEntriesValid` | src/config/dump.rs:108-165 | the entries of any successful merge have usable names and distinct claims |
| `Dump.DumpReconciles` | src/config/dump.rs:28-35 | a dump reconciles scenes and audio inputs alike (old entries in place with their settings, one bare entry per new name, every listed name present, stale exactly when unlisted) and leaves the rest of the config alone |
| `Dump.DumpTwice` | src/config/dump.rs:28-35 | dumping the same listings again changes nothing |
| `Dump.MergeAccepts` | src/config/dump.rs:108-165 | a merge goes through exactly when all names are usable, no alias or shortcut is claimed twice, and none is the name of something else OBS lists |
| `Dump.CollisionBlames` | src/config/dump.rs:140-165 | a colliding entry is refused for an unusable name, or for its alias or else its shortcut, with the text that collides |
| `Dump.UndiscoveredInOrder` | src/config/dump.rs:122-134 | the names a merge adds are the undiscovered ones in listing order |
| `Snapshots.ReachableConsistent` | src/server/state_store.rs:45-59 | every snapshot reached by any run of writes from a consistent one is consistent: a scene is active exactly when it is current, input names are distinct, a published active profile is in the published list and its hidden list decides every scene's hidden flag |
| `Snapshots.WriteKeepsConsistent` | src/server/state_store.rs:204-221 | each kind of write keeps a consistent snapshot consistent |
| `Snapshots.FoldKeepsConsistent` | src/server/state_store.rs:452-549 | each OBS event keeps a consistent snapshot consistent |
| `Snapshots.ProjectionRules` | src/server/state_store.rs:45-59 | a projected active profile is in the projected list under its stored spelling, and its hidden list is the visibility |
| `Snapshots.MetricsSurvive` | src/server/state_store.rs:341-380 | over any run of writes the four metric fields are the last stats reading, or the ones the run began with if there was none |
| `Snapshots.MergeAfterBuild` | src/server/state_store.rs:310-324 | merging projection q into a snapshot built with any p is building with q directly |
| `Snapshots.MergeCommutesWithEvent` | src/server/state_store.rs:396-413 | a config merge commutes with folding an event, except exactly when the event creates an unknown input the config has an alias or shortcut for |
| `Snapshots.BuildShows` | src/server/state_store.rs:621-680 | a built snapshot has exactly the scenes and inputs fetched, with their mutes and levels, and shows what the config says of each: alias, shortcut, group, hidden, profiles |
| `Snapshots.MergeShows` | src/server/state_store.rs:310-324 | after a merge every row shows what the config says of it and keeps what OBS said |
| `Snapshots.VersionsSurvive` | src/server/state_store.rs:204-258 | over any run of writes the versions shown are those of the last connection mark or refresh |
| `RefreshFields.FoldInput` | src/server/state_store.rs:452-555 | what is known of an input changes exactly as the events about it say: created bare, removed, muted, its reported multiplier and decibels stored |
| `StateStore.Store.Commit` | src/server/state_store.rs:130-133 | a counted write bumps the 64-bit wrapping counter and publishes the snapshot |
| `StateStore.Store.ApplyFullRefresh` | src/server/state_store.rs:204-221 | the swap keeps the metrics, leaves the counter alone, publishes, and reports whether the counter moved since the refresh began |
| `StateStore.Store.MarkConnected` | src/server/state_store.rs:240-249 | the connection fields are set, counted and published, and nothing else changes |
| `StateStore.Store.MarkDisconnected` | src/server/state_store.rs:251-258 | the connection flag and error are set, counted and published, and nothing else changes |
| `StateStore.Store.UpdateStats` | src/server/state_store.rs:296-301 | metrics are written and published but not counted |
| `StateStore.Store.MergeConfigInto` | src/server/state_store.rs:310-324 | the two in-place loops compute the config merge; it is counted and published |
| `StateStore.Store.ProgramSceneChanged` | src/server/state_store.rs:493-502 | the scene switch in place is the fold of the event, and it reports a change exactly when there is one |
| `StateStore.Store.InputWasCreated` | src/server/state_store.rs:504-514 | a new input is appended with nothing known about it, a listed one is no change |
| `StateStore.Store.InputMuteChanged` | src/server/state_store.rs:524-535 | a known input's mute is set in place, and it reports a change exactly when the mute differed |
| `StateStore.Store.InputVolumeReported` | src/server/state_store.rs:538-555 | a known input's level is set in place and always reported as a change |
| `StateStore.Store.InputWasRemoved` | src/server/state_store.rs:516-522 | removing an input in place is the fold of the event, and it reports a change exactly when something was removed |
| `StateStore.Store.ApplyEvent` | src/server/state_store.rs:260-265 | any event in place is its fold; it is counted and published exactly when it counts as a change, and otherwise nothing moves |
| `Resolution.BuiltTables` | src/server/state_store.rs:69-71 | the lookup tables read off a built snapshot are the config's aliases and shortcuts found by exact name |
| `Resolution.ValidTable` | src/server/state_store.rs:684-698 | a valid entry list and an accepted listing always make a well-formed table |
| `Resolution.ValidatedResolution` | src/domain/aliases.rs:121-162 | with a config that validates and an accepted listing, scene resolution meets the priority rules, has no ambiguous alias, and depends on listing order only for row numbers |
| `Resolution.ValidatedAudioResolution` | src/domain/aliases.rs:101-103 | the same for audio inputs, where listing order never matters |
| `Resolution.MergedResolvesExactName` | src/config/dump.rs:140-165 | after a merge against a listing distinct up to case, resolving a listed name exactly finds that name's own row, whatever the user configured |
| `Resolution.DumpThenResolve` | src/server/state_store.rs:621-641 | dump, project onto the listing, build the snapshot, resolve an OBS scene's exact name: that scene is returned |
| `Resolution.ExactNameCondition` | src/domain/aliases.rs:121-162 | exact names resolve to their own rows for every user config if and only if the listing has no two case variants of one name |
| `Resolution.ShadowedVariant` | src/config/dump.rs:140-165 | with two case variants listed, an alias the merge accepts takes over the other variant's exact name |
| `RefreshFence.FenceSound` | src/server/snapshot_refresh.rs:58-103 | in any run from a state with nothing undelivered, if the snapshot with undelivered events folded in equals OBS when a refresh reads the counter, then for any interleaving of OBS changes, pumped events, other writers and a second refresh that does not publish meanwhile with its field-by-field reads, a refresh reported as not overtaken leaves it so (current scene, streaming, recording, profile, collection, input membership; mutes unknown or right) |
| `RefreshFence.SwapExact` | src/server/state_store.rs:204-221 | whoever swaps and however many refreshes overlap, a swap leaves a current store current if and only if every field and mute it fetched is OBS's or will be corrected by something undelivered |
| `RefreshFence.StepExact` | src/server/snapshot_refresh.rs:58-206 | for every step of OBS, pump, worker, connecting refresh or other writer, a current store stays current if and only if that step's condition holds; only swaps and renames have one |
| `RefreshFence.SettledRunsStayCurrent` | src/server/snapshot_refresh.rs:58-206 | so the store stays current over any run, with any overlap of refreshes, whose steps meet their conditions |
| `RefreshFence.StepKeepsMutesLive` | src/obs/event_decoder.rs:155-163 | every step but an input rename keeps undelivered mute events true of OBS, so the fence needs no premise about them |
| `RefreshFence.RefreshRun` | src/server/state_store.rs:204-221 | the invariant kept from the counter read to the counter check: while nothing was counted, each value read so far is what the undelivered events still lead to OBS's value from |
| `RefreshFence.StepKeepsRefreshInv` | src/server/snapshot_refresh.rs:58-103 | every single step inside the fence keeps that invariant |
| `RefreshFence.SwapKeepsCurrent` | src/server/state_store.rs:204-221 | swapping in a complete fetch with nothing counted since it began leaves the store behind OBS by the undelivered events only |
| `RefreshFence.StepKeepsCurrent` | src/server/snapshot_refresh.rs:178-206 | every step but a swap or a rename keeps the store behind OBS by nothing but the undelivered events |
| `RefreshFence.NoOpKeepsProgress` | src/server/state_store.rs:260-265 | an event applied without being counted leaves every value read so far still on its way to OBS's |
| `RefreshFence.RenameUnannounced` | src/obs/event_decoder.rs:150-185 | renaming the live scene, profile or collection is announced only as a list change: until the refresh that asks for, the store stays current exactly when the name did not change |
| `RefreshFence.CurrentMeans` | src/server/state_store.rs:452-489 | a store is current exactly when folding every undelivered event into the snapshot would make it agree with OBS in each field, membership and mute (a mute may be unknown) |
| `RefreshFence.InputRenameUnannounced` | src/obs/event_decoder.rs:186-191 | renaming an input arrives as an unrecognised event: nothing is folded and no refresh asked for, and the store stays current exactly when the name did not change |
| `RefreshFence.ObsAnnounces` | src/obs/event_decoder.rs:146-191 | every modelled OBS action but the renames announces in its event exactly what it changed, field by field and mute by mute |
| `RefreshOverlap.OverlappingRefreshesDefeatFence` | src/server/obs_supervisor.rs:319-328 | from any quiet state with a wake-up, a run in which every fetch is read step by step and a refresh made while connecting publishes inside the worker's fence ends with the old scene in place, the counter unmoved, nothing undelivered and no wake-up left |
| `RefreshProtocol.CounterExact` | src/server/state_store.rs:108-133 | two equal readings of the wrapping counter mean no counted write in between, within one lap |
| `RefreshProtocol.CounterFollows` | src/server/state_store.rs:130-133 | the wrapping counter moves by one with each counted write and with no other |
| `RefreshLists.NoLostWakeUp` | src/server/snapshot_refresh.rs:145-173 | in every run whose failed fetches and connecting refreshes are harmless where they happen, each name list is right in every reachable state, or its announcement is queued or in the pump's hand, or the nudge slot is full, or the running refresh has not read it or holds the current one |
| `RefreshLists.StepExactLists` | src/server/snapshot_refresh.rs:145-206 | for every step, that rule survives if and only if the step is harmless: a failed fetch exactly when the list was right or noticed, a connecting refresh exactly when it brings the right list or the wrong one is noticed or about to be corrected |
| `RefreshLists.SoleRefresherIsHarmless` | src/server/snapshot_refresh.rs:145-173 | with the worker as sole refresher and fetches succeeding every run is harmless |
| `RefreshLists.QuietListsRight` | src/server/snapshot_refresh.rs:145-206 | so an idle system has the right scene, profile and collection lists, however many announcements shared one refresh |
| `RefreshLists.FailedFetchLosesWakeUp` | src/server/snapshot_refresh.rs:168-170 | a failed fetch uses up the wake-up: from any state whose wrong list depended on one, an idle system with that list wrong is reached |
| `RefreshLinks.MarkSurvives` | src/server/state_store.rs:240-258 | after the last connection mark of any run, clients see it if and only if no refresh swapped after it or it says what every refresh says, connected with no error |
| `RefreshLinks.OverwrittenMarkNoticed` | src/server/state_store.rs:114-133 | a mark made while a refresh runs, within one lap of the counter, makes that refresh find itself overtaken and ask for another |
| `RefreshLinks.LostConnectionRevived` | src/server/snapshot_refresh.rs:145-173 | a run, with every read in it, in which a refresh finishes after the disconnect was marked, publishes connected, and its follow-up fails: an idle daemon says OBS is connected |
| `SceneProfiles.Draft.Set` | src/server/command_executor.rs:541-575 | the edit closure points at the stored spelling of the named profile or is refused and changes nothing |
| `SceneProfiles.Draft.Clear` | src/server/command_executor.rs:579-603 | the edit closure clears the pointer and nothing else |
| `SceneProfiles.Draft.SaveAs` | src/server/command_executor.rs:605-665 | the edit closure creates, replaces or renames as specified; created is exactly one more profile, renamed exactly a replaced row given a different name |
| `SceneProfiles.Draft.Delete` | src/server/command_executor.rs:704-735 | the edit closure removes the named row, and reports a deactivation exactly when the pointer changed |
| `SceneProfiles.EditKeepsDistinct` | src/server/command_executor.rs:541-735 | every edit that succeeds keeps profile names usable and distinct under normalization |
| `SceneProfiles.EditKeepsValidity` | src/server/command_executor.rs:505-508 | so the validation after an edit of a valid config never fails |
| `SceneProfiles.EditsStayValid` | src/config/schema.rs:254-270 | from a valid config no run of edits reaches one that validation would refuse |
| `SceneProfiles.PointerFollows` | src/server/command_executor.rs:541-735 | an active pointer that resolved moves to the target on set, stays on its row through save and rename, follows its row on delete, and stops resolving exactly on clear or on deleting its own row |
| `SceneProfiles.RenameInPlace` | src/server/command_executor.rs:625-655 | a rename keeps length and position, is refused exactly when another row has the new name, and then changes nothing |
| `SceneProfiles.SavedAsSent` | src/server/command_executor.rs:605-665 | after a save the name finds a row holding exactly what the client sent, in the place of the profile renamed or replaced or else at the end, and every other row is as it was |
| `SceneProfiles.EditRefusals` | src/server/command_executor.rs:541-735 | set and delete are refused exactly when nothing has the name, a save exactly when it would take another row's name, with the matching error |
| `SceneProfiles.EditTouchesOnly` | src/server/command_executor.rs:541-735 | an edit changes only the profiles and the pointer; set and clear only the pointer; a delete takes out one row; an unresolved pointer stays |
| `SceneProfiles.RenamedMeansGone` | src/server/command_executor.rs:625-655 | a save is reported as a rename exactly when the name it replaced no longer finds a profile |
| `SceneProfiles.CountWithoutScenes` | src/server/command_executor.rs:965-983 | with no scenes listed the reported count is the number of names in the profile |
| `SceneProfiles.ReportedCountIsVisible` | src/server/command_executor.rs:965-982 | the count reported after switching a profile on is the number of scenes the published snapshot hides |
| `ConfigEdits.Daemon.EditConfigFile` | src/server/command_executor.rs:469-537 | read, edit, validate, write if changed, swap memory, broadcast, in that order; on any failure file, memory and snapshot are untouched |
| `ConfigEdits.Daemon.Apply` | src/server/command_executor.rs:492-494 | running an edit's closure on the copied config gives that edit's effect or its refusal |
| `ConfigEdits.Daemon.DumpConfig` | src/server/command_executor.rs:369-412 | merge over the file or, if it is unusable, over memory; write; read back into memory; a failed read-back is reported but not an error |
| `ConfigEdits.Daemon.ReloadConfig` | src/server/command_executor.rs:792-817 | a file that loads and validates replaces memory and is broadcast; otherwise nothing changes |
| `ConfigEdits.DumpKeepsView` | src/server/command_executor.rs:394-399 | no snapshot can tell a dumped config from the one it was merged into, which is why a dump broadcasts nothing |
| `ConfigEdits.LoadExactly` | src/config/loader.rs:14-39 | a file loads exactly when it is there, readable and valid; a missing one is told apart from an unreadable one |
| `ConfigEdits.EditAnswerExactly` | src/server/command_executor.rs:469-537 | an edit goes through exactly when it applies to the file, or to memory if there is no file, and the result is valid and written if it changed; a file that does not load is never built on |
| `ConfigEdits.DumpAnswerExactly` | src/server/command_executor.rs:369-412 | a dump goes through exactly when it can write and the merge over the loadable file, or else over memory, succeeds |
| `ConfigRaces.EditsAreSerializable` | src/server/command_executor.rs:369-537 | over any interleaving of edits, dumps and reloads, whenever the file lock is free an existing file holds the config in memory, which is the committed commands replayed one at a time, validates, and cannot be told apart from what the commands last merged into the snapshot |
| `ConfigRaces.AloneMeetsContract` | src/server/command_executor.rs:369-537 | uninterrupted, a command's steps leave file, memory and snapshot as its method's contract says, and answer as it says |
| `ConfigRaces.CommitOrderIsLockOrder` | src/server/command_executor.rs:469-486 | the commands take effect in the order in which they got the file lock |
| `ConfigRaces.FileIsAlwaysSerial` | src/server/command_executor.rs:509-513 | even with a command half done, the file on disk is the committed commands replayed |
| `ConfigRaces.AnswersAreHonest` | src/server/command_executor.rs:469-537 | a command that answered success took effect exactly once, one that answered failure never did |
| `ConfigRaces.FailureChangesNothing` | src/server/command_executor.rs:505-518 | the step in which a command fails changes neither file, memory, what was merged nor history |
| `ConfigRaces.OneAtATime` | src/server/command_executor.rs:485-486 | two commands are never between lock and release together |
| `ConfigRaces.FailedReadBackDiverges` | src/server/command_executor.rs:431-450 | a dump that cannot read its own file back leaves file and memory disagreeing exactly when it changed the config |
| `ConfigRaces.StepKeepsInv` | src/server/command_executor.rs:369-537 | every step of every command keeps the agreement of file, memory, merged config, lock and history |
| `ConfigRaces.WantedIsEffect` | src/server/command_executor.rs:903-925 | what a command computes from the base it read is its effect on the current config, and validates |
| `ConfigViews.SettledViewIsMemorys` | src/server/snapshot_refresh.rs:89-103 | over any interleaving of commands with any number of overlapping refreshes, events and other writes whose risky steps are harmless where they happen, with the file lock free and no refresh in flight, overtaken or asked for, the snapshot clients see carries the config in memory and shows it: aliases, shortcuts, groups, hidden scenes, profiles |
| `ConfigViews.StepExact` | src/server/snapshot_refresh.rs:58-173 | for every step, the snapshot carries the config or is about to if and only if the step is harmless: no configured input arrives with no refresh coming, and no refresh fails, gives up or misses a whole lap of the counter when it was the last thing that would have put the snapshot right |
| `ConfigViews.SwapViewExact` | src/server/state_store.rs:204-221 | a swap leaves clients with memory's config if and only if the config read for it builds the same snapshot |
| `ConfigViews.FenceCoversConfig` | src/server/snapshot_refresh.rs:89-103 | with the file lock free, a refresh no counted write has overtaken publishes memory's config |
| `ConfigViews.StaleConfigPublished` | src/server/snapshot_refresh.rs:89-103 | for any edit and any fetch that tell the two configs apart, a run from the daemon's start in which clients have the new config, the refresh's swap takes it back with the file lock free, and, its follow-up failing, the daemon settles on the old one |
| `ConfigViews.OtherWriteView` | src/server/state_store.rs:504-514 | an event, stats reading or connection mark keeps a carried config exactly unless it brings a configured input without its alias and shortcut |
| `ConfigViews.RefreshedView` | src/server/state_store.rs:621-680 | a refreshed snapshot carries a config exactly when that config builds the same snapshot from the fetch |
| `ConfigViews.EveryWriteNoticed` | src/server/snapshot_refresh.rs:58-103 | in any run, from its counter reading to its check, a refresh finds itself overtaken exactly when something was counted since, within one lap of the counter |
| `Codec.FrameReader.NextFrame` | src/ipc/codec.rs:99-145 | one call answers with the stream's next line, or says why not, and leaves exactly the rest; given enough reads on a stream that ends it always answers |
| `Codec.FrameReader.ReadUntil` | src/ipc/codec.rs:117-126 | the bounded read appends up to and including the first newline, the budget or the end of the stream, and keeps what it read if it is dropped |
| `Codec.FramesSurvive` | src/ipc/codec.rs:57-75 | over any run of calls, chunkings and dropped calls, frames handed out followed by frames still ahead are the stream's frames, no byte is lost or repeated, and the buffer is newline-free and at most one byte over the limit |
| `Codec.FramesAreLines` | src/ipc/codec.rs:117-140 | every frame has one newline, at its end, and is at most one byte over the limit |
| `Codec.OversizedExactly` | src/ipc/codec.rs:100-115 | too long is answered exactly when the next MAX + 1 bytes hold no newline |
| `Codec.CloseMeaning` | src/ipc/codec.rs:127-136 | a run told that the stream is over has handed out all its frames and holds exactly what came after them; it is told so as a clean close exactly when the last call read nothing |
| `Codec.HalfFrameMistakenForClose` | src/ipc/codec.rs:94-98 | any half frame read by an earlier dropped call is followed by a clean close, while the same bytes in one call are a cut-off frame |
| `Codec.AdmittedFramesReadBack` | src/ipc/codec.rs:38-45 | any sequence of frames the writer admits is read back unchanged and in order, nothing is called too long or cut off, and the close comes only after all of them |
| `Codec.PayloadRoundTrip` | src/ipc/codec.rs:14-20 | a payload comes back from its frame exactly when it is not empty and does not end in a carriage return or newline |
| `Codec.LimitsMeet` | src/ipc/codec.rs:38-46 | the writer frames payloads of up to MAX - 1 bytes, one byte fewer than the reader takes |
| `Codec.TrimLineEndMeaning` | src/ipc/codec.rs:14-20 | a reader parses the line without exactly the newlines and carriage returns at its end |
| `Parser.Tokenize` | src/domain/parser.rs:471-523 | the character loop agrees with the recursive tokenizer on every line, unterminated quotes included |
| `Parser.TokensOfLine` | src/domain/parser.rs:471-523 | a space-joined line of quoted texts and bare words gives back its arguments and their quoting exactly when none is empty |
| `Parser.EmptyQuotesLeak` | src/domain/parser.rs:505-512 | an empty pair of quotes leaves no token but marks the next word as quoted |
| `Parser.ParseOfPrintedCommand` | src/domain/parser.rs:353-384 | printing any command (canonical name, quoted and escaped target, bare percent) and parsing it gives it back if and only if its target is its own checked form and its percent is at most 100 |
| `Parser.ParsedIsWellFormed` | src/domain/parser.rs:405-459 | every command a parse accepts has a checked target and a percent of at most 100 |
| `Parser.PrintedFormIsStable` | src/domain/parser.rs:353-384 | printing what any line parsed to parses to the same command |
| `Parser.SpellingDoesNotMatter` | src/domain/parser.rs:388-392 | two spellings of one table row, in any case, parse alike whatever follows |
| `Parser.PrefixDoesNotMatter` | src/domain/parser.rs:353-355 | a text with a palette prefix in front parses if and only if it parses without and any white space after the prefix is spaces and tabs, or further white space clinging to a head that is not an empty pair of quotes, with no second prefix after it; it then parses the same, and without white space even the errors are the same |
| `Parser.CanonicalFindsRow` | src/domain/parser.rs:100-304 | every row of the table is found by its own canonical spelling and by no earlier row |
| `Parser.SpellingsFindRow` | src/domain/parser.rs:100-304 | a row is found by its canonical spelling, by the others it lists, and by nothing else |
| `Parser.ParsedExactly` | src/domain/parser.rs:353-459 | which token lists are which command: a spelling of its row in any case, the right number of arguments, checked targets, a bare percent of at most 100 |
| `Parser.UnknownExactly` | src/domain/parser.rs:361-363 | a command is unknown exactly when its head is no spelling of any row |
| `Parser.RefusedBecause` | src/domain/parser.rs:365-459 | a known command is refused for its number of arguments, a quoted percent or one above 100 exactly when that is so |
| `Parser.EitherQuote` | src/domain/parser.rs:471-523 | single and double quotes alike make one token of what they enclose, blanks and the other quote included |
| `Parser.BlanksSeparate` | src/domain/parser.rs:471-523 | outside quotes spaces and tabs, and nothing else, end a token |
| `Parser.OuterWhitespace` | src/domain/parser.rs:353-355 | white space around a line never matters |
| `Reconnect.ReconnectPolicy.NextDelay` | src/runtime/reconnect_policy.rs:53-77 | a delay is granted exactly when the policy still gives one; its length and the new counter and flag are as specified |
| `Reconnect.ReconnectPolicy.Reset` | src/runtime/reconnect_policy.rs:80-83 | a reset leaves the policy as new |
| `Reconnect.BoundedBackoff` | src/runtime/reconnect_policy.rs:53-83 | over any run of calls and resets a bounded policy grants a call exactly when at most k calls came since the last reset, k the least exponent whose delay reaches the ceiling (0 for a flat multiplier) |
| `Reconnect.ReachesEventually` | src/runtime/reconnect_policy.rs:62-65 | with initial delay above 0 and multiplier above 1 such a k exists |
| `Reconnect.Bernoulli` | src/runtime/reconnect_policy.rs:62-65 | compound growth is at least linear growth |
| `Reconnect.StopsExactlyWhen` | src/runtime/reconnect_policy.rs:53-77 | a policy meant to stop does so if and only if the multiplier is 1 or the delay reaches the ceiling by exponent 2^31 - 1, before the counter's signed reading turns negative |
| `Reconnect.StopsWithin` | src/runtime/reconnect_policy.rs:53-77 | if n times (multiplier - 1) reaches the ceiling, no more than n + 1 delays are granted |
| `Reconnect.SlowGrowthNeverStops` | src/runtime/reconnect_policy.rs:62-63 | checked settings with initial delay 1, ceiling 2 and multiplier 1 + 2^-32 never stop |
| `Reconnect.LastDelayIsLongest` | src/runtime/reconnect_policy.rs:64-76 | delays without jitter never shrink up to the last, which is exactly the ceiling, and none exceeds it |
| `Reconnect.JitterOnTop` | src/runtime/reconnect_policy.rs:73-74 | jitter comes on top of the rounded-down delay unchanged |
| `Reconnect.BackoffCollapses` | src/runtime/reconnect_policy.rs:62-63 | at attempt 2^31 the delay falls, exactly when it had grown at all |
| `Reconnect.EndlessNeverStops` | src/runtime/reconnect_policy.rs:50-60 | an enabled endless policy grants every call of every run |
| `Reconnect.DisabledNeverGives` | src/runtime/reconnect_policy.rs:53-56 | a disabled policy grants none and never leaves its first state |
| `Reconnect.ShippedDelaysGiveSeven` | src/runtime/reconnect_policy.rs:40-46 | with the shipped delays a bounded policy grants exactly seven calls per reset |
| `Reconnect.DelayBelowCeiling` | src/runtime/reconnect_policy.rs:62-76 | below the ceiling a delay is the initial one compounded, rounded down, plus the jitter |
| `Reconnect.DelayPastWrap` | src/runtime/reconnect_policy.rs:62-63 | past the wrap of the exponent it is the initial one divided by the multiplier once for each attempt still to come |
| `ObsClient.IdsCollideExactlyWhenWrapped` | src/obs/requests.rs:12-15 | two requests share an id exactly when their counters agree modulo 2^64 |
| `ObsClient.ClientTask.FailAllPending` | src/obs/client.rs:285-289 | draining the map gives every pending request the same error and empties it |
| `ObsClient.ClientTask.HandleRequest` | src/obs/client.rs:314-333 | one request: answered if it cannot be encoded, everything failed and the client task over if it cannot be sent, pending under its id otherwise |
| `ObsClient.ClientTask.HandleCancel` | src/obs/client.rs:335-339 | a cancel removes the pending request of that id, if any, and touches nothing else |
| `ObsClient.ClientTask.HandleResponse` | src/obs/client.rs:377-390 | a response answers and removes the pending request of that id, if any, and touches nothing else |
| `ObsClient.EveryRequestAccountedFor` | src/obs/client.rs:94-115 | in every run each submitted request is in exactly one place: queued, pending under its own id, answered, or dropped, and dropped only by its own cancel or by the end of the client task |
| `ObsClient.ResponseCompletesOnlyItsOwn` | src/obs/client.rs:359-395 | a response completes the request sent under its id and moves no other |
| `ObsClient.NothingPendingAfterEnd` | src/obs/client.rs:302-357 | once the client task has ended nothing is pending, and each request was either answered or dropped |
| `ObsClient.AnswersStand` | src/obs/client.rs:302-357 | what a request was answered with never changes |
| `ObsClient.OvertakingCancelDoesNothing` | src/obs/client.rs:104-112 | a cancel that overtakes its queued request removes nothing |
| `ObsClient.AnswersSayWhy` | src/obs/client.rs:285-395 | a request is answered by the response to its id with what that says, by failing to be encoded or sent itself, or, if pending, by the connection closing, with the reason |
| `ObsClient.IdFormat` | src/obs/requests.rs:12-15 | an id is its prefix and the counter in decimal, padded with zeros to six digits |
| `Sessions.SessionWriter.Send` | src/ipc/unix_server.rs:207-223 | a message is queued if it fits, replaced by a small error of the same id if it is a response that does not, and dropped if it is an event that does not |
| `Sessions.SessionWriter.Reject` | src/ipc/unix_server.rs:235-238 | a rejection queues one error and ends the session |
| `Sessions.SessionWriter.Forward` | src/ipc/unix_server.rs:409-417 | the forwarder queues exactly what is due for the reply or the lack of one |
| `Sessions.Session.HandleCommand` | src/ipc/unix_server.rs:340-378 | a command is either dispatched or rejected with one error that ends the session, never both |
| `Sessions.OneResponsePerRequest` | src/ipc/unix_server.rs:508-539 | whatever the handler does with an accepted request, exactly one response is queued, with its own id and within the line limit; it is the handler's reply exactly when that is a fitting response with that id |
| `Sessions.StateInitIsAnEvent` | src/ipc/unix_server.rs:471-497 | the push after a subscription is at most one state event, never a response |
| `Sessions.QueuedFits` | src/ipc/unix_server.rs:245-274 | nothing longer than a line is queued; only events, and responses whose id alone fills a line, are lost |
| `Sessions.EscapingAtMostDoubles` | src/ipc/protocol.rs:466-478 | an accepted request id at most doubles when written as JSON |
| `Sessions.StateInitExactly` | src/ipc/unix_server.rs:471-497 | the first snapshot is pushed exactly when the handler answered that request successfully with a result that fits, and carries that result |
| `Sessions.RefusalsSayWhy` | src/ipc/unix_server.rs:508-539 | a request not answered by its handler's reply is told why: dropped, not a response, another id, too large |
| `Sessions.TokenMeaning` | src/ipc/protocol.rs:466-478 | a request id or command name is a usable name of bounded bytes with no white space in it |
| `Sessions.EncodedLenIs` | src/ipc/protocol.rs:331-346 | the length that decides whether a message fits is the length of the JSON line it is written as |
| `Sessions.EncodedIsOneLine` | src/ipc/codec.rs:7-12 | whatever its strings hold, a message is written as one line |
| `Sessions.FitsIsFramed` | src/ipc/codec.rs:38-46 | a message fits exactly when the frame writer takes it |
| `Lanes.CommandLane.Serve` | src/server/command_executor.rs:126-131 | whatever the pace of arrivals, the serve loop takes only enabled steps of its connection, finishes and answers one command before the next, and ends after the session hangs up with every dispatch handled in the order sent |
| `Lanes.CommandLane.Offer` | src/server/command_lanes.rs:93-98 | a lane with 32 commands waiting takes no more; otherwise the dispatch joins the end of the queue |
| `Lanes.CommandLane.Receive` | src/server/command_executor.rs:126-131 | arrivals join the lane in order, as many as pace and room allow, while the commands already answered stay answered |
| `Lanes.CommandLane.HandleNext` | src/server/command_executor.rs:126-131 | the head command is begun, handled and answered, and nothing else in the lane moves |
| `Lanes.CommandsRunInOrder` | src/server/command_executor.rs:126-131 | in every run one connection's commands begin in the order sent and each ends before the next begins |
| `Lanes.OneResponseEach` | src/ipc/unix_server.rs:390-419 | every accepted request has no line while its forwarder waits and then exactly one response with its own id within the limit; after the lane task ends no forwarder is stuck |
| `Lanes.DrainWaitsForEveryCommand` | src/server/command_lanes.rs:71-78 | when the drain returns, every lane opened before it has ended, having run all it accepted to the end unless it panicked, and every command has its outcome |
| `Lanes.DrainBlocksOnWork` | src/server/command_lanes.rs:71-78 | the drain cannot return while a lane it took has a command queued or running |
| `Lanes.StepKeepsInv` | src/server/command_lanes.rs:44-98 | every step of every connection and of the drain keeps the rules above |

## Left out

- RefreshFence.FenceSound: assumes no other refresh publishes inside the fence (exactly when one may is `SwapExact`), every sub-fetch answered, no rename of an input or of the live scene, profile or collection, and fewer than 2^64 counted writes during one refresh; it says nothing about volume levels, which no event or fetch orders.
- RefreshFence.ObsAnnounces: covers the OBS actions of the model; switching to a collection with other scenes and inputs is several of them, and what else OBS can do touches nothing the store holds.
- ConfigRaces.EditsAreSerializable: assumes nobody else writes the file and that a dump can read back what it wrote.
- ObsClient.EveryRequestAccountedFor: assumes fewer than 2^64 requests are numbered during one connection.
- Lanes.OneResponseEach: assumes the session's write task is still draining; a broken socket loses queued lines.
- Reconnect.BoundedBackoff: uses real arithmetic, so rounding and overflow to infinity of 64-bit floats are not modelled.
- Degraded replies to the profile, collection and output queries, which the daemon replaces with empty or false values, and the bounded retry loop around a refresh on connecting.
- The end of a connection's event pump and refresh worker: a follow-up asked for after the pump has gone is not even tried, where the model tries it and it fails.
- The bounded capacities of the event, request and write channels, which only make senders wait.
- `updated_at` timestamps, and the `kind` of an audio input in snapshots, which the store always leaves empty.
- Warnings about the palette prefix, the locale and the password, and the text of warnings and errors beyond the data they are built from; error messages are taken as they stand after secrets were redacted.
- Host, socket-path and password checks on the config: each is one yes-or-no field of the settings.
- JSON, YAML and UTF-8: beyond the strings and frame of a server message, values are taken to survive encoding unchanged, JSON text to hold no raw newline, and encoding never to fail; comparing two configs as YAML text is comparing them.
- Subscriptions, topics and the broadcast to clients beyond the list of published snapshots.
- Sockets, the WebSocket handshake, authentication, file permissions, backups and logging; a file write either happens whole or not at all.
- The terminal interface, themes, localization, exit codes, statistics and volume conversion.

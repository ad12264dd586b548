# Window Switcher, verified

Window Switcher is a Windows program that switches between applications and between the windows of one
application while a modifier key is held. This project models the logic behind its keyboard hook, its
configuration file, its panel and its caches in Dafny, and proves what that logic promises over every
input and every run. `dafny verify dfyconfig.toml` checks all of it.

Code that changes state step by step is a class or a method here, proved equal to a function on values;
threads and processes that interleave are state machines whose moves are single shared accesses, with
everything the system answers left open. The laws are lemmas about those functions and about all runs.

- **Input.** `KeyboardState`, `InputMachine` and `KeyboardHistory` are the keyboard machine and its
  histories. `InputProtocol` puts the hook thread, the bounded queue with its two counters and the UI
  thread together. `Handover` is the passing of the keyboard between processes that share one lock.
- **Configuration.** `Transaction` is the commit protocol against editors and crashes, and `CommitFile`
  the code's sequence of calls as a run of it. `Text`, `IniGrammar`, `Merging`, `MergeMeaning`,
  `MergeResult`, `MergeLines` and `ConfigDocument` are the merging of defaults into the user's text,
  `Template` the reading of the defaults, `SettingValue` and `SetValue` the change of one setting, and
  `WatchState` the choice of what version of the file to try, and when.
- **Switching.** `Switching` and `SwitchingApp` are a session of application switching with snapshots
  arriving in the background; `Navigation` and `WindowCycle` the walk through one application's windows;
  `Mru` the recency list and its order.
- **Display.** `Layout` places the panel, `Pixels` is the premultiplied arithmetic, `Scene` the
  incremental painting.
- **Resources.** `Mailbox` connects the UI to a worker. `IconCache` holds icons within a byte budget while
  other threads hold, take up and drop them; `IconRaces` is what its reservations keep in every
  interleaving, `IconWitnesses` the runs that show no more can be kept, `KeepIcons` the code of the cache.
  `Png` and `Ico` check icon files.

Lengths in `Layout` are reals, and pixels integers rounded half away from zero; times are integers;
bytes, 16- and 32-bit values are integers with their ranges written out, and bit vectors in the
checksum. What painting a sprite or a name gives is any function of its key. An INI is read with the
line grammar of `scan_layout`. A file opened with only read sharing cannot be written, renamed or
deleted by others.

Where a promise holds only under a condition, the condition is proved to be exact:

- "While a recovery file exists, nothing is published" holds of a commit if and only if there was an INI
  for it to keep (`Transaction.ForeignRecoveriesAreKeptOut`). When there was none, an editor that makes a
  recovery file between the second check and the publication is not noticed:
  `Transaction.PublishesBesideARecovery` gives the run, and `Transaction.OnlyTheWindowLetsARecoveryIn`
  shows that no other moment allows it.
- "A swallowed press is answered by a swallowed release" has three exceptions and no other
  (`KeyboardHistory.ReleasesFollowPresses`): since the press activation has changed, the listener has
  stopped or its window has gone; the release is an injected one that is let through; or lost permission
  cancels the gesture on that very release. A handover rolled back while the keys are held is an
  instance of the first: `KeyboardHistory.RollbackPassesARelease`.
- "No icon is smaller than 24 units" holds of the painted icons, in pixels, at a resolution `dpi` if and
  only if `dpi % 4 < 2` (`Layout.IconsReachTheirSize`); at the others a layout can lose one pixel, and
  never more (`Layout.OneIconIsShort`, `Layout.IconsAreLargeEnough`).
- After a failed repaint, `Scene.Scene.Compose` says exactly when the scene's fields still tell what the
  surface shows; `Scene.LosesTrack` is a call after which they do not.
- "A reservation of bytes evicts one icon at most, and fails only when none can be reclaimed" holds while no
  other thread takes icons up (`IconRaces.ReservationEvictsOnce`,
  `IconRaces.ReservationFailsOnlyWhenNoneRemains`). Otherwise each further eviction, and each icon missed,
  is due to that very icon being taken up between two accesses of the worker
  (`IconRaces.EvictingAgainMeansTakenUp`, `IconRaces.FailingHasSeenAllHeld`), and both happen:
  `IconWitnesses.EvictsTwo` and `IconWitnesses.FailsThoughOneIsFree` are runs.
- Clamping a blended byte to 255 is unnecessary exactly for premultiplied sources:
  `Pixels.ClampIsForOthers`.

## Model

| member | source | states |
|---|---|---|
| Keyboard.InputMachine.Handle | src/keyboard/state.rs:125-315 | The method over the two key arrays decides and updates exactly as the specification `KeyboardState.Handle`, branch for branch: pause, lost permission, released modifier, key release, finishing gesture, details, hotkeys, navigation. |
| Keyboard.InputMachine.Triggered | src/keyboard/state.rs:236-282 | Starting, replacing and continuing a gesture, including the exhausted session counter. |
| Keyboard.InputMachine.Matches | src/keyboard/state.rs:338-344 | A hotkey matches as specified: AltGr is not Alt or Ctrl, and the numeric keypad needs the extended keys. |
| Keyboard.InputMachine.Accepted | src/keyboard/state.rs:317-323 | Only a key press records whether it was swallowed. |
| Keyboard.InputMachine.Rejected | src/keyboard/state.rs:325-328 | A refused event drops the gesture and records that the press was passed on. |
| Keyboard.InputMachine.Reset | src/keyboard/state.rs:117-123 | All flags and the gesture are cleared, the session counter is not. |
| Keyboard.InputMachine.SeedModifiers | src/keyboard.rs:274-287 | The modifier keys are set to what the system reports, the others are left. |
| KeyboardHistory.SessionsAreOrderly | src/keyboard/state.rs:125-315 | Over every run, rejections, resets and activation changes included: each session has at most one Finish or Cancel and no event after it, and sessions are numbered as they begin and never reused. |
| KeyboardHistory.FinishesFollowCycles | src/keyboard/state.rs:178-190 | Every Finish comes after a Cycle of its session and has the kind of the last one. |
| KeyboardHistory.EmittedEventsAreCurrent | src/keyboard/state.rs:135-142 | Every emitted event is of a session above both counters the callback read; a new session is new to the whole history. |
| KeyboardHistory.ReleasesFollowPresses | src/keyboard.rs:61-101 | For every callback that is a release: it is swallowed if and only if a swallowed press is still owed one, activation has not changed and the listener not ended since that press, it is not an injected one let through, and lost permission does not cancel on it; and then that key's latest press was swallowed. |
| KeyboardHistory.RollbackPassesARelease | src/keyboard/state.rs:117-123 | The run that shows the first exception: Alt and Tab are held, activation is withdrawn and given back, and the release of the swallowed Tab is passed on with every permission given. |
| KeyboardHistory.FinishComesAtTheLastSide | src/keyboard/state.rs:178-190 | A live gesture that is not sticky finishes at exactly one event: the release of the only side of its modifier still held. |
| InputProtocol.SendAlwaysFindsRoom | src/keyboard/dispatch.rs:99-148 | In every interleaving, channel length plus reserved slots are at most `queued`, which is at most 64, so a reserved send is never refused as full. |
| InputProtocol.CyclesNeverCrowdOutAFinish | src/keyboard/dispatch.rs:104-108 | An event other than a Cycle is refused for space only when another such event holds a slot. |
| InputProtocol.DeliveryIsOrdered | src/keyboard/dispatch.rs:157-173 | In every interleaving, what was sent is exactly what was handled, then what the UI has taken, then the channel, in order. |
| InputProtocol.RefusedIsRevoked | src/keyboard/dispatch.rs:92-97 | Every event that submission refused leaves its session revoked, the newest included; so does every unsent event the hook thread is done with. |
| InputProtocol.OnlyTheLastIsUnsent | src/keyboard/dispatch.rs:83-97 | Only the last event of a session can be one that was not sent. |
| InputProtocol.CountersFollowSessions | src/keyboard/dispatch.rs:180-195 | No session is acknowledged or revoked before it is issued, so every new session exceeds both counters. |
| InputProtocol.AppliedIsPrefixOfEmitted | src/app/input.rs:10-81 | End to end, what the UI applies of a session is a prefix of what the machine emitted for it. |
| InputProtocol.AnAppliedFinishCompletesTheSession | src/app/input.rs:83-115 | A Finish that is applied comes after every other event of its session has been applied. |
| Handover.RequestedIsNewer | src/keyboard/activation.rs:32-40 | A change of mind gets a new, larger generation of the right parity; the same wish keeps its generation. |
| Handover.InputActivation.Request | src/keyboard/activation.rs:32-49 | A request to activate or to suspend is the matching move of that process's UI thread in the protocol. |
| Handover.InputActivation.Branch | src/keyboard.rs:245-262 | The hook thread's activation branch, access by access, is a run of its moves in the protocol; when nothing comes between, the requested generation is the applied one afterwards. |
| Handover.InputActivation.Active | src/keyboard/activation.rs:56-58 | A callback runs exactly when the move that begins it in the protocol enters it. |
| Handover.OnlyTheOwnerTakesKeys | src/app/lifecycle.rs:139-147 | In every interleaving of the threads of any number of processes, one that asks for keys, has an odd applied generation, is in a callback or has read an odd request owns the instance lock. |
| Handover.NeverTwoInputOwners | src/app/lifecycle.rs:222-260 | So no two processes ever claim the keys at once. |
| Handover.AcknowledgedPauseIsQuiet | src/keyboard.rs:245-262 | An acknowledged pause means that no callback is running and none can begin. |
| Handover.QuietUntilAskedToResume | src/keyboard/activation.rs:51-66 | And that this stays so until the process itself requests activation. |
| Handover.LockIsReleasedInSilence | src/app/lifecycle.rs:222-235 | The lock leaves a living process only while it is quiet. |
| Handover.HandoverCanComplete | src/app/lifecycle.rs:120-276 | From every reachable state in which the owner is not exiting and a replacement is prepared, wherever their threads are, there is a continuation in which the replacement handles a key while the old process is quiet. |
| Transaction.OriginalIsNeverLost | src/config/transaction.rs:75-118 | From the moment the commit has opened the INI, at every point at which it may crash and whatever editors do, the original's bytes are whole under the INI's or the recovery name until the new bytes are published. |
| Transaction.NobodyElsesFileIsTouched | src/config/transaction.rs:55-126 | No step of the commit overwrites, renames or deletes a file that is neither its own temporary file nor the checked original. |
| Transaction.SavedMeansPublished | src/config/transaction.rs:98-125 | Success means that the INI's name leads to exactly the new bytes, in the file this commit made. |
| Transaction.SavedLeavesNoRecovery | src/config/transaction.rs:114-117 | Success leaves no recovery file unless an editor makes one. |
| Transaction.SavedLeavesNoTemp | src/config/transaction.rs:134-173 | Nor does it leave behind the temporary name it made, unless an editor uses one. |
| Transaction.FailureIsCleanOrPublished | src/config/transaction.rs:165-173 | Failure leaves either nothing published and the temporary file deleted if that is possible, or exactly the new bytes published. |
| Transaction.PublicationRespectsRecovery | src/config/transaction.rs:98-123 | At publication a recovery file is the commit's own original, or, when there was no INI, one an editor made. |
| Transaction.ForeignRecoveriesAreKeptOut | src/config/transaction.rs:75-124 | That only the own original stands beside a publication, whatever editors do, holds of a commit if and only if there was an INI to keep. |
| Transaction.RecoveryBlocksCommits | src/config/transaction.rs:39-45 | A commit that begins while a recovery file is there changes nothing and fails. |
| Transaction.InterruptedCommitBlocksTheNext | src/config/storage.rs:21-34 | After a commit that died with the original set aside, through any chain of later commits and of edits that do not take the recovery file away, every commit fails without a change to any file, and at every moment loading is refused, so defaults are not invented over it. |
| Transaction.PublishesBesideARecovery | src/config/transaction.rs:117-124 | With no INI to keep, a publication beside a recovery file is possible: the run that does it, on any such directory. |
| Transaction.OnlyTheWindowLetsARecoveryIn | src/config/transaction.rs:119-121 | It takes an editor acting between the second check and the publication. |
| CommitFile.Commit.WriteWithHook | src/config/transaction.rs:55-126 | The code's own sequence of calls is a run of the protocol, for every failure and every edit; undisturbed, it succeeds with the new bytes in place and no recovery file. |
| CommitFile.Commit.Swap | src/config/transaction.rs:98-114 | Setting the original aside, publishing without replacing, and putting the original back on failure follow the protocol. |
| CommitFile.Commit.Reserve | src/config/transaction.rs:134-162 | Up to sixteen temporary names are tried and only a file newly created is taken. |
| CommitFile.Commit.Drop | src/config/transaction.rs:165-173 | The unpublished temporary file is deleted, a published one is not. |
| Text.ConcatOfLines | src/config/document.rs:225-225 | Splitting a text into lines loses nothing. |
| Text.LinesOfConcat | src/config/document.rs:225-225 | After a complete line, splitting starts afresh. |
| ConfigDocument.ScanLayout | src/config/document.rs:218-247 | The scan's maps and sets are those of the specification, for every text, open quotes and continued lines included. |
| Merging.DocumentIsSound | src/config/document.rs:218-247 | On single-line values every position of the layout lies in the section it is for, and its keys are the keys read. |
| Template.TemplateEntries | src/config/document.rs:189-216 | The entries read from the defaults are those specified. |
| Template.TemplateIsValid | src/config/document.rs:189-216 | A template as read is fit for merging if and only if each assignment is on one line, has its marker in the comments above it, and no key is assigned twice. |
| ConfigDocument.MergeMissing | src/config/document.rs:37-130 | The three loops compute the specified merge, or an error exactly when a guard fails; on single-line values they never fail. |
| MergeResult.MergeKeepsValues | src/config/document.rs:110-128 | Every key the user has, and every key not in the template, keeps its list of values. |
| MergeResult.MergeAddsMissing | src/config/document.rs:45-77 | Every template key the user lacks gets exactly the template's value, in its own section. |
| MergeResult.MergeDocumentsAll | src/config/document.rs:65-68 | Afterwards every entry's description is among the comments. |
| MergeResult.MergeStaysSingleLine | src/config/document.rs:37-130 | The merged text has its values on single lines again. |
| MergeResult.MergeIsIdempotent | src/config/document.rs:37-130 | A second merge changes nothing. |
| MergeLines.MergeKeepsLines | src/config/document.rs:94-108 | Every line of the user appears in the result, in order and to the character, but for a line break given to an unfinished last line. |
| ConfigDocument.GuardsNeverFire | src/config/document.rs:110-128 | The guards hold for every text with single-line values. |
| SettingValue.ReplacedReads | src/config/document.rs:147-155 | The edited line reads as the same key with the new value, whatever blanks surround it. |
| SetValue.LayoutKeysAreFirst | src/config/document.rs:237-241 | The layout's position of a key is its first assignment. |
| SetValue.ChangedMeans | src/config/document.rs:132-155 | After the edit the key has the new value first and its other values as before, every other key its values, every other line its characters. |
| SetValue.SetValue | src/config/document.rs:135-174 | What succeeds is that edit of the merged text, confirmed by the guards; on single-line values it succeeds exactly for keys of the merged text and values that read back as given. |
| WatchState.ChangeTracker.Observe | src/config/watch_state.rs:50-72 | A version seen again, or seen first but already applied, changes nothing; any other becomes the current one, with a new number. |
| WatchState.ChangeTracker.Next | src/config/watch_state.rs:80-98 | The candidate and the new state are those specified. |
| WatchState.ChangeTracker.Complete | src/config/watch_state.rs:104-130 | Only the version in flight can be completed; failure sets the capped exponential delay. |
| WatchState.OneInFlight | src/config/watch_state.rs:80-98 | What is handed out is alone in flight, is not empty and differs from what is applied. |
| WatchState.CompletedBetween | src/config/watch_state.rs:104-118 | Between two handouts lies the completion of the first. |
| WatchState.AppliedChangesOnCompletion | src/config/watch_state.rs:119-121 | What is applied changes only to what is in flight, when that is reported applied, and its generations strictly increase. |
| WatchState.HandedOutIsStable | src/config/watch_state.rs:84-93 | A version is handed out only after being the only thing seen for the whole delay. |
| WatchState.RetriesAreBounded | src/config/watch_state.rs:88-94 | Each version is handed out at most `retry_limit` + 1 times. |
| WatchState.RetriesAreSpaced | src/config/watch_state.rs:122-129 | Between two handouts of a version lie a retryable failure and at least the delay for the handouts so far. |
| SwitchingApp.App.WorkOffActions | src/app/switching.rs:41-65 | The loop empties the queue onto the panel, or asks for one snapshot. |
| SwitchingApp.App.PumpSwitches | src/app/switching.rs:41-81 | Queue and finish are carried out as specified. |
| SwitchingApp.App.Push | src/app/coordinator.rs:48-63 | A cycle is queued and worked off; a full queue ends the session. |
| SwitchingApp.App.ApplySnapshot | src/app/switching.rs:156-267 | The new panel keeps the old order, adds new applications after it, and carries the selection over by application. |
| SwitchingApp.App.AcceptResult | src/app/switching.rs:83-126 | A result that is not of the pending generation is dropped. |
| Switching.AsynchronousIsSynchronous | src/app/switching.rs:41-126 | However inputs, the first snapshot and refreshes interleave, a session over the same applications ends without choosing or chooses what walking the first snapshot's list by every input chooses. |
| Switching.WalkIsNet | src/app/navigation.rs:4-20 | That walk is the start plus forward moves less backward moves, modulo the number of applications. |
| Switching.FirstIsTheFirstSnapshot | src/app/switching.rs:92-113 | The list that counts is that of the first snapshot accepted. |
| Switching.FirstStart | src/app/switching.rs:156-176 | It starts at the application that lists the foreground window when ordering by recency, and at the top otherwise. |
| Switching.RefreshedPanel | src/app/switching.rs:156-267 | A refresh with the same applications keeps order and selection. |
| Switching.SelectionSurvives | src/app/switching.rs:247-249 | Any refresh keeps the selected application selected while it is still listed, and the index in range. |
| Switching.OpenSessionsWait | src/app/switching.rs:14-81 | An open session with work left has asked for exactly the snapshot it needs. |
| Switching.ASnapshotFinishes | src/app/coordinator.rs:65-67 | When that snapshot comes, a session that was to finish is over within the turn. |
| Navigation.CycleIsStep | src/app/navigation.rs:4-20 | One step forwards or backwards, around the ends. |
| Navigation.ReconcileCycle | src/app/navigation.rs:22-41 | The loop that empties the ordered set computes the specified arrangement. |
| Navigation.ReconcileArranges | src/app/navigation.rs:22-41 | The result is the fresh list without repeats, survivors first in their old order, with an index in range; there is none exactly for an empty list. |
| Navigation.SameValuesKeepPlace | src/app/navigation.rs:22-41 | The same values in any order leave order and place alone. |
| WindowCycle.Windows.CycleWindows | src/app/window_cycle.rs:11-80 | A press chooses, activates and remembers as specified; a failed activation is not remembered. |
| WindowCycle.EveryWindowOnce | src/app/window_cycle.rs:24-79 | While the modifier is held and the set of windows stays the same, n successful presses in one direction activate all n windows, each once, however the list is shuffled in between. |
| Mru.Mru.Observe | src/mru.rs:62-71 | One observation, as specified. |
| Mru.Mru.Order | src/mru.rs:97-133 | Seeding, then sorting windows within applications, then applications. |
| Mru.RecentIsHistory | src/mru.rs:62-71 | After any observations the list is the first `limit` entries of the unbounded move-to-front list. |
| Mru.HistoryHoldsTheLatest | src/mru.rs:66-69 | A window handle used again never keeps the place of the window that had it before. |
| Mru.SeedingKeepsObserved | src/mru.rs:73-86 | Seeding only appends, up to the limit. |
| Mru.SortIsStable | src/mru.rs:117-127 | The sort gives a sorted permutation that keeps the order within each rank. |
| Mru.OrderPermutes | src/mru.rs:117-127 | Ordering permutes windows within their application and applications among themselves, stably. |
| Mru.MostRecentComesFirst | src/mru.rs:117-127 | The most recent of all listed windows heads the first application. |
| Layout.LayoutIsWellPlaced | src/layout.rs:109-261 | A layout that succeeds lies in the available area; items and footer lie in the panel and do not overlap; each icon lies in its item. |
| Layout.PagesPartition | src/layout.rs:222-228 | Pages share out all items in order, and the selected one is on the page shown. |
| Layout.HitTestIsExact | src/layout.rs:263-270 | A point hits item i if and only if it lies in item i. |
| Layout.IconsAreLargeEnough | src/layout.rs:183-190 | Every icon rectangle is at least what 24 units come to in pixels less one, and at least that where `dpi % 4 < 2`. |
| Layout.IconsReachTheirSize | src/layout.rs:183-250 | All icons of all layouts at a resolution reach that size if and only if `dpi % 4 < 2`. |
| Layout.OneIconIsShort | src/layout.rs:228-250 | A layout on a monitor of 3840 by 2160 that loses a pixel, for any other resolution. |
| Layout.RowFits | src/layout.rs:168-186 | Icons as wide as computed for a row fit in the row. |
| Pixels.OverPremultiplied | src/pixels.rs:207-214 | Blending premultiplied pixels gives premultiplied pixels, and the clamp to 255 has no effect. |
| Pixels.ClampIsForOthers | src/pixels.rs:207-214 | The clamp takes effect for some destination if and only if the source is not premultiplied. |
| Pixels.OverEnds | src/pixels.rs:207-214 | A clear pixel changes nothing, an opaque one covers. |
| Pixels.Premultiply | src/pixels.rs:197-205 | Each colour scaled by the alpha is premultiplied, and unchanged when opaque. |
| Pixels.RecoverIsInverse | src/pixels.rs:138-167 | Compositing a premultiplied pixel over black and over white and recovering gives back exactly that pixel. |
| Pixels.RecoverPremultiplied | src/pixels.rs:138-167 | Whatever the two renderings, what is recovered is premultiplied. |
| Pixels.DownsampledPremultiplied | src/pixels.rs:107-136 | Averaging the blocks of a premultiplied image gives premultiplied pixels. |
| Pixels.Average | src/pixels.rs:107-136 | The integer average is the nearest byte. |
| Pixels.Compose | src/pixels.rs:216-250 | Exactly the pixels under a source that fits are blended; one that does not fit changes nothing. |
| Pixels.RecoverAlpha | src/pixels.rs:138-167 | The loop recovers every pixel. |
| Pixels.RecoverComposited | src/pixels.rs:138-167 | A whole premultiplied image, composited over black and over white and recovered, comes back as it was. |
| Pixels.SumBlock | src/pixels.rs:107-136 | The inner loops add up every sample of a block once. |
| Pixels.Downsample | src/pixels.rs:107-136 | Every pixel is the average of its block. |
| Scene.Scene.Compose | src/painter/scene.rs:79-189 | After a successful call, and so after any number of them, the surface is the full redraw of the state, and the count returned is the number of sprites that had to be made. After a failed sprite the fields still tell what the surface shows if and only if nothing was selected yet or no tile already repainted shows a changed selection; after a failed name, if and only if no visible name had been drawn. |
| Scene.LosesTrack | src/painter/scene.rs:88-161 | The selection moves to a tile whose sprite fails: the tile left is repainted without selection while the scene still counts it as selected. |
| Scene.Scene.SurfaceIsFullRedraw | src/painter/scene.rs:79-189 | Tiles and footer up to date make the full picture. |
| Scene.TilesWithin | src/painter/scene.rs:88-161 | Painting all tiles in turn, each shows as if it were alone, since they do not overlap. |
| Scene.LayoutsArePaintable | src/painter.rs:165-202 | Every layout that succeeds satisfies what painting relies on. |
| Scene.Scene.Restore | src/render_surface.rs:88-106 | Exactly the rectangle is background again. |
| Mailbox.TakeIsCurrent | src/worker.rs:125-136 | What is taken is of the generation current when the call began, and nothing is taken after closing. |
| Mailbox.NothingCurrentIsLost | src/worker.rs:102-136 | Of the current generation, what was published is what was given out followed by what waits. |
| Mailbox.DeliveredInOrder | src/worker.rs:102-136 | Of every generation, what was given out is a beginning of what was published. |
| Mailbox.QueueWithinLimit | src/worker.rs:102-123 | The queue never exceeds its limit. |
| Mailbox.StaleResultsNeverBlock | src/worker.rs:102-123 | A producer about to push finds only results of its own generation in the queue. |
| Mailbox.RequestsGetThrough | src/worker.rs:39-49 | Wherever the worker is, a request takes three steps of the UI and, once the worker rests, three of the worker's. |
| Mailbox.TheNewestIsReceived | src/worker.rs:85-100 | The worker starts only on the request that is newest at that moment. |
| IconCache.BudgetIsExact | src/icon_cache.rs:33-37 | In every interleaving of the worker with threads that copy, take up and drop icons, at every moment, the bytes used are those of the icons someone holds and of the leases not yet used, within the budget; entries stay within their limit. |
| IconRaces.FailingHasSeenAllHeld | src/icon_cache.rs:152-198 | In every interleaving, a reservation that fails found the budget full at its last try and has read every entry since while the cache was not its icon's only holder; an icon that could have been reclaimed at the try was taken up before it was read. |
| IconRaces.ReservationFailsOnlyWhenNoneRemains | src/icon_cache.rs:152-177 | With nobody taking icons up meanwhile, a reservation fails only when, at its last try, the bytes do not fit and every cached icon is in use elsewhere. |
| IconRaces.ReservationEvictsOnce | src/icon_cache.rs:152-177 | With nobody taking icons up meanwhile, a reservation evicts one entry at most. |
| IconRaces.EvictingAgainMeansTakenUp | src/icon_cache.rs:152-198 | In every interleaving, a reservation that evicts again has had the icon it just evicted taken up between the reading of its holders and its removal, which freed nothing. |
| IconRaces.TheOldestSeenFreeGoes | src/icon_cache.rs:179-194 | In every interleaving, what goes was read as held by the cache alone, and whatever was used longer ago was read as held. |
| IconRaces.RemovalFrees | src/icon_cache.rs:33-37 | Removing an entry frees its icon's bytes exactly when the cache is the only holder at that moment, and nothing otherwise. |
| IconRaces.ReservingTerminates | src/icon_cache.rs:152-177 | Whatever other threads do, a reservation takes the worker no more moves than `Work` of the number of entries. |
| IconRaces.WorkIs | src/icon_cache.rs:152-177 | For n entries that is (n + 1) * (n + 6) / 2: a try, n reads, a choice and a removal, with one entry less each time. |
| IconRaces.WorkerIsNeverStuck | src/icon_cache.rs:152-269 | Within a reservation or an insertion the worker always has a next move. |
| IconWitnesses.EvictsTwo | src/app/switching.rs:213-216 | A run in which one reservation evicts two icons, because the first is taken up through its weak reference after it was chosen. |
| IconWitnesses.FailsThoughOneIsFree | src/app/switching.rs:213-216 | A run in which one reservation fails although at every moment of it some icon could be reclaimed. |
| KeepIcons.Cache.Reserve | src/icon_cache.rs:152-177 | The loop, with other threads moving before every access, is one reservation of the protocol and ends with a lease or with nothing to evict. |
| KeepIcons.Cache.Reclaim | src/icon_cache.rs:179-198 | The pass reads the holders entry by entry and removes its choice, as the protocol says. |
| KeepIcons.Cache.GetAt | src/icon_cache.rs:129-140 | A lookup renews the entry's use and finds its icon exactly while it is fresh. |
| KeepIcons.Cache.TakePrevious | src/icon_cache.rs:142-150 | The worker gets the cached icon to hold, fresh or not, if there is one. |
| KeepIcons.Cache.Insert | src/icon_cache.rs:200-270 | Inserting is an insertion of the protocol; what it returns and stores depends only on where it began, whatever other threads do meanwhile. |
| IconCache.InsertionStores | src/icon_cache.rs:240-268 | In every interleaving, the entry stored is the one determined where the insertion began, among the old entries or those without the oldest. |
| IconCache.FailedLoadKeepsIcon | src/icon_cache.rs:228-242 | A failed load never displaces an icon that was loaded. |
| IconCache.RefreshKeepsOrRenews | src/icon_cache.rs:221-252 | A refresh keeps the icon if the pixels are the same, and makes a new one otherwise. |
| IconCache.InsertionEvictsTheOldest | src/icon_cache.rs:253-257 | Only a new key in a full cache evicts, and then just the entry used longest ago. |
| Png.PngDimensions | src/icon_loader/file.rs:44-77 | The loop over the chunks computes the specified walk and stays in bounds. |
| Png.DimensionsAreExact | src/icon_loader/file.rs:44-77 | Dimensions are given if and only if the bytes are the signature and a written list of chunks that begins with a valid IHDR, holds an IDAT, has every checksum right and ends at its first IEND, which is empty. |
| Png.FoldBytes | src/icon_loader/file.rs:79-88 | The two loops of the checksum compute the fold. |
| Png.CrcDetectsOneByte | src/icon_loader/file.rs:79-88 | Data of any length that differ in one byte have different checksums. |
| Ico.Largest | src/icon_loader/file.rs:100-129 | The loop over the table takes the first of the largest rows, if all are in order. |
| Ico.IcoResource | src/icon_loader/file.rs:90-130 | An image is taken exactly when the whole table is in order, it is the first of the largest, and it lies in the file. |

## Left out

- Values in quotes or over several lines: the INI library that reads them is not part of this model. The laws of merging and setting ask for values on single lines; the scan itself and the guards are modelled for every text.
- SetValue.SetValue: a key that begins with a bracket, a value that opens a quote or ends in a backslash, and NUL are outside its equivalence; with them the edited line can stop being that assignment, and the guards decide.
- Merging.DocumentIsSound: offsets are numbers of lines, and positions in a line numbers of characters, not bytes of UTF-8.
- Byte order marks and encodings, file metadata, owners, access lists, and the pinning of the directory: operating-system behaviour. Failing to read or keep them is one of the failures of a call.
- Transaction.NobodyElsesFileIsTouched: a file deleted while open goes at once here, while Windows keeps its name until the handle closes; editors may add links to any file.
- CommitFile.Commit.WriteWithHook: the hook's stages are calls that may fail; what a test does in them is an edit.
- Restart pipes, the parent and child workers and the message formats: any message may arrive at any time.
- Handover.OnlyTheOwnerTakesKeys: holds until a process tears its window down; generations do not wrap at 64 bits; waking the hook thread by message is left to chance.
- InputProtocol.AppliedIsPrefixOfEmitted: each atomic access is one step in one global order, weaker memory orders are not modelled; a disconnected channel, statistics and the wake-up message's own delivery are left out.
- Switching.AsynchronousIsSynchronous: sessions of applications only; window, search and details sessions, pointer and accessibility selection, previews, time limits as clock readings, and the filter by monitor are left out. A time limit or a failure is an event that ends the session.
- Switching.RefreshedPanel: icons, names and badges that a refresh brings do not affect order or selection and are left out.
- WindowCycle.EveryWindowOnce: restoring and raising a window either succeeds or fails.
- Mru.RecentIsHistory: dropping windows whose process has ended, before each observation, is left out, and so are the configured orders that do not sort.
- Layout.LayoutIsWellPlaced: 64-bit rounding is replaced by exact arithmetic; option values are what the configuration allows, so their sums stay within 32 bits.
- Pixels.Downsample: resizing and the coverage of rounded corners are left out; coverage may be any byte.
- Scene.Scene.Compose: sprites, outlines and the drawn name are functions of what they depend on; running out of memory for an outline is not modelled; after a failure that loses track, nothing is claimed of what the surface shows.
- Mailbox.RequestsGetThrough: the wake-up token only shortens waiting and is left out; the request cell is one atomic cell.
- KeyboardHistory.ReleasesFollowPresses: a callback that comes while another is being handled, or whose data cannot be read, is passed on unseen and is no event here.
- IconCache.BudgetIsExact: reference counts and the byte count are accessed in one global order; the end of an icon and the return of its bytes are one step, since nobody can see what lies between; the 64-bit clock and the revision counter do not wrap; whether the files behind an icon are unchanged is an input; counters of hits and failures are left out.
- WatchState.RetriesAreSpaced: times are whole milliseconds.
- Ico.IcoResource: decoding the chosen image, and PNG images inside an ICO beyond their dimensions, are left to Windows.
- Calls to Win32, COM, GDI, DirectWrite, UI Automation and DWM, logging, metrics, diagnostics and thread creation: only their success or failure is an input.
- Settings tables, localization, quick-setting names, search text and badge counts: they would only add easy members.

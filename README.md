# Montauk signal console: a verified model of its core logic

Montauk is a React dashboard themed on a paranormal research station. It has two parts:

- **An incident board.** Operators report incidents, filter, search and sort them, and change their status. A typed secret word bulk-resolves every critical incident.
- **A signal-tuning screen.** Three dials (frequency, phase, noise suppression) drive a computed coherence, a status (searching, pattern detected, signal lock, signal lost), a bounded event log, sound selection and a de-masking text panel.

A command terminal, toasts, a personnel tracker and a monitor graph complete the user interface.

This project models the logic behind those screens in Dafny and proves properties of it. Rendering, animation, audio decoding and timers are not modelled. The model has one module per source file:

- **`SignalEngine`** (`hooks/signal/useSignalEngine.ts`): the signal computation, the failure checks, the three setters, `reset`, the bounded log and the status-logging effect. The hook is a class, `Engine`, whose methods are proved equal to pure step functions. The invariants of every reachable state are proved over any sequence of calls.
- **`Incidents`** (`hooks/useIncidents.ts`): id generation, add, update, patch, delete, the bulk resolve of critical incidents (a loop that counts) and the per-level statistics (a reduce).
- **`IncidentList`** and **`StableSort`** (`components/IncidentList.tsx`): the case-insensitive search, the two filters and the three sort orders. `Array.prototype.sort` is modelled as a stable insertion sort on the comparator's key.
- **`SecretCode`** (`hooks/useSecretCode.ts`): the keystroke buffer and trigger.
- **`Terminal`** (`components/Terminal.tsx`): command normalisation and dispatch, the history, and the ArrowUp/ArrowDown recall cursor.
- **`IncidentForm`** (`components/CreateIncidentModal.tsx`): the initial form, the submit guard and the duplicate-free tag editor.
- **`Toasts`** (`components/Toast.tsx`): the toast queue.
- **`MonitorGraph`** (`components/modules/SystemMonitorGraph.tsx`): the 50-sample rolling buffer. The shift runs in place on a fresh array.
- **`LiveUsers`** (`components/modules/LiveUsers.tsx`): the manual-trace record, its confirmation log and the scan log.
- **`DecodedData`** (`components/signal/DecodedDataPanel.tsx`): message selection and progressive de-masking.
- **`IncidentCard`** (`components/IncidentCard.tsx`): the "Nh ago / Nm ago" label and the colour fallbacks.
- **`AudioManager`** (`hooks/signal/useAudioManager.ts`): track selection, the `playAudio` guard and bookkeeping, and the volume table.

Two support modules hold the built-in behaviour the components rely on:

- **`Common`**: an option type, `Array.prototype.filter`, `slice(-n)`, and JavaScript's truncating `%` and `/`.
- **`Text`**: ASCII `toUpperCase`/`toLowerCase`, `trim` with its white-space set, `includes`, `String(n)` and `padStart`.

React state is read as "fields updated by each call". Each state update is applied at once, not batched. The clock, `Math.random`, and generated ids and timestamps are parameters.

## Where the code and its description differ

In each case below, the model follows the code.

- **Status-change log entries are never written.** The effect meant to log PATTERN DETECTED and SIGNAL LOCK compares the current status with itself. Its second test asks for SIGNAL_LOCK while unlocked, which the calculation never produces. So it adds nothing in any reachable state (`SignalEngine.StatusLogNeverFires`).
- **The failure window is shared by all three controls.** Rapid movement is measured against one `lastChangeTime` common to the three controls, not a time per control. The time moves only on an accepted change.
- **`reset` keeps the refs.** It restores the state and the log but leaves `previousValues` and `lastChangeTime` as they were.
- **Repeating a setter call is stable only under conditions.** An accepted call repeats identically only when the state it leaves is in the safe ranges and is not the SIGNAL_LOST hold (`SignalEngine.RepeatIsStable`). A call that moves the phase above 90 is accepted once and then fails when repeated (`SignalEngine.RepeatedHighPhaseFails`).

## Model

| member | source | states |
|---|---|---|
| SignalEngine.Clamp | hooks/signal/useSignalEngine.ts:115 | the clamped value lies in [0, 100], equals the input inside that range and the nearer bound outside it |
| SignalEngine.Calculate | hooks/signal/useSignalEngine.ts:46-80 | coherence, noise and strength lie in [0, 100]; locked iff SIGNAL_LOCK; the status agrees with its coherence band; SIGNAL_LOST only when it was already lost and the 2000 ms hold is still running |
| SignalEngine.IdealSettingLocks | hooks/signal/useSignalEngine.ts:46-70 | at (50, 75, 30): strength 100, noise 0, coherence 100, SIGNAL_LOCK, locked |
| SignalEngine.ReadingInRange | hooks/signal/useSignalEngine.ts:46-62 | with the controls in range, neither clamp binds: coherence is 100 minus the averaged distance and lies in [35, 100], noise is the distance, the two sum to 100, and strength is clamp(100 - 2·distance of frequency from 50) |
| SignalEngine.StatusChoice | hooks/signal/useSignalEngine.ts:64-77 | each status holds exactly when its branch condition does, in priority order lock, pattern, SIGNAL_LOST hold, searching |
| SignalEngine.Appended | hooks/signal/useSignalEngine.ts:42 | adding to the log gives at most ten entries, grows it by one below ten, and puts the entry last |
| SignalEngine.AppendedIsLast | hooks/signal/useSignalEngine.ts:42 | one addition leaves the last ten entries of the extended log |
| SignalEngine.AppendedAllKeepsNewest | hooks/signal/useSignalEngine.ts:33-43 | any number of additions leaves the ten most recent entries of everything logged, oldest first |
| SignalEngine.FailureCause | hooks/signal/useSignalEngine.ts:83-111 | a failure is "moved too fast" iff the move exceeds 20 within 500 ms; no failure iff not that, suppression at most 80 and phase within [20, 90], read from the state before the update |
| SignalEngine.SetterStoresClamped | hooks/signal/useSignalEngine.ts:114-198 | each setter stores the clamped input in its own control on both paths and leaves the two other controls unchanged |
| SignalEngine.SetControl | hooks/signal/useSignalEngine.ts:113-198 | one setter call: the control holds the clamped input; a changed log means the call failed and ended in an error entry; a moved change time means it was accepted, at `now`, with no entry |
| SignalEngine.FailurePath | hooks/signal/useSignalEngine.ts:117-127 | a refused change gives SIGNAL_LOST, unlocked, coherence 0, noise 100 and the failure time; strength, previous values and last change time are kept; exactly one error entry is added |
| SignalEngine.SuccessPath | hooks/signal/useSignalEngine.ts:130-139 | an accepted change adds no log entry, records that control's previous value and the change time, and keeps the other previous values and the failure time |
| SignalEngine.ResetRestores | hooks/signal/useSignalEngine.ts:200-205 | reset gives the initial state and a log of exactly the "SIGNAL SEARCH INITIATED" info entry, keeping the previous values and last change time |
| SignalEngine.Restarted | hooks/signal/useSignalEngine.ts:200-205 | reset gives SEARCHING with no failure time and a one-entry "SIGNAL SEARCH INITIATED" info log, and keeps both refs |
| SignalEngine.MountEstablishes | hooks/signal/useSignalEngine.ts:15-31 | the mounted hook satisfies the invariant |
| SignalEngine.Mount | hooks/signal/useSignalEngine.ts:15-31 | the mounted hook is SEARCHING, unlocked, with no failure time and one "SIGNAL SEARCH INITIATED" info entry (the mount effect at lines 218-221) |
| SignalEngine.SetControlPreserves | hooks/signal/useSignalEngine.ts:114-198 | every setter call keeps the invariant: values in range, coherence + noise = 100, lock flag iff SIGNAL_LOCK, SIGNAL_LOST has a failure time, status agrees with its coherence band, at most ten log entries |
| SignalEngine.RunPreserves | hooks/signal/useSignalEngine.ts:114-205 | any sequence of setter calls and resets keeps the invariant |
| SignalEngine.Reachable | hooks/signal/useSignalEngine.ts:15-221 | every state reachable from mounting satisfies the invariant |
| SignalEngine.StatusLogNeverFires | hooks/signal/useSignalEngine.ts:207-216 | the status-change effect adds no log entry in any reachable state |
| SignalEngine.PinnedPhaseMovesBack | hooks/signal/useSignalEngine.ts:143-157 | with the phase pinned above 90, setting it to 50 is refused as a misalignment yet leaves the phase at 50 |
| SignalEngine.RepeatedHighPhaseFails | hooks/signal/useSignalEngine.ts:143-169 | a slow move of the phase to 95 is accepted, and the same call repeated then fails |
| SignalEngine.RepeatIsStable | hooks/signal/useSignalEngine.ts:113-140 | repeating an accepted call that left the controls in the safe ranges, and not in the SIGNAL_LOST hold, changes neither state, log nor previous values |
| SignalEngine.RecomputedIsFixed | hooks/signal/useSignalEngine.ts:130-139 | recomputing the readings again with the same control value, at any later time, gives the same state unless the first recomputation ended in the SIGNAL_LOST hold |
| SignalEngine.Engine.constructor | hooks/signal/useSignalEngine.ts:27-31 | the mounted hook is the initial state, the initial refs and one start-up entry, and satisfies the invariant |
| SignalEngine.Engine.AddLog | hooks/signal/useSignalEngine.ts:34-43 | the log becomes its last nine entries plus the new one |
| SignalEngine.Engine.CheckFailure | hooks/signal/useSignalEngine.ts:83-111 | reports a failure iff there is a cause, and then logs that cause's message as an error |
| SignalEngine.Engine.SetFrequency | hooks/signal/useSignalEngine.ts:114-140 | the new state is the setter step of the old one, and the invariant is kept |
| SignalEngine.Engine.SetPhase | hooks/signal/useSignalEngine.ts:143-169 | the new state is the setter step of the old one, and the invariant is kept |
| SignalEngine.Engine.SetNoiseSuppression | hooks/signal/useSignalEngine.ts:172-198 | the new state is the setter step of the old one, and the invariant is kept |
| SignalEngine.Engine.Reset | hooks/signal/useSignalEngine.ts:201-205 | the new state is the reset step of the old one, and the invariant is kept |
| Incidents.GenerateId | hooks/useIncidents.ts:19-22 | the id is "MNT-" followed by at least three characters |
| Incidents.GenerateIdDigits | hooks/useIncidents.ts:19-22 | the characters after "MNT-" are digits denoting the list length plus one |
| Incidents.GenerateIdDependsOnLength | hooks/useIncidents.ts:19-22 | two lists get the same id iff they have the same length |
| Incidents.NewIncident | hooks/useIncidents.ts:25-32 | the new incident copies the input and gets the generated id, ACTIVE, the creation time and the default recommended action |
| Incidents.AddIncident | hooks/useIncidents.ts:25-35 | the new incident is returned and put in front of the unchanged list |
| Incidents.UpdateStatus | hooks/useIncidents.ts:38-44 | same length and ids; incidents with that id take the status, the others are unchanged |
| Incidents.UpdateIncident | hooks/useIncidents.ts:47-53 | same length; incidents with that id get the patch applied, the others are unchanged |
| Incidents.EmptyPatchIsIdentity | hooks/useIncidents.ts:47-53 | a patch mentioning no field changes nothing |
| Incidents.StatusPatchIsUpdateStatus | hooks/useIncidents.ts:38-53 | a patch mentioning only the status is the status update |
| Incidents.UpdateStatusIdempotent | hooks/useIncidents.ts:38-44 | setting a status twice is setting it once |
| Incidents.DeleteIncident | hooks/useIncidents.ts:56-58 | the result holds exactly the incidents whose id differs |
| Incidents.DeleteCounts | hooks/useIncidents.ts:56-58 | every incident with the id is gone and every other keeps its number of copies |
| Incidents.DeleteAbsentIsNoOp | hooks/useIncidents.ts:56-58 | deleting an id no incident has changes nothing |
| Incidents.DeleteIdempotent | hooks/useIncidents.ts:56-58 | deleting twice is deleting once |
| Incidents.AddThenDelete | hooks/useIncidents.ts:25-58 | deleting the incident just added, under a fresh id, gives the old list back |
| Incidents.IdRepeatsAfterDelete | hooks/useIncidents.ts:18-58 | after deleting MNT-001 from a list of two, the next id is MNT-002, the id of the incident left |
| Incidents.ResolvedCritical | hooks/useIncidents.ts:61-73 | no incident still needs resolving; non-critical incidents are unchanged; only the status of any incident changes |
| Incidents.ResolveAllCritical | hooks/useIncidents.ts:61-73 | the loop builds the resolved list and counts the critical incidents that were not yet resolved |
| Incidents.ResolveAllCriticalIdempotent | hooks/useIncidents.ts:61-73 | resolving again changes nothing and counts zero |
| Incidents.UnresolvedCountsChanges | hooks/useIncidents.ts:64-70 | the count equals the number of incidents the resolve changed |
| Incidents.CountsSumToLength | hooks/useIncidents.ts:76-82 | the four per-level counts add up to the number of incidents |
| Incidents.ComputeThreatStats | hooks/useIncidents.ts:76-82 | each counter of the reduce is the number of incidents at that level |
| Incidents.CountLevel | hooks/useIncidents.ts:76-82 | the number of incidents at one level, at most the list length; `CountsSumToLength` and `AddCountsOnce` characterise it |
| Incidents.AddCountsOnce | hooks/useIncidents.ts:76-82 | adding an incident raises its level's count by one and leaves the others |
| StableSort.SortPermutes | components/IncidentList.tsx:51-63 | the sort is a permutation of its input |
| StableSort.SortSorted | components/IncidentList.tsx:51-63 | the sorted list is ordered by the comparator's key |
| StableSort.SortStable | components/IncidentList.tsx:51-63 | elements with equal keys keep their input order |
| IncidentList.FilteredIsOneFilter | components/IncidentList.tsx:28-48 | the three filters in turn keep exactly the subsequence of incidents passing all of them |
| IncidentList.Filtered | components/IncidentList.tsx:25-49 | the filter stages never lengthen the list; `FilteredIsOneFilter` and `FilteredMembers` say which incidents stay |
| IncidentList.FilteredMembers | components/IncidentList.tsx:28-48 | an incident is listed iff it is in the input and passes every active filter |
| IncidentList.SearchIgnoresCase | components/IncidentList.tsx:29-37 | an upper- or lower-cased query finds the same incidents |
| IncidentList.VisibleIsPermutationOfMatches | components/IncidentList.tsx:25-66 | the list shown is a reordering, with multiplicities, of exactly the matching incidents |
| IncidentList.Visible | components/IncidentList.tsx:25-62 | the sort keeps the length of the filtered list; the permutation and order lemmas say the rest |
| IncidentList.NewestFirst | components/IncidentList.tsx:52-54 | "newest" orders createdAt from high to low |
| IncidentList.OldestFirst | components/IncidentList.tsx:55-57 | "oldest" orders createdAt from low to high |
| IncidentList.HighestPriorityFirst | components/IncidentList.tsx:58-61 | "priority" orders CRITICAL, SEVERE, MODERATE, LOW |
| IncidentList.PriorityTiesKeepOrder | components/IncidentList.tsx:51-63 | under "priority", incidents of one level keep their filtered order |
| SecretCode.SliceLast | hooks/useSecretCode.ts:18 | `slice(-n)` keeps the last n characters, and the whole string for n = 0 |
| SecretCode.SliceLastAppend | hooks/useSecretCode.ts:18 | cutting before appending and cutting after give the same tail |
| SecretCode.Letter | hooks/useSecretCode.ts:13-16 | a keystroke adds at most one letter, and one exactly when it is counted |
| SecretCode.KeyStep | hooks/useSecretCode.ts:7-28 | an ignored key changes nothing; a counted key fires iff the cut buffer equals the upper-cased target, and then empties the buffer |
| SecretCode.KeyStepBounded | hooks/useSecretCode.ts:18 | a keystroke keeps the buffer no longer than a non-empty target |
| SecretCode.FeedBounded | hooks/useSecretCode.ts:18 | any run of keystrokes keeps the buffer bounded |
| SecretCode.FeedWithoutTrigger | hooks/useSecretCode.ts:17-26 | while nothing fires, the buffer is the tail of the start buffer followed by the letters typed |
| SecretCode.TypingTargetTriggers | hooks/useSecretCode.ts:13-26 | typing the target's letters, in any case, fires by the last of them |
| SecretCode.KeyStepIgnoresCase | hooks/useSecretCode.ts:13-20 | a key and its upper-case form, and a target and its lower-case form, act the same |
| SecretCode.EmptyTargetGrows | hooks/useSecretCode.ts:18-20 | with an empty target every letter lengthens the buffer and nothing fires |
| SecretCode.Detector.constructor | hooks/useSecretCode.ts:3-5 | an empty buffer, not triggered |
| SecretCode.Detector.HandleKeyDown | hooks/useSecretCode.ts:7-28 | buffer and trigger follow the keystroke step, and the buffer stays bounded |
| Terminal.Commands | components/Terminal.tsx:76 | the recall list is no longer than the history |
| Terminal.At | components/Terminal.tsx:80 | reading the recall list gives `commands[i]` when the position is in range, `undefined` otherwise |
| Terminal.BlankCommandIgnored | components/Terminal.tsx:35-36 | a command blank after trimming changes nothing |
| Terminal.ClearKeepsIndex | components/Terminal.tsx:45-48 | CLEAR empties history and input but leaves the cursor |
| Terminal.CommandAppendsOne | components/Terminal.tsx:38-68 | any other command appends exactly one entry (normalised command, output), clears the input and parks the cursor |
| Terminal.Output | components/Terminal.tsx:38-64 | HELP and STATUS give their fixed texts; any other command gives the handler's string when it answers with one, "COMMAND EXECUTED: " and the command when it answers with none, and "UNKNOWN COMMAND: " and the command without a handler |
| Terminal.Execute | components/Terminal.tsx:34-69 | a command empties the history (CLEAR) or keeps it as a prefix of the new one, with at most one entry more |
| Terminal.KeyDown | components/Terminal.tsx:71-94 | the handler throws exactly on Enter with an undefined input, changing nothing then; keys other than Enter keep the history |
| Terminal.NormaliseIgnoresCase | components/Terminal.tsx:35 | commands differing only in case normalise alike |
| Terminal.Normalise | components/Terminal.tsx:35 | the normalised command is empty iff the input is all white space, and has no lower-case letter |
| Terminal.TrimLower | components/Terminal.tsx:35 | trimming and case mapping commute |
| Terminal.CommandsAppend | components/Terminal.tsx:66-76 | appending an entry appends its command to the recall list unless it is the start-up entry |
| Terminal.KeyDownKeepsCursor | components/Terminal.tsx:71-94 | every key except an Enter that runs CLEAR keeps the cursor in [-1, recallable - 1], and from such a state the arrows never put `undefined` in the input |
| Terminal.ArrowUpRecalls | components/Terminal.tsx:74-81 | ArrowUp moves the cursor up by one, stopping at the oldest command, and recalls `commands[len - 1 - index]`, so from -1 the most recent command |
| Terminal.ArrowDownRecalls | components/Terminal.tsx:82-93 | ArrowDown from an index above 0 moves down by one and recalls that command; otherwise it parks the cursor at -1 and empties the input |
| Terminal.StaleCursorAfterClear | components/Terminal.tsx:45-94 | after two recalls and CLEAR, ArrowDown puts `undefined` in the input and the next Enter throws |
| Terminal.Console.constructor | components/Terminal.tsx:19-23 | empty input, the start-up entry, cursor -1 |
| Terminal.Console.Type | components/Terminal.tsx:141 | typing replaces the input line |
| Terminal.Console.ExecuteCommand | components/Terminal.tsx:34-69 | the new state is the command step of the old one |
| Terminal.Console.HandleKeyDown | components/Terminal.tsx:71-94 | the new state and whether it threw are the key step of the old state |
| IncidentForm.InitialForm | components/CreateIncidentModal.tsx:20-27 | empty title, description and tags, "Hawkins Lab", MODERATE, "Chief Hopper" |
| IncidentForm.Submitted | components/CreateIncidentModal.tsx:31-36 | the untrimmed form is submitted iff neither title nor description is blank after trimming |
| IncidentForm.Edited | components/CreateIncidentModal.tsx:110-162 | a field edit replaces that field and keeps the tags |
| IncidentForm.WithTag | components/CreateIncidentModal.tsx:38-46 | the trimmed input is appended and the input cleared iff it is non-blank and new; otherwise nothing changes |
| IncidentForm.WithoutTag | components/CreateIncidentModal.tsx:48-53 | removal never lengthens the list |
| IncidentForm.CleanTagIsTrimmed | components/CreateIncidentModal.tsx:39-42 | a stored tag (non-empty, no white space at either end) is exactly a non-empty string that `trim` leaves unchanged |
| IncidentForm.AddTagKeepsGood | components/CreateIncidentModal.tsx:38-46 | adding keeps the tags clean (non-empty, trimmed) and duplicate-free |
| IncidentForm.AddTagExtends | components/CreateIncidentModal.tsx:38-46 | the old tags stay as a prefix, with at most one more |
| IncidentForm.AddTagTwice | components/CreateIncidentModal.tsx:38-46 | an added tag is present, and adding it again changes no tag |
| IncidentForm.RemoveTagCounts | components/CreateIncidentModal.tsx:48-53 | every copy of the removed tag goes, and every other tag keeps its count |
| IncidentForm.RemoveTagKeepsGood | components/CreateIncidentModal.tsx:48-53 | removing keeps the tags clean and duplicate-free |
| IncidentForm.RemoveAbsentTag | components/CreateIncidentModal.tsx:48-53 | removing an absent tag changes nothing |
| IncidentForm.AddThenRemoveTag | components/CreateIncidentModal.tsx:38-53 | removing a tag after adding it is removing it from the old list |
| IncidentForm.Form.constructor | components/CreateIncidentModal.tsx:20-29 | the initial form, an empty tag input, tags clean |
| IncidentForm.Form.EditField | components/CreateIncidentModal.tsx:110-162 | the form takes the edit and the tag invariant holds |
| IncidentForm.Form.SetTagInput | components/CreateIncidentModal.tsx:179 | typing replaces the tag input only |
| IncidentForm.Form.AddTag | components/CreateIncidentModal.tsx:38-46 | tags and input follow the add step, other fields are kept, the invariant holds |
| IncidentForm.Form.RemoveTag | components/CreateIncidentModal.tsx:48-53 | the tags follow the remove step, the invariant holds |
| IncidentForm.Form.Submit | components/CreateIncidentModal.tsx:31-36 | hands on what the submit guard allows |
| Toasts.TypeOrDefault | components/Toast.tsx:101 | a missing type is "success" |
| Toasts.Shown | components/Toast.tsx:101-104 | one toast, with the given id, message and type, after the unchanged old ones |
| Toasts.Dismissed | components/Toast.tsx:106-108 | the queue never grows; `DismissedCounts` says exactly which toasts stay |
| Toasts.DismissedCounts | components/Toast.tsx:106-108 | toasts with the id all go, every other keeps its count |
| Toasts.DismissedHasNoId | components/Toast.tsx:106-108 | no toast with the id remains |
| Toasts.DismissAbsent | components/Toast.tsx:106-108 | dismissing an absent id changes nothing |
| Toasts.DismissTwice | components/Toast.tsx:106-108 | dismissing twice is dismissing once |
| Toasts.ShowThenDismiss | components/Toast.tsx:101-108 | showing under a fresh id and dismissing it restores the queue |
| Toasts.DismissOtherKeepsShown | components/Toast.tsx:101-108 | dismissing another id keeps the new toast last |
| Toasts.ToastQueue.constructor | components/Toast.tsx:99 | no toasts |
| Toasts.ToastQueue.ShowToast | components/Toast.tsx:101-104 | the queue becomes the shown queue |
| Toasts.ToastQueue.DismissToast | components/Toast.tsx:106-108 | the queue becomes the dismissed queue |
| MonitorGraph.Ticked | components/modules/SystemMonitorGraph.tsx:23-27 | the buffer grows by one below 50 and keeps its length from 50 up; the new sample is last |
| MonitorGraph.TickBounded | components/modules/SystemMonitorGraph.tsx:24-25 | at most 50 samples before gives at most 50 after |
| MonitorGraph.TickGrows | components/modules/SystemMonitorGraph.tsx:24-25 | below 50 the earlier samples keep their places |
| MonitorGraph.TickShifts | components/modules/SystemMonitorGraph.tsx:25 | at 50 the oldest goes and the rest move down one place |
| MonitorGraph.RunKeepsLatest | components/modules/SystemMonitorGraph.tsx:21-30 | after any run of ticks the buffer is the last 50 samples, oldest first |
| MonitorGraph.Run | components/modules/SystemMonitorGraph.tsx:21-30 | after any run of ticks the buffer holds at most 50 samples, the latest last |
| MonitorGraph.Graph.constructor | components/modules/SystemMonitorGraph.tsx:12 | an empty buffer |
| MonitorGraph.Graph.Tick | components/modules/SystemMonitorGraph.tsx:23-27 | copying into a fresh array and shifting it in place gives the tick of the old buffer |
| LiveUsers.TraceId | components/modules/LiveUsers.tsx:99 | "TRC-" and three digits denoting a number in 100..999 |
| LiveUsers.TraceIdInjective | components/modules/LiveUsers.tsx:99 | different draws give different ids |
| LiveUsers.TraceLocation | components/modules/LiveUsers.tsx:98 | the upper-cased custom location when adding one, else the selected one |
| LiveUsers.Trace | components/modules/LiveUsers.tsx:101-108 | the upper-cased name, MANUAL TRACE, clearance 0; BREACH and the rift prefix for the Upside Down, ACTIVE and no prefix otherwise |
| LiveUsers.TraceLog | components/modules/LiveUsers.tsx:119-124 | a warning "MANUAL TRACE INITIATED: " and the id |
| LiveUsers.TraceIgnoresCase | components/modules/LiveUsers.tsx:103 | a name typed in any case gives the same record |
| LiveUsers.BreachIffRift | components/modules/LiveUsers.tsx:105-106 | BREACH iff the Upside Down, whose location carries the prefix |
| LiveUsers.ScanLog | components/modules/LiveUsers.tsx:76-81 | the scan entry's id, time and warning-or-info type, and its message: the action, " [SEC-", the sector digit 1-9, "]" |
| LiveUsers.Scanned | components/modules/LiveUsers.tsx:83 | the new entry first, the old ones after it, at most ten kept |
| LiveUsers.ScanRunIsNewestFirst | components/modules/LiveUsers.tsx:83 | after scans alone the log is the newest ten entries, newest first |
| LiveUsers.TraceOverflowsLog | components/modules/LiveUsers.tsx:83-124 | a trace grows a full log to eleven, and the next scan cuts it to ten |
| LiveUsers.Tracker.constructor | components/modules/LiveUsers.tsx:39-47 | empty lists and the initial form |
| LiveUsers.Tracker.AddTrace | components/modules/LiveUsers.tsx:95-125 | an empty name changes nothing; otherwise the trace and its log entry go in front and the form resets, the dimension excepted |
| LiveUsers.Tracker.ScanLogs | components/modules/LiveUsers.tsx:73-83 | the log follows the scan step; the users and the five form fields are untouched |
| Common.Filter | hooks/useIncidents.ts:57 | filtering never lengthens |
| Common.FilterMembers | hooks/useIncidents.ts:57 | an element is kept iff it is in the input and passes |
| Common.FilterIdempotent | hooks/useIncidents.ts:57 | filtering twice is filtering once |
| Common.Last | hooks/signal/useSignalEngine.ts:42 | `slice(-n)` for n > 0: the last n elements, or all of them |
| Common.LastAppend | hooks/signal/useSignalEngine.ts:42 | cutting before appending and after give the same tail |
| Common.JsRem | components/IncidentCard.tsx:23 | the remainder has the sign of the dividend and is smaller than the divisor |
| Common.JsDivision | components/IncidentCard.tsx:23 | truncated quotient times divisor plus remainder is the dividend |
| Text.Upper | components/Terminal.tsx:35 | the same length, each character upper-cased |
| Text.LowerOfUpper | components/IncidentList.tsx:30 | lower-casing after upper-casing is lower-casing |
| Text.Lower | components/IncidentList.tsx:30 | the same length, each character lower-cased |
| Text.Trim | components/Terminal.tsx:35 | the result occurs in the input with only white space before and after it, has no white space at either end, and is empty iff the input is all white space |
| Text.TrimIdempotent | components/CreateIncidentModal.tsx:39 | trimming twice is trimming once |
| Text.TrimFixed | components/CreateIncidentModal.tsx:39 | a string with no white space at either end is its own trim |
| Text.Contains | components/IncidentList.tsx:33 | true iff the needle occurs at some position |
| Text.NatToStringRoundTrip | hooks/useIncidents.ts:21 | reading back `String(n)` gives n |
| Text.NatToString | hooks/useIncidents.ts:21 | `String(n)`: non-empty decimal digits without a leading zero |
| Text.IntToString | components/IncidentCard.tsx:24-25 | `String(i)`: the digits of a non-negative number, or a minus sign before those of its negation |
| Text.LeadingZeros | hooks/useIncidents.ts:21 | zero padding does not change the number |
| Text.PadStart | hooks/useIncidents.ts:21 | the fill characters go before the string up to the width |
| DecodedData.MessageIndex | components/signal/DecodedDataPanel.tsx:30-32 | the index lies in {0, 1, 2} for a coherence of at least 0 |
| DecodedData.MessageBands | components/signal/DecodedDataPanel.tsx:30-32 | below a third message 0, up to two thirds message 1, below 100 message 2, and 100 wraps to 0 |
| DecodedData.NegativeCoherenceHasNoMessage | components/signal/DecodedDataPanel.tsx:31-34 | a coherence just below 0 gives index -1 |
| DecodedData.ResolveText | components/signal/DecodedDataPanel.tsx:37-42 | same length; character i is shown iff the coherence exceeds (i / length)·100, else it is a block |
| DecodedData.ThresholdMonotone | components/signal/DecodedDataPanel.tsx:39 | thresholds grow along the line |
| DecodedData.RevealedPrefix | components/signal/DecodedDataPanel.tsx:39-40 | the shown characters form a prefix |
| DecodedData.RaisingRevealsMore | components/signal/DecodedDataPanel.tsx:39-40 | raising the coherence never masks a shown character |
| DecodedData.NoCoherenceMasksAll | components/signal/DecodedDataPanel.tsx:39-40 | at or below 0 every character is a block |
| DecodedData.FullCoherenceRevealsAll | components/signal/DecodedDataPanel.tsx:39-40 | at or above 100 the text is shown whole |
| IncidentCard.FormatTime | components/IncidentCard.tsx:20-26 | the label ends in "h ago" or "m ago"; `RecentShowsMinutes` and `OlderShowsHours` give the number |
| IncidentCard.MinutesInRange | components/IncidentCard.tsx:23 | for a past timestamp the minutes lie in [0, 59] |
| IncidentCard.RecentShowsMinutes | components/IncidentCard.tsx:20-26 | under an hour the label is the whole minutes and "m ago" |
| IncidentCard.OlderShowsHours | components/IncidentCard.tsx:20-26 | from an hour on the label is the whole hours (at least one) and "h ago" |
| IncidentCard.HoursIffAnHour | components/IncidentCard.tsx:24-25 | the label ends in "h ago" iff at least an hour has passed |
| IncidentCard.FutureReadsNegative | components/IncidentCard.tsx:21-25 | a timestamp up to a minute ahead reads "-1m ago" |
| IncidentCard.ThreatColorFallback | components/IncidentCard.tsx:28-42 | the grey default iff the name is no threat level |
| IncidentCard.StatusStyleFallback | components/IncidentCard.tsx:59-67 | the grey default iff the name is no status |
| IncidentCard.ThreatColor | components/IncidentCard.tsx:28-42 | a colour other than grey iff the name is one of the four threat levels |
| IncidentCard.StatusStyle | components/IncidentCard.tsx:59-67 | a colour other than grey iff the name is one of the four statuses |
| AudioManager.Decide | hooks/signal/useAudioManager.ts:112-146 | silence while disabled or not set up; the non-looping failure sound on SIGNAL_LOST |
| AudioManager.Band | hooks/signal/useAudioManager.ts:129-135 | below 80 the track is static, pulse or warble |
| AudioManager.DecideBands | hooks/signal/useAudioManager.ts:129-145 | static below 30, pulse below 60, warble below 80, a single beep from 80, each started unless already current |
| AudioManager.StartsOnlyOnChange | hooks/signal/useAudioManager.ts:124-145 | only the failure sound is restarted while current |
| AudioManager.SelectionSettles | hooks/signal/useAudioManager.ts:124-145 | after a band track starts, the same inputs start nothing; the failure sound restarts every time |
| AudioManager.Volume | hooks/signal/useAudioManager.ts:149-161 | every volume lies in [0, 1] for a noise level in [0, 100], static at full noise being 1 |
| AudioManager.Player.constructor | hooks/signal/useAudioManager.ts:23-25 | no current track and no source |
| AudioManager.Player.Initialize | hooks/signal/useAudioManager.ts:28-52 | once enabled, the band tracks loop and the others do not |
| AudioManager.Player.PlayAudio | hooks/signal/useAudioManager.ts:66-91 | nothing while disabled or for no track; otherwise the track's loop flag is set, its volume goes to 0.5 and it becomes current |
| AudioManager.Player.Select | hooks/signal/useAudioManager.ts:112-146 | the player does what the selection rule decides: silence clears the current track and source, a play sets track, source, loop flag and volume 0.5, keeping plays changes nothing; loop flags and volumes are otherwise kept |
| AudioManager.Player.UpdateVolume | hooks/signal/useAudioManager.ts:149-161 | the current source, if any, gets the volume of its track; nothing else changes |
| AudioManager.Player.SetEnabled | hooks/signal/useAudioManager.ts:6-10 | the `isEnabled` prop changes and nothing else does: the elements stay created and the current track stays until the next selection run |
| AudioManager.MuteStopsPlayback | hooks/signal/useAudioManager.ts:112-120 | after set-up and a selection that starts a track, switching sound off and selecting again leaves no current track and no playing element |

## Left out

- Rendering, JSX, styles, framer-motion animation, canvas drawing and the audio plumbing (element creation, `play()` promises, the random radio effects) are left out. They are presentation and browser I/O.
- React's batching and re-render timing are left out. Each setter applies at once, and `resolveAllCritical` runs its updater synchronously, so its count is the real one.
- The clock, `Math.random`, ids and formatted times are parameters: `now`, draws, and a `Stamp` of id and timestamp. They are not generated.
- The signal engine reads the clock once per setter call, where the source reads it up to three times.
- Timers are left out: toast auto-dismiss, the secret-code 500 ms reset, the monitor interval and the LiveUsers scan interval.
- Persistence through `useLocalStorage` and the sample-data seeding of the incident list are left out. That store is not part of this model.
- The LiveUsers shuffle and personnel reload in `scan` are left out because they are random. In the source, that code tests the user list as it was at mount, which is always empty, so a scan without a shuffle reloads the personnel list and drops manual traces.
- Text.Upper and Text.Lower map ASCII letters only. JavaScript's full Unicode case mapping is not modelled.
- Incidents.UpdateIncident: a `Partial<Incident>` key present with the value `undefined` is not modelled. Such a key would erase the field.
- IncidentCard.ThreatColor: its grey-iff contract leaves out `Object.prototype` names, as `ThreatColorFallback` below does.
- IncidentCard.StatusStyle: its grey-iff contract leaves out `Object.prototype` names, as `StatusStyleFallback` below does.
- IncidentCard.StatusStyleFallback: names of `Object.prototype` members such as "constructor" or "toString" are not modelled. In JavaScript `styles[status]` would find an inherited property instead of the grey default.
- IncidentCard.ThreatColorFallback: names of `Object.prototype` members such as "constructor" are not modelled. In JavaScript they would find an inherited property instead of the grey default.
- AudioManager.Player.Initialize: the set-up effect's cleanup is not modelled. The effect lists `isInitialized` among its dependencies, so its cleanup runs as soon as `isInitialized` turns true, pausing every element and setting its `src` to the empty string; in the browser the later `play()` calls would then have nothing to play.
- AudioManager.Player.PlayAudio: pausing and rewinding the element is not modelled. Only the loop flag and volume are kept, so the source's "stop the previous element, then return when the elements do not exist yet" path shows no change.
- Numbers are mathematical reals and integers. Floating-point rounding of the coherence arithmetic is not modelled.
- The terminal history timestamps and the status-log entries' `Math.round` text are modelled only as far as their contents are stated.

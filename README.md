# WorkoutLog session core, in Dafny

A model of the workout-session core of WorkoutLog, an iOS app for logging gym workouts. A
**session** holds **exercises** (each with a list of **sets**: weight, reps, warm-up and failure
flags, rest, timestamp) and **supersets** (two exercises performed alternately). The core is:

- the value types `EquipmentType`, `SetRecord`, `ExerciseEntry`, `SupersetGroup` and
  `WorkoutSession`, with their mutating operations written as functions from the old value
  to the new one (files `equipment.dfy`, `set_record.dfy`, `exercise_entry.dfy`,
  `superset_group.dfy`, `workout_session.dfy`);
- `SessionReadinessValidator`: when an exercise, a superset or a session may be completed,
  the set-input checks, superset creation and re-selection rules (`readiness_validator.dfy`);
- `LogFormatter`: the plain-text log of a session. It has a header line, then one block per
  exercise or superset in `order`, with superset sets merged by timestamp
  (`log_formatter.dfy`). Its loops are methods proved against the specification functions
  `SetLine`, `ExerciseText`, `SupersetText` and `LogText`;
- `InMemorySessionStore`: a class over a map from session id to session plus the autosave
  settings. Every query is stated over the map (`session_store.dfy`);
- `SessionManager`: a class holding the session in progress, the published flags, the error
  and the store. Every operation keeps the invariant `Valid()`: the autosave flag
  is on exactly while a session is in progress, the current session is active, and
  `canCompleteSession` agrees with the readiness rule (`session_manager.dfy`). The integrity
  repair of `validateAndRepairCurrentSession` is the function `Repair` (`session_repair.dfy`).

Helpers: `wrappers.dfy` (Option, Result, Outcome), `identifiers.dfy` (ids, instants as
integer seconds, the twelve-hour expiry window), `text.dfy` (decimal rendering, joining,
suffixes) and `sorting.dfy` (the stable sort behind every `sorted` of the source, proved to
permute and to order).

Time is a parameter. `Date()` becomes `now`. Where the source reads the clock twice and a
branch depends on the second reading (recovery: the most recent live session is found, then
checked for expiry again), the operation takes two readings `now <= later`. New ids (`UUID()`)
are parameters too.

## Model

| member | source | states |
|---|---|---|
| Equipment.WeightPolicy | Workoutlog/Domain/Model/EquipmentType.swift:11-18 | only bodyweight exercises may go without a positive weight; every custom kind needs one |
| Equipment.DisplayNames | Workoutlog/Domain/Model/EquipmentType.swift:21-30 | the display name of each fixed kind, a custom kind shows its own name, and the five fixed names are pairwise different |
| SetRecords.NewSetRecord | Workoutlog/Domain/Model/SetRecord.swift:12-38 | the validating initialiser fails with invalidWeight exactly when the equipment needs a positive weight and none is given, fails with invalidReps exactly when the weight is acceptable and reps < 1, and otherwise stores every field as given |
| SetRecords.DefaultsAndPrecedence | Workoutlog/Domain/Model/SetRecord.swift:12-29 | defaults (no weight, no flags, no rest) build a bodyweight set; the weight check runs before the reps check |
| ExerciseEntries.NewExercise | Workoutlog/Domain/Model/ExerciseEntry.swift:12-26 | a new entry has no sets, no superset reference and order 0, so it is neither ready nor part of a superset |
| ExerciseEntries.AddSet | Workoutlog/Domain/Model/ExerciseEntry.swift:28-30 | `addSet` appends the set and changes nothing else; the count grows by one |
| ExerciseEntries.AddSetReadiness | Workoutlog/Domain/Model/ExerciseEntry.swift:28-38 | after one more set the entry is ready exactly when it had at least three; readiness is never lost |
| ExerciseEntries.ReadyAtFourthSet | Workoutlog/Domain/Model/ExerciseEntry.swift:36-38 | an entry is not ready after three sets and is ready after the fourth |
| SupersetGroups.NewSupersetGroup | Workoutlog/Domain/Model/SupersetGroup.swift:9-18 | a group holds exactly two exercise ids (the initialiser's precondition, as a type invariant), order 0, not completed |
| SupersetGroups.Members | Workoutlog/Domain/Model/SupersetGroup.swift:20-21 | the session entries whose id the group names, in session order, and only those |
| SupersetGroups.IsReadyIff | Workoutlog/Domain/Model/SupersetGroup.swift:20-24 | a group is ready exactly when exactly two entries belong to it and both have four or more sets |
| SupersetGroups.ReadyNeedsBoth | Workoutlog/Domain/Model/SupersetGroup.swift:20-24 | for a group of two distinct logged exercises, ready exactly when both have at least four sets |
| WorkoutSessions.NewSession | Workoutlog/Domain/Model/WorkoutSession.swift:12-26 | a new session is active, empty, started and updated now, and not expired |
| WorkoutSessions.AddExercise | Workoutlog/Domain/Model/WorkoutSession.swift:28-31 | `addExercise` appends the entry, refreshes lastUpdated, changes nothing else; the total set count grows by the entry's sets |
| WorkoutSessions.FirstIndexOf | Workoutlog/Domain/Model/WorkoutSession.swift:34 | the first index holding the id, or none when no entry has it |
| WorkoutSessions.AddSetToExercise | Workoutlog/Domain/Model/WorkoutSession.swift:33-38 | `addSetToExercise` keeps the number of entries, the supersets, the identity, the times and the status |
| WorkoutSessions.AddSetToKnownExercise | Workoutlog/Domain/Model/WorkoutSession.swift:33-38 | for a known id: the first entry with that id gains the set at the end, every other entry is unchanged, lastUpdated is refreshed, the total grows by one |
| WorkoutSessions.AddSetToUnknownExercise | Workoutlog/Domain/Model/WorkoutSession.swift:33-38 | for an unknown id the session is left exactly as it was, lastUpdated included |
| WorkoutSessions.AddSuperset | Workoutlog/Domain/Model/WorkoutSession.swift:40-43 | `addSuperset` appends the group, refreshes lastUpdated and changes nothing else |
| WorkoutSessions.Complete | Workoutlog/Domain/Model/WorkoutSession.swift:45-49 | `complete` marks the session completed, ends and updates it now, and changes nothing else; a duration then exists |
| WorkoutSessions.ActiveSuperset | Workoutlog/Domain/Model/WorkoutSession.swift:51-53 | the first group that is neither completed nor ready, or none when every group is completed or ready |
| WorkoutSessions.FirstPending | Workoutlog/Domain/Model/WorkoutSession.swift:52 | `first(where:)` over the groups: the earliest pending group, none when there is no pending one |
| WorkoutSessions.WholeMinutes | Workoutlog/Domain/Model/WorkoutSession.swift:57 | `Int(seconds / 60)` truncates toward zero, for negative spans too |
| WorkoutSessions.DurationInMinutes | Workoutlog/Domain/Model/WorkoutSession.swift:55-58 | a duration exists exactly when the session has ended, and is the whole minutes between start and end |
| WorkoutSessions.DurationExamples | Workoutlog/Domain/Model/WorkoutSession.swift:55-58 | 45 minutes give 45; a span of -89 seconds gives -1 (truncation, not flooring) |
| WorkoutSessions.ExpiryBoundary | Workoutlog/Domain/Model/WorkoutSession.swift:60-63 | a session is expired only when updated strictly more than twelve hours ago: exactly twelve hours is not expired, thirteen is |
| WorkoutSessions.SumSetsAppend | Workoutlog/Domain/Model/WorkoutSession.swift:65-67 | the total over the entries grows by the sets of an appended entry |
| WorkoutSessions.SumSetsUpdate | Workoutlog/Domain/Model/WorkoutSession.swift:65-67 | replacing one entry changes the total by the difference of the two set counts |
| Text.NatToStringRoundTrip | Workoutlog/Domain/Formatter/LogFormatter.swift:78 | decimal rendering of a count (the set number) reads back as the same number |
| Text.IntToStringRoundTrip | Workoutlog/Domain/Formatter/LogFormatter.swift:84 | decimal rendering of an integer (reps, rest seconds) reads back as the same integer, sign included |
| Text.JoinAppend | Workoutlog/Domain/Formatter/LogFormatter.swift:102 | `joined(separator:)` of one more component adds the separator and that component |
| Text.Suffix | Workoutlog/Domain/Formatter/LogFormatter.swift:14 | `suffix(5)`: the last n characters, or the whole string when it is shorter |
| Sorting.SortByPermutes | Workoutlog/Domain/Formatter/LogFormatter.swift:19 | every `sorted` of the source rearranges: the result holds the same elements as often |
| Sorting.SortByOrders | Workoutlog/Domain/Formatter/LogFormatter.swift:19 | every `sorted` of the source orders by its key |
| Sorting.SortBySorted | Workoutlog/Domain/Formatter/LogFormatter.swift:19 | sorting a sequence already in key order returns it unchanged |
| Sorting.SortByDistinct | Workoutlog/Data/Repository/InMemorySessionStore.swift:62 | sorting keeps distinct identities distinct |
| Sorting.SortByMembers | Workoutlog/Data/Repository/InMemorySessionStore.swift:62 | an element is in the sorted sequence exactly when it is in the original |
| ReadinessValidator.CanCompleteExercise | Workoutlog/Domain/Validation/SessionReadinessValidator.swift:29-31 | an exercise can be completed exactly when the entry's own `isReady` holds (four sets logged) |
| ReadinessValidator.CanCompleteSuperset | Workoutlog/Domain/Validation/SessionReadinessValidator.swift:33-39 | `canCompleteSuperset` decides exactly as the group's own `isReady` |
| ReadinessValidator.GroupWithId | Workoutlog/Domain/Validation/SessionReadinessValidator.swift:45 | `supersets.first(where: id ==)`: the first group with that id, or none when no group has it |
| ReadinessValidator.CanProceedToNextExercise | Workoutlog/Domain/Validation/SessionReadinessValidator.swift:41-50 | never on an empty session; otherwise the last exercise decides, through its group's `isReady` when its reference names an existing group, and through its own `isReady` when it has no reference or its reference names no group |
| ReadinessValidator.CanCompleteSession | Workoutlog/Domain/Validation/SessionReadinessValidator.swift:52-63 | exactly when the session is non-empty, every exercise outside a superset is ready and every superset is ready |
| ReadinessValidator.CompletableSessionCanProceed | Workoutlog/Domain/Validation/SessionReadinessValidator.swift:41-63 | a completable session lets the user proceed, when the last exercise's reference (if any) names an existing group |
| ReadinessValidator.OrphanReferenceBlocksProceeding | Workoutlog/Domain/Validation/SessionReadinessValidator.swift:41-63 | without that proviso it fails: an empty exercise whose reference names no group is ignored by `canCompleteSession` but blocks `canProceedToNextExercise` |
| ReadinessValidator.AddSetKeepsSessionReady | Workoutlog/Domain/Validation/SessionReadinessValidator.swift:52-63 | adding a set to any exercise never makes a completable session uncompletable |
| ReadinessValidator.MembersUpdate | Workoutlog/Domain/Validation/SessionReadinessValidator.swift:33-38 | growing one entry's sets keeps a group's member count and its members' readiness |
| ReadinessValidator.ValidateSetRecord | Workoutlog/Domain/Validation/SessionReadinessValidator.swift:67-74 | throws invalidWeight exactly when the equipment needs a positive weight and lacks one, else returns true |
| ReadinessValidator.ValidateReps | Workoutlog/Domain/Validation/SessionReadinessValidator.swift:76-81 | throws invalidReps exactly when reps < 1, else returns true |
| ReadinessValidator.ValidatorsAgreeWithSetRecord | Workoutlog/Domain/Validation/SessionReadinessValidator.swift:67-81 | the two input checks accept exactly the sets the validating SetRecord initialiser builds, and reject the weight first |
| ReadinessValidator.IsSessionExpired | Workoutlog/Domain/Validation/SessionReadinessValidator.swift:85-88 | the validator's expiry test is the session's own `isExpired` (older than twelve hours) |
| ReadinessValidator.CanRecoverSession | Workoutlog/Domain/Validation/SessionReadinessValidator.swift:90-92 | exactly an active session that has not expired at that time |
| ReadinessValidator.ValidateSupersetCreation | Workoutlog/Domain/Validation/SessionReadinessValidator.swift:96-106 | invalidSupersetCount exactly when there are not two ids, duplicateExerciseInSuperset exactly for two equal ids, success exactly for two distinct ids |
| ReadinessValidator.ReselectionRule | Workoutlog/Domain/Validation/SessionReadinessValidator.swift:110-122 | re-selection is refused exactly when the previous pick is picked again and it is not the last exercise logged |
| ReadinessValidator.IsConsecutiveExerciseSelection | Workoutlog/Domain/Validation/SessionReadinessValidator.swift:110-122 | a first pick, a pick different from the previous one, and a repeat of the exercise logged last are always allowed |
| LogFormatter.FlagsJoined | Workoutlog/Domain/Formatter/LogFormatter.swift:86-96 | the flags part is the non-empty W/F flags joined by commas in parentheses |
| LogFormatter.FormatSet | Workoutlog/Domain/Formatter/LogFormatter.swift:75-103 | the loop over components builds the set line: number, optional weight, reps, optional flags, optional rest, joined by spaces |
| LogFormatter.WarmUpSetLine | Workoutlog/Domain/Formatter/LogFormatter.swift:75-103 | a 60 kg warm-up of 10 renders as "1: 60kg x10 (W)" |
| LogFormatter.RestSetLine | Workoutlog/Domain/Formatter/LogFormatter.swift:75-103 | a 70 kg set of 8 with 90 s rest renders as "4: 70kg x8 (Rest 90s)" |
| LogFormatter.FlaggedBodyweightSetLine | Workoutlog/Domain/Formatter/LogFormatter.swift:75-103 | a weightless warm-up to failure renders as "5: x12 (W,F)" |
| LogFormatter.FormatSingleExercise | Workoutlog/Domain/Formatter/LogFormatter.swift:44-53 | the loop builds the exercise header and one indented, numbered line per set in order |
| LogFormatter.Tagged | Workoutlog/Domain/Formatter/LogFormatter.swift:63-64 | each set of one exercise tagged with its side, in order |
| LogFormatter.MergedSetsContents | Workoutlog/Domain/Formatter/LogFormatter.swift:63-65 | the merged superset sets are exactly the A- and B-tagged sets of both exercises, each once, in timestamp order |
| LogFormatter.MergeTail | Workoutlog/Domain/Formatter/LogFormatter.swift:65 | a set falls between two sets of the other side when its timestamp lies between theirs |
| LogFormatter.AlternatingOrder | Workoutlog/Domain/Formatter/LogFormatter.swift:65 | four sets with interleaved timestamps come out interleaved |
| LogFormatter.AlternatingMerge | Workoutlog/Domain/Formatter/LogFormatter.swift:63-65 | two exercises logged alternately merge as A1, B1, A2, B2 |
| LogFormatter.FindExercise | Workoutlog/Domain/Formatter/LogFormatter.swift:56-57 | the first exercise with that id, or none when no exercise has it |
| LogFormatter.FindExerciseAtFirstIndex | Workoutlog/Domain/Formatter/LogFormatter.swift:56-57 | the lookup answers exactly the entry at the first index holding the id, the one `addSetToExercise` changes |
| LogFormatter.FormatSuperset | Workoutlog/Domain/Formatter/LogFormatter.swift:55-73 | the superset block; when either member is missing only the "no exercise info" line is produced |
| LogFormatter.FormatMergedSets | Workoutlog/Domain/Formatter/LogFormatter.swift:67-70 | the loop numbers the merged sets from 1 and prefixes each with its side |
| LogFormatter.GroupContaining | Workoutlog/Domain/Formatter/LogFormatter.swift:30 | the first group naming the exercise, or none when no group names it |
| LogFormatter.Plan | Workoutlog/Domain/Formatter/LogFormatter.swift:22-39 | the loop opens at most one block per exercise |
| LogFormatter.PlanCoversAll | Workoutlog/Domain/Formatter/LogFormatter.swift:25-36 | every exercise is processed: it appears in some block of the log |
| LogFormatter.PlanShowsOnce | Workoutlog/Domain/Formatter/LogFormatter.swift:26-32 | no block opens on an exercise already shown, and a superset marks both its members as shown |
| LogFormatter.PlanBlockKinds | Workoutlog/Domain/Formatter/LogFormatter.swift:30-36 | an exercise in some group opens the block of the first group naming it, any other exercise opens its own block |
| LogFormatter.BlocksTextPrefix | Workoutlog/Domain/Formatter/LogFormatter.swift:31-38 | text already written for earlier blocks is never changed by later blocks |
| LogFormatter.PlanSkip | Workoutlog/Domain/Formatter/LogFormatter.swift:26-28 | an exercise already shown adds no block |
| LogFormatter.PlanOpen | Workoutlog/Domain/Formatter/LogFormatter.swift:30-36 | an exercise not yet shown opens its block and marks its members shown |
| LogFormatter.FormatBlock | Workoutlog/Domain/Formatter/LogFormatter.swift:30-36 | one iteration: the block chosen for the exercise, its text, and the ids it marks shown |
| LogFormatter.FormatBlocks | Workoutlog/Domain/Formatter/LogFormatter.swift:22-39 | the loop produces the text of the planned blocks numbered from 1 |
| LogFormatter.FormatSession | Workoutlog/Domain/Formatter/LogFormatter.swift:5-42 | the whole log: header ("start~HH:mm" or "start~진행중"), then the blocks of the exercises in `order` |
| SessionStore.PruneKeepsLive | Workoutlog/Data/Repository/InMemorySessionStore.swift:85-99 | pruning keeps exactly the unexpired sessions, unchanged, so every recoverable session survives |
| SessionStore.PruneIdempotent | Workoutlog/Data/Repository/InMemorySessionStore.swift:85-99 | pruning twice at the same time removes nothing more |
| SessionStore.PruneLaterKeepsLess | Workoutlog/Data/Repository/InMemorySessionStore.swift:85-99 | pruning later keeps no session that pruning earlier would drop |
| SessionStore.InMemorySessionStore.constructor | Workoutlog/Data/Repository/InMemorySessionStore.swift:6-19 | a new store is empty with autosave off |
| SessionStore.InMemorySessionStore.Save | Workoutlog/Data/Repository/InMemorySessionStore.swift:23-26 | stores the session under its id, replacing any earlier one |
| SessionStore.InMemorySessionStore.UpdateSession | Workoutlog/Data/Repository/InMemorySessionStore.swift:44-47 | stores the session under its id, replacing any earlier one |
| SessionStore.InMemorySessionStore.Load | Workoutlog/Data/Repository/InMemorySessionStore.swift:28-30 | the session stored under the id, or none |
| SessionStore.InMemorySessionStore.Delete | Workoutlog/Data/Repository/InMemorySessionStore.swift:36-42 | removes the id when stored; otherwise fails with sessionNotFound(id) and changes nothing |
| SessionStore.InMemorySessionStore.Select | Workoutlog/Data/Repository/InMemorySessionStore.swift:52 | a filter over the dictionary: every matching stored session, each once |
| SessionStore.InMemorySessionStore.LoadAll | Workoutlog/Data/Repository/InMemorySessionStore.swift:32-34 | every stored session, each once |
| SessionStore.InMemorySessionStore.GetActiveSessions | Workoutlog/Data/Repository/InMemorySessionStore.swift:56-58 | exactly the stored sessions that are active and not expired |
| SessionStore.InMemorySessionStore.GetExpiredSessions | Workoutlog/Data/Repository/InMemorySessionStore.swift:101-103 | exactly the stored sessions that have expired, whatever their status |
| SessionStore.InMemorySessionStore.GetCompletedSessions | Workoutlog/Data/Repository/InMemorySessionStore.swift:60-63 | exactly the completed sessions, each once, most recently started first |
| SessionStore.InMemorySessionStore.GetMostRecentActiveSession | Workoutlog/Data/Repository/InMemorySessionStore.swift:114-117 | a live active session updated no earlier than any other, none exactly when there is no live active session (also `getActiveSession`, lines 51-54) |
| SessionStore.CandidatesAgree | Workoutlog/Data/Repository/InMemorySessionStore.swift:114-117 | two sessions that could both be the most recent live one were updated at the same time, so they expire together |
| SessionStore.MostRecentExists | Workoutlog/Data/Repository/InMemorySessionStore.swift:114-117 | whenever some stored session is live, a most recent live one exists |
| SessionStore.RecoveryOutcomes | Workoutlog/Presentation/Manager/SessionManager.swift:411-461 | at a later reading the most recent live candidate is either still live or expired, never both; one of the two happens exactly when some session is live; with a single reading it cannot have expired |
| SessionStore.LatestUpdated | Workoutlog/Data/Repository/InMemorySessionStore.swift:116 | `max` by lastUpdated: none for an empty list, else a member no older than any other |
| SessionStore.InMemorySessionStore.IsSessionExpired | Workoutlog/Data/Repository/InMemorySessionStore.swift:105-110 | the stored session's expiry, or sessionNotFound for an unknown id |
| SessionStore.InMemorySessionStore.CanRecover | Workoutlog/Data/Repository/InMemorySessionStore.swift:119-124 | true exactly when the session is stored, active and unexpired; an unknown id gives false |
| SessionStore.InMemorySessionStore.RecoverAllSessions | Workoutlog/Data/Repository/InMemorySessionStore.swift:126-129 | exactly the live active sessions |
| SessionStore.InMemorySessionStore.PruneExpiredSessions | Workoutlog/Data/Repository/InMemorySessionStore.swift:85-99 | returns each expired id once and leaves exactly the unexpired sessions |
| SessionStore.InMemorySessionStore.GetTotalSessionCount | Workoutlog/Data/Repository/InMemorySessionStore.swift:133-135 | the number of stored sessions |
| SessionStore.InMemorySessionStore.ClearAllData | Workoutlog/Data/Repository/InMemorySessionStore.swift:146-149 | no session remains; the autosave settings stay |
| SessionStore.InMemorySessionStore.EnableAutosave | Workoutlog/Data/Repository/InMemorySessionStore.swift:67-71 | autosave on with the given interval; sessions untouched |
| SessionStore.InMemorySessionStore.DisableAutosave | Workoutlog/Data/Repository/InMemorySessionStore.swift:73-77 | autosave off, interval kept; sessions untouched |
| SessionStore.InMemorySessionStore.IsAutosaveEnabled | Workoutlog/Data/Repository/InMemorySessionStore.swift:79-81 | whether autosave is on |
| SessionManagement.InfoOf | Workoutlog/Presentation/Manager/SessionManager.swift:463-480 | the recovery summary: id, start, number of exercises and total sets |
| SessionManagement.Singles | Workoutlog/Presentation/Manager/SessionManager.swift:203 | the exercises without a superset reference, and only those |
| SessionManagement.ReadinessRulesAgree | Workoutlog/Presentation/Manager/SessionManager.swift:197-213 | `updateSessionReadiness`'s own formula decides exactly as the validator's `canCompleteSession` |
| SessionManagement.RecoveryRulesAgree | Workoutlog/Domain/Validation/SessionReadinessValidator.swift:90-92 | the validator's `canRecoverSession` accepts exactly the sessions the store offers for recovery |
| SessionManagement.ExerciseEquipment | Workoutlog/Presentation/Manager/SessionManager.swift:406-408 | the equipment of the first exercise with that id, bodyweight for an unknown id |
| SessionManagement.SetInputError | Workoutlog/Presentation/Manager/SessionManager.swift:303-329 | the first failing input check for a set: invalidWeight before invalidReps, none when both pass |
| SessionManagement.SetInputMatchesSetRecord | Workoutlog/Presentation/Manager/SessionManager.swift:303-329 | a set passes the manager's checks exactly when the validating SetRecord initialiser accepts it |
| SessionManagement.ClearOrphanedReferences | Workoutlog/Presentation/Manager/SessionManager.swift:603-614 | the loop clears every reference to a missing group and reports whether it cleared any |
| SessionManagement.OrderSetsByTimestamp | Workoutlog/Presentation/Manager/SessionManager.swift:628-635 | the loop puts each exercise's sets in timestamp order and reports whether any order changed |
| SessionManagement.SessionManager.constructor | Workoutlog/Presentation/Manager/SessionManager.swift:78-84 | a new manager has no session, no error, all flags off |
| SessionManagement.SessionManager.Fail | Workoutlog/Presentation/Manager/SessionManager.swift:182-195 | records the error and leaves the session and flags as they were |
| SessionManagement.SessionManager.UpdateSessionReadiness | Workoutlog/Presentation/Manager/SessionManager.swift:197-213 | canCompleteSession is true exactly when there is a session that is ready to complete |
| SessionManagement.SessionManager.StartAutosave | Workoutlog/Presentation/Manager/SessionManager.swift:215-230 | starts autosave (store on, interval 30 s) unless the task already runs |
| SessionManagement.SessionManager.StopAutosave | Workoutlog/Presentation/Manager/SessionManager.swift:232-237 | autosave off in the manager and the store |
| SessionManagement.SessionManager.SaveCurrentSessionIfNeeded | Workoutlog/Presentation/Manager/SessionManager.swift:239-249 | stores the current session when there is one, else nothing changes |
| SessionManagement.SessionManager.PerformInitialSetup | Workoutlog/Presentation/Manager/SessionManager.swift:172-179 | a recoverable session is flagged exactly when one exists, then expired sessions are pruned (clearExpiredSessions, lines 251-260) |
| SessionManagement.SessionManager.StartNewSession | Workoutlog/Presentation/Manager/SessionManager.swift:92-109 | a fresh active session becomes current and is stored; autosave on; nothing left to recover |
| SessionManagement.SessionManager.ResumeSession | Workoutlog/Presentation/Manager/SessionManager.swift:112-139 | resumes exactly a stored, active, unexpired session; otherwise recoveryFailed (missing or inactive) or sessionExpired |
| SessionManagement.SessionManager.CompleteCurrentSession | Workoutlog/Presentation/Manager/SessionManager.swift:142-168 | with a ready session: completes and stores it, returns its log, clears the current session; else noActiveSession or validationFailed and nothing changes |
| SessionManagement.SessionManager.ForceCompleteCurrentSession | Workoutlog/Presentation/Manager/SessionManager.swift:497-520 | completes and stores any current session whatever its readiness and returns its log; without one, noActiveSession and the store and recoverable flag are left as they were |
| SessionManagement.SessionManager.PauseCurrentSession | Workoutlog/Presentation/Manager/SessionManager.swift:522-539 | stores the current session, drops it, flags it recoverable while unexpired; without one, noActiveSession and the store and recoverable flag are left as they were |
| SessionManagement.SessionManager.PauseThenRecover | Workoutlog/Presentation/Manager/SessionManager.swift:522-539 | pausing and then recovering (`attemptRecovery`, lines 411-443) at one reading resumes the very session paused, when no other live session is as recent |
| SessionManagement.SessionManager.AttemptRecovery | Workoutlog/Presentation/Manager/SessionManager.swift:411-443 | resumes exactly when the most recent live session at the first reading is still unexpired at the second, and then resumes that one; when it has expired it is deleted and sessionExpired is reported; when nothing is live the store and current session stay, the error is cleared and the flag lowered |
| SessionManagement.SessionManager.CheckRecoveryAvailability | Workoutlog/Presentation/Manager/SessionManager.swift:445-461 | raises the flag exactly when the most recent live session is still unexpired at the second reading; exactly when it has expired, that session alone is deleted; a lowered flag with an unchanged store means nothing was live |
| SessionManagement.SessionManager.GetRecoverableSessionInfo | Workoutlog/Presentation/Manager/SessionManager.swift:463-480 | the summary of the most recent live session exactly when it is still unexpired at the second reading; recoveryFailed exactly when nothing is live, sessionExpired exactly when the candidate expired; the store is not changed |
| SessionManagement.SessionManager.DiscardRecoverableSession | Workoutlog/Presentation/Manager/SessionManager.swift:482-493 | deletes the live session updated last, if any, and clears the recoverable flag |
| SessionManagement.SessionManager.ClearAllData | Workoutlog/Presentation/Manager/SessionManager.swift:541-556 | the store is emptied, no current session, all flags off |
| SessionManagement.SessionManager.RecoverFromError | Workoutlog/Presentation/Manager/SessionManager.swift:560-583 | clears the error; drops a current session expired at the first reading; then raises the flag and deletes an expired candidate exactly as CheckRecoveryAvailability does |
| SessionManagement.SessionManager.ValidateAndRepairCurrentSession | Workoutlog/Presentation/Manager/SessionManager.swift:587-646 | an expired session is dropped with sessionExpired; otherwise the session becomes its repair, stored exactly when the repair changed it |
| SessionRepair.ClearOrphan | Workoutlog/Presentation/Manager/SessionManager.swift:606-614 | a reference is cleared exactly when it names no group; nothing else changes |
| SessionRepair.ClearOrphans | Workoutlog/Presentation/Manager/SessionManager.swift:604-614 | each entry is cleared of an orphaned reference, in place |
| SessionRepair.KeepWhole | Workoutlog/Presentation/Manager/SessionManager.swift:616-626 | keeps, in order, exactly the groups whose ids all name an exercise; unchanged exactly when all are whole |
| SessionRepair.WithSortedSets | Workoutlog/Presentation/Manager/SessionManager.swift:630-632 | only the sets are reordered |
| SessionRepair.SortAllSets | Workoutlog/Presentation/Manager/SessionManager.swift:628-635 | every entry gets its sets in timestamp order, in place |
| SessionRepair.Repair | Workoutlog/Presentation/Manager/SessionManager.swift:587-646 | a repair keeps the id, times, status, lastUpdated and the number of exercises |
| SessionRepair.RepairKeepsIds | Workoutlog/Presentation/Manager/SessionManager.swift:603-635 | clearing references and sorting sets keep the set of exercise ids |
| SessionRepair.RepairKeepsWholeGroups | Workoutlog/Presentation/Manager/SessionManager.swift:616-626 | after a repair every group names only existing exercises, and a group survives exactly when it was whole |
| SessionRepair.RepairEntries | Workoutlog/Presentation/Manager/SessionManager.swift:603-635 | each entry keeps all but its reference and set order; its sets are a timestamp-ordered permutation of the originals |
| SessionRepair.RepairKeepsSetCount | Workoutlog/Presentation/Manager/SessionManager.swift:587-646 | a repair neither loses nor adds a set |
| SessionRepair.SameSetCounts | Workoutlog/Domain/Model/WorkoutSession.swift:65-67 | entries with the same set counts give the same total |
| SessionRepair.RepairChanges | Workoutlog/Presentation/Manager/SessionManager.swift:593-642 | the session changes exactly when a step finds something to do (the source's `wasModified`) |
| SessionRepair.RepairLeavesHealthySession | Workoutlog/Presentation/Manager/SessionManager.swift:587-646 | a session with no orphan, no broken group and ordered sets is left as it is |
| SessionRepair.RepairNotIdempotent | Workoutlog/Presentation/Manager/SessionManager.swift:587-646 | a second repair can change a repaired session: a dropped group leaves a fresh orphan |
| SessionManagement.SessionManager.AddExercise | Workoutlog/Presentation/Manager/SessionManager.swift:269-283 | appends the exercise to the current session and stores it; else noActiveSession |
| SessionManagement.SessionManager.AddSuperset | Workoutlog/Presentation/Manager/SessionManager.swift:285-299 | appends the group to the current session and stores it; else noActiveSession |
| SessionManagement.SessionManager.AddSetToCurrentExercise | Workoutlog/Presentation/Manager/SessionManager.swift:303-329 | adds a valid set and stores the session; an invalid one is refused with validationFailed and nothing changes; else noActiveSession |
| SessionManagement.SessionManager.GetCurrentExercises | Workoutlog/Presentation/Manager/SessionManager.swift:333-335 | the current exercises, none without a session |
| SessionManagement.SessionManager.GetCurrentSupersets | Workoutlog/Presentation/Manager/SessionManager.swift:337-339 | the current groups, none without a session |
| SessionManagement.SessionManager.GetExercise | Workoutlog/Presentation/Manager/SessionManager.swift:341-343 | the first current exercise with that id, none when there is none |
| SessionManagement.SessionManager.GetSuperset | Workoutlog/Presentation/Manager/SessionManager.swift:349-351 | the first current group naming the exercise, none exactly when it is in no superset (`isExerciseInSuperset`, lines 345-347) |
| SessionManagement.SessionManager.GetSets | Workoutlog/Presentation/Manager/SessionManager.swift:355-357 | the sets of that exercise, none for an unknown id |
| SessionManagement.SessionManager.GetSetCount | Workoutlog/Presentation/Manager/SessionManager.swift:359-361 | the number of sets of that exercise |
| SessionManagement.SessionManager.LoneExerciseCap | Workoutlog/Presentation/Manager/SessionManager.swift:363-371 | an exercise outside any superset takes sets exactly while it has fewer than eight |
| SessionManagement.SessionManager.SupersetMemberCap | Workoutlog/Presentation/Manager/SessionManager.swift:363-371 | a superset member takes sets exactly while its group is not ready |
| SessionManagement.SessionManager.UnknownExerciseTakesNoSets | Workoutlog/Presentation/Manager/SessionManager.swift:364 | an id naming no exercise of the current session never takes a set |
| SessionManagement.SessionManager.ReadinessQueriesAgree | Workoutlog/Presentation/Manager/SessionManager.swift:373-382 | `isExerciseReady` and `isSupersetReady` decide as the validator does |
| SessionManagement.SessionManager.GetTotalSets | Workoutlog/Presentation/Manager/SessionManager.swift:386-388 | the total sets of the current session, 0 without one |
| SessionManagement.SessionManager.GetTotalExercises | Workoutlog/Presentation/Manager/SessionManager.swift:390-392 | the number of current exercises |
| SessionManagement.SessionManager.GetSessionDuration | Workoutlog/Presentation/Manager/SessionManager.swift:394-402 | seconds from start to end, or to now while running; none without a session |

## Left out

- Asynchrony: the `async` methods and the actor run one at a time. Saves the source starts without waiting for them (after `addExercise`, `addSuperset`, `addSetToCurrentExercise`) complete before the operation returns.
- The autosave task and timers: the periodic save loop and the store's timer are not modelled. `StartAutosave`/`StopAutosave` model only the flags and the store's settings.
- Persistence to the device (`saveToPersistence`, `loadFromPersistence`, the reload inside `recoverAllSessions`) and `getStorageSize`: the store is its in-memory dictionary only.
- SessionStore.InMemorySessionStore.RecoverAllSessions: returns the live active sessions without first reloading them from the device.
- Localized texts: `errorDescription`, recovery suggestions and the Korean messages inside errors are dropped. `RecoveryFailed` carries a reason code, and `ValidationFailed` carries validator causes instead of message strings.
- Logging (`print`) and the `BodyPart` labels are not modelled; `BodyPart` is a plain enumeration.
- Clock precision: instants are whole seconds, so sub-second timestamps and `TimeInterval` fractions are not modelled.
- SessionManagement.SessionManager.GetSessionDuration: gives whole seconds, where the source gives a `TimeInterval`.
- Rendering: `DateFormatter` ("yyyy-MM-dd HH:mm") and `formatWeight` (a `Double` without a fraction when it is whole) are parameters of the formatter (`Renderers`). Weights are `real`, not IEEE doubles.
- Sorting ties: Swift's `sorted` is not guaranteed stable. The model sorts stably, so the order among equal keys (equal `order`, equal timestamps, equal start times) is a choice the source does not make.
- Dictionary order: `loadAll` and the filters over the dictionary return the sessions in an unspecified order. The model promises only which sessions are returned, each once.
- SessionManagement.SessionManager.Fail: the generic branch of `withErrorHandling` (any non-session error becomes `saveFailure`) cannot be reached, because the in-memory store throws only `sessionNotFound`, and only for ids it was just handed.
- SessionManagement.SessionManager.RecoverFromError: the restart of autosave for an unexpired session whose autosave is off cannot happen while `Valid()` holds (autosave is on exactly while a session is in progress), so it is not modelled.
- SessionManagement.SessionManager.constructor: the initial setup the initialiser schedules as a detached task is the separate method `PerformInitialSetup`.
- `SupersetGroup.firstExerciseId`/`secondExerciseId` are the functions `FirstExerciseId`/`SecondExerciseId`, and `isExerciseInSuperset`, `canAddSetToExercise`, `isExerciseReady` and `isSupersetReady` are predicates. Their contracts are stated by the lemmas listed above.

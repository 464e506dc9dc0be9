/**
 * The session manager (Presentation/Manager/SessionManager.swift): it holds the session in
 * progress, keeps the published flags in step with it, and runs every lifecycle operation
 * against the store. Every public operation keeps `Valid()`, the manager's invariant.
 */
module SessionManagement {
  import opened Wrappers
  import opened Identifiers
  import opened Equipment
  import opened SetRecords
  import opened ExerciseEntries
  import opened SupersetGroups
  import opened WorkoutSessions
  import opened SessionStore
  import opened SessionRepair
  import opened Sorting
  import ReadinessValidator
  import LogFormatter

  /** Why a recovery failed; the source carries a localized sentence instead. */
  datatype RecoveryFailure = MissingSession | InactiveSession | NoRecoverableSession

  /** The manager's error taxonomy, without the localized texts. */
  datatype SessionError =
    | NoActiveSession
    | RecoveryFailed(reason: RecoveryFailure)
    | SaveFailure(cause: StorageError)
    | ValidationFailed(causes: seq<ReadinessValidator.ValidationError>)
    | SessionExpired
    | StoreNotAvailable

  /** What `getRecoverableSessionInfo` reports about the session it would recover. */
  datatype RecoverableInfo = RecoverableInfo(id: Uuid, startTime: Instant, exerciseCount: nat, setCount: nat)

  function InfoOf(s: WorkoutSession): (info: RecoverableInfo)
    ensures info.id == s.id && info.startTime == s.startTime
    ensures info.exerciseCount == |s.exercises| && info.setCount == WorkoutSessions.TotalSets(s)
  {
    RecoverableInfo(s.id, s.startTime, |s.exercises|, WorkoutSessions.TotalSets(s))
  }

  /** Seconds between two autosaves. */
  const AutosaveInterval: real := 30.0

  /** A lone exercise that is ready takes sets until it has this many. */
  const SetCap: nat := 8

  /** `exercises.filter { $0.supersetGroupId == nil }`. */
  function Singles(xs: seq<ExerciseEntry>): (r: seq<ExerciseEntry>)
    ensures |r| <= |xs|
    ensures forall e :: e in r <==> e in xs && e.supersetGroupId.None?
  {
    if xs == [] then []
    else
      var rest := Singles(xs[1..]);
      assert forall e :: e in xs <==> e == xs[0] || e in xs[1..];
      if xs[0].supersetGroupId.None? then [xs[0]] + rest else rest
  }

  /** `updateSessionReadiness`'s formula for a current session. */
  predicate ReadyToComplete(s: WorkoutSession) {
    var singles := Singles(s.exercises);
    && (singles == [] || forall e :: e in singles ==> ExerciseEntries.IsReady(e))
    && (s.supersets == [] || forall g :: g in s.supersets ==> SupersetGroups.IsReady(g, s.exercises))
    && s.exercises != []
  }

  /** The manager's completion gate and the validator's `canCompleteSession` decide alike. */
  lemma ReadinessRulesAgree(s: WorkoutSession)
    ensures ReadyToComplete(s) <==> ReadinessValidator.CanCompleteSession(s)
  {
  }

  /** The validator's `canRecoverSession` offers exactly what the store offers for recovery. */
  lemma RecoveryRulesAgree(s: WorkoutSession, now: Instant)
    ensures ReadinessValidator.CanRecoverSession(s, now) <==> Recoverable(s, now)
  {
  }

  /** `getExerciseEquipment`: the equipment of the exercise, bodyweight when there is none. */
  function ExerciseEquipment(exercises: seq<ExerciseEntry>, id: Uuid): (eq: EquipmentType)
    ensures LogFormatter.FindExercise(exercises, id).None? ==> eq == Bodyweight
    ensures LogFormatter.FindExercise(exercises, id).Some? ==> eq == LogFormatter.FindExercise(exercises, id).value.equipment
  {
    match LogFormatter.FindExercise(exercises, id)
    case None => Bodyweight
    case Some(e) => e.equipment
  }

  /**
   * The first objection of the validator to a set: the weight rule is checked first, then
   * the repetitions. None when the set is acceptable.
   */
  function SetInputError(record: SetRecord, equipment: EquipmentType): (r: Option<ReadinessValidator.ValidationError>)
    ensures r.None? <==> (RequiresPositiveWeight(equipment) ==> PositiveWeight(record.weightKg)) && record.reps > 0
    ensures r == Some(ReadinessValidator.InvalidWeight) <==> RequiresPositiveWeight(equipment) && !PositiveWeight(record.weightKg)
    ensures r == Some(ReadinessValidator.InvalidReps) <==>
              (RequiresPositiveWeight(equipment) ==> PositiveWeight(record.weightKg)) && record.reps <= 0
  {
    match ReadinessValidator.ValidateSetRecord(record.weightKg, equipment)
    case Failure(e) => Some(e)
    case Success(_) =>
      match ReadinessValidator.ValidateReps(record.reps)
      case Failure(e) => Some(e)
      case Success(_) => None
  }

  /** The manager accepts exactly the sets SetRecord's validating initialiser would build. */
  lemma SetInputMatchesSetRecord(record: SetRecord, equipment: EquipmentType)
    ensures SetInputError(record, equipment).None? <==>
              NewSetRecord(record.id, record.weightKg, record.reps, record.isWarmUp, record.isFailure,
                           record.restSecondsBeforeNext, record.timestamp, equipment).Success?
  {
    ReadinessValidator.ValidatorsAgreeWithSetRecord(record.id, record.weightKg, record.reps, record.isWarmUp,
      record.isFailure, record.restSecondsBeforeNext, record.timestamp, equipment);
  }

  /** Step 2 of the repair as the source runs it: one pass, noting whether anything changed. */
  method ClearOrphanedReferences(exercises: seq<ExerciseEntry>, validSupersetIds: set<Uuid>)
    returns (cleaned: seq<ExerciseEntry>, wasModified: bool)
    ensures cleaned == ClearOrphans(exercises, validSupersetIds)
    ensures wasModified <==> cleaned != exercises
  {
    cleaned := [];
    wasModified := false;
    var i := 0;
    while i < |exercises|
      invariant 0 <= i <= |exercises|
      invariant |cleaned| == i
      invariant forall k :: 0 <= k < i ==> cleaned[k] == ClearOrphan(exercises[k], validSupersetIds)
      invariant wasModified <==> exists k :: 0 <= k < i && cleaned[k] != exercises[k]
    {
      var cleanedExercise := exercises[i];
      if exercises[i].supersetGroupId.Some? && exercises[i].supersetGroupId.value !in validSupersetIds {
        cleanedExercise := exercises[i].(supersetGroupId := None);
        wasModified := true;
      }
      cleaned := cleaned + [cleanedExercise];
      i := i + 1;
    }
  }

  /** Step 4 of the repair: each exercise's sets replaced by their timestamp order where it differs. */
  method OrderSetsByTimestamp(exercises: seq<ExerciseEntry>) returns (ordered: seq<ExerciseEntry>, wasModified: bool)
    ensures ordered == SortAllSets(exercises)
    ensures wasModified <==> exists k :: 0 <= k < |exercises| && SortBy(exercises[k].sets, SetTimestamp) != exercises[k].sets
  {
    ordered := exercises;
    wasModified := false;
    var i := 0;
    while i < |ordered|
      invariant 0 <= i <= |ordered| == |exercises|
      invariant forall k :: 0 <= k < i ==> ordered[k] == WithSortedSets(exercises[k])
      invariant forall k :: i <= k < |exercises| ==> ordered[k] == exercises[k]
      invariant wasModified <==> exists k :: 0 <= k < i && SortBy(exercises[k].sets, SetTimestamp) != exercises[k].sets
    {
      var sortedSets := SortBy(ordered[i].sets, SetTimestamp);
      if ordered[i].sets != sortedSets {
        ordered := ordered[i := ordered[i].(sets := sortedSets)];
        wasModified := true;
      }
      i := i + 1;
    }
  }

  class SessionManager {
    var currentSession: Option<WorkoutSession>
    var isLoading: bool
    var error: Option<SessionError>
    var canCompleteSession: bool
    var hasRecoverableSession: bool
    var isAutosaveEnabled: bool
    /** Whether the periodic autosave task exists (`autosaveTask != nil`). */
    var autosaveTaskRunning: bool
    const store: InMemorySessionStore

    /**
     * Between operations: nothing is loading, the autosave task runs exactly while a session
     * is current, the session in progress is active, and `canCompleteSession` is the
     * readiness of the current session.
     */
    ghost predicate Valid()
      reads this, store
    {
      && store.Valid()
      && !isLoading
      && autosaveTaskRunning == isAutosaveEnabled
      && (isAutosaveEnabled <==> currentSession.Some?)
      && (currentSession.Some? ==> currentSession.value.status == Active)
      && canCompleteSession == (currentSession.Some? && ReadyToComplete(currentSession.value))
    }

    /** `init(store:)`; the initial setup it schedules is PerformInitialSetup. */
    constructor (store: InMemorySessionStore)
      requires store.Valid()
      ensures Valid() && this.store == store
      ensures currentSession == None && error == None
      ensures !canCompleteSession && !hasRecoverableSession && !isAutosaveEnabled
    {
      this.store := store;
      currentSession := None;
      isLoading := false;
      error := None;
      canCompleteSession := false;
      hasRecoverableSession := false;
      isAutosaveEnabled := false;
      autosaveTaskRunning := false;
    }

    // ----- private helpers -----

    /** `withErrorHandling`'s catch: the error is published and loading ends. */
    method Fail(e: SessionError)
      modifies this
      ensures error == Some(e) && !isLoading
      ensures currentSession == old(currentSession) && canCompleteSession == old(canCompleteSession)
      ensures hasRecoverableSession == old(hasRecoverableSession) && isAutosaveEnabled == old(isAutosaveEnabled)
      ensures autosaveTaskRunning == old(autosaveTaskRunning)
    {
      error := Some(e);
      isLoading := false;
    }

    /** `updateSessionReadiness`. */
    method UpdateSessionReadiness()
      modifies this
      ensures canCompleteSession == (currentSession.Some? && ReadyToComplete(currentSession.value))
      ensures currentSession == old(currentSession) && isLoading == old(isLoading) && error == old(error)
      ensures hasRecoverableSession == old(hasRecoverableSession) && isAutosaveEnabled == old(isAutosaveEnabled)
      ensures autosaveTaskRunning == old(autosaveTaskRunning)
    {
      match currentSession
      case None =>
        canCompleteSession := false;
      case Some(session) =>
        var singleExercises := Singles(session.exercises);
        var singleExercisesReady := forall e :: e in singleExercises ==> ExerciseEntries.IsReady(e);
        var supersetsReady := forall g :: g in session.supersets ==> SupersetGroups.IsReady(g, session.exercises);
        canCompleteSession := (singleExercises == [] || singleExercisesReady)
                              && (session.supersets == [] || supersetsReady)
                              && session.exercises != [];
    }

    /** `startAutosave`: does nothing while the task exists; otherwise switches autosave on. */
    method StartAutosave()
      requires store.Valid()
      modifies this, store
      ensures store.Valid() && store.sessions == old(store.sessions) && autosaveTaskRunning
      ensures !old(autosaveTaskRunning) ==> isAutosaveEnabled && store.isAutosaveActive
                                            && store.autosaveInterval == AutosaveInterval
      ensures old(autosaveTaskRunning) ==> isAutosaveEnabled == old(isAutosaveEnabled)
                                           && store.isAutosaveActive == old(store.isAutosaveActive)
                                           && store.autosaveInterval == old(store.autosaveInterval)
      ensures currentSession == old(currentSession) && isLoading == old(isLoading) && error == old(error)
      ensures canCompleteSession == old(canCompleteSession) && hasRecoverableSession == old(hasRecoverableSession)
    {
      if autosaveTaskRunning {
        return;
      }
      isAutosaveEnabled := true;
      store.EnableAutosave(AutosaveInterval);
      autosaveTaskRunning := true;
    }

    /** `stopAutosave`: cancels the task and switches autosave off here and in the store. */
    method StopAutosave()
      requires store.Valid()
      modifies this, store
      ensures store.Valid() && store.sessions == old(store.sessions)
      ensures !store.isAutosaveActive && store.autosaveInterval == old(store.autosaveInterval)
      ensures !autosaveTaskRunning && !isAutosaveEnabled
      ensures currentSession == old(currentSession) && isLoading == old(isLoading) && error == old(error)
      ensures canCompleteSession == old(canCompleteSession) && hasRecoverableSession == old(hasRecoverableSession)
    {
      autosaveTaskRunning := false;
      isAutosaveEnabled := false;
      store.DisableAutosave();
    }

    /** `saveCurrentSessionIfNeeded`: the session in progress, if any, is written to the store. */
    method SaveCurrentSessionIfNeeded()
      requires Valid()
      modifies store
      ensures Valid()
      ensures currentSession.Some? ==> store.sessions == old(store.sessions)[currentSession.value.id := currentSession.value]
      ensures currentSession.None? ==> store.sessions == old(store.sessions)
      ensures store.isAutosaveActive == old(store.isAutosaveActive) && store.autosaveInterval == old(store.autosaveInterval)
    {
      if currentSession.Some? {
        store.Save(currentSession.value);
      }
    }

    // ----- lifecycle -----

    /** `performInitialSetup`: notes whether a session can be recovered, then prunes expired ones. */
    method PerformInitialSetup(now: Instant, later: Instant)
      requires Valid() && now <= later
      modifies this, store
      ensures Valid() && error == None
      ensures hasRecoverableSession <==> exists s :: s in old(store.sessions).Values && Recoverable(s, now)
      ensures store.sessions == Unexpired(old(store.sessions), later)
      ensures currentSession == old(currentSession) && isAutosaveEnabled == old(isAutosaveEnabled)
    {
      error := None;
      var mostRecentSession := store.GetMostRecentActiveSession(now);
      hasRecoverableSession := mostRecentSession.Some?;
      var prunedIds := store.PruneExpiredSessions(later);
    }

    /** `startNewSession`: a fresh session becomes current and is stored; autosave restarts. */
    method StartNewSession(id: Uuid, now: Instant)
      requires Valid()
      modifies this, store
      ensures Valid() && error == None
      ensures currentSession == Some(NewSession(id, now))
      ensures store.sessions == old(store.sessions)[id := NewSession(id, now)]
      ensures !hasRecoverableSession && !canCompleteSession
      ensures isAutosaveEnabled && store.isAutosaveActive && store.autosaveInterval == AutosaveInterval
    {
      error := None;
      isLoading := true;
      StopAutosave();
      var newSession := NewSession(id, now);
      store.Save(newSession);
      currentSession := Some(newSession);
      hasRecoverableSession := false;
      StartAutosave();
      UpdateSessionReadiness();
      isLoading := false;
    }

    /**
     * `resumeSession(id:)`: succeeds exactly when the stored session exists, is active and has
     * not expired; it then becomes current. Otherwise the cause is published and nothing else
     * changes.
     */
    method ResumeSession(sessionId: Uuid, now: Instant) returns (resumed: bool)
      requires Valid()
      modifies this, store
      ensures Valid()
      ensures store.sessions == old(store.sessions)
      ensures resumed <==> sessionId in store.sessions && Recoverable(store.sessions[sessionId], now)
      ensures resumed ==> currentSession == Some(store.sessions[sessionId]) && error == None
                          && !hasRecoverableSession && isAutosaveEnabled && store.isAutosaveActive
      ensures !resumed ==> currentSession == old(currentSession) && hasRecoverableSession == old(hasRecoverableSession)
                           && isAutosaveEnabled == old(isAutosaveEnabled)
      ensures sessionId !in store.sessions ==> error == Some(RecoveryFailed(MissingSession))
      ensures sessionId in store.sessions && store.sessions[sessionId].status != Active ==>
                error == Some(RecoveryFailed(InactiveSession))
      ensures sessionId in store.sessions && store.sessions[sessionId].status == Active
              && IsExpired(store.sessions[sessionId], now)
              ==> error == Some(SessionError.SessionExpired)
    {
      error := None;
      isLoading := true;
      var loaded := store.Load(sessionId);
      if loaded.None? {
        Fail(RecoveryFailed(MissingSession));
        return false;
      }
      var session := loaded.value;
      if session.status != Active {
        Fail(RecoveryFailed(InactiveSession));
        return false;
      }
      if IsExpired(session, now) {
        Fail(SessionError.SessionExpired);
        return false;
      }
      StopAutosave();
      currentSession := Some(session);
      hasRecoverableSession := false;
      StartAutosave();
      UpdateSessionReadiness();
      isLoading := false;
      return true;
    }

    /**
     * `completeCurrentSession`: allowed exactly when there is a session and the validator
     * would let it complete. The completed session is stored, its log is returned and the
     * manager goes idle. Otherwise the cause is published and nothing else changes.
     */
    method CompleteCurrentSession(now: Instant, rd: LogFormatter.Renderers) returns (log: Option<string>)
      requires Valid()
      modifies this, store
      ensures Valid()
      ensures log.Some? <==> old(currentSession).Some? && ReadinessValidator.CanCompleteSession(old(currentSession).value)
      ensures log.Some? ==>
                var done := Complete(old(currentSession).value, now);
                && log.value == LogFormatter.LogText(done, rd)
                && store.sessions == old(store.sessions)[done.id := done]
                && currentSession == None && error == None && !hasRecoverableSession
                && !isAutosaveEnabled && !store.isAutosaveActive
      ensures old(currentSession).None? ==> error == Some(NoActiveSession)
      ensures old(currentSession).Some? && log.None? ==>
                error == Some(ValidationFailed([ReadinessValidator.InsufficientSets]))
      ensures log.None? ==> currentSession == old(currentSession) && store.sessions == old(store.sessions)
                            && hasRecoverableSession == old(hasRecoverableSession)
    {
      error := None;
      if currentSession.None? {
        Fail(NoActiveSession);
        return None;
      }
      ReadinessRulesAgree(currentSession.value);
      if !canCompleteSession {
        Fail(ValidationFailed([ReadinessValidator.InsufficientSets]));
        return None;
      }
      isLoading := true;
      var session := Complete(currentSession.value, now);
      store.UpdateSession(session);
      var logString := LogFormatter.FormatSession(session, rd);
      currentSession := None;
      canCompleteSession := false;
      hasRecoverableSession := false;
      StopAutosave();
      isLoading := false;
      return Some(logString);
    }

    /** `forceCompleteCurrentSession`: as CompleteCurrentSession without the readiness gate. */
    method ForceCompleteCurrentSession(now: Instant, rd: LogFormatter.Renderers) returns (log: Option<string>)
      requires Valid()
      modifies this, store
      ensures Valid()
      ensures log.Some? <==> old(currentSession).Some?
      ensures log.Some? ==>
                var done := Complete(old(currentSession).value, now);
                && log.value == LogFormatter.LogText(done, rd)
                && store.sessions == old(store.sessions)[done.id := done]
                && currentSession == None && error == None && !hasRecoverableSession
                && !isAutosaveEnabled && !store.isAutosaveActive
      ensures log.None? ==> error == Some(NoActiveSession) && currentSession == None
                            && store.sessions == old(store.sessions)
                            && hasRecoverableSession == old(hasRecoverableSession)
    {
      error := None;
      if currentSession.None? {
        Fail(NoActiveSession);
        return None;
      }
      isLoading := true;
      var session := Complete(currentSession.value, now);
      store.UpdateSession(session);
      var logString := LogFormatter.FormatSession(session, rd);
      currentSession := None;
      canCompleteSession := false;
      hasRecoverableSession := false;
      StopAutosave();
      isLoading := false;
      return Some(logString);
    }

    /**
     * `pauseCurrentSession`: the session in progress is stored as it is and released, so it
     * is offered for recovery for as long as it has not expired.
     */
    method PauseCurrentSession() returns (paused: bool)
      requires Valid()
      modifies this, store
      ensures Valid()
      ensures paused <==> old(currentSession).Some?
      ensures paused ==> var s := old(currentSession).value;
                         && store.sessions == old(store.sessions)[s.id := s]
                         && currentSession == None && hasRecoverableSession && error == None
                         && !isAutosaveEnabled && !store.isAutosaveActive
                         && forall now :: !IsExpired(s, now) ==> Recoverable(store.sessions[s.id], now)
      ensures !paused ==> error == Some(NoActiveSession) && store.sessions == old(store.sessions)
                          && currentSession == None && hasRecoverableSession == old(hasRecoverableSession)
    {
      error := None;
      if currentSession.None? {
        Fail(NoActiveSession);
        return false;
      }
      var session := currentSession.value;
      store.Save(session);
      currentSession := None;
      canCompleteSession := false;
      hasRecoverableSession := true;
      StopAutosave();
      return true;
    }

    // ----- recovery -----

    /**
     * `attemptRecovery`: the most recently updated recoverable session (looked up at `now`)
     * becomes current unless it has expired by the second reading `later`, in which case it is
     * deleted and SessionExpired is published.
     */
    method AttemptRecovery(now: Instant, later: Instant) returns (recovered: bool)
      requires Valid() && now <= later
      modifies this, store
      ensures Valid() && !hasRecoverableSession
      ensures recovered <==> CandidateLive(old(store.sessions), now, later)
      ensures recovered ==>
                && currentSession.Some? && MostRecentLive(old(store.sessions), now, currentSession.value)
                && !IsExpired(currentSession.value, later)
                && isAutosaveEnabled && store.isAutosaveActive && error == None
      ensures !recovered ==> currentSession == old(currentSession) && isAutosaveEnabled == old(isAutosaveEnabled)
      ensures !recovered && error == None ==> forall s :: s in old(store.sessions).Values ==> !Recoverable(s, now)
      ensures error.None? ==> store.sessions == old(store.sessions)
      ensures error.Some? <==> CandidateExpired(old(store.sessions), now, later)
      ensures error.Some? ==>
                && error == Some(SessionError.SessionExpired)
                && exists id :: id in old(store.sessions) && MostRecentLive(old(store.sessions), now, old(store.sessions)[id])
                                && IsExpired(old(store.sessions)[id], later)
                                && store.sessions == old(store.sessions) - {id}
    {
      error := None;
      isLoading := true;
      var recentSession := store.GetMostRecentActiveSession(now);
      if recentSession.None? {
        hasRecoverableSession := false;
        isLoading := false;
        return false;
      }
      var session := recentSession.value;
      if IsExpired(session, later) {
        var deleted := store.Delete(session.id);
        assert deleted.Pass?;
        hasRecoverableSession := false;
        isLoading := false;
        Fail(SessionError.SessionExpired);
        assert session.id in old(store.sessions) && old(store.sessions)[session.id] == session;
        return false;
      }
      StopAutosave();
      currentSession := Some(session);
      hasRecoverableSession := false;
      StartAutosave();
      UpdateSessionReadiness();
      isLoading := false;
      return true;
    }

    /**
     * `checkRecoveryAvailability`: the flag is raised exactly when the most recent recoverable
     * session (looked up at `now`) is still unexpired at `later`; a session that expired in
     * between is deleted. With a single clock reading the flag says whether anything is
     * recoverable.
     */
    method CheckRecoveryAvailability(now: Instant, later: Instant)
      requires Valid() && now <= later
      modifies this, store
      ensures Valid() && error == None
      ensures currentSession == old(currentSession) && isAutosaveEnabled == old(isAutosaveEnabled)
      ensures store.isAutosaveActive == old(store.isAutosaveActive) && store.autosaveInterval == old(store.autosaveInterval)
      ensures hasRecoverableSession <==> CandidateLive(old(store.sessions), now, later)
      ensures !CandidateExpired(old(store.sessions), now, later) ==> store.sessions == old(store.sessions)
      ensures CandidateExpired(old(store.sessions), now, later) ==>
                exists id :: id in old(store.sessions) && MostRecentLive(old(store.sessions), now, old(store.sessions)[id])
                             && IsExpired(old(store.sessions)[id], later)
                             && store.sessions == old(store.sessions) - {id}
      ensures !hasRecoverableSession && store.sessions == old(store.sessions) ==>
                forall s :: s in old(store.sessions).Values ==> !Recoverable(s, now)
      ensures now == later ==>
                && store.sessions == old(store.sessions)
                && (hasRecoverableSession <==> exists s :: s in old(store.sessions).Values && Recoverable(s, now))
    {
      error := None;
      var mostRecentSession := store.GetMostRecentActiveSession(now);
      if mostRecentSession.Some? {
        var session := mostRecentSession.value;
        hasRecoverableSession := !IsExpired(session, later);
        if IsExpired(session, later) {
          var deleted := store.Delete(session.id);
          assert deleted.Pass?;
          hasRecoverableSession := false;
          assert session.id in old(store.sessions) && old(store.sessions)[session.id] == session;
        }
      } else {
        hasRecoverableSession := false;
      }
    }

    /**
     * `getRecoverableSessionInfo`: what would be recovered — the most recent recoverable
     * session, provided it is still unexpired at `later`. The store is not changed.
     */
    method GetRecoverableSessionInfo(now: Instant, later: Instant) returns (info: Option<RecoverableInfo>)
      requires Valid() && now <= later
      modifies this
      ensures Valid()
      ensures info.Some? <==> CandidateLive(store.sessions, now, later)
      ensures info.Some? ==> error == None
                             && exists s :: MostRecentLive(store.sessions, now, s) && !IsExpired(s, later)
                                            && info.value == InfoOf(s)
      ensures info.None? <==> error.Some?
      ensures (forall s :: s in store.sessions.Values ==> !Recoverable(s, now)) <==>
                error == Some(RecoveryFailed(NoRecoverableSession))
      ensures error == Some(SessionError.SessionExpired) <==> CandidateExpired(store.sessions, now, later)
      ensures error.Some? ==> error == Some(RecoveryFailed(NoRecoverableSession)) || error == Some(SessionError.SessionExpired)
      ensures now == later ==> (info.Some? <==> exists s :: s in store.sessions.Values && Recoverable(s, now))
      ensures currentSession == old(currentSession) && hasRecoverableSession == old(hasRecoverableSession)
    {
      error := None;
      var mostRecentSession := store.GetMostRecentActiveSession(now);
      if mostRecentSession.None? {
        Fail(RecoveryFailed(NoRecoverableSession));
        return None;
      }
      var session := mostRecentSession.value;
      if IsExpired(session, later) {
        Fail(SessionError.SessionExpired);
        return None;
      }
      return Some(InfoOf(session));
    }

    /**
     * `discardRecoverableSession`: deletes the most recent recoverable session, if there is
     * one, and lowers the flag. The in-memory store cannot fail here, so the answer is yes.
     */
    method DiscardRecoverableSession(now: Instant) returns (discarded: bool)
      requires Valid()
      modifies this, store
      ensures Valid() && discarded && error == None && !hasRecoverableSession
      ensures currentSession == old(currentSession) && isAutosaveEnabled == old(isAutosaveEnabled)
      ensures (forall s :: s in old(store.sessions).Values ==> !Recoverable(s, now)) ==> store.sessions == old(store.sessions)
      ensures (exists s :: s in old(store.sessions).Values && Recoverable(s, now)) ==>
                exists id :: id in old(store.sessions) && Recoverable(old(store.sessions)[id], now)
                             && (forall t :: t in old(store.sessions).Values && Recoverable(t, now) ==>
                                               t.lastUpdated <= old(store.sessions)[id].lastUpdated)
                             && store.sessions == old(store.sessions) - {id}
    {
      error := None;
      var mostRecentSession := store.GetMostRecentActiveSession(now);
      if mostRecentSession.None? {
        hasRecoverableSession := false;
        return true;
      }
      var session := mostRecentSession.value;
      var deleted := store.Delete(session.id);
      assert deleted.Pass?;
      hasRecoverableSession := false;
      assert session.id in old(store.sessions) && old(store.sessions)[session.id] == session;
      return true;
    }

    /** `clearAllData`: the session in progress is dropped and the store emptied. */
    method ClearAllData() returns (cleared: bool)
      requires Valid()
      modifies this, store
      ensures Valid() && cleared && error == None
      ensures store.sessions == map[] && currentSession == None
      ensures !canCompleteSession && !hasRecoverableSession && !isAutosaveEnabled
    {
      error := None;
      if currentSession.Some? {
        StopAutosave();
        currentSession := None;
        canCompleteSession := false;
      }
      store.ClearAllData();
      hasRecoverableSession := false;
      return true;
    }

    /**
     * `recoverFromError`: the error is cleared; a current session that has expired at `now`
     * is dropped, otherwise its readiness is recomputed; then recovery availability is
     * checked with the readings `now` and `later`.
     */
    method RecoverFromError(now: Instant, later: Instant)
      requires Valid() && now <= later
      modifies this, store
      ensures Valid() && error == None
      ensures old(currentSession).Some? && IsExpired(old(currentSession).value, now) ==>
                currentSession == None && !isAutosaveEnabled && !store.isAutosaveActive
      ensures !(old(currentSession).Some? && IsExpired(old(currentSession).value, now)) ==>
                currentSession == old(currentSession)
      ensures hasRecoverableSession <==> CandidateLive(old(store.sessions), now, later)
      ensures !CandidateExpired(old(store.sessions), now, later) ==> store.sessions == old(store.sessions)
      ensures CandidateExpired(old(store.sessions), now, later) ==>
                exists id :: id in old(store.sessions) && MostRecentLive(old(store.sessions), now, old(store.sessions)[id])
                             && IsExpired(old(store.sessions)[id], later)
                             && store.sessions == old(store.sessions) - {id}
      ensures !hasRecoverableSession && store.sessions == old(store.sessions) ==>
                forall s :: s in old(store.sessions).Values ==> !Recoverable(s, now)
    {
      error := None;
      isLoading := false;
      if currentSession.Some? {
        var session := currentSession.value;
        if IsExpired(session, now) {
          currentSession := None;
          canCompleteSession := false;
          hasRecoverableSession := false;
          StopAutosave();
        } else {
          UpdateSessionReadiness();
        }
      }
      CheckRecoveryAvailability(now, later);
    }

    /**
     * Pausing and then recovering with a single clock reading hands back the very session that
     * was paused, exercises and sets included, provided it is still recoverable and no other
     * stored recoverable session was updated as late as it was.
     */
    method PauseThenRecover(now: Instant) returns (recovered: bool)
      requires Valid() && currentSession.Some? && Recoverable(currentSession.value, now)
      requires forall s :: s in store.sessions.Values && s.id != currentSession.value.id && Recoverable(s, now) ==>
                 s.lastUpdated < currentSession.value.lastUpdated
      modifies this, store
      ensures Valid() && recovered && error == None
      ensures currentSession == old(currentSession)
      ensures store.sessions == old(store.sessions)[old(currentSession).value.id := old(currentSession).value]
      ensures isAutosaveEnabled && !hasRecoverableSession
    {
      ghost var paused := currentSession.value;
      ghost var before := store.sessions;
      var _ := PauseCurrentSession();
      forall t | t in store.sessions.Values && Recoverable(t, now)
        ensures t == paused || t.lastUpdated < paused.lastUpdated
      {
        var k :| k in store.sessions && store.sessions[k] == t;
        if k != paused.id {
          assert before[k] == t && t.id == k;
        }
      }
      assert store.sessions[paused.id] == paused;
      assert MostRecentLive(store.sessions, now, paused);
      recovered := AttemptRecovery(now, now);
    }

    /**
     * `validateAndRepairCurrentSession`: without a session there is nothing to do; an expired
     * session is dropped with SessionExpired; otherwise the session becomes its Repair, and is
     * stored exactly when the repair changed something.
     */
    method ValidateAndRepairCurrentSession(now: Instant) returns (ok: bool)
      requires Valid()
      modifies this, store
      ensures Valid()
      ensures hasRecoverableSession == old(hasRecoverableSession)
      ensures old(currentSession).None? ==>
                ok && currentSession == None && error == None && store.sessions == old(store.sessions)
      ensures old(currentSession).Some? && IsExpired(old(currentSession).value, now) ==>
                && !ok && currentSession == None && error == Some(SessionError.SessionExpired)
                && !isAutosaveEnabled && store.sessions == old(store.sessions)
      ensures old(currentSession).Some? && !IsExpired(old(currentSession).value, now) ==>
                var s := old(currentSession).value;
                && ok && error == None && currentSession == Some(Repair(s))
                && store.sessions == (if Repair(s) != s then old(store.sessions)[s.id := Repair(s)] else old(store.sessions))
    {
      error := None;
      if currentSession.None? {
        return true;
      }
      var session := currentSession.value;
      ghost var original := session;
      var wasModified := false;

      // 1. an expired session is dropped
      if IsExpired(session, now) {
        currentSession := None;
        canCompleteSession := false;
        StopAutosave();
        Fail(SessionError.SessionExpired);
        return false;
      }

      // 2. back-references to groups that do not exist are cleared
      var cleaned, orphansCleared := ClearOrphanedReferences(session.exercises, SupersetIds(session.supersets));
      session := session.(exercises := cleaned);

      // 3. groups naming an exercise that does not exist are dropped
      var exerciseIds := ExerciseIds(session.exercises);
      var supersetsBeforeClean := |session.supersets|;
      session := session.(supersets := KeepWhole(session.supersets, exerciseIds));
      var groupsDropped := |session.supersets| != supersetsBeforeClean;

      // 4. every exercise's sets in timestamp order
      var ordered, setsReordered := OrderSetsByTimestamp(session.exercises);
      session := session.(exercises := ordered);
      wasModified := orphansCleared || groupsDropped || setsReordered;
      RepairChanges(original);
      assert wasModified <==> Repair(original) != original;

      if wasModified {
        currentSession := Some(session);
        UpdateSessionReadiness();
        store.Save(session);
      }
      return true;
    }

    // ----- editing -----

    /** `addExercise`: appended to the session in progress, which is then saved. */
    method AddExercise(exercise: ExerciseEntry, now: Instant)
      requires Valid()
      modifies this, store
      ensures Valid() && hasRecoverableSession == old(hasRecoverableSession)
      ensures old(currentSession).None? ==>
                error == Some(NoActiveSession) && currentSession == None && store.sessions == old(store.sessions)
      ensures old(currentSession).Some? ==>
                var s := WorkoutSessions.AddExercise(old(currentSession).value, exercise, now);
                && currentSession == Some(s) && error == old(error)
                && store.sessions == old(store.sessions)[s.id := s]
    {
      if currentSession.None? {
        error := Some(NoActiveSession);
        return;
      }
      var session := WorkoutSessions.AddExercise(currentSession.value, exercise, now);
      currentSession := Some(session);
      UpdateSessionReadiness();
      SaveCurrentSessionIfNeeded();
    }

    /** `addSuperset`: appended to the session in progress, which is then saved. */
    method AddSuperset(superset: SupersetGroup, now: Instant)
      requires Valid()
      modifies this, store
      ensures Valid() && hasRecoverableSession == old(hasRecoverableSession)
      ensures old(currentSession).None? ==>
                error == Some(NoActiveSession) && currentSession == None && store.sessions == old(store.sessions)
      ensures old(currentSession).Some? ==>
                var s := WorkoutSessions.AddSuperset(old(currentSession).value, superset, now);
                && currentSession == Some(s) && error == old(error)
                && store.sessions == old(store.sessions)[s.id := s]
    {
      if currentSession.None? {
        error := Some(NoActiveSession);
        return;
      }
      var session := WorkoutSessions.AddSuperset(currentSession.value, superset, now);
      currentSession := Some(session);
      UpdateSessionReadiness();
      SaveCurrentSessionIfNeeded();
    }

    /**
     * `addSetToCurrentExercise`: the set is checked against the exercise's equipment (body
     * weight when the exercise is unknown) and then its repetitions; an accepted set is added
     * and the session saved, a rejected one publishes its cause and changes nothing else.
     */
    method AddSetToCurrentExercise(exerciseId: Uuid, record: SetRecord, now: Instant)
      requires Valid()
      modifies this, store
      ensures Valid() && hasRecoverableSession == old(hasRecoverableSession)
      ensures old(currentSession).None? ==>
                error == Some(NoActiveSession) && currentSession == None && store.sessions == old(store.sessions)
      ensures old(currentSession).Some? ==>
                var cause := SetInputError(record, ExerciseEquipment(old(currentSession).value.exercises, exerciseId));
                var s := AddSetToExercise(old(currentSession).value, exerciseId, record, now);
                && (cause.None? ==> currentSession == Some(s) && error == old(error)
                                    && store.sessions == old(store.sessions)[s.id := s])
                && (cause.Some? ==> currentSession == old(currentSession) && error == Some(ValidationFailed([cause.value]))
                                    && store.sessions == old(store.sessions))
    {
      if currentSession.None? {
        error := Some(NoActiveSession);
        return;
      }
      var session := currentSession.value;
      var equipment := ExerciseEquipment(session.exercises, exerciseId);
      var weightCheck := ReadinessValidator.ValidateSetRecord(record.weightKg, equipment);
      if weightCheck.Failure? {
        error := Some(ValidationFailed([weightCheck.error]));
        return;
      }
      var repsCheck := ReadinessValidator.ValidateReps(record.reps);
      if repsCheck.Failure? {
        error := Some(ValidationFailed([repsCheck.error]));
        return;
      }
      session := AddSetToExercise(session, exerciseId, record, now);
      currentSession := Some(session);
      UpdateSessionReadiness();
      SaveCurrentSessionIfNeeded();
    }

    // ----- queries -----

    function GetCurrentExercises(): (xs: seq<ExerciseEntry>)
      reads this
      ensures currentSession.None? ==> xs == []
      ensures currentSession.Some? ==> xs == currentSession.value.exercises
    {
      if currentSession.Some? then currentSession.value.exercises else []
    }

    function GetCurrentSupersets(): (gs: seq<SupersetGroup>)
      reads this
      ensures currentSession.None? ==> gs == []
      ensures currentSession.Some? ==> gs == currentSession.value.supersets
    {
      if currentSession.Some? then currentSession.value.supersets else []
    }

    /** `getExercise(by:)`: the first exercise of the session in progress with that id. */
    function GetExercise(id: Uuid): (r: Option<ExerciseEntry>)
      reads this
      ensures r.Some? ==> r.value in GetCurrentExercises() && r.value.id == id
      ensures r.None? <==> forall e :: e in GetCurrentExercises() ==> e.id != id
      ensures r.Some? ==> var xs := GetCurrentExercises();
                          exists i :: 0 <= i < |xs| && xs[i] == r.value && forall j :: 0 <= j < i ==> xs[j].id != id
    {
      LogFormatter.FindExercise(GetCurrentExercises(), id)
    }

    predicate IsExerciseInSuperset(exerciseId: Uuid)
      reads this
    {
      exists g :: g in GetCurrentSupersets() && exerciseId in g.exerciseIds
    }

    /** `getSuperset(containing:)`: the first group naming the exercise. */
    function GetSuperset(exerciseId: Uuid): (r: Option<SupersetGroup>)
      reads this
      ensures r.Some? ==> r.value in GetCurrentSupersets() && exerciseId in r.value.exerciseIds
      ensures r.None? <==> !IsExerciseInSuperset(exerciseId)
      ensures r.Some? ==> var gs := GetCurrentSupersets();
                          exists i :: 0 <= i < |gs| && gs[i] == r.value
                                      && forall j :: 0 <= j < i ==> exerciseId !in gs[j].exerciseIds
    {
      LogFormatter.GroupContaining(GetCurrentSupersets(), exerciseId)
    }

    /** `getSets(for:)`: the sets of the first exercise with that id, none for an unknown id. */
    function GetSets(exerciseId: Uuid): (r: seq<SetRecord>)
      reads this
      ensures GetExercise(exerciseId).None? ==> r == []
      ensures GetExercise(exerciseId).Some? ==> r == GetExercise(exerciseId).value.sets
    {
      match GetExercise(exerciseId)
      case None => []
      case Some(e) => e.sets
    }

    function GetSetCount(exerciseId: Uuid): (n: nat)
      reads this
      ensures n == |GetSets(exerciseId)|
    {
      |GetSets(exerciseId)|
    }

    /**
     * `canAddSetToExercise`: never for an unknown exercise; for a superset member while the
     * group is not ready; for a lone exercise while it is not ready or has fewer than eight.
     */
    predicate CanAddSetToExercise(exerciseId: Uuid)
      reads this
    {
      match GetExercise(exerciseId)
      case None => false
      case Some(exercise) =>
        match GetSuperset(exerciseId)
        case Some(superset) => !SupersetGroups.IsReady(superset, GetCurrentExercises())
        case None => !ExerciseEntries.IsReady(exercise) || |exercise.sets| < SetCap
    }

    predicate IsExerciseReady(exerciseId: Uuid)
      reads this
    {
      GetExercise(exerciseId).Some? && ExerciseEntries.IsReady(GetExercise(exerciseId).value)
    }

    /** `isSupersetReady`: the first group with that id is ready; false for an unknown id. */
    predicate IsSupersetReady(supersetId: Uuid)
      reads this
    {
      match ReadinessValidator.GroupWithId(GetCurrentSupersets(), supersetId)
      case None => false
      case Some(superset) => SupersetGroups.IsReady(superset, GetCurrentExercises())
    }

    function GetTotalSets(): (n: nat)
      reads this
      ensures currentSession.None? ==> n == 0
      ensures currentSession.Some? ==> n == WorkoutSessions.TotalSets(currentSession.value)
    {
      if currentSession.Some? then WorkoutSessions.TotalSets(currentSession.value) else 0
    }

    function GetTotalExercises(): (n: nat)
      reads this
      ensures n == |GetCurrentExercises()|
    {
      |GetCurrentExercises()|
    }

    /** `getSessionDuration`: seconds from the start to the end, or to `now` while running. */
    function GetSessionDuration(now: Instant): (d: Option<int>)
      reads this
      ensures d.None? <==> currentSession.None?
      ensures d.Some? && currentSession.value.endTime.Some? ==>
                d.value == currentSession.value.endTime.value - currentSession.value.startTime
      ensures d.Some? && currentSession.value.endTime.None? ==> d.value == now - currentSession.value.startTime
    {
      match currentSession
      case None => None
      case Some(session) =>
        match session.endTime
        case Some(end) => Some(end - session.startTime)
        case None => Some(now - session.startTime)
    }

    /** The manager's readiness queries decide as the validator does for one exercise or group. */
    lemma ReadinessQueriesAgree(exerciseId: Uuid, supersetId: Uuid)
      ensures IsExerciseReady(exerciseId) <==>
                GetExercise(exerciseId).Some? && ReadinessValidator.CanCompleteExercise(GetExercise(exerciseId).value)
      ensures IsSupersetReady(supersetId) <==>
                var g := ReadinessValidator.GroupWithId(GetCurrentSupersets(), supersetId);
                g.Some? && ReadinessValidator.CanCompleteSuperset(g.value, GetCurrentExercises())
    {
    }

    /** A lone exercise takes sets exactly while it has fewer than eight. */
    lemma LoneExerciseCap(exerciseId: Uuid)
      requires GetExercise(exerciseId).Some? && !IsExerciseInSuperset(exerciseId)
      ensures CanAddSetToExercise(exerciseId) <==> GetSetCount(exerciseId) < SetCap
    {
    }

    /** An id that names no exercise of the current session never takes a set. */
    lemma UnknownExerciseTakesNoSets(exerciseId: Uuid)
      requires GetExercise(exerciseId).None?
      ensures !CanAddSetToExercise(exerciseId)
    {
    }

    /** A superset member takes sets exactly while its group is not ready. */
    lemma SupersetMemberCap(exerciseId: Uuid)
      requires GetExercise(exerciseId).Some? && IsExerciseInSuperset(exerciseId)
      ensures CanAddSetToExercise(exerciseId) <==> !SupersetGroups.IsReady(GetSuperset(exerciseId).value, GetCurrentExercises())
    {
    }
  }
}

/** Completion and input rules over the session model (Domain/Validation/SessionReadinessValidator.swift). */
module ReadinessValidator {
  import opened Wrappers
  import opened Identifiers
  import opened Equipment
  import opened SetRecords
  import opened ExerciseEntries
  import opened SupersetGroups
  import opened WorkoutSessions

  datatype ValidationError =
    | InvalidWeight
    | InvalidReps
    | InvalidSupersetCount
    | DuplicateExerciseInSuperset
    | SessionExpired
    | InsufficientSets

  /** Four logged sets complete an exercise: the validator agrees with the entry's own `isReady`. */
  predicate CanCompleteExercise(e: ExerciseEntry): (r: bool)
    ensures r <==> ExerciseEntries.IsReady(e)
  {
    |e.sets| >= 4
  }

  /**
   * Exactly two entries belong to the group and each of them can be completed; the validator
   * and the group's own `isReady` decide alike.
   */
  predicate CanCompleteSuperset(g: SupersetGroup, exercises: seq<ExerciseEntry>): (r: bool)
    ensures r <==> SupersetGroups.IsReady(g, exercises)
  {
    var members := Members(g.exerciseIds, exercises);
    |members| == 2 && forall e :: e in members ==> CanCompleteExercise(e)
  }

  /** `supersets.first(where: { $0.id == id })`. */
  function GroupWithId(supersets: seq<SupersetGroup>, id: Uuid): (r: Option<SupersetGroup>)
    ensures r.Some? ==> r.value in supersets && r.value.id == id
    ensures r.None? <==> forall g :: g in supersets ==> g.id != id
    ensures r.Some? ==> exists i :: 0 <= i < |supersets| && supersets[i] == r.value
                                    && forall j :: 0 <= j < i ==> supersets[j].id != id
  {
    if supersets == [] then None
    else if supersets[0].id == id then Some(supersets[0])
    else GroupWithId(supersets[1..], id)
  }

  /**
   * False on an empty session; otherwise decided by the last exercise: by its superset when
   * its back-reference names an existing group, else by the exercise alone.
   */
  predicate CanProceedToNextExercise(s: WorkoutSession): (r: bool)
    ensures r ==> s.exercises != []
    ensures s.exercises != [] && s.exercises[|s.exercises| - 1].supersetGroupId.None? ==>
              (r <==> ExerciseEntries.IsReady(s.exercises[|s.exercises| - 1]))
    ensures s.exercises != [] && s.exercises[|s.exercises| - 1].supersetGroupId.Some? ==>
              var g := GroupWithId(s.supersets, s.exercises[|s.exercises| - 1].supersetGroupId.value);
              && (g.Some? ==> (r <==> SupersetGroups.IsReady(g.value, s.exercises)))
              && (g.None? ==> (r <==> ExerciseEntries.IsReady(s.exercises[|s.exercises| - 1])))
  {
    if s.exercises == [] then false
    else
      var last := s.exercises[|s.exercises| - 1];
      if last.supersetGroupId.Some? && GroupWithId(s.supersets, last.supersetGroupId.value).Some? then
        CanCompleteSuperset(GroupWithId(s.supersets, last.supersetGroupId.value).value, s.exercises)
      else
        CanCompleteExercise(last)
  }

  /**
   * Non-empty, every exercise outside a superset (no back-reference) can be completed, and
   * every superset can be completed.
   */
  predicate CanCompleteSession(s: WorkoutSession): (r: bool)
    ensures r <==> && s.exercises != []
                   && (forall e :: e in s.exercises && e.supersetGroupId.None? ==> ExerciseEntries.IsReady(e))
                   && (forall g :: g in s.supersets ==> SupersetGroups.IsReady(g, s.exercises))
  {
    && s.exercises != []
    && (forall e :: e in s.exercises && e.supersetGroupId.None? ==> CanCompleteExercise(e))
    && (forall g :: g in s.supersets ==> CanCompleteSuperset(g, s.exercises))
  }

  /**
   * A completable session lets the user move on, provided the last exercise's back-reference
   * (if any) names an existing group.
   */
  lemma CompletableSessionCanProceed(s: WorkoutSession)
    requires CanCompleteSession(s)
    requires var last := s.exercises[|s.exercises| - 1];
             last.supersetGroupId.Some? ==> GroupWithId(s.supersets, last.supersetGroupId.value).Some?
    ensures CanProceedToNextExercise(s)
  {
    var last := s.exercises[|s.exercises| - 1];
    assert last in s.exercises;
  }

  /**
   * Without that proviso it fails: an exercise whose back-reference names no group is judged
   * alone by CanProceedToNextExercise but ignored by CanCompleteSession.
   */
  lemma OrphanReferenceBlocksProceeding(e: ExerciseEntry, s: WorkoutSession, orphan: Uuid)
    requires e.sets == [] && e.supersetGroupId == Some(orphan)
    requires s.exercises == [e] && s.supersets == []
    ensures CanCompleteSession(s) && !CanProceedToNextExercise(s)
  {
  }

  /** Adding a set never takes readiness away from a session. */
  lemma {:induction false} AddSetKeepsSessionReady(s: WorkoutSession, exerciseId: Uuid, record: SetRecord, now: Instant)
    requires CanCompleteSession(s)
    ensures CanCompleteSession(AddSetToExercise(s, exerciseId, record, now))
  {
    var s' := AddSetToExercise(s, exerciseId, record, now);
    match FirstIndexOf(s.exercises, exerciseId)
    case None =>
    case Some(i) =>
      var e' := AddSet(s.exercises[i], record);
      assert s'.exercises == s.exercises[i := e'];
      forall e | e in s'.exercises && e.supersetGroupId.None?
        ensures CanCompleteExercise(e)
      {
        var k :| 0 <= k < |s'.exercises| && s'.exercises[k] == e;
        assert s.exercises[k] in s.exercises;
      }
      forall g | g in s'.supersets
        ensures CanCompleteSuperset(g, s'.exercises)
      {
        MembersUpdate(g.exerciseIds, s.exercises, i, e');
      }
  }

  /** Growing one entry's sets keeps the member count and never shrinks a member's sets. */
  lemma {:induction false} MembersUpdate(ids: seq<Uuid>, xs: seq<ExerciseEntry>, i: nat, e': ExerciseEntry)
    requires i < |xs| && e'.id == xs[i].id && |e'.sets| >= |xs[i].sets|
    ensures |Members(ids, xs[i := e'])| == |Members(ids, xs)|
    ensures forall e :: e in Members(ids, xs[i := e']) ==>
              e == e' || (e in Members(ids, xs) && e in xs)
    ensures (forall e :: e in Members(ids, xs) ==> CanCompleteExercise(e)) ==>
              forall e :: e in Members(ids, xs[i := e']) ==> CanCompleteExercise(e)
  {
    var u := xs[i := e'];
    assert u[1..] == if i == 0 then xs[1..] else xs[1..][i - 1 := e'];
    if i > 0 {
      MembersUpdate(ids, xs[1..], i - 1, e');
    }
    if (forall e :: e in Members(ids, xs) ==> CanCompleteExercise(e)) {
      forall e | e in Members(ids, u) ensures CanCompleteExercise(e) {
        if e == e' {
          assert xs[i] in xs;
          if xs[i].id in ids {
            assert xs[i] in Members(ids, xs);
          }
        }
      }
    }
  }

  /** Fails with InvalidWeight exactly when the equipment needs a positive weight and lacks one. */
  function ValidateSetRecord(weightKg: Option<real>, equipment: EquipmentType): (r: Result<bool, ValidationError>)
    ensures r.Failure? <==> RequiresPositiveWeight(equipment) && !PositiveWeight(weightKg)
    ensures r.Failure? ==> r.error == ValidationError.InvalidWeight
    ensures r.Success? ==> r.value
  {
    if RequiresPositiveWeight(equipment) && !PositiveWeight(weightKg) then Failure(ValidationError.InvalidWeight)
    else Success(true)
  }

  /** Fails with InvalidReps exactly when fewer than one repetition is given. */
  function ValidateReps(reps: int): (r: Result<bool, ValidationError>)
    ensures r.Failure? <==> reps <= 0
    ensures r.Failure? ==> r.error == ValidationError.InvalidReps
    ensures r.Success? ==> r.value
  {
    if reps <= 0 then Failure(ValidationError.InvalidReps) else Success(true)
  }

  /** The validator's two checks accept exactly the sets SetRecord's validating initialiser builds. */
  lemma ValidatorsAgreeWithSetRecord(id: Uuid, weightKg: Option<real>, reps: int, warm: bool, failure: bool,
                                     rest: Option<int>, t: Instant, equipment: EquipmentType)
    ensures NewSetRecord(id, weightKg, reps, warm, failure, rest, t, equipment).Success?
            <==> ValidateSetRecord(weightKg, equipment).Success? && ValidateReps(reps).Success?
    ensures NewSetRecord(id, weightKg, reps, warm, failure, rest, t, equipment) == Failure(SetRecordError.InvalidWeight)
            <==> ValidateSetRecord(weightKg, equipment).Failure?
  {
  }

  /** Older than twelve hours at `now`: the validator's expiry rule is the session's own. */
  predicate IsSessionExpired(s: WorkoutSession, now: Instant): (r: bool)
    ensures r <==> WorkoutSessions.IsExpired(s, now)
  {
    s.lastUpdated < now - TwelveHours
  }

  /** Only an active session that has not expired at `now` may be recovered. */
  predicate CanRecoverSession(s: WorkoutSession, now: Instant): (r: bool)
    ensures r <==> s.status == Active && !WorkoutSessions.IsExpired(s, now)
  {
    s.status == Active && !IsSessionExpired(s, now)
  }

  /** The number of distinct ids in `ids` (Swift's `Set(ids).count`). */
  function DistinctCount(ids: seq<Uuid>): nat {
    |set x | x in ids|
  }

  /**
   * The count is checked first (InvalidSupersetCount unless exactly two ids), then
   * distinctness (DuplicateExerciseInSuperset); two distinct ids are accepted.
   */
  function ValidateSupersetCreation(ids: seq<Uuid>): (r: Result<bool, ValidationError>)
    ensures r == Failure(InvalidSupersetCount) <==> |ids| != 2
    ensures r == Failure(DuplicateExerciseInSuperset) <==> |ids| == 2 && ids[0] == ids[1]
    ensures r.Success? <==> |ids| == 2 && ids[0] != ids[1]
    ensures r.Success? ==> r.value
  {
    if |ids| != 2 then Failure(InvalidSupersetCount)
    else
      assert (set x | x in ids) == {ids[0], ids[1]};
      if DistinctCount(ids) != 2 then Failure(DuplicateExerciseInSuperset)
      else Success(true)
  }

  /**
   * Picking the same exercise again is allowed only when it is the last one logged; any
   * other pick, or the first pick of all, is allowed.
   */
  predicate IsConsecutiveExerciseSelection(previousExerciseId: Option<Uuid>, currentExerciseId: Uuid,
                                           exercises: seq<ExerciseEntry>): (r: bool)
    ensures previousExerciseId.None? ==> r
    ensures previousExerciseId.Some? && previousExerciseId.value != currentExerciseId ==> r
    ensures exercises != [] && exercises[|exercises| - 1].id == currentExerciseId ==> r
  {
    match previousExerciseId
    case None => true
    case Some(previous) =>
      if previous == currentExerciseId then exercises != [] && exercises[|exercises| - 1].id == currentExerciseId
      else true
  }

  /**
   * A pick is refused only when it repeats the previous pick while another exercise was
   * logged last (or nothing was logged); a different pick, or a first pick, is always allowed.
   */
  lemma ReselectionRule(previousExerciseId: Option<Uuid>, currentExerciseId: Uuid, exercises: seq<ExerciseEntry>)
    ensures !IsConsecutiveExerciseSelection(previousExerciseId, currentExerciseId, exercises) <==>
              previousExerciseId == Some(currentExerciseId)
              && (exercises == [] || exercises[|exercises| - 1].id != currentExerciseId)
  {
  }
}

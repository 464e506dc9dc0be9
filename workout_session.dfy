/** The session aggregate (Domain/Model/WorkoutSession.swift). */
module WorkoutSessions {
  import opened Wrappers
  import opened Identifiers
  import opened SetRecords
  import opened ExerciseEntries
  import opened SupersetGroups

  /** `expired` is only a display label: no operation of the core stores it. */
  datatype SessionStatus = Active | Completed | Expired

  datatype WorkoutSession = WorkoutSession(
    id: Uuid,
    startTime: Instant,
    endTime: Option<Instant>,
    status: SessionStatus,
    exercises: seq<ExerciseEntry>,
    supersets: seq<SupersetGroup>,
    lastUpdated: Instant)

  /** `WorkoutSession()` at time `now`: active, empty, not ended. */
  function NewSession(id: Uuid, now: Instant): (s: WorkoutSession)
    ensures s.id == id && s.startTime == now && s.lastUpdated == now && s.endTime == None
    ensures s.status == Active && s.exercises == [] && s.supersets == []
    ensures TotalSets(s) == 0 && !IsExpired(s, now)
  {
    WorkoutSession(id, now, None, Active, [], [], now)
  }

  /** `mutating addExercise`: appends the entry and refreshes `lastUpdated`. */
  function AddExercise(s: WorkoutSession, e: ExerciseEntry, now: Instant): (s': WorkoutSession)
    ensures s'.exercises == s.exercises + [e] && s'.lastUpdated == now
    ensures s' == s.(exercises := s'.exercises, lastUpdated := now)
    ensures TotalSets(s') == TotalSets(s) + |e.sets|
  {
    s.(exercises := s.exercises + [e], lastUpdated := now)
  }

  /** `exercises.firstIndex(where: { $0.id == id })`. */
  function FirstIndexOf(exercises: seq<ExerciseEntry>, id: Uuid): (r: Option<nat>)
    ensures r.Some? ==> r.value < |exercises| && exercises[r.value].id == id
                        && forall j :: 0 <= j < r.value ==> exercises[j].id != id
    ensures r.None? <==> forall j :: 0 <= j < |exercises| ==> exercises[j].id != id
  {
    if exercises == [] then None
    else if exercises[0].id == id then Some(0)
    else match FirstIndexOf(exercises[1..], id)
      case None => None
      case Some(i) => Some(i + 1)
  }

  /**
   * `mutating addSetToExercise`: appends `record` to the first entry with the given id and
   * refreshes `lastUpdated`; with an unknown id the session is returned untouched.
   */
  function AddSetToExercise(s: WorkoutSession, exerciseId: Uuid, record: SetRecord, now: Instant): (s': WorkoutSession)
    ensures |s'.exercises| == |s.exercises| && s'.supersets == s.supersets && s'.status == s.status
    ensures s'.id == s.id && s'.startTime == s.startTime && s'.endTime == s.endTime
  {
    match FirstIndexOf(s.exercises, exerciseId)
    case None => s
    case Some(i) => s.(exercises := s.exercises[i := AddSet(s.exercises[i], record)], lastUpdated := now)
  }

  /** `mutating addSuperset`: appends the group and refreshes `lastUpdated`. */
  function AddSuperset(s: WorkoutSession, g: SupersetGroup, now: Instant): (s': WorkoutSession)
    ensures s'.supersets == s.supersets + [g] && s'.lastUpdated == now
    ensures s' == s.(supersets := s'.supersets, lastUpdated := now)
  {
    s.(supersets := s.supersets + [g], lastUpdated := now)
  }

  /** `mutating complete`: marks the session completed and ends it now. */
  function Complete(s: WorkoutSession, now: Instant): (s': WorkoutSession)
    ensures s'.status == Completed && s'.endTime == Some(now) && s'.lastUpdated == now
    ensures s' == s.(status := Completed, endTime := Some(now), lastUpdated := now)
    ensures DurationInMinutes(s').Some?
  {
    s.(status := Completed, endTime := Some(now), lastUpdated := now)
  }

  /** `supersets.first { !$0.isCompleted && !$0.isReady(exercises) }`. */
  function ActiveSuperset(s: WorkoutSession): (r: Option<SupersetGroup>)
    ensures r.Some? ==> exists i :: 0 <= i < |s.supersets| && s.supersets[i] == r.value
                                    && Pending(s.supersets[i], s.exercises)
                                    && forall j :: 0 <= j < i ==> !Pending(s.supersets[j], s.exercises)
    ensures r.None? <==> forall j :: 0 <= j < |s.supersets| ==> !Pending(s.supersets[j], s.exercises)
  {
    FirstPending(s.supersets, s.exercises)
  }

  /** A group not marked completed whose exercises are not yet ready. */
  predicate Pending(g: SupersetGroup, exercises: seq<ExerciseEntry>) {
    !g.isCompleted && !SupersetGroups.IsReady(g, exercises)
  }

  function FirstPending(gs: seq<SupersetGroup>, exercises: seq<ExerciseEntry>): (r: Option<SupersetGroup>)
    ensures r.Some? ==> exists i :: 0 <= i < |gs| && gs[i] == r.value && Pending(gs[i], exercises)
                                    && forall j :: 0 <= j < i ==> !Pending(gs[j], exercises)
    ensures r.None? <==> forall j :: 0 <= j < |gs| ==> !Pending(gs[j], exercises)
  {
    if gs == [] then None
    else if Pending(gs[0], exercises) then Some(gs[0])
    else
      var r := FirstPending(gs[1..], exercises);
      assert r.Some? ==> exists i :: 1 <= i < |gs| && gs[i] == r.value && Pending(gs[i], exercises)
                                     && forall j :: 0 <= j < i ==> !Pending(gs[j], exercises) by {
        if r.Some? {
          var i :| 0 <= i < |gs[1..]| && gs[1..][i] == r.value && Pending(gs[1..][i], exercises)
                   && forall j :: 0 <= j < i ==> !Pending(gs[1..][j], exercises);
          assert forall j :: 1 <= j < i + 1 ==> gs[j] == gs[1..][j - 1];
        }
      }
      assert r.None? ==> forall j :: 0 <= j < |gs| ==> !Pending(gs[j], exercises) by {
        if r.None? {
          assert forall j :: 1 <= j < |gs| ==> gs[j] == gs[1..][j - 1];
        }
      }
      r
  }

  /**
   * Swift's `Int(seconds / 60)`: the quotient truncated toward zero, which differs from
   * Dafny's Euclidean `/` for negative durations.
   */
  function WholeMinutes(seconds: int): (m: int)
    ensures seconds >= 0 ==> 0 <= m && 60 * m <= seconds < 60 * m + 60
    ensures seconds < 0 ==> m <= 0 && 60 * m - 60 < seconds <= 60 * m
  {
    if seconds >= 0 then seconds / 60 else -((-seconds) / 60)
  }

  /** Whole minutes from start to end, absent while the session has not ended. */
  function DurationInMinutes(s: WorkoutSession): (r: Option<int>)
    ensures r.Some? <==> s.endTime.Some?
    ensures r.Some? ==> r.value == WholeMinutes(s.endTime.value - s.startTime)
  {
    match s.endTime
    case None => None
    case Some(end) => Some(WholeMinutes(end - s.startTime))
  }

  /** Last updated strictly more than twelve hours before `now`. */
  predicate IsExpired(s: WorkoutSession, now: Instant) {
    s.lastUpdated < now - TwelveHours
  }

  /** `exercises.reduce(0) { $0 + $1.totalSets }`. */
  function TotalSets(s: WorkoutSession): nat {
    SumSets(s.exercises)
  }

  function SumSets(exercises: seq<ExerciseEntry>): nat {
    if exercises == [] then 0
    else SumSets(exercises[..|exercises| - 1]) + ExerciseEntries.TotalSets(exercises[|exercises| - 1])
  }

  lemma SumSetsAppend(exercises: seq<ExerciseEntry>, e: ExerciseEntry)
    ensures SumSets(exercises + [e]) == SumSets(exercises) + |e.sets|
  {
    assert (exercises + [e])[..|exercises|] == exercises;
  }

  /** Replacing one entry changes the sum by the difference of the two set counts. */
  lemma {:induction false} SumSetsUpdate(exercises: seq<ExerciseEntry>, i: nat, e: ExerciseEntry)
    requires i < |exercises|
    ensures SumSets(exercises[i := e]) == SumSets(exercises) - |exercises[i].sets| + |e.sets|
  {
    var n := |exercises|;
    var u := exercises[i := e];
    if i == n - 1 {
      assert u[..n - 1] == exercises[..n - 1];
    } else {
      SumSetsUpdate(exercises[..n - 1], i, e);
      assert u[..n - 1] == exercises[..n - 1][i := e];
    }
  }

  /**
   * Adding a set to a known exercise appends it to the first entry with that id, leaves every
   * other entry and all other fields as they were, and adds one to the total.
   */
  lemma AddSetToKnownExercise(s: WorkoutSession, exerciseId: Uuid, record: SetRecord, now: Instant, i: nat)
    requires i < |s.exercises| && s.exercises[i].id == exerciseId
    requires forall j :: 0 <= j < i ==> s.exercises[j].id != exerciseId
    ensures var s' := AddSetToExercise(s, exerciseId, record, now);
            && |s'.exercises| == |s.exercises|
            && s'.exercises[i].sets == s.exercises[i].sets + [record]
            && s'.exercises[i] == s.exercises[i].(sets := s'.exercises[i].sets)
            && (forall j :: 0 <= j < |s.exercises| && j != i ==> s'.exercises[j] == s.exercises[j])
            && s' == s.(exercises := s'.exercises, lastUpdated := now)
            && TotalSets(s') == TotalSets(s) + 1
  {
    var r := FirstIndexOf(s.exercises, exerciseId);
    assert r == Some(i);
    SumSetsUpdate(s.exercises, i, AddSet(s.exercises[i], record));
  }

  /** With an unknown exercise id nothing changes, not even `lastUpdated`. */
  lemma AddSetToUnknownExercise(s: WorkoutSession, exerciseId: Uuid, record: SetRecord, now: Instant)
    requires forall j :: 0 <= j < |s.exercises| ==> s.exercises[j].id != exerciseId
    ensures AddSetToExercise(s, exerciseId, record, now) == s
  {
  }

  /** Exactly twelve hours is not yet expired; thirteen hours is, eleven is not. */
  lemma ExpiryBoundary(s: WorkoutSession, now: Instant)
    ensures s.lastUpdated == now - TwelveHours ==> !IsExpired(s, now)
    ensures s.lastUpdated == now - 13 * 60 * 60 ==> IsExpired(s, now)
    ensures s.lastUpdated == now - 11 * 60 * 60 ==> !IsExpired(s, now)
    ensures s.lastUpdated == now ==> !IsExpired(s, now)
  {
  }

  /** A session that ran 45 minutes reports 45; 89 seconds count as one minute either way round. */
  lemma DurationExamples(s: WorkoutSession)
    requires s.endTime.Some?
    ensures s.endTime.value == s.startTime + 45 * 60 ==> DurationInMinutes(s) == Some(45)
    ensures s.endTime.value == s.startTime - 89 ==> DurationInMinutes(s) == Some(-1)
  {
  }
}

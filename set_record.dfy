/** One performed set (Domain/Model/SetRecord.swift). */
module SetRecords {
  import opened Wrappers
  import opened Identifiers
  import opened Equipment

  /**
   * The record itself. Building it with this constructor is the source's non-validating
   * initialiser: it accepts any weight and repetition count and stores them unchanged.
   * `weightKg` is a Swift `Double?`; only `> 0` is ever asked of it, so a real suffices.
   */
  datatype SetRecord = SetRecord(
    id: Uuid,
    weightKg: Option<real>,
    reps: int,
    isWarmUp: bool,
    isFailure: bool,
    restSecondsBeforeNext: Option<int>,
    timestamp: Instant)

  datatype SetRecordError = InvalidWeight | InvalidReps

  /** The weight is present and greater than zero. */
  predicate PositiveWeight(weightKg: Option<real>) {
    weightKg.Some? && weightKg.value > 0.0
  }

  /**
   * The validating (throwing) initialiser: the weight rule of the equipment is checked
   * first, then the repetition count; on success every field is the argument given.
   */
  function NewSetRecord(id: Uuid, weightKg: Option<real>, reps: int, isWarmUp: bool, isFailure: bool,
                        restSecondsBeforeNext: Option<int>, timestamp: Instant,
                        equipment: EquipmentType): (r: Result<SetRecord, SetRecordError>)
    ensures r == Failure(InvalidWeight) <==> RequiresPositiveWeight(equipment) && !PositiveWeight(weightKg)
    ensures r == Failure(InvalidReps) <==> (!RequiresPositiveWeight(equipment) || PositiveWeight(weightKg)) && reps <= 0
    ensures r.Success? <==> (!RequiresPositiveWeight(equipment) || PositiveWeight(weightKg)) && reps > 0
    ensures r.Success? ==> r.value.id == id && r.value.weightKg == weightKg && r.value.reps == reps
                           && r.value.isWarmUp == isWarmUp && r.value.isFailure == isFailure
                           && r.value.restSecondsBeforeNext == restSecondsBeforeNext
                           && r.value.timestamp == timestamp
  {
    if RequiresPositiveWeight(equipment) && !PositiveWeight(weightKg) then Failure(InvalidWeight)
    else if reps <= 0 then Failure(InvalidReps)
    else Success(SetRecord(id, weightKg, reps, isWarmUp, isFailure, restSecondsBeforeNext, timestamp))
  }

  /**
   * The initialiser called with its defaults (no warm-up, no failure, no rest): a bodyweight set
   * without a weight is accepted, and a weighted set with both a bad weight and bad reps
   * reports the weight.
   */
  lemma DefaultsAndPrecedence(id: Uuid, reps: int, t: Instant, equipment: EquipmentType)
    requires reps > 0
    ensures var r := NewSetRecord(id, None, reps, false, false, None, t, Bodyweight);
            r.Success? && r.value.weightKg == None && !r.value.isWarmUp && !r.value.isFailure
            && r.value.restSecondsBeforeNext == None
    ensures equipment != Bodyweight ==>
              NewSetRecord(id, Some(0.0), 1 - reps, false, false, None, t, equipment) == Failure(InvalidWeight)
  {
  }
}

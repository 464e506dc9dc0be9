/** One exercise within a session (Domain/Model/ExerciseEntry.swift). */
module ExerciseEntries {
  import opened Wrappers
  import opened Identifiers
  import opened Equipment
  import opened SetRecords

  datatype ExerciseEntry = ExerciseEntry(
    id: Uuid,
    bodyPart: BodyPart,
    equipment: EquipmentType,
    name: string,
    sets: seq<SetRecord>,
    supersetGroupId: Option<Uuid>,
    order: int)

  /** The number of sets at which an exercise counts as done. */
  const ReadySetCount: nat := 4

  /** The initialiser with its defaults: no sets yet, not in a superset, order 0. */
  function NewExercise(id: Uuid, bodyPart: BodyPart, equipment: EquipmentType, name: string): (e: ExerciseEntry)
    ensures e.id == id && e.bodyPart == bodyPart && e.equipment == equipment && e.name == name
    ensures e.sets == [] && e.supersetGroupId == None && e.order == 0
    ensures !IsReady(e) && !IsPartOfSuperset(e) && TotalSets(e) == 0
  {
    ExerciseEntry(id, bodyPart, equipment, name, [], None, 0)
  }

  /** `mutating addSet`: the entry with `s` appended to its sets and nothing else changed. */
  function AddSet(e: ExerciseEntry, s: SetRecord): (e': ExerciseEntry)
    ensures e'.sets == e.sets + [s]
    ensures e' == e.(sets := e'.sets)
    ensures TotalSets(e') == TotalSets(e) + 1
  {
    e.(sets := e.sets + [s])
  }

  function TotalSets(e: ExerciseEntry): nat {
    |e.sets|
  }

  predicate IsReady(e: ExerciseEntry) {
    |e.sets| >= ReadySetCount
  }

  predicate IsPartOfSuperset(e: ExerciseEntry) {
    e.supersetGroupId.Some?
  }

  /** Appending a set makes an entry ready exactly when it already had three or more sets. */
  lemma AddSetReadiness(e: ExerciseEntry, s: SetRecord)
    ensures IsReady(AddSet(e, s)) <==> TotalSets(e) >= 3
    ensures IsReady(e) ==> IsReady(AddSet(e, s))
  {
  }

  /** A fresh entry is not ready after three sets and is ready after the fourth. */
  lemma ReadyAtFourthSet(e0: ExerciseEntry, s1: SetRecord, s2: SetRecord, s3: SetRecord, s4: SetRecord)
    requires e0.sets == []
    ensures var e3 := AddSet(AddSet(AddSet(e0, s1), s2), s3);
            !IsReady(e3) && TotalSets(e3) == 3 && IsReady(AddSet(e3, s4)) && TotalSets(AddSet(e3, s4)) == 4
  {
  }
}

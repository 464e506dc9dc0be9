/** Two exercises performed alternately (Domain/Model/SupersetGroup.swift). */
module SupersetGroups {
  import opened Identifiers
  import opened ExerciseEntries

  datatype SupersetFields = SupersetFields(id: Uuid, exerciseIds: seq<Uuid>, order: int, isCompleted: bool)

  /**
   * A superset group. The initialiser's `precondition(exerciseIds.count == 2)` holds of every
   * group, so it is the constraint of the type; the two ids are not required to differ.
   */
  type SupersetGroup = g: SupersetFields | |g.exerciseIds| == 2
    witness SupersetFields(Uuid(0), [Uuid(0), Uuid(0)], 0, false)

  /** The initialiser with its defaults (order 0, not completed); callers must pass two ids. */
  function NewSupersetGroup(id: Uuid, exerciseIds: seq<Uuid>): (g: SupersetGroup)
    requires |exerciseIds| == 2
    ensures g.id == id && g.exerciseIds == exerciseIds && g.order == 0 && !g.isCompleted
  {
    SupersetFields(id, exerciseIds, 0, false)
  }

  function FirstExerciseId(g: SupersetGroup): Uuid {
    g.exerciseIds[0]
  }

  function SecondExerciseId(g: SupersetGroup): Uuid {
    g.exerciseIds[1]
  }

  /** `exercises.filter { ids.contains($0.id) }`, keeping order and repetitions. */
  function Members(ids: seq<Uuid>, exercises: seq<ExerciseEntry>): (r: seq<ExerciseEntry>)
    ensures |r| <= |exercises|
    ensures forall e :: e in r <==> e in exercises && e.id in ids
  {
    if exercises == [] then []
    else
      var rest := Members(ids, exercises[1..]);
      assert forall e :: e in exercises <==> e == exercises[0] || e in exercises[1..];
      if exercises[0].id in ids then [exercises[0]] + rest else rest
  }

  /** Exactly two entries of `exercises` belong to the group and both have four or more sets. */
  predicate IsReady(g: SupersetGroup, exercises: seq<ExerciseEntry>) {
    var members := Members(g.exerciseIds, exercises);
    |members| == 2 && forall e :: e in members ==> |e.sets| >= ReadySetCount
  }

  /** Readiness spelled out on the two matching entries. */
  lemma IsReadyIff(g: SupersetGroup, exercises: seq<ExerciseEntry>)
    ensures IsReady(g, exercises) <==>
              |Members(g.exerciseIds, exercises)| == 2
              && ExerciseEntries.IsReady(Members(g.exerciseIds, exercises)[0])
              && ExerciseEntries.IsReady(Members(g.exerciseIds, exercises)[1])
  {
    var m := Members(g.exerciseIds, exercises);
    if |m| == 2 {
      assert forall e :: e in m <==> e == m[0] || e == m[1];
    }
  }

  /**
   * Two distinct exercises, as in the source's test: the group is not ready while one of
   * them has fewer than four sets, and is ready once both have four.
   */
  lemma ReadyNeedsBoth(g: SupersetGroup, a: ExerciseEntry, b: ExerciseEntry)
    requires a.id != b.id && g.exerciseIds == [a.id, b.id]
    ensures IsReady(g, [a, b]) <==> |a.sets| >= 4 && |b.sets| >= 4
  {
    assert Members(g.exerciseIds, [b]) == [b] by {
      assert [b][1..] == [];
    }
    assert [a, b][1..] == [b];
    assert Members(g.exerciseIds, [a, b]) == [a, b];
  }
}

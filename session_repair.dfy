/**
 * What `validateAndRepairCurrentSession` (Presentation/Manager/SessionManager.swift) does to a
 * session that has not expired, as a function of the session: orphaned back-references are
 * cleared, supersets naming a missing exercise are dropped, and every exercise's sets are put
 * in timestamp order. The manager's method is proved to compute exactly this.
 */
module SessionRepair {
  import opened Wrappers
  import opened Identifiers
  import opened Sorting
  import opened SetRecords
  import opened ExerciseEntries
  import opened SupersetGroups
  import opened WorkoutSessions

  function SupersetIds(gs: seq<SupersetGroup>): set<Uuid> {
    set g | g in gs :: g.id
  }

  function ExerciseIds(xs: seq<ExerciseEntry>): set<Uuid> {
    set e | e in xs :: e.id
  }

  /** Step 2 on one entry: a back-reference to a group that does not exist is cleared. */
  function ClearOrphan(e: ExerciseEntry, groupIds: set<Uuid>): (e': ExerciseEntry)
    ensures e' == e.(supersetGroupId := e'.supersetGroupId)
    ensures e' == e <==> e.supersetGroupId.None? || e.supersetGroupId.value in groupIds
    ensures e'.supersetGroupId.Some? ==> e'.supersetGroupId.value in groupIds
  {
    if e.supersetGroupId.Some? && e.supersetGroupId.value !in groupIds then e.(supersetGroupId := None) else e
  }

  function ClearOrphans(xs: seq<ExerciseEntry>, groupIds: set<Uuid>): (r: seq<ExerciseEntry>)
    ensures |r| == |xs|
    ensures forall i :: 0 <= i < |xs| ==> r[i] == ClearOrphan(xs[i], groupIds)
  {
    seq(|xs|, i requires 0 <= i < |xs| => ClearOrphan(xs[i], groupIds))
  }

  /** Every member id of the group names an exercise. */
  predicate Whole(g: SupersetGroup, ids: set<Uuid>) {
    forall x :: x in g.exerciseIds ==> x in ids
  }

  /** Step 3: the groups that are whole, in their order. */
  function KeepWhole(gs: seq<SupersetGroup>, ids: set<Uuid>): (r: seq<SupersetGroup>)
    ensures |r| <= |gs|
    ensures forall g :: g in r <==> g in gs && Whole(g, ids)
    ensures |r| == |gs| <==> r == gs
    ensures r == gs <==> forall g :: g in gs ==> Whole(g, ids)
  {
    if gs == [] then []
    else
      var rest := KeepWhole(gs[1..], ids);
      assert forall g :: g in gs <==> g == gs[0] || g in gs[1..];
      if Whole(gs[0], ids) then
        assert gs == [gs[0]] + gs[1..];
        [gs[0]] + rest
      else rest
  }

  function SetTimestamp(r: SetRecord): int {
    r.timestamp
  }

  /** Step 4 on one entry: its sets in timestamp order. */
  function WithSortedSets(e: ExerciseEntry): (e': ExerciseEntry)
    ensures e' == e.(sets := e'.sets)
  {
    e.(sets := SortBy(e.sets, SetTimestamp))
  }

  function SortAllSets(xs: seq<ExerciseEntry>): (r: seq<ExerciseEntry>)
    ensures |r| == |xs|
    ensures forall i :: 0 <= i < |xs| ==> r[i] == WithSortedSets(xs[i])
  {
    seq(|xs|, i requires 0 <= i < |xs| => WithSortedSets(xs[i]))
  }

  /**
   * The three repair steps in the source's order. Step 3 looks at the exercises step 2 left,
   * and step 2 at the groups before step 3 dropped any; `lastUpdated` is not refreshed.
   */
  function Repair(s: WorkoutSession): (r: WorkoutSession)
    ensures r.id == s.id && r.startTime == s.startTime && r.endTime == s.endTime
    ensures r.status == s.status && r.lastUpdated == s.lastUpdated
    ensures |r.exercises| == |s.exercises|
  {
    var cleaned := ClearOrphans(s.exercises, SupersetIds(s.supersets));
    s.(exercises := SortAllSets(cleaned), supersets := KeepWhole(s.supersets, ExerciseIds(cleaned)))
  }

  /** The steps touch only back-references and set order, so the ids stay the same. */
  lemma RepairKeepsIds(xs: seq<ExerciseEntry>, groupIds: set<Uuid>)
    ensures ExerciseIds(ClearOrphans(xs, groupIds)) == ExerciseIds(xs)
    ensures ExerciseIds(SortAllSets(xs)) == ExerciseIds(xs)
  {
    var c := ClearOrphans(xs, groupIds);
    var t := SortAllSets(xs);
    forall x | x in ExerciseIds(xs) ensures x in ExerciseIds(c) && x in ExerciseIds(t) {
      var e :| e in xs && e.id == x;
      var k :| 0 <= k < |xs| && xs[k] == e;
      assert c[k] in c && t[k] in t;
    }
    forall x | x in ExerciseIds(c) ensures x in ExerciseIds(xs) {
      var e :| e in c && e.id == x;
      var k :| 0 <= k < |c| && c[k] == e;
      assert xs[k] in xs;
    }
    forall x | x in ExerciseIds(t) ensures x in ExerciseIds(xs) {
      var e :| e in t && e.id == x;
      var k :| 0 <= k < |t| && t[k] == e;
      assert xs[k] in xs;
    }
  }

  /**
   * After a repair every superset names only exercises of the session, and a group of the
   * original session survives exactly when every one of its ids names an exercise.
   */
  lemma RepairKeepsWholeGroups(s: WorkoutSession)
    ensures forall g :: g in Repair(s).supersets ==> Whole(g, ExerciseIds(Repair(s).exercises))
    ensures forall g :: g in s.supersets ==> (g in Repair(s).supersets <==> Whole(g, ExerciseIds(s.exercises)))
    ensures forall g :: g in Repair(s).supersets ==> g in s.supersets
  {
    var cleaned := ClearOrphans(s.exercises, SupersetIds(s.supersets));
    RepairKeepsIds(s.exercises, SupersetIds(s.supersets));
    RepairKeepsIds(cleaned, SupersetIds(s.supersets));
  }

  /**
   * Entry by entry, a repair keeps everything but the back-reference and the order of the
   * sets: the reference is cleared exactly when it names no group, and the sets are a
   * timestamp-ordered rearrangement of the original ones.
   */
  lemma RepairEntries(s: WorkoutSession, i: nat)
    requires i < |s.exercises|
    ensures var e, e' := s.exercises[i], Repair(s).exercises[i];
            && e' == e.(supersetGroupId := e'.supersetGroupId, sets := e'.sets)
            && (e'.supersetGroupId == if e.supersetGroupId.Some? && e.supersetGroupId.value !in SupersetIds(s.supersets)
                                     then None else e.supersetGroupId)
            && SortedBy(e'.sets, SetTimestamp)
            && multiset(e'.sets) == multiset(e.sets)
  {
    SortByOrders(s.exercises[i].sets, SetTimestamp);
    SortByPermutes(s.exercises[i].sets, SetTimestamp);
  }

  /** A repair never loses or adds a set. */
  lemma RepairKeepsSetCount(s: WorkoutSession)
    ensures WorkoutSessions.TotalSets(Repair(s)) == WorkoutSessions.TotalSets(s)
  {
    SameSetCounts(Repair(s).exercises, s.exercises);
  }

  lemma {:induction false} SameSetCounts(xs: seq<ExerciseEntry>, ys: seq<ExerciseEntry>)
    requires |xs| == |ys|
    requires forall i :: 0 <= i < |xs| ==> |xs[i].sets| == |ys[i].sets|
    ensures SumSets(xs) == SumSets(ys)
  {
    if xs != [] {
      SameSetCounts(xs[..|xs| - 1], ys[..|ys| - 1]);
    }
  }

  /**
   * A repair changes the session exactly when one of its steps finds something to do: an
   * orphaned back-reference, a group naming a missing exercise, or sets out of order. This is
   * the source's `wasModified`.
   */
  lemma RepairChanges(s: WorkoutSession)
    ensures var cleaned := ClearOrphans(s.exercises, SupersetIds(s.supersets));
            Repair(s) != s <==>
              || cleaned != s.exercises
              || KeepWhole(s.supersets, ExerciseIds(cleaned)) != s.supersets
              || exists k :: 0 <= k < |s.exercises| && SortBy(s.exercises[k].sets, SetTimestamp) != s.exercises[k].sets
  {
    var cleaned := ClearOrphans(s.exercises, SupersetIds(s.supersets));
    var r := Repair(s);
    if cleaned != s.exercises {
      var k :| 0 <= k < |s.exercises| && cleaned[k] != s.exercises[k];
      assert r.exercises[k].supersetGroupId != s.exercises[k].supersetGroupId;
    }
    if exists k :: 0 <= k < |s.exercises| && SortBy(s.exercises[k].sets, SetTimestamp) != s.exercises[k].sets {
      var k :| 0 <= k < |s.exercises| && SortBy(s.exercises[k].sets, SetTimestamp) != s.exercises[k].sets;
      assert r.exercises[k].sets != s.exercises[k].sets;
    }
    if && cleaned == s.exercises
       && KeepWhole(s.supersets, ExerciseIds(cleaned)) == s.supersets
       && forall k :: 0 <= k < |s.exercises| ==> SortBy(s.exercises[k].sets, SetTimestamp) == s.exercises[k].sets
    {
      assert r.exercises == s.exercises;
    }
  }

  /** A session with no orphan, no broken group and ordered sets is left as it is. */
  lemma RepairLeavesHealthySession(s: WorkoutSession)
    requires forall e :: e in s.exercises && e.supersetGroupId.Some? ==> e.supersetGroupId.value in SupersetIds(s.supersets)
    requires forall g :: g in s.supersets ==> Whole(g, ExerciseIds(s.exercises))
    requires forall e :: e in s.exercises ==> SortedBy(e.sets, SetTimestamp)
    ensures Repair(s) == s
  {
    var cleaned := ClearOrphans(s.exercises, SupersetIds(s.supersets));
    forall k | 0 <= k < |s.exercises|
      ensures cleaned[k] == s.exercises[k]
      ensures SortBy(s.exercises[k].sets, SetTimestamp) == s.exercises[k].sets
    {
      assert s.exercises[k] in s.exercises;
      SortBySorted(s.exercises[k].sets, SetTimestamp);
    }
    assert cleaned == s.exercises;
    RepairChanges(s);
  }

  /**
   * A repair is not idempotent. The exercise refers to a group that exists, so step 2 keeps
   * the reference; the group's partner is missing, so step 3 drops the group; a second
   * repair then finds the reference orphaned and clears it.
   */
  lemma RepairNotIdempotent(s: WorkoutSession, e: ExerciseEntry, g: SupersetGroup, missing: Uuid)
    requires e.sets == [] && e.supersetGroupId == Some(g.id)
    requires g.exerciseIds == [e.id, missing] && missing != e.id
    requires s.exercises == [e] && s.supersets == [g]
    ensures Repair(s).exercises == [e] && Repair(s).supersets == []
    ensures Repair(Repair(s)).exercises == [e.(supersetGroupId := None)]
    ensures Repair(Repair(s)) != Repair(s)
  {
    assert SupersetIds(s.supersets) == {g.id};
    var cleaned := ClearOrphans(s.exercises, SupersetIds(s.supersets));
    assert cleaned == [e];
    assert ExerciseIds(cleaned) == {e.id};
    assert !Whole(g, {e.id}) by {
      assert missing in g.exerciseIds;
    }
    assert KeepWhole(s.supersets, ExerciseIds(cleaned)) == [];
    assert SortBy(e.sets, SetTimestamp) == [];
    assert Repair(s).exercises == [e];
    var r := Repair(s);
    assert SupersetIds(r.supersets) == {};
    var e' := e.(supersetGroupId := None);
    assert ClearOrphans(r.exercises, {}) == [e'];
    assert SortBy(e'.sets, SetTimestamp) == [];
    assert Repair(r).exercises[0] == e';
  }
}

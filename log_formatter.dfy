/** The plain-text workout log (Domain/Formatter/LogFormatter.swift). */
module LogFormatter {
  import opened Wrappers
  import opened Identifiers
  import opened Text
  import opened Sorting
  import opened Equipment
  import opened SetRecords
  import opened ExerciseEntries
  import opened SupersetGroups
  import opened WorkoutSessions

  /**
   * The two renderings the log borrows from Foundation: a `DateFormatter` with the pattern
   * "yyyy-MM-dd HH:mm", and `formatWeight` (a `Double` printed without a fractional part when
   * it is whole). Both are left as parameters.
   */
  datatype Renderers = Renderers(date: Instant -> string, weight: real -> string)

  // ---------------------------------------------------------------- set lines

  /** The weight part of a set line: " <weight>kg", or nothing for a set without a weight. */
  function WeightText(r: SetRecord, rd: Renderers): string {
    if r.weightKg.Some? then " " + (rd.weight(r.weightKg.value) + "kg") else ""
  }

  /** The repetitions part of a set line: " x<reps>". */
  function RepsText(r: SetRecord): string {
    " " + ("x" + IntToString(r.reps))
  }

  /** The flag part of a set line: " (W)", " (F)", " (W,F)", or nothing. */
  function FlagsText(r: SetRecord): string {
    if r.isWarmUp && r.isFailure then " (W,F)"
    else if r.isWarmUp then " (W)"
    else if r.isFailure then " (F)"
    else ""
  }

  /** The rest part of a set line: " (Rest <seconds>s)", or nothing when no rest is recorded. */
  function RestText(r: SetRecord): string {
    if r.restSecondsBeforeNext.Some? then " " + ("(Rest " + IntToString(r.restSecondsBeforeNext.value) + "s)") else ""
  }

  /** A set line: "n:", then the weight, repetitions, flags and rest parts in that order. */
  function SetLine(r: SetRecord, n: int, rd: Renderers): string {
    IntToString(n) + ":" + WeightText(r, rd) + RepsText(r) + FlagsText(r) + RestText(r)
  }

  /** The flags joined with commas and put in parentheses give the flag part of the line. */
  lemma FlagsJoined(r: SetRecord)
    ensures var flags := (if r.isWarmUp then ["W"] else []) + (if r.isFailure then ["F"] else []);
            flags != [] ==> " " + ("(" + Join(flags, ",") + ")") == FlagsText(r)
  {
    if r.isWarmUp && r.isFailure {
      assert ["W", "F"][..1] == ["W"];
      assert Join(["W", "F"], ",") == "W,F";
    } else if r.isWarmUp {
      assert Join(["W"], ",") == "W";
    } else if r.isFailure {
      assert Join(["F"], ",") == "F";
    }
  }

  /** `formatSet`: collects the components one by one and joins them with spaces. */
  method FormatSet(r: SetRecord, setNumber: int, rd: Renderers) returns (line: string)
    ensures line == SetLine(r, setNumber, rd)
  {
    var components: seq<string> := [IntToString(setNumber) + ":"];
    ghost var expected := IntToString(setNumber) + ":";
    if r.weightKg.Some? {
      JoinAppend(components, rd.weight(r.weightKg.value) + "kg", " ");
      components := components + [rd.weight(r.weightKg.value) + "kg"];
    }
    expected := expected + WeightText(r, rd);
    assert Join(components, " ") == expected;

    JoinAppend(components, "x" + IntToString(r.reps), " ");
    components := components + ["x" + IntToString(r.reps)];
    expected := expected + RepsText(r);

    var flags: seq<string> := [];
    if r.isWarmUp {
      flags := flags + ["W"];
    }
    if r.isFailure {
      flags := flags + ["F"];
    }
    assert flags == (if r.isWarmUp then ["W"] else []) + (if r.isFailure then ["F"] else []);
    if flags != [] {
      var flagsComponent := "(" + Join(flags, ",") + ")";
      FlagsJoined(r);
      JoinAppend(components, flagsComponent, " ");
      components := components + [flagsComponent];
    }
    expected := expected + FlagsText(r);
    assert Join(components, " ") == expected;

    if r.restSecondsBeforeNext.Some? {
      JoinAppend(components, "(Rest " + IntToString(r.restSecondsBeforeNext.value) + "s)", " ");
      components := components + ["(Rest " + IntToString(r.restSecondsBeforeNext.value) + "s)"];
    }
    expected := expected + RestText(r);
    line := Join(components, " ");
  }

  /** A warm-up set with a weight: "1: 60kg x10 (W)". */
  lemma WarmUpSetLine(id: Uuid, t: Instant, rd: Renderers)
    requires rd.weight(60.0) == "60"
    ensures SetLine(SetRecord(id, Some(60.0), 10, true, false, None, t), 1, rd) == "1: 60kg x10 (W)"
  {
    var r := SetRecord(id, Some(60.0), 10, true, false, None, t);
    assert IntToString(1) == "1";
    assert IntToString(10) == "10";
    assert WeightText(r, rd) == " 60kg";
    assert RepsText(r) == " x10";
  }

  /** A set with a recorded rest: "4: 70kg x8 (Rest 90s)". */
  lemma RestSetLine(id: Uuid, t: Instant, rd: Renderers)
    requires rd.weight(70.0) == "70"
    ensures SetLine(SetRecord(id, Some(70.0), 8, false, false, Some(90), t), 4, rd) == "4: 70kg x8 (Rest 90s)"
  {
    var r := SetRecord(id, Some(70.0), 8, false, false, Some(90), t);
    assert IntToString(4) == "4";
    assert IntToString(8) == "8";
    assert IntToString(90) == "90";
    assert WeightText(r, rd) == " 70kg";
    assert RepsText(r) == " x8";
    assert RestText(r) == " (Rest 90s)";
  }

  /** A set without a weight that is both warm-up and failure: "5: x12 (W,F)". */
  lemma FlaggedBodyweightSetLine(id: Uuid, t: Instant, rd: Renderers)
    ensures SetLine(SetRecord(id, None, 12, true, true, None, t), 5, rd) == "5: x12 (W,F)"
  {
    var r := SetRecord(id, None, 12, true, true, None, t);
    assert IntToString(5) == "5";
    assert IntToString(12) == "12";
    assert RepsText(r) == " x12";
  }

  // ---------------------------------------------------------------- single exercises

  function ExerciseHeader(e: ExerciseEntry, index: int): string {
    IntToString(index) + ") " + e.name + " (" + DisplayName(e.equipment) + ")\n"
  }

  /** The lines of the first `n` sets of `e`, each indented by two spaces and numbered from 1. */
  function ExerciseLines(e: ExerciseEntry, n: nat, rd: Renderers): string
    requires n <= |e.sets|
  {
    if n == 0 then "" else ExerciseLines(e, n - 1, rd) + ("  " + SetLine(e.sets[n - 1], n, rd) + "\n")
  }

  /** The block of a stand-alone exercise: its numbered title, then its sets numbered from 1. */
  function ExerciseText(e: ExerciseEntry, index: int, rd: Renderers): string {
    ExerciseHeader(e, index) + ExerciseLines(e, |e.sets|, rd)
  }

  /** `formatSingleExercise`: appends one line per set. */
  method FormatSingleExercise(e: ExerciseEntry, index: int, rd: Renderers) returns (text: string)
    ensures text == ExerciseText(e, index, rd)
  {
    text := ExerciseHeader(e, index);
    var setIndex := 0;
    while setIndex < |e.sets|
      invariant 0 <= setIndex <= |e.sets|
      invariant text == ExerciseHeader(e, index) + ExerciseLines(e, setIndex, rd)
    {
      var line := FormatSet(e.sets[setIndex], setIndex + 1, rd);
      AppendAssoc(ExerciseHeader(e, index), ExerciseLines(e, setIndex, rd), "  " + line + "\n");
      text := text + ("  " + line + "\n");
      setIndex := setIndex + 1;
    }
  }

  // ---------------------------------------------------------------- supersets

  /** Which member of the superset a set belongs to, shown as "A" or "B". */
  datatype Side = A | B

  function SideLabel(side: Side): string {
    match side
    case A => "A"
    case B => "B"
  }

  datatype TaggedSet = TaggedSet(side: Side, record: SetRecord)

  function Tagged(sets: seq<SetRecord>, side: Side): (r: seq<TaggedSet>)
    ensures |r| == |sets|
    ensures forall k :: 0 <= k < |r| ==> r[k] == TaggedSet(side, sets[k])
  {
    seq(|sets|, k requires 0 <= k < |sets| => TaggedSet(side, sets[k]))
  }

  function TimestampKey(t: TaggedSet): int {
    t.record.timestamp
  }

  /** Both members' sets, tagged A and B, in timestamp order (A first among equal times). */
  function MergedSets(a: ExerciseEntry, b: ExerciseEntry): seq<TaggedSet> {
    SortBy(Tagged(a.sets, A) + Tagged(b.sets, B), TimestampKey)
  }

  /**
   * The merged list holds every set of both members exactly once, tagged with its member,
   * and is ordered by timestamp.
   */
  lemma MergedSetsContents(a: ExerciseEntry, b: ExerciseEntry)
    ensures multiset(MergedSets(a, b)) == multiset(Tagged(a.sets, A)) + multiset(Tagged(b.sets, B))
    ensures |MergedSets(a, b)| == |a.sets| + |b.sets|
    ensures SortedBy(MergedSets(a, b), TimestampKey)
    ensures forall t :: t in MergedSets(a, b) ==>
              (t.side == A && t.record in a.sets) || (t.side == B && t.record in b.sets)
  {
    var m := MergedSets(a, b);
    var all := Tagged(a.sets, A) + Tagged(b.sets, B);
    SortByPermutes(all, TimestampKey);
    SortByOrders(all, TimestampKey);
    forall t | t in m
      ensures (t.side == A && t.record in a.sets) || (t.side == B && t.record in b.sets)
    {
      SortByMembers(all, TimestampKey, t);
      var k :| 0 <= k < |all| && all[k] == t;
      if k < |a.sets| {
        assert a.sets[k] in a.sets;
      } else {
        assert b.sets[k - |a.sets|] in b.sets;
      }
    }
  }

  /** Sorting by time moves a later set behind an earlier one and keeps the rest in place. */
  lemma MergeTail(x: TaggedSet, y1: TaggedSet, y2: TaggedSet)
    requires TimestampKey(y1) < TimestampKey(x) <= TimestampKey(y2)
    ensures SortBy([x, y1, y2], TimestampKey) == [y1, x, y2]
  {
    assert [x, y1, y2][1..] == [y1, y2];
    SortByCons([x, y1, y2], TimestampKey);
    SortBySorted([y1, y2], TimestampKey);
    InsertBehind(x, [y1, y2], TimestampKey);
    assert [y1, y2][1..] == [y2];
    InsertFront(x, [y2], TimestampKey);
  }

  /** Sets done alternately by two members are listed alternately when sorted by time. */
  lemma AlternatingOrder(x1: TaggedSet, y1: TaggedSet, x2: TaggedSet, y2: TaggedSet)
    requires TimestampKey(x1) < TimestampKey(y1) < TimestampKey(x2) < TimestampKey(y2)
    ensures SortBy([x1, x2, y1, y2], TimestampKey) == [x1, y1, x2, y2]
  {
    var all := [x1, x2, y1, y2];
    assert all[1..] == [x2, y1, y2];
    MergeTail(x2, y1, y2);
    SortByCons(all, TimestampKey);
    InsertFront(x1, [y1, x2, y2], TimestampKey);
  }

  /**
   * Sets done alternately are listed alternately: A's first set, B's first, A's second, B's
   * second, when their times interleave that way.
   */
  lemma AlternatingMerge(a: ExerciseEntry, b: ExerciseEntry, a1: SetRecord, b1: SetRecord, a2: SetRecord, b2: SetRecord)
    requires a.sets == [a1, a2] && b.sets == [b1, b2]
    requires a1.timestamp < b1.timestamp < a2.timestamp < b2.timestamp
    ensures MergedSets(a, b) == [TaggedSet(A, a1), TaggedSet(B, b1), TaggedSet(A, a2), TaggedSet(B, b2)]
  {
    var x1, y1, x2, y2 := TaggedSet(A, a1), TaggedSet(B, b1), TaggedSet(A, a2), TaggedSet(B, b2);
    assert Tagged(a.sets, A) + Tagged(b.sets, B) == [x1, x2, y1, y2];
    AlternatingOrder(x1, y1, x2, y2);
  }

  /** `exercises.first(where: { $0.id == id })`. */
  function FindExercise(exercises: seq<ExerciseEntry>, id: Uuid): (r: Option<ExerciseEntry>)
    ensures r.Some? ==> r.value in exercises && r.value.id == id
    ensures r.None? <==> forall e :: e in exercises ==> e.id != id
    ensures r.Some? ==> exists i :: 0 <= i < |exercises| && exercises[i] == r.value
                                    && forall j :: 0 <= j < i ==> exercises[j].id != id
  {
    if exercises == [] then None
    else if exercises[0].id == id then Some(exercises[0])
    else FindExercise(exercises[1..], id)
  }

  /**
   * The lookup picks the entry at the index `AddSetToExercise` writes to, so among entries
   * sharing an id a new set is seen by the one the lookup answers.
   */
  lemma FindExerciseAtFirstIndex(exercises: seq<ExerciseEntry>, id: Uuid)
    ensures FindExercise(exercises, id).Some? <==> FirstIndexOf(exercises, id).Some?
    ensures FirstIndexOf(exercises, id).Some? ==>
              FindExercise(exercises, id).value == exercises[FirstIndexOf(exercises, id).value]
  {
  }

  /** The line shown for a superset whose exercises cannot be found. */
  function MissingSupersetLine(index: int): string {
    "[S" + IntToString(index) + "] 슈퍼세트 (운동 정보 없음)\n"
  }

  function SupersetHeader(a: ExerciseEntry, b: ExerciseEntry, index: int): string {
    "[S" + IntToString(index) + "] " + a.name + "(" + DisplayName(a.equipment) + ") ^ "
    + b.name + "(" + DisplayName(b.equipment) + ")\n"
  }

  /** One merged set: the member's letter and the set numbered across both members. */
  function SupersetItemLine(item: TaggedSet, number: int, rd: Renderers): string {
    "  " + SideLabel(item.side) + " " + SetLine(item.record, number, rd) + "\n"
  }

  /** The lines of the first `n` merged sets. */
  function SupersetLines(items: seq<TaggedSet>, n: nat, rd: Renderers): string
    requires n <= |items|
  {
    if n == 0 then "" else SupersetLines(items, n - 1, rd) + SupersetItemLine(items[n - 1], n, rd)
  }

  /**
   * A superset block: the fallback line when either member is missing, otherwise the title
   * naming both members and the merged sets numbered across both.
   */
  function SupersetText(g: SupersetGroup, exercises: seq<ExerciseEntry>, index: int, rd: Renderers): string {
    var a := FindExercise(exercises, FirstExerciseId(g));
    var b := FindExercise(exercises, SecondExerciseId(g));
    if a.None? || b.None? then MissingSupersetLine(index)
    else
      var items := MergedSets(a.value, b.value);
      SupersetHeader(a.value, b.value, index) + SupersetLines(items, |items|, rd)
  }

  /** `formatSuperset`: the fallback line, or the title and one line per merged set. */
  method FormatSuperset(g: SupersetGroup, exercises: seq<ExerciseEntry>, index: int, rd: Renderers)
    returns (text: string)
    ensures text == SupersetText(g, exercises, index, rd)
    ensures FindExercise(exercises, FirstExerciseId(g)).None? || FindExercise(exercises, SecondExerciseId(g)).None?
            ==> text == MissingSupersetLine(index)
  {
    var a := FindExercise(exercises, FirstExerciseId(g));
    var b := FindExercise(exercises, SecondExerciseId(g));
    if a.None? || b.None? {
      return MissingSupersetLine(index);
    }
    var allSets := MergedSets(a.value, b.value);
    var lines := FormatMergedSets(allSets, rd);
    text := SupersetHeader(a.value, b.value, index) + lines;
  }

  /** The loop of `formatSuperset`: one line per merged set, numbered from one. */
  method FormatMergedSets(items: seq<TaggedSet>, rd: Renderers) returns (text: string)
    ensures text == SupersetLines(items, |items|, rd)
  {
    text := "";
    var setIndex := 0;
    while setIndex < |items|
      invariant 0 <= setIndex <= |items|
      invariant text == SupersetLines(items, setIndex, rd)
    {
      var item := items[setIndex];
      var line := FormatSet(item.record, setIndex + 1, rd);
      var itemLine := "  " + SideLabel(item.side) + " " + line + "\n";
      assert itemLine == SupersetItemLine(item, setIndex + 1, rd);
      text := text + itemLine;
      setIndex := setIndex + 1;
    }
  }

  // ---------------------------------------------------------------- sessions

  /** What one numbered block of the log shows; a superset block remembers the exercise that opened it. */
  datatype Block = SingleBlock(exercise: ExerciseEntry) | SupersetBlock(group: SupersetGroup, via: Uuid)

  /** The exercise whose turn opened the block. */
  function Trigger(b: Block): Uuid {
    match b
    case SingleBlock(e) => e.id
    case SupersetBlock(_, via) => via
  }

  /** The ids of a superset's two exercises, as a set. */
  function MemberIds(g: SupersetGroup): set<Uuid> {
    set x | x in g.exerciseIds
  }

  /** The exercise ids a block marks as done. */
  function Covers(b: Block): set<Uuid> {
    match b
    case SingleBlock(e) => {e.id}
    case SupersetBlock(g, _) => MemberIds(g)
  }

  function CoveredBy(blocks: seq<Block>): set<Uuid> {
    if blocks == [] then {} else Covers(blocks[0]) + CoveredBy(blocks[1..])
  }

  /** `supersets.first(where: { $0.exerciseIds.contains(id) })`. */
  function GroupContaining(supersets: seq<SupersetGroup>, id: Uuid): (r: Option<SupersetGroup>)
    ensures r.Some? ==> r.value in supersets && id in r.value.exerciseIds
    ensures r.None? <==> forall g :: g in supersets ==> id !in g.exerciseIds
    ensures r.Some? ==> exists i :: 0 <= i < |supersets| && supersets[i] == r.value
                                    && forall j :: 0 <= j < i ==> id !in supersets[j].exerciseIds
  {
    if supersets == [] then None
    else if id in supersets[0].exerciseIds then Some(supersets[0])
    else GroupContaining(supersets[1..], id)
  }

  function OrderKey(e: ExerciseEntry): int {
    e.order
  }

  /**
   * The blocks `formatSession` emits for the exercises `sorted`, given the ids already
   * `processed`: a processed exercise is skipped; one in a superset opens that superset's block
   * and marks all of its ids; any other gets a block of its own.
   */
  function Plan(sorted: seq<ExerciseEntry>, supersets: seq<SupersetGroup>, processed: set<Uuid>): (blocks: seq<Block>)
    ensures |blocks| <= |sorted|
    decreases |sorted|
  {
    if sorted == [] then []
    else
      var e := sorted[0];
      if e.id in processed then Plan(sorted[1..], supersets, processed)
      else match GroupContaining(supersets, e.id)
        case Some(g) =>
          [SupersetBlock(g, e.id)] + Plan(sorted[1..], supersets, processed + MemberIds(g))
        case None =>
          [SingleBlock(e)] + Plan(sorted[1..], supersets, processed + {e.id})
  }

  /** Unfolds `CoveredBy` over a block put in front. */
  lemma CoveredByCons(b: Block, rest: seq<Block>)
    ensures CoveredBy([b] + rest) == Covers(b) + CoveredBy(rest)
  {
    assert ([b] + rest)[1..] == rest;
  }

  /** Every exercise of the session is shown: it was processed before, or some block covers it. */
  lemma {:induction false} PlanCoversAll(xs: seq<ExerciseEntry>, supersets: seq<SupersetGroup>, processed: set<Uuid>)
    ensures forall e :: e in xs ==> e.id in processed + CoveredBy(Plan(xs, supersets, processed))
  {
    if xs != [] {
      var e := xs[0];
      assert forall x :: x in xs ==> x == e || x in xs[1..];
      if e.id in processed {
        PlanCoversAll(xs[1..], supersets, processed);
      } else {
        match GroupContaining(supersets, e.id)
        case Some(g) =>
          PlanCoversAll(xs[1..], supersets, processed + MemberIds(g));
          CoveredByCons(SupersetBlock(g, e.id), Plan(xs[1..], supersets, processed + MemberIds(g)));
        case None =>
          PlanCoversAll(xs[1..], supersets, processed + {e.id});
          CoveredByCons(SingleBlock(e), Plan(xs[1..], supersets, processed + {e.id}));
      }
    }
  }

  /**
   * Nothing is shown twice: every block is opened by an exercise that was neither processed
   * before nor covered by an earlier block (so a superset's partner never opens a block of its
   * own), and the opening exercise belongs to its block.
   */
  ghost predicate OpensFresh(blocks: seq<Block>, processed: set<Uuid>) {
    forall k :: 0 <= k < |blocks| ==>
      Trigger(blocks[k]) !in processed && Trigger(blocks[k]) in Covers(blocks[k]) &&
      forall j :: 0 <= j < k ==> Trigger(blocks[k]) !in Covers(blocks[j])
  }

  lemma {:induction false} PlanShowsOnce(xs: seq<ExerciseEntry>, supersets: seq<SupersetGroup>, processed: set<Uuid>)
    ensures OpensFresh(Plan(xs, supersets, processed), processed)
  {
    if xs != [] {
      var e := xs[0];
      if e.id in processed {
        assert Plan(xs, supersets, processed) == Plan(xs[1..], supersets, processed);
        PlanShowsOnce(xs[1..], supersets, processed);
      } else {
        var b: Block;
        var next: set<Uuid>;
        match GroupContaining(supersets, e.id) {
          case Some(g) =>
            b := SupersetBlock(g, e.id);
            next := processed + MemberIds(g);
          case None =>
            b := SingleBlock(e);
            next := processed + {e.id};
        }
        assert next == processed + Covers(b);
        assert Trigger(b) == e.id && e.id in Covers(b);
        var rest := Plan(xs[1..], supersets, next);
        assert Plan(xs, supersets, processed) == [b] + rest;
        PlanShowsOnce(xs[1..], supersets, next);
        var blocks := [b] + rest;
        forall k | 0 <= k < |blocks|
          ensures Trigger(blocks[k]) !in processed && Trigger(blocks[k]) in Covers(blocks[k])
          ensures forall j :: 0 <= j < k ==> Trigger(blocks[k]) !in Covers(blocks[j])
        {
          if k > 0 {
            assert blocks[k] == rest[k - 1];
            forall j | 0 <= j < k
              ensures Trigger(blocks[k]) !in Covers(blocks[j])
            {
              if j > 0 {
                assert blocks[j] == rest[j - 1];
              }
            }
          }
        }
      }
    }
  }

  /**
   * A block is a superset block exactly when its opening exercise belongs to a superset, and
   * then it shows the first superset of the session that holds that exercise; a single block
   * shows an exercise of the session.
   */
  ghost predicate KindsAgree(blocks: seq<Block>, xs: seq<ExerciseEntry>, supersets: seq<SupersetGroup>) {
    forall k :: 0 <= k < |blocks| ==>
      (blocks[k].SingleBlock? ==> blocks[k].exercise in xs && GroupContaining(supersets, Trigger(blocks[k])).None?) &&
      (blocks[k].SupersetBlock? ==> GroupContaining(supersets, Trigger(blocks[k])) == Some(blocks[k].group))
  }

  lemma {:induction false} PlanBlockKinds(xs: seq<ExerciseEntry>, supersets: seq<SupersetGroup>, processed: set<Uuid>)
    ensures KindsAgree(Plan(xs, supersets, processed), xs, supersets)
  {
    if xs != [] {
      var e := xs[0];
      assert forall x :: x in xs[1..] ==> x in xs;
      if e.id in processed {
        assert Plan(xs, supersets, processed) == Plan(xs[1..], supersets, processed);
        PlanBlockKinds(xs[1..], supersets, processed);
      } else {
        var b: Block;
        var next: set<Uuid>;
        match GroupContaining(supersets, e.id) {
          case Some(g) =>
            b := SupersetBlock(g, e.id);
            next := processed + MemberIds(g);
          case None =>
            b := SingleBlock(e);
            next := processed + {e.id};
        }
        var rest := Plan(xs[1..], supersets, next);
        assert Plan(xs, supersets, processed) == [b] + rest;
        PlanBlockKinds(xs[1..], supersets, next);
        assert forall k :: 0 < k <= |rest| ==> ([b] + rest)[k] == rest[k - 1];
      }
    }
  }

  function BlockText(b: Block, exercises: seq<ExerciseEntry>, index: int, rd: Renderers): string {
    match b
    case SingleBlock(e) => ExerciseText(e, index, rd)
    case SupersetBlock(g, _) => SupersetText(g, exercises, index, rd)
  }

  /** The text of the first `n` blocks, numbered from 1. */
  function BlocksText(blocks: seq<Block>, n: nat, exercises: seq<ExerciseEntry>, rd: Renderers): string
    requires n <= |blocks|
  {
    if n == 0 then "" else BlocksText(blocks, n - 1, exercises, rd) + BlockText(blocks[n - 1], exercises, n, rd)
  }

  /** Numbering does not depend on what comes after: a longer plan extends the text of a shorter one. */
  lemma {:induction false} BlocksTextPrefix(blocks: seq<Block>, more: seq<Block>, n: nat, exercises: seq<ExerciseEntry>, rd: Renderers)
    requires n <= |blocks|
    ensures BlocksText(blocks + more, n, exercises, rd) == BlocksText(blocks, n, exercises, rd)
  {
    if n > 0 {
      BlocksTextPrefix(blocks, more, n - 1, exercises, rd);
      assert (blocks + more)[n - 1] == blocks[n - 1];
    }
  }

  /** "start~end-time" for a finished session, "start~진행중" for one in progress. */
  function Header(s: WorkoutSession, rd: Renderers): string {
    match s.endTime
    case Some(end) => rd.date(s.startTime) + "~" + Suffix(rd.date(end), 5) + "\n"
    case None => rd.date(s.startTime) + "~진행중\n"
  }

  /** The whole log: the header, then the blocks of the exercises taken in `order`. */
  function LogText(s: WorkoutSession, rd: Renderers): string {
    var blocks := Plan(SortBy(s.exercises, OrderKey), s.supersets, {});
    Header(s, rd) + BlocksText(blocks, |blocks|, s.exercises, rd)
  }

  /** One step of the plan: an exercise already processed adds no block. */
  lemma PlanSkip(xs: seq<ExerciseEntry>, supersets: seq<SupersetGroup>, processed: set<Uuid>)
    requires xs != [] && xs[0].id in processed
    ensures Plan(xs, supersets, processed) == Plan(xs[1..], supersets, processed)
  {
  }

  /** One step of the plan: a new exercise opens the block the loop body formats for it. */
  lemma PlanOpen(xs: seq<ExerciseEntry>, supersets: seq<SupersetGroup>, processed: set<Uuid>,
                 block: Block, next: set<Uuid>)
    requires xs != [] && xs[0].id !in processed
    requires match GroupContaining(supersets, xs[0].id)
             case Some(g) => block == SupersetBlock(g, xs[0].id) && next == processed + MemberIds(g)
             case None => block == SingleBlock(xs[0]) && next == processed + {xs[0].id}
    ensures Plan(xs, supersets, processed) == [block] + Plan(xs[1..], supersets, next)
  {
  }

  /** The loop's plan invariant survives an exercise that opens a block. */
  lemma PlanStepOpen(sorted: seq<ExerciseEntry>, i: nat, supersets: seq<SupersetGroup>, before: set<Uuid>,
                     shown: set<Uuid>, blocks: seq<Block>, block: Block, plan: seq<Block>)
    requires i < |sorted| && sorted[i].id !in before
    requires match GroupContaining(supersets, sorted[i].id)
             case Some(g) => block == SupersetBlock(g, sorted[i].id) && shown == MemberIds(g)
             case None => block == SingleBlock(sorted[i]) && shown == {sorted[i].id}
    requires blocks + Plan(sorted[i..], supersets, before) == plan
    ensures (blocks + [block]) + Plan(sorted[i + 1..], supersets, before + shown) == plan
  {
    assert sorted[i..][1..] == sorted[i + 1..];
    PlanOpen(sorted[i..], supersets, before, block, before + shown);
    AppendAssoc(blocks, [block], Plan(sorted[i + 1..], supersets, before + shown));
  }

  /** The loop's plan invariant survives an exercise that was already shown. */
  lemma PlanStepSkip(sorted: seq<ExerciseEntry>, i: nat, supersets: seq<SupersetGroup>, processed: set<Uuid>,
                     blocks: seq<Block>, plan: seq<Block>)
    requires i < |sorted| && sorted[i].id in processed
    requires blocks + Plan(sorted[i..], supersets, processed) == plan
    ensures blocks + Plan(sorted[i + 1..], supersets, processed) == plan
  {
    assert sorted[i..][1..] == sorted[i + 1..];
    PlanSkip(sorted[i..], supersets, processed);
  }

  /** Appending the text of the next block extends the text of the blocks by that block. */
  lemma BlocksTextStep(blocks: seq<Block>, block: Block, text: string, exercises: seq<ExerciseEntry>, rd: Renderers)
    requires text == BlockText(block, exercises, |blocks| + 1, rd)
    ensures BlocksText(blocks + [block], |blocks| + 1, exercises, rd) == BlocksText(blocks, |blocks|, exercises, rd) + text
  {
    BlocksTextPrefix(blocks, [block], |blocks|, exercises, rd);
  }

  /** `formatSession`: visits the sorted exercises once, appending a numbered block for each new one. */
  method FormatSession(s: WorkoutSession, rd: Renderers) returns (log: string)
    ensures log == LogText(s, rd)
  {
    log := Header(s, rd);
    var sorted := SortBy(s.exercises, OrderKey);
    var blocksText := FormatBlocks(sorted, s.supersets, s.exercises, rd);
    log := log + blocksText;
  }

  /** The loop of `formatSession`: the numbered blocks of the plan of `sorted`. */
  method FormatBlocks(sorted: seq<ExerciseEntry>, supersets: seq<SupersetGroup>, exercises: seq<ExerciseEntry>,
                      rd: Renderers)
    returns (text: string)
    ensures text == BlocksText(Plan(sorted, supersets, {}), |Plan(sorted, supersets, {})|, exercises, rd)
  {
    text := "";
    var exerciseIndex := 1;
    var processed: set<Uuid> := {};
    ghost var blocks: seq<Block> := [];
    ghost var plan := Plan(sorted, supersets, {});
    assert sorted[0..] == sorted;
    var i := 0;
    while i < |sorted|
      invariant 0 <= i <= |sorted|
      invariant blocks + Plan(sorted[i..], supersets, processed) == plan
      invariant text == BlocksText(blocks, |blocks|, exercises, rd)
      invariant exerciseIndex == |blocks| + 1
    {
      var exercise := sorted[i];
      if exercise.id !in processed {
        var block, blockText, shown := FormatBlock(exercise, supersets, exercises, exerciseIndex, rd);
        PlanStepOpen(sorted, i, supersets, processed, shown, blocks, block, plan);
        BlocksTextStep(blocks, block, blockText, exercises, rd);
        processed := processed + shown;
        text := text + blockText;
        blocks := blocks + [block];
        exerciseIndex := exerciseIndex + 1;
      } else {
        PlanStepSkip(sorted, i, supersets, processed, blocks, plan);
      }
      i := i + 1;
    }
    assert sorted[|sorted|..] == [];
    assert blocks == plan;
  }

  /**
   * The body of `formatSession`'s loop for an exercise not shown yet: its superset's block
   * when a group names it, else its own; `shown` is what the block marks as processed.
   */
  method FormatBlock(exercise: ExerciseEntry, supersets: seq<SupersetGroup>, exercises: seq<ExerciseEntry>,
                     index: int, rd: Renderers)
    returns (block: Block, text: string, shown: set<Uuid>)
    ensures match GroupContaining(supersets, exercise.id)
            case Some(g) => block == SupersetBlock(g, exercise.id) && shown == MemberIds(g)
            case None => block == SingleBlock(exercise) && shown == {exercise.id}
    ensures text == BlockText(block, exercises, index, rd)
  {
    match GroupContaining(supersets, exercise.id) {
      case Some(g) =>
        text := FormatSuperset(g, exercises, index, rd);
        shown := MemberIds(g);
        block := SupersetBlock(g, exercise.id);
      case None =>
        text := FormatSingleExercise(exercise, index, rd);
        shown := {exercise.id};
        block := SingleBlock(exercise);
    }
  }
}

/** The "Log Workout" page (src/app/workouts/new/page.tsx): a draft of sets
    built up with the "Add Set" form, pruned with the trash buttons, shown
    grouped by exercise and finally submitted with the notes. */
module WorkoutDraft {
  import opened Wrappers
  import opened Seqs
  import opened Text
  import opened Records
  import opened Grouping

  /** A set of the draft, identified by a random UUID. */
  datatype SetEntry = SetEntry(id: string, exerciseId: string, reps: int, weight: real, rpe: Option<real>)

  /** A set as handed to `createWorkout`: the entry without its id. */
  datatype SetInput = SetInput(exerciseId: string, reps: int, weight: real, rpe: Option<real>)

  /** The argument of `createWorkout`. */
  datatype WorkoutInput = WorkoutInput(notes: Option<string>, sets: seq<SetInput>)

  const MissingFieldsError: string := "Please fill in exercise, reps, and weight"
  const NoSetsError: string := "Add at least one set to your workout"

  /** `parseInt` of a number field's text: the value truncated toward zero. */
  function ParseInt(x: real): (n: int)
    ensures 0.0 <= x ==> n as real <= x < n as real + 1.0
    ensures x < 0.0 ==> n as real - 1.0 < x <= n as real
  {
    if x >= 0.0 then x.Floor else -((-x).Floor)
  }

  /** `setsToAdd`, the parsed count with 1 for NaN or 0, used as an array length: an empty field or
      a zero gives one set, a negative count gives none, otherwise the count. */
  function SetsToAdd(numberOfSets: Option<real>): (n: nat)
    ensures numberOfSets.None? ==> n == 1
    ensures numberOfSets.Some? && ParseInt(numberOfSets.value) == 0 ==> n == 1
    ensures numberOfSets.Some? && ParseInt(numberOfSets.value) < 0 ==> n == 0
    ensures numberOfSets.Some? && ParseInt(numberOfSets.value) > 0 ==> n == ParseInt(numberOfSets.value)
    ensures numberOfSets.Some? && 1.0 <= numberOfSets.value ==> n as real <= numberOfSets.value < n as real + 1.0
  {
    if numberOfSets.None? then 1
    else
      var k := ParseInt(numberOfSets.value);
      if k == 0 then 1 else if k < 0 then 0 else k
  }

  /** The `n` entries one press of "Add Set" appends, the `k`-th with id `uuid(k)`. */
  function NewEntries(n: nat, uuid: nat -> string, exerciseId: string, reps: int, weight: real, rpe: Option<real>)
    : (r: seq<SetEntry>)
    ensures |r| == n
    ensures forall k :: 0 <= k < n ==> r[k].id == uuid(k)
    ensures forall k :: 0 <= k < n ==> r[k] == r[0].(id := uuid(k))
  {
    seq(n, k requires 0 <= k < n => SetEntry(uuid(k), exerciseId, reps, weight, rpe))
  }

  /** "Has id other than `id`", the predicate of `removeSet`. */
  function IdIsNot(id: string): SetEntry -> bool
  {
    (e: SetEntry) => e.id != id
  }

  /** `removeSet`'s filter: the entries whose id differs, in order. */
  function WithoutId(sets: seq<SetEntry>, id: string): (r: seq<SetEntry>)
    ensures forall e :: e in r ==> e.id != id && e in sets
    ensures forall e :: e in sets && e.id != id ==> e in r
  {
    Filter(sets, IdIsNot(id))
  }

  /** Removing an id that is in no entry leaves the draft as it is. */
  lemma RemoveAbsent(sets: seq<SetEntry>, id: string)
    requires forall i :: 0 <= i < |sets| ==> sets[i].id != id
    ensures WithoutId(sets, id) == sets
  {
    FilterAll(sets, IdIsNot(id));
  }

  /** Removing a freshly added entry by its (fresh) id undoes the addition. */
  lemma RemoveUndoesAdd(sets: seq<SetEntry>, e: SetEntry)
    requires forall i :: 0 <= i < |sets| ==> sets[i].id != e.id
    ensures WithoutId(sets + [e], e.id) == sets
  {
    FilterSnoc(sets, e, IdIsNot(e.id));
    RemoveAbsent(sets, e.id);
  }

  /** Removal keeps the order of the remaining entries: removing from a
      concatenation removes from each part. */
  lemma RemoveDistributes(a: seq<SetEntry>, b: seq<SetEntry>, id: string)
    ensures WithoutId(a + b, id) == WithoutId(a, id) + WithoutId(b, id)
  {
    FilterConcat(a, b, IdIsNot(id));
  }

  function ToInput(e: SetEntry): SetInput
  {
    SetInput(e.exerciseId, e.reps, e.weight, e.rpe)
  }

  /** `handleSubmit`: refused without sets; otherwise the trimmed notes (absent
      when blank) and every entry without its id, in the same order. */
  function Submission(notes: string, sets: seq<SetEntry>): (r: Result<WorkoutInput>)
    ensures r.Failure? <==> sets == []
    ensures r.Failure? ==> r.error == NoSetsError
    ensures r.Success? ==> r.value.notes == TrimmedOrUndefined(notes)
    ensures r.Success? ==> (|r.value.sets| == |sets| &&
              forall i :: 0 <= i < |sets| ==> WithId(r.value.sets[i], sets[i].id) == sets[i])
  {
    if sets == [] then Failure(NoSetsError)
    else Success(WorkoutInput(TrimmedOrUndefined(notes), seq(|sets|, i requires 0 <= i < |sets| => ToInput(sets[i]))))
  }

  /** Puts an id back on a submitted set. */
  function WithId(s: SetInput, id: string): SetEntry
  {
    SetEntry(id, s.exerciseId, s.reps, s.weight, s.rpe)
  }

  /** The submitted notes are present exactly when the notes are not blank,
      and submitting never changes what the notes say apart from the
      surrounding whitespace. */
  lemma SubmittedNotes(notes: string, sets: seq<SetEntry>)
    requires sets != []
    ensures Submission(notes, sets).value.notes.None? <==> IsBlank(notes)
    ensures Submission(notes, sets).value.notes.Some? ==>
              exists lo :: SurroundedByWhitespace(notes, lo, Submission(notes, sets).value.notes.value)
  {
  }

  /** The grouping key of the draft summary. */
  function EntryExerciseId(e: SetEntry): string
  {
    e.exerciseId
  }

  /** `find` by id: the first loaded exercise with that id. */
  function FindExercise(es: seq<Exercise>, id: string): (r: Option<Exercise>)
    ensures r.None? <==> forall i :: 0 <= i < |es| ==> es[i].id != id
    ensures r.Some? ==> exists i :: 0 <= i < |es| && es[i] == r.value && r.value.id == id &&
                                    forall j :: 0 <= j < i ==> es[j].id != id
  {
    if es == [] then None
    else if es[0].id == id then Some(es[0])
    else
      var r := FindExercise(es[1..], id);
      if r.Some? then
        var i :| 0 <= i < |es[1..]| && es[1..][i] == r.value && r.value.id == id &&
                 forall j :: 0 <= j < i ==> es[1..][j].id != id;
        assert es[i + 1] == r.value;
        r
      else r
  }

  /** What `{set.rpe && ` @ ${set.rpe}`}` renders after "reps × weight kg":
      nothing for no RPE, " @ rpe" for a non-zero RPE, and, since `0 && …` is
      the number 0 and React renders numbers, a bare "0" for an RPE of 0. */
  datatype RpeTail = NoTail | AtRpe(rpe: real) | StrayZero

  /** One line of the summary: "Set n: reps × weight kg" and the RPE tail. */
  datatype SetLine = SetLine(number: nat, reps: int, weight: real, tail: RpeTail, removes: string)

  /** One exercise block of the summary, with its "n sets" badge. */
  datatype Block = Block(exercise: Exercise, count: nat, lines: seq<SetLine>)

  function LineOf(e: SetEntry, number: nat): (l: SetLine)
    ensures l.number == number && l.reps == e.reps && l.weight == e.weight && l.removes == e.id
    ensures l.tail.NoTail? <==> e.rpe.None?
    ensures l.tail.StrayZero? <==> e.rpe == Some(0.0)
    ensures l.tail.AtRpe? ==> l.tail.rpe != 0.0
  {
    SetLine(number, e.reps, e.weight,
            match e.rpe
            case None => NoTail
            case Some(x) => if x == 0.0 then StrayZero else AtRpe(x),
            e.id)
  }

  /** The RPE a tail shows. */
  function ShownRpe(tail: RpeTail): Option<real>
  {
    match tail
    case NoTail => None
    case AtRpe(x) => Some(x)
    case StrayZero => Some(0.0)
  }

  /** The line shows the set's RPE: an RPE of 0 is told apart from none. */
  lemma LineShowsRpe(e: SetEntry, number: nat)
    ensures ShownRpe(LineOf(e, number).tail) == e.rpe
  {
  }

  /** The lines of one group, numbered from 1 in the order the sets were added. */
  function LinesOf(members: seq<SetEntry>): (r: seq<SetLine>)
    ensures |r| == |members|
    ensures forall j :: 0 <= j < |r| ==> r[j].number == j + 1 && r[j].removes == members[j].id
    ensures forall j :: 0 <= j < |r| ==>
              r[j].reps == members[j].reps && r[j].weight == members[j].weight &&
              ShownRpe(r[j].tail) == members[j].rpe
  {
    seq(|members|, j requires 0 <= j < |members| => LineOf(members[j], j + 1))
  }

  /** Block `b` is what group `g` renders as. */
  predicate Renders(es: seq<Exercise>, g: Group<string, SetEntry>, b: Block)
  {
    FindExercise(es, g.key) == Some(b.exercise) && b.count == |g.members| && b.lines == LinesOf(g.members)
  }

  /** The group's exercise is among the loaded exercises. */
  function IsLoaded(es: seq<Exercise>): Group<string, SetEntry> -> bool
  {
    (g: Group<string, SetEntry>) => FindExercise(es, g.key).Some?
  }

  /** The blocks for the groups: a group whose exercise is not among the loaded
      exercises renders nothing, and the others render in order. */
  function Blocks(es: seq<Exercise>, gs: seq<Group<string, SetEntry>>): (r: seq<Block>)
    ensures |r| == |Filter(gs, IsLoaded(es))| <= |gs|
    ensures forall j :: 0 <= j < |r| ==> Renders(es, Filter(gs, IsLoaded(es))[j], r[j])
    ensures (forall p :: 0 <= p < |gs| ==> FindExercise(es, gs[p].key).Some?) ==> |r| == |gs|
  {
    if gs == [] then []
    else
      var rest := Blocks(es, gs[1..]);
      var loaded := Filter(gs[1..], IsLoaded(es));
      match FindExercise(es, gs[0].key)
      case None =>
        assert Filter(gs, IsLoaded(es)) == loaded by {
          assert !IsLoaded(es)(gs[0]);
        }
        rest
      case Some(ex) =>
        var b := Block(ex, |gs[0].members|, LinesOf(gs[0].members));
        assert Filter(gs, IsLoaded(es)) == [gs[0]] + loaded by {
          assert IsLoaded(es)(gs[0]);
        }
        PairwiseCons((g, b) => Renders(es, g, b), gs[0], b, loaded, rest);
        [b] + rest
  }

  /** A pair related by `rel`, put in front of two sequences related pairwise,
      gives two sequences related pairwise. */
  lemma PairwiseCons<A, B>(rel: (A, B) -> bool, x: A, y: B, xs: seq<A>, ys: seq<B>)
    requires rel(x, y)
    requires |xs| == |ys| && forall j :: 0 <= j < |xs| ==> rel(xs[j], ys[j])
    ensures forall j :: 0 <= j < |xs| + 1 ==> rel(([x] + xs)[j], ([y] + ys)[j])
  {
    forall j | 0 <= j < |xs| + 1 ensures rel(([x] + xs)[j], ([y] + ys)[j]) {
      if j > 0 {
        assert ([x] + xs)[j] == xs[j - 1] && ([y] + ys)[j] == ys[j - 1];
      }
    }
  }

  /** Every block renders one of the groups. */
  lemma BlockRendersSomeGroup(es: seq<Exercise>, gs: seq<Group<string, SetEntry>>, b: Block)
    requires b in Blocks(es, gs)
    ensures exists p :: 0 <= p < |gs| && Renders(es, gs[p], b)
  {
    var r, loaded := Blocks(es, gs), Filter(gs, IsLoaded(es));
    var j :| 0 <= j < |r| && r[j] == b;
    assert Renders(es, loaded[j], b) && loaded[j] in loaded;
    var p :| 0 <= p < |gs| && gs[p] == loaded[j];
  }

  /** The "Workout Summary (n sets)" card. */
  datatype SummaryCard = SummaryCard(count: nat, unit: string, blocks: seq<Block>)

  /** The summary card, shown only when the draft has sets. */
  function SummaryOf(es: seq<Exercise>, sets: seq<SetEntry>): (r: Option<SummaryCard>)
    ensures r.None? <==> sets == []
    ensures r.Some? ==> r.value.count == |sets| && r.value.unit == (if |sets| == 1 then "set" else "sets")
    ensures r.Some? ==> r.value.blocks == Blocks(es, Grouped(sets, EntryExerciseId))
  {
    if sets == [] then None
    else Some(SummaryCard(|sets|, if |sets| == 1 then "set" else "sets", Blocks(es, Grouped(sets, EntryExerciseId))))
  }

  /** When every exercise of the draft is loaded, the summary shows every set
      exactly once: the blocks' counts add up to the number of sets. */
  lemma SummaryShowsEverySet(es: seq<Exercise>, sets: seq<SetEntry>)
    requires forall i :: 0 <= i < |sets| ==> FindExercise(es, sets[i].exerciseId).Some?
    ensures BlocksTotal(Blocks(es, Grouped(sets, EntryExerciseId))) == |sets|
  {
    var gs := Grouped(sets, EntryExerciseId);
    forall p | 0 <= p < |gs| ensures FindExercise(es, gs[p].key).Some? {
      GroupStartsWithFirstSeen(sets, EntryExerciseId, gs[p].key);
      assert gs[p].members[0] in sets;
    }
    BlocksTotalAllFound(es, gs);
    GroupSizesSum(sets, EntryExerciseId);
  }

  function BlocksTotal(bs: seq<Block>): nat
  {
    if bs == [] then 0 else bs[0].count + BlocksTotal(bs[1..])
  }

  lemma {:induction false} BlocksTotalAllFound(es: seq<Exercise>, gs: seq<Group<string, SetEntry>>)
    requires forall p :: 0 <= p < |gs| ==> FindExercise(es, gs[p].key).Some?
    ensures BlocksTotal(Blocks(es, gs)) == TotalSize(gs)
  {
    if gs != [] {
      BlocksTotalAllFound(es, gs[1..]);
    }
  }

  /** The state of the page. The text fields of type number are held as the
      number they contain, `None` for an empty field. */
  class Draft {
    var exercises: seq<Exercise>
    var notes: string
    var sets: seq<SetEntry>
    var exerciseId: string
    var reps: Option<real>
    var weight: Option<real>
    var rpe: Option<real>
    var numberOfSets: Option<real>

    /** Every entry names an exercise: "Add Set" refuses an empty selection. */
    ghost predicate Valid()
      reads this
    {
      forall i :: 0 <= i < |sets| ==> sets[i].exerciseId != ""
    }

    /** The initial state: nothing loaded, nothing entered, one set per press. */
    constructor()
      ensures Valid()
      ensures exercises == [] && notes == "" && sets == [] && exerciseId == ""
      ensures reps.None? && weight.None? && rpe.None? && numberOfSets == Some(1.0)
    {
      exercises, notes, sets, exerciseId := [], "", [], "";
      reps, weight, rpe, numberOfSets := None, None, None, Some(1.0);
    }

    /** The mount effect stores the exercises it fetched. */
    method LoadExercises(data: seq<Exercise>)
      modifies this`exercises
      ensures exercises == data
    {
      exercises := data;
    }

    /** Exercise, reps and weight are all filled in; "Add Set" is enabled
      exactly then. */
    predicate CanAddSet()
      reads this
    {
      exerciseId != "" && reps.Some? && weight.Some?
    }

    /** `selectedExercise`. */
    function SelectedExercise(): (r: Option<Exercise>)
      reads this
      ensures r.Some? ==> r.value.id == exerciseId && r.value in exercises
    {
      FindExercise(exercises, exerciseId)
    }

    /** `addSet`: with a field missing, shows the error and changes nothing;
        otherwise appends `SetsToAdd` identical entries with fresh ids, clears
        reps, weight and RPE, resets the count to 1 and keeps the exercise. */
    method AddSet(uuid: nat -> string) returns (outcome: Outcome)
      requires Valid()
      modifies this
      ensures Valid()
      ensures outcome.Fail? <==> !old(CanAddSet())
      ensures outcome.Fail? ==> outcome.message == MissingFieldsError && unchanged(this)
      ensures outcome.Pass? ==>
                sets == old(sets) + NewEntries(SetsToAdd(old(numberOfSets)), uuid, old(exerciseId),
                                               ParseInt(old(reps).value), old(weight).value, old(rpe)) &&
                exerciseId == old(exerciseId) && reps.None? && weight.None? && rpe.None? &&
                numberOfSets == Some(1.0) && notes == old(notes) && exercises == old(exercises)
    {
      if !CanAddSet() {
        return Fail(MissingFieldsError);
      }
      var added := NewEntries(SetsToAdd(numberOfSets), uuid, exerciseId, ParseInt(reps.value), weight.value, rpe);
      sets := sets + added;
      reps, weight, rpe, numberOfSets := None, None, None, Some(1.0);
      outcome := Pass;
    }

    /** `removeSet`: drops every entry with that id and nothing else. */
    method RemoveSet(id: string)
      requires Valid()
      modifies this`sets
      ensures Valid()
      ensures sets == WithoutId(old(sets), id)
    {
      sets := WithoutId(sets, id);
    }

    /** `handleSubmit` up to the call of `createWorkout`: the payload, or the
        error shown when the draft is empty. */
    method Submit() returns (r: Result<WorkoutInput>)
      requires Valid()
      ensures r == Submission(notes, sets)
      ensures r.Success? ==> forall i :: 0 <= i < |r.value.sets| ==> r.value.sets[i].exerciseId != ""
      ensures r.Success? ==> forall i :: 0 <= i < |r.value.sets| ==> r.value.sets[i] == ToInput(sets[i])
    {
      if |sets| == 0 {
        return Failure(NoSetsError);
      }
      var entries := sets;
      var payload := seq(|entries|, i requires 0 <= i < |entries| => ToInput(entries[i]));
      r := Success(WorkoutInput(TrimmedOrUndefined(notes), payload));
      assert r.value.sets == Submission(notes, sets).value.sets;
      assert forall i :: 0 <= i < |payload| ==> payload[i].exerciseId == entries[i].exerciseId != "";
    }

    /** `setsByExercise`: the draft's entries grouped by exercise id, in order
        of first appearance. */
    method SetsByExercise() returns (groups: seq<Group<string, SetEntry>>)
      requires Valid()
      ensures groups == Grouped(sets, EntryExerciseId)
      ensures forall p :: 0 <= p < |groups| ==> groups[p].key != ""
    {
      groups := GroupBy(sets, EntryExerciseId);
      forall p | 0 <= p < |groups| ensures groups[p].key != "" {
        var ks := Keys(sets, EntryExerciseId);
        assert groups[p].key == ks[p] && ks[p] in ks;
      }
    }
  }
}

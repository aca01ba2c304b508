/** The workout history page (src/app/workouts/page.tsx): every workout, newest
    first, as a card with its set count and its exercises grouped by id. */
module WorkoutList {
  import opened Wrappers
  import opened Seqs
  import opened Records
  import opened Grouping
  import opened Categories

  /** Exercise chips shown per card before "+N more". */
  const ChipsShown: nat := 4

  /** One entry of `exerciseGroups`: an exercise and the sets logged for it. */
  datatype ExerciseGroup = ExerciseGroup(exercise: Exercise, sets: seq<SetRecord>)

  /** `Object.values(exerciseGroups)`: per distinct exercise id, in order of
      first appearance, the exercise of the first set with that id and all the
      sets with that id in their logged order. */
  function ExerciseGroupsOf(sets: seq<SetRecord>): (r: seq<ExerciseGroup>)
    ensures |r| == |Keys(sets, ExerciseIdOf)|
    ensures forall j :: 0 <= j < |r| ==>
              r[j].sets == Members(sets, ExerciseIdOf, Keys(sets, ExerciseIdOf)[j]) &&
              r[j].sets != [] && r[j].sets[0].exerciseId == Keys(sets, ExerciseIdOf)[j] &&
              r[j].exercise == r[j].sets[0].exercise
  {
    var gs := Grouped(sets, ExerciseIdOf);
    forall j | 0 <= j < |gs|
      ensures gs[j].members != [] && gs[j].members[0].exerciseId == gs[j].key
    {
      GroupStartsWithFirstSeen(sets, ExerciseIdOf, gs[j].key);
    }
    seq(|gs|, j requires 0 <= j < |gs| => ExerciseGroup(gs[j].members[0].exercise, gs[j].members))
  }

  /** The reduce of the page: sets are pushed into a dictionary keyed by
      exercise id, each entry created with the exercise of the set that first
      has that id; the entries are read back in insertion order. */
  method UniqueExercises(sets: seq<SetRecord>) returns (r: seq<ExerciseGroup>)
    ensures r == ExerciseGroupsOf(sets)
  {
    var groups := GroupBy(sets, ExerciseIdOf);
    GroupsNonEmpty(sets);
    r := [];
    for j := 0 to |groups|
      invariant |r| == j
      invariant forall q :: 0 <= q < j ==> r[q] == ExerciseGroup(groups[q].members[0].exercise, groups[q].members)
    {
      r := r + [ExerciseGroup(groups[j].members[0].exercise, groups[j].members)];
    }
    EntriesOfGroups(sets, r);
  }

  /** Every group of the sets by exercise id has a first set. */
  lemma GroupsNonEmpty(sets: seq<SetRecord>)
    ensures forall q :: 0 <= q < |Grouped(sets, ExerciseIdOf)| ==> Grouped(sets, ExerciseIdOf)[q].members != []
  {
    GroupsAreGroupedSets(sets);
  }

  /** Entries built group by group, headed by each group's first exercise, are
      `ExerciseGroupsOf`. */
  lemma EntriesOfGroups(sets: seq<SetRecord>, r: seq<ExerciseGroup>)
    requires |r| == |Grouped(sets, ExerciseIdOf)|
    requires forall q :: 0 <= q < |r| ==>
               (Grouped(sets, ExerciseIdOf)[q].members != [] &&
                r[q] == ExerciseGroup(Grouped(sets, ExerciseIdOf)[q].members[0].exercise, Grouped(sets, ExerciseIdOf)[q].members))
    ensures r == ExerciseGroupsOf(sets)
  {
    GroupsAreGroupedSets(sets);
  }

  /** Every set of the workout is in exactly one group, the group of its own
      exercise id, so the groups' sizes add up to the card's set count. */
  lemma GroupsPartitionSets(sets: seq<SetRecord>, i: nat)
    requires i < |sets|
    ensures exists p :: 0 <= p < |ExerciseGroupsOf(sets)| && sets[i] in ExerciseGroupsOf(sets)[p].sets &&
                        ExerciseGroupsOf(sets)[p].sets[0].exerciseId == sets[i].exerciseId
    ensures forall p, q ::
              (0 <= p < |ExerciseGroupsOf(sets)| && 0 <= q < |ExerciseGroupsOf(sets)| &&
               sets[i] in ExerciseGroupsOf(sets)[p].sets && sets[i] in ExerciseGroupsOf(sets)[q].sets) ==> p == q
    ensures forall p, x :: 0 <= p < |ExerciseGroupsOf(sets)| && x in ExerciseGroupsOf(sets)[p].sets ==>
              x.exerciseId == ExerciseGroupsOf(sets)[p].sets[0].exerciseId
  {
    SetInItsGroup(sets, i);
    SetInOneGroup(sets, i);
    GroupsHaveOneId(sets);
  }

  lemma SetInItsGroup(sets: seq<SetRecord>, i: nat)
    requires i < |sets|
    ensures exists p :: 0 <= p < |ExerciseGroupsOf(sets)| && sets[i] in ExerciseGroupsOf(sets)[p].sets &&
                        ExerciseGroupsOf(sets)[p].sets[0].exerciseId == sets[i].exerciseId
  {
    var gs := Grouped(sets, ExerciseIdOf);
    GroupsAreGroupedSets(sets);
    ExactlyOneGroup(sets, ExerciseIdOf, i);
    var p :| 0 <= p < |gs| && gs[p].key == sets[i].exerciseId && sets[i] in gs[p].members;
    assert sets[i] in ExerciseGroupsOf(sets)[p].sets;
  }

  lemma SetInOneGroup(sets: seq<SetRecord>, i: nat)
    requires i < |sets|
    ensures forall p, q ::
              (0 <= p < |ExerciseGroupsOf(sets)| && 0 <= q < |ExerciseGroupsOf(sets)| &&
               sets[i] in ExerciseGroupsOf(sets)[p].sets && sets[i] in ExerciseGroupsOf(sets)[q].sets) ==> p == q
  {
    GroupsAreGroupedSets(sets);
    ExactlyOneGroup(sets, ExerciseIdOf, i);
  }

  lemma GroupsHaveOneId(sets: seq<SetRecord>)
    ensures forall p, x :: 0 <= p < |ExerciseGroupsOf(sets)| && x in ExerciseGroupsOf(sets)[p].sets ==>
              x.exerciseId == ExerciseGroupsOf(sets)[p].sets[0].exerciseId
  {
    var r := ExerciseGroupsOf(sets);
    GroupsAreGroupedSets(sets);
    forall p, x | 0 <= p < |r| && x in r[p].sets
      ensures x.exerciseId == r[p].sets[0].exerciseId
    {
      GroupMembersHaveKey(sets, ExerciseIdOf, p);
    }
  }

  /** The entries are the groups of the sets by exercise id, in the same order. */
  lemma GroupsAreGroupedSets(sets: seq<SetRecord>)
    ensures |ExerciseGroupsOf(sets)| == |Grouped(sets, ExerciseIdOf)|
    ensures forall p :: 0 <= p < |ExerciseGroupsOf(sets)| ==>
              ExerciseGroupsOf(sets)[p].sets == Grouped(sets, ExerciseIdOf)[p].members &&
              ExerciseGroupsOf(sets)[p].sets[0].exerciseId == Grouped(sets, ExerciseIdOf)[p].key
  {
  }

  /** The group sizes add up to the number of sets of the workout. */
  lemma GroupSizesAddUp(sets: seq<SetRecord>)
    ensures GroupSetsTotal(ExerciseGroupsOf(sets)) == |sets|
  {
    var gs := Grouped(sets, ExerciseIdOf);
    var r := ExerciseGroupsOf(sets);
    SameTotals(r, gs);
    GroupSizesSum(sets, ExerciseIdOf);
  }

  function GroupSetsTotal(r: seq<ExerciseGroup>): nat
  {
    if r == [] then 0 else |r[0].sets| + GroupSetsTotal(r[1..])
  }

  lemma {:induction false} SameTotals(r: seq<ExerciseGroup>, gs: seq<Group<string, SetRecord>>)
    requires |r| == |gs|
    requires forall j :: 0 <= j < |r| ==> r[j].sets == gs[j].members
    ensures GroupSetsTotal(r) == TotalSize(gs)
  {
    if r != [] {
      SameTotals(r[1..], gs[1..]);
    }
  }

  /** One chip of a card: the category dot's colour, the exercise name and the
      number of its sets ("×n"). */
  datatype Chip = Chip(color: string, name: string, count: nat)

  /** A workout card. `notes` is present exactly when the workout has
      non-empty notes (`workout.notes && ...`). */
  datatype WorkoutCard = WorkoutCard(
    href: string, totalSets: nat, unit: string, notes: Option<string>,
    chips: seq<Chip>, more: Option<nat>)

  function ChipOf(g: ExerciseGroup): Chip
  {
    Chip(GetCategoryColor(g.exercise.category), g.exercise.name, |g.sets|)
  }

  /** The card for one workout. */
  function CardOf(w: Workout): (c: WorkoutCard)
    ensures c.href == "/workouts/" + w.id
    ensures c.totalSets == |w.sets|
    ensures c.unit == (if |w.sets| == 1 then "set" else "sets")
    ensures c.notes.Some? <==> w.notes.Some? && w.notes.value != ""
    ensures c.notes.Some? ==> c.notes == w.notes
    ensures var groups := ExerciseGroupsOf(w.sets);
            |c.chips| == (if |groups| < ChipsShown then |groups| else ChipsShown) &&
            (forall j :: 0 <= j < |c.chips| ==> c.chips[j] == ChipOf(groups[j])) &&
            (c.more.Some? <==> |groups| > ChipsShown) &&
            (c.more.Some? ==> c.more.value == |groups| - ChipsShown)
  {
    var groups := ExerciseGroupsOf(w.sets);
    var shown := Take(groups, ChipsShown);
    WorkoutCard(
      "/workouts/" + w.id,
      |w.sets|,
      if |w.sets| == 1 then "set" else "sets",
      if w.notes.Some? && w.notes.value != "" then w.notes else None,
      seq(|shown|, j requires 0 <= j < |shown| => ChipOf(shown[j])),
      MoreBadge(|groups|, ChipsShown))
  }

  /** The chips of a card count at most the workout's sets, and exactly all of
      them when the workout has no more than four distinct exercises. */
  lemma ChipCountsBounded(w: Workout)
    ensures ChipsTotal(CardOf(w).chips) <= |w.sets|
    ensures |ExerciseGroupsOf(w.sets)| <= ChipsShown ==> ChipsTotal(CardOf(w).chips) == |w.sets|
  {
    var groups := ExerciseGroupsOf(w.sets);
    var chips := CardOf(w).chips;
    GroupSizesAddUp(w.sets);
    ChipsTotalPrefix(chips, groups);
  }

  function ChipsTotal(chips: seq<Chip>): nat
  {
    if chips == [] then 0 else chips[0].count + ChipsTotal(chips[1..])
  }

  lemma {:induction false} ChipsTotalPrefix(chips: seq<Chip>, groups: seq<ExerciseGroup>)
    requires |chips| <= |groups|
    requires forall j :: 0 <= j < |chips| ==> chips[j] == ChipOf(groups[j])
    ensures ChipsTotal(chips) <= GroupSetsTotal(groups)
    ensures |chips| == |groups| ==> ChipsTotal(chips) == GroupSetsTotal(groups)
  {
    if chips != [] {
      ChipsTotalPrefix(chips[1..], groups[1..]);
    } else {
      assert ChipsTotal(chips) == 0;
    }
  }

  /** The page: the empty state, or one card per workout in the order fetched
      (newest first). */
  datatype WorkoutsView = NoWorkoutsLogged | WorkoutCards(cards: seq<WorkoutCard>)

  function WorkoutsPage(ws: seq<Workout>): (v: WorkoutsView)
    ensures v.NoWorkoutsLogged? <==> ws == []
    ensures v.WorkoutCards? ==> |v.cards| == |ws| && forall i :: 0 <= i < |ws| ==> v.cards[i] == CardOf(ws[i])
  {
    if ws == [] then NoWorkoutsLogged
    else WorkoutCards(seq(|ws|, i requires 0 <= i < |ws| => CardOf(ws[i])))
  }
}

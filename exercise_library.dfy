/** The exercise library page (src/app/exercises/page.tsx): the fetched
    exercises, either as a flat list when a category filter is set, or grouped
    under the headings of the movement-category table. */
module ExerciseLibrary {
  import opened Wrappers
  import opened Seqs
  import opened Records
  import opened Grouping
  import opened Categories

  /** One exercise card: the category colour, the name, the notes when not
      empty and the category label badge. */
  datatype ExerciseCard = ExerciseCard(color: string, name: string, notes: Option<string>, badge: string)

  function CardOf(e: Exercise): (c: ExerciseCard)
    ensures c.name == e.name
    ensures c.notes.Some? <==> e.notes.Some? && e.notes.value != ""
    ensures c.notes.Some? ==> c.notes == e.notes
    ensures c.badge == GetCategoryLabel(e.category) && c.color == GetCategoryColor(e.category)
  {
    ExerciseCard(GetCategoryColor(e.category), e.name,
                 if e.notes.Some? && e.notes.value != "" then e.notes else None,
                 GetCategoryLabel(e.category))
  }

  /** A category heading with its "(n)" count and the exercises under it. */
  datatype Section = Section(category: Category, count: nat, exercises: seq<Exercise>)

  /** What the page shows below the filter buttons. */
  datatype LibraryView = NoExercisesYet | FlatList(cards: seq<ExerciseCard>) | Sections(sections: seq<Section>)

  /** The `category` search parameter is set to a non-empty value. */
  predicate FilterActive(category: Option<string>)
  {
    category.Some? && category.value != ""
  }

  /** The `exercisesByCategory` reduce: exercises pushed into a dictionary keyed
      by category, in fetched order. */
  method ExercisesByCategory(exercises: seq<Exercise>) returns (groups: seq<Group<string, Exercise>>)
    ensures groups == Grouped(exercises, CategoryOf)
  {
    groups := GroupBy(exercises, CategoryOf);
  }

  /** "Has at least one exercise among the groups" (`categoryExercises?.length`). */
  function HasExercises(groups: seq<Group<string, Exercise>>): Category -> bool
  {
    (c: Category) => Lookup(groups, c.value) != []
  }

  /** The table mapped to its sections: a section for each category that has
      exercises, skipping the others, in table order. */
  function SectionsFor(groups: seq<Group<string, Exercise>>, cats: seq<Category>): (r: seq<Section>)
    ensures |r| == |Filter(cats, HasExercises(groups))| <= |cats|
    ensures forall p :: 0 <= p < |r| ==>
              r[p].category == Filter(cats, HasExercises(groups))[p] &&
              r[p].category in cats && r[p].exercises == Lookup(groups, r[p].category.value) &&
              r[p].exercises != [] && r[p].count == |r[p].exercises|
  {
    var used := Filter(cats, HasExercises(groups));
    seq(|used|, p requires 0 <= p < |used| => Section(used[p], |Lookup(groups, used[p].value)|, Lookup(groups, used[p].value)))
  }

  /** Every category of the table that has exercises gets a section. */
  lemma SectionsCover(groups: seq<Group<string, Exercise>>, cats: seq<Category>, c: Category)
    requires c in cats && Lookup(groups, c.value) != []
    ensures exists p :: 0 <= p < |SectionsFor(groups, cats)| && SectionsFor(groups, cats)[p].category == c
  {
    var used := Filter(cats, HasExercises(groups));
    assert HasExercises(groups)(c);
    var p :| 0 <= p < |used| && used[p] == c;
    assert SectionsFor(groups, cats)[p].category == c;
  }

  /** Sections appear in the order of their categories in the table. */
  lemma SectionsInTableOrder(groups: seq<Group<string, Exercise>>, cats: seq<Category>, p: nat, q: nat)
    requires p < q < |SectionsFor(groups, cats)|
    ensures exists i, j :: 0 <= i < j < |cats| &&
              cats[i] == SectionsFor(groups, cats)[p].category && cats[j] == SectionsFor(groups, cats)[q].category
  {
    FilterKeepsOrder(cats, HasExercises(groups), p, q);
  }

  /** Two different sections of the grouped view have different categories. */
  lemma SectionsDistinct(groups: seq<Group<string, Exercise>>, p: nat, q: nat)
    requires p < |SectionsFor(groups, MovementCategories)| && q < |SectionsFor(groups, MovementCategories)|
    ensures p != q ==> SectionsFor(groups, MovementCategories)[p].category.value !=
                       SectionsFor(groups, MovementCategories)[q].category.value
  {
    TableShape();
    if p < q {
      SectionsInTableOrder(groups, MovementCategories, p, q);
    } else if q < p {
      SectionsInTableOrder(groups, MovementCategories, q, p);
    }
  }

  /** The page below the filters: the empty state when nothing was fetched,
      the flat list under an active filter, else the sections in table order. */
  function View(exercises: seq<Exercise>, category: Option<string>): (v: LibraryView)
    ensures v.NoExercisesYet? <==> exercises == []
    ensures v.FlatList? <==> exercises != [] && FilterActive(category)
    ensures v.FlatList? ==> (|v.cards| == |exercises| &&
              forall i :: 0 <= i < |exercises| ==> v.cards[i] == CardOf(exercises[i]))
    ensures v.Sections? ==> v.sections == SectionsFor(Grouped(exercises, CategoryOf), MovementCategories)
  {
    if exercises == [] then NoExercisesYet
    else if FilterActive(category) then FlatList(seq(|exercises|, i requires 0 <= i < |exercises| => CardOf(exercises[i])))
    else Sections(SectionsFor(Grouped(exercises, CategoryOf), MovementCategories))
  }

  /** Each section lists exactly the fetched exercises of its category, in
      fetched (name-ascending) order. */
  lemma SectionHoldsItsCategory(exercises: seq<Exercise>, p: nat)
    requires p < |SectionsFor(Grouped(exercises, CategoryOf), MovementCategories)|
    ensures var s := SectionsFor(Grouped(exercises, CategoryOf), MovementCategories)[p];
            s.exercises == Filter(exercises, KeyIs(CategoryOf, s.category.value)) &&
            forall e :: e in s.exercises ==> e.category == s.category.value
  {
    var s := SectionsFor(Grouped(exercises, CategoryOf), MovementCategories)[p];
    LookupGrouped(exercises, CategoryOf, s.category.value);
  }

  /** In the grouped view an exercise is shown exactly when its category is one
      of the five table values. */
  lemma ShownIffKnownCategory(exercises: seq<Exercise>, e: Exercise)
    requires e in exercises
    ensures var ss := SectionsFor(Grouped(exercises, CategoryOf), MovementCategories);
            (exists p :: 0 <= p < |ss| && e in ss[p].exercises) <==> IsKnown(e.category)
  {
    var groups := Grouped(exercises, CategoryOf);
    var ss := SectionsFor(groups, MovementCategories);
    if p :| 0 <= p < |ss| && e in ss[p].exercises {
      SectionHoldsItsCategory(exercises, p);
      var c := ss[p].category;
      var i :| 0 <= i < |MovementCategories| && MovementCategories[i] == c;
    }
    if IsKnown(e.category) {
      var i :| 0 <= i < |MovementCategories| && MovementCategories[i].value == e.category;
      var c := MovementCategories[i];
      LookupGrouped(exercises, CategoryOf, c.value);
      assert e in Lookup(groups, c.value);
      SectionsCover(groups, MovementCategories, c);
      var p :| 0 <= p < |ss| && ss[p].category == c;
      assert e in ss[p].exercises;
    }
  }

  /** An exercise is shown under at most one heading. */
  lemma ShownOnce(exercises: seq<Exercise>, e: Exercise, p: nat, q: nat)
    requires var ss := SectionsFor(Grouped(exercises, CategoryOf), MovementCategories);
             p < |ss| && q < |ss| && e in ss[p].exercises && e in ss[q].exercises
    ensures p == q
  {
    SectionHoldsItsCategory(exercises, p);
    SectionHoldsItsCategory(exercises, q);
    SectionsDistinct(Grouped(exercises, CategoryOf), p, q);
  }

  /** Every table category with at least one fetched exercise gets its heading. */
  lemma EveryUsedCategoryHasSection(exercises: seq<Exercise>, i: nat)
    requires i < |MovementCategories|
    requires exists k :: 0 <= k < |exercises| && exercises[k].category == MovementCategories[i].value
    ensures var ss := SectionsFor(Grouped(exercises, CategoryOf), MovementCategories);
            exists p :: 0 <= p < |ss| && ss[p].category == MovementCategories[i] &&
                        ss[p].count == |Filter(exercises, KeyIs(CategoryOf, MovementCategories[i].value))|
  {
    var c := MovementCategories[i];
    var k :| 0 <= k < |exercises| && exercises[k].category == c.value;
    LookupGrouped(exercises, CategoryOf, c.value);
    assert exercises[k] in Lookup(Grouped(exercises, CategoryOf), c.value);
    SectionsCover(Grouped(exercises, CategoryOf), MovementCategories, c);
  }
}

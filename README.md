# Workout tracker: a verified model of its page logic

This project models the logic of a small workout-tracking web application in
Dafny. Users keep a library of exercises, each filed under one of five
movement categories. They log workouts made of sets (exercise, reps, weight,
optional RPE), and a dashboard summarises recent activity. The modelled parts
are:

- **Dashboard** (`Dashboard`): the start of the current Sunday-to-Saturday
  week, the count of workouts this week, the total volume, the day streak and
  the per-exercise summary on each recent-workout card.
- **Workout history** (`WorkoutList`): a card for each workout, with its sets
  grouped by exercise in order of first appearance, at most four chips and a
  "+N more" badge.
- **Log Workout draft** (`WorkoutDraft`): a class holding the page's state.
  "Add Set" appends one or more identical entries with fresh ids. The trash
  button removes an entry by id. The summary groups the entries by exercise.
  Submitting gives the payload, or the error for an empty draft.
- **Exercise library** (`ExerciseLibrary`): the flat list under a category
  filter. Otherwise one section for each category of the table that has
  exercises, in table order.
- **Add Exercise form** (`ExerciseForm`): the required-field check and the
  trimmed payload.
- **Navigation bar** (`Navigation`): which items are highlighted for a
  pathname.
- **Category table** (`Categories`): the table and its label and colour
  lookups, each with a fallback.
- **Suggestion text box** (`SuggestInput`): a class holding the open flag and
  highlighted index. It reacts to typing, focus, blur, the arrow, Enter and
  Escape keys, and clicks.
- **Date-and-time picker** (`DateTimeInput`):
  - the 96 quarter-hour options;
  - rounding the current time to the option it shows;
  - parsing a picked option back into an instant.

Shared modules:

- `Seqs` holds filter, slice and the "+N more" badge.
- `Text` holds trim, lower-casing, includes, startsWith, split, padStart and
  number parsing.
- `Grouping` holds the insertion-ordered group-by behind every
  "reduce into a dictionary, then `Object.values`" in the pages.
- `Calendar` holds local-day arithmetic.
- `Records` holds the fetched record types.

Data fetched from the database is taken as input, in the order the query
returns it. For example, the dashboard works on the five most recent workouts,
newest first.

Behaviour of the code worth noting:

- The streak is daily only, over a fixed 30-day window, and forgives the
  current day. There is no weekly streak and no configurable rule for which
  days qualify.
- `workoutsThisWeek` has no upper bound. A workout dated after the current
  week is counted too.
- `totalVolume` is taken over the five fetched workouts, not over a window.

Some properties of the code as written that the proofs make explicit:

- From 23:53 on, the time picker shows "24:00", which is not one of its
  options (`DateTimeInput.SelectedIsNearestOption`).
- "Workouts" is highlighted together with "Log Workout" on `/workouts/new`
  (`Navigation.LogWorkoutPage`).

## Model

| member | source | states |
|---|---|---|
| Calendar.TimeOfDay | src/app/page.tsx:31-33 | the time of day lies in [0, one day) and, with the day number, recomposes the instant |
| Calendar.DayOfWeek | src/app/page.tsx:32 | the day of the week is in 0..6 |
| Calendar.DayOfMidnightPlus | src/app/page.tsx:46-47 | midnight of a day plus less than a day falls on that day |
| Categories.TableShape | src/lib/constants.ts:1-7 | the category table has five entries with pairwise distinct values |
| Categories.FindIn | src/lib/constants.ts:12 | `find` returns an entry of the table holding the value; nothing exactly when no entry holds it |
| Categories.FindInDistinct | src/lib/constants.ts:12 | with distinct values, `find` returns the unique entry holding a value |
| Categories.KnownLookups | src/lib/constants.ts:11-17 | a value of the table gets its own entry's label and colour |
| Categories.UnknownLookups | src/lib/constants.ts:11-17 | a value outside the table is its own label and is coloured gray |
| Categories.FallbacksAgree | src/lib/constants.ts:11-17 | the label falls back to the value exactly when the colour falls back to gray, exactly when the value is not in the table |
| Seqs.Filter | src/app/page.tsx:35-37 | the filtered sequence is no longer than the input and holds exactly the elements satisfying the predicate |
| Seqs.FilterConcat | src/app/workouts/new/page.tsx:89 | filtering a concatenation is concatenating the filters, so the filter keeps order |
| Seqs.FilterSnoc | src/app/workouts/new/page.tsx:89 | filtering a sequence extended by one element extends the filter by that element when it qualifies |
| Seqs.FilterAll | src/components/ui/suggest-input.tsx:48-50 | a filter that every element passes returns the input unchanged |
| Seqs.FilterKeepsOrder | src/app/exercises/page.tsx:74-94 | two kept elements come from positions of the input in the same order |
| Seqs.Take | src/app/workouts/page.tsx:99 | `slice(0, n)` is a prefix of length min(n, length) |
| Seqs.MoreBadge | src/app/workouts/page.tsx:109-113 | the "+N more" badge is present exactly when entries were cut, and shown plus N is the total |
| Text.Trim | src/app/exercises/new/page.tsx:43 | the trimmed string is a piece of the input surrounded only by whitespace, with no whitespace at either end |
| Text.TrimEmptyIffBlank | src/app/exercises/new/page.tsx:35 | trimming gives the empty string exactly for blank input |
| Text.TrimIdempotent | src/app/exercises/new/page.tsx:43 | trimming twice equals trimming once |
| Text.TrimmedOrUndefined | src/app/exercises/new/page.tsx:45 | notes are absent exactly when blank, else the non-empty trimmed text |
| Text.ContainsEmpty | src/components/ui/suggest-input.tsx:48-50 | every string includes the empty string |
| Text.NatToString | src/components/ui/date-time-input.tsx:41-43 | `toString` gives the decimal digits of the number, without leading zeros, exactly one digit below 10 |
| Text.PadStart2 | src/components/ui/date-time-input.tsx:41-43 | `padStart(2, '0')` puts '0' characters in front of a shorter string up to length two and leaves longer ones alone |
| Text.TwoDigits | src/components/ui/date-time-input.tsx:41-43 | a number below 100, padded, is its tens digit then its units digit |
| Text.ToNumber | src/components/ui/date-time-input.tsx:70 | `Number` of a string gives a number exactly when every character is a decimal digit, and then the digits' decimal value |
| Text.NumberOfString | src/components/ui/date-time-input.tsx:70 | `Number` of `n.toString()` gives `n` back |
| Text.Split | src/components/ui/date-time-input.tsx:70 | `split` returns at least one piece, no piece holds the separator, and joining the pieces with it gives the string back |
| Text.SplitNone | src/components/ui/date-time-input.tsx:70 | a string without the separator splits into itself |
| Text.SplitTwo | src/components/ui/date-time-input.tsx:70 | splitting two separator-free parts joined by the separator gives back the two parts |
| Grouping.Keys | src/app/workouts/page.tsx:60-64 | a key is listed exactly when some element has it |
| Grouping.GroupsFor | src/app/workouts/page.tsx:58-70 | one group per key, each holding the key's elements in order |
| Grouping.GroupBy | src/app/workouts/page.tsx:58-70 | the dictionary-accumulating loop returns the groups of the elements by key, in order of first appearance |
| Grouping.AccumulateStep | src/app/workouts/page.tsx:59-67 | one push into the accumulator (creating the entry on first sight) keeps it equal to the grouping of what it has seen |
| Grouping.KeysSnoc | src/app/workouts/page.tsx:60-65 | a new element adds its key at the end exactly when the key was not seen before |
| Grouping.KeysDistinct | src/app/workouts/page.tsx:60-64 | the keys are pairwise distinct |
| Grouping.FirstIndex | src/app/workouts/page.tsx:60-64 | the first index carries the key and no earlier element does |
| Grouping.FirstIndexUnique | src/app/workouts/page.tsx:60-64 | an index carrying the key with no earlier element carrying it is the first index |
| Grouping.KeysInFirstSeenOrder | src/app/workouts/page.tsx:58-70 | keys are listed in the order of their first appearance |
| Grouping.MembersCons | src/app/workouts/page.tsx:66 | the members of a key over a sequence with one more element in front |
| Grouping.GroupStartsWithFirstSeen | src/app/workouts/page.tsx:60-66 | each group is non-empty and starts with the element that created its entry |
| Grouping.ExactlyOneGroup | src/app/workouts/page.tsx:58-70 | every element lies in exactly one group, the one of its key |
| Grouping.GroupMembersHaveKey | src/app/workouts/page.tsx:60-66 | every member of a group carries the group's key |
| Grouping.GroupSizesSum | src/app/workouts/page.tsx:58-71 | the group sizes add up to the number of elements |
| Grouping.LookupGrouped | src/app/exercises/page.tsx:26-31 | looking a key up among the groups gives exactly its elements, and nothing for an unused key |
| Grouping.LookupGroupsFor | src/app/exercises/page.tsx:75 | a lookup among groups built for listed keys finds a listed key's members and nothing else |
| Grouping.NoMembers | src/app/exercises/page.tsx:75-76 | a key no element carries has no members |
| Dashboard.ThisWeekStart | src/app/page.tsx:31-33 | the result is a Sunday midnight with now in the seven days that follow it |
| Dashboard.SameWeekSameStart | src/app/page.tsx:31-33 | all instants of one Sunday-to-Saturday week get the same week start |
| Dashboard.WorkoutsThisWeek | src/app/page.tsx:35-37 | the weekly count is at most the number of fetched workouts |
| Dashboard.CountedIffOnOrAfterSunday | src/app/page.tsx:31-37 | a workout is counted exactly when its day is on or after the Sunday of the current week, with no upper bound |
| Dashboard.WorkoutsThisWeekAtMostFive | src/app/page.tsx:14-37 | with at most five workouts fetched, the weekly count is at most 5 |
| Dashboard.VolumeConcat | src/app/page.tsx:39-42 | volume is additive over concatenation |
| Dashboard.TotalVolumeOfAllSets | src/app/page.tsx:39-42 | the nested reduce equals the volume of all fetched sets taken together |
| Dashboard.TotalVolumeWithoutSets | src/app/page.tsx:39-42 | the total volume is 0 when no fetched workout has a set, in particular when none was fetched |
| Dashboard.VolumeNonNegative | src/app/page.tsx:40 | with reps at least 1 and weights non-negative, the volume is non-negative |
| Dashboard.VolumePermutation | src/app/page.tsx:40 | any rearrangement of the sets has the same volume |
| Dashboard.VolumeRemove | src/app/page.tsx:40 | removing one set subtracts its reps times weight from the volume |
| Dashboard.Run | src/app/page.tsx:49-63 | the run ending at a day covers only workout days, stops at a gap, and never exceeds its window |
| Dashboard.RunUnique | src/app/page.tsx:49-63 | those three properties determine the run |
| Dashboard.Streak | src/app/page.tsx:45-63 | the streak loop returns the run ending today, or ending yesterday when today has no workout; at most 30 |
| Dashboard.StreakAfterGap | src/app/page.tsx:49-63 | the day at which the loop stops determines the streak |
| Dashboard.StreakWithWorkoutToday | src/app/page.tsx:58-62 | with a workout today, the streak is the number of consecutive workout days ending today |
| Dashboard.StreakWithoutWorkoutToday | src/app/page.tsx:58-62 | without one, today is forgiven; with no workout yesterday either, the streak is 0 |
| Dashboard.WorkoutDays | src/app/page.tsx:52-56 | the set of days having a workout, no more than the workouts |
| Dashboard.DaysEndingAt | src/app/page.tsx:49-51 | the m consecutive days ending at a day |
| Dashboard.SubsetCard | src/app/page.tsx:49-63 | a subset of days is no larger than the set |
| Dashboard.RunAtMostDistinctDays | src/app/page.tsx:49-63 | several workouts on one day count once: a run is at most the number of distinct workout days |
| Dashboard.StreakAtMostDistinctDays | src/app/page.tsx:14-63 | the streak is at most the number of distinct workout days, so at most 5 on the dashboard |
| Dashboard.CountSet | src/app/page.tsx:170-179 | the reduce callback (create the tally with count 0 on first sight, then increment) keeps the accumulator the per-exercise summary of the sets seen |
| Dashboard.TallyStepSeen | src/app/page.tsx:177 | for an id already seen, incrementing its count keeps the accumulator the summary |
| Dashboard.TallyStepNew | src/app/page.tsx:171-177 | for a new id, creating its tally at 0 then incrementing it and appending the id keeps the accumulator the summary |
| Dashboard.ValuesInOrder | src/app/page.tsx:181 | `Object.values` returns one tally per key, in insertion order |
| Dashboard.TallyBumped | src/app/page.tsx:177 | a set of an exercise already seen bumps its count by one |
| Dashboard.TallyCreated | src/app/page.tsx:171-177 | a set of a new exercise creates a tally of 1 with that set's exercise |
| Dashboard.TallyUntouched | src/app/page.tsx:170-179 | a set leaves the other exercises' tallies alone |
| Dashboard.ExerciseSummary | src/app/page.tsx:170-181 | one tally per distinct exercise id in order of first appearance: the first-seen exercise and the number of its sets |
| Dashboard.SumOfSizes | src/app/page.tsx:170-181 | counts equal to group sizes sum to the groups' total size |
| Dashboard.SummaryCountsSum | src/app/page.tsx:170-181 | the tallies' counts add up to the workout's number of sets |
| Dashboard.CardFor | src/app/page.tsx:201-221 | at most three exercise names in summary order, "+N more" exactly when more exist, and the card's set count |
| Dashboard.CardOfSummary | src/app/page.tsx:170-221 | given its own workout's summary, a card names the first set's exercise of each of the first three distinct exercise ids, in order of first appearance, and "+N more" counts the remaining ids |
| Dashboard.RecentSectionFor | src/app/page.tsx:154-169 | the empty state exactly when nothing was fetched, else the first three workouts |
| WorkoutList.ExerciseGroupsOf | src/app/workouts/page.tsx:58-70 | one entry per distinct exercise id, holding that id's sets in order, headed by the exercise of its first set |
| WorkoutList.UniqueExercises | src/app/workouts/page.tsx:58-70 | the reduce followed by `Object.values` yields exactly those entries |
| WorkoutList.GroupsAreGroupedSets | src/app/workouts/page.tsx:58-70 | the entries are the groups of the sets by exercise id, in the same order |
| WorkoutList.GroupsPartitionSets | src/app/workouts/page.tsx:58-70 | every set is in exactly one entry, the one of its exercise id, and each entry holds one id only |
| WorkoutList.GroupSizesAddUp | src/app/workouts/page.tsx:58-71 | the entries' set counts add up to the workout's set count |
| WorkoutList.SameTotals | src/app/workouts/page.tsx:58-71 | entries holding the groups' members have the groups' total size |
| WorkoutList.CardOf | src/app/workouts/page.tsx:71-113 | link to the workout, set count with "set" only for one, notes only when non-empty, the first four chips and the "+N more" badge |
| WorkoutList.ChipCountsBounded | src/app/workouts/page.tsx:99-113 | the chips' counts total at most the set count, and exactly it when no chip is cut |
| WorkoutList.ChipsTotalPrefix | src/app/workouts/page.tsx:99-106 | the chips of a prefix of the entries count at most the entries' sets |
| WorkoutList.WorkoutsPage | src/app/workouts/page.tsx:42-57 | the empty state exactly when there are no workouts, else one card per workout in fetched order |
| WorkoutDraft.ParseInt | src/app/workouts/new/page.tsx:75 | `parseInt` of a number truncates it toward zero |
| WorkoutDraft.SetsToAdd | src/app/workouts/new/page.tsx:71 | an empty field or a zero count gives 1, a negative count 0, otherwise the truncated count |
| WorkoutDraft.NewEntries | src/app/workouts/new/page.tsx:72-78 | exactly that many entries, identical but for their fresh ids |
| WorkoutDraft.WithoutId | src/app/workouts/new/page.tsx:88-90 | removal keeps exactly the entries with another id |
| WorkoutDraft.RemoveAbsent | src/app/workouts/new/page.tsx:89 | removing an id no entry has changes nothing |
| WorkoutDraft.RemoveUndoesAdd | src/app/workouts/new/page.tsx:72-89 | removing a freshly added entry by its fresh id restores the draft |
| WorkoutDraft.RemoveDistributes | src/app/workouts/new/page.tsx:89 | removal from a concatenation removes from each part, keeping order |
| WorkoutDraft.Submission | src/app/workouts/new/page.tsx:92-108 | refused exactly for an empty draft; otherwise trimmed notes (absent when blank) and every entry, in order, without its id |
| WorkoutDraft.SubmittedNotes | src/app/workouts/new/page.tsx:101 | submitted notes are absent exactly for blank notes and otherwise are the notes without surrounding whitespace |
| WorkoutDraft.FindExercise | src/app/workouts/new/page.tsx:63 | the first loaded exercise with the id; nothing exactly when none has it |
| WorkoutDraft.LineOf | src/app/workouts/new/page.tsx:268-269 | the line shows the set's reps and weight; its RPE tail is empty exactly for no RPE, a bare "0" exactly for an RPE of 0, and " @ rpe" otherwise |
| WorkoutDraft.LineShowsRpe | src/app/workouts/new/page.tsx:269 | the RPE a line shows is the set's RPE, so an RPE of 0 is told apart from none |
| WorkoutDraft.LinesOf | src/app/workouts/new/page.tsx:262-269 | one line per set, numbered from 1, showing that set's reps, weight and RPE and removing that set |
| WorkoutDraft.Blocks | src/app/workouts/new/page.tsx:250-284 | the blocks are the groups whose exercise is loaded, in group order, each rendered from its group; groups whose exercise is not loaded render nothing |
| WorkoutDraft.BlockRendersSomeGroup | src/app/workouts/new/page.tsx:250-284 | every block is rendered from one of the groups |
| WorkoutDraft.SummaryOf | src/app/workouts/new/page.tsx:242-250 | the summary card exists exactly when the draft has sets, with its count and "set"/"sets" |
| WorkoutDraft.SummaryShowsEverySet | src/app/workouts/new/page.tsx:250-262 | with all exercises loaded, the blocks' counts add up to the number of sets |
| WorkoutDraft.BlocksTotalAllFound | src/app/workouts/new/page.tsx:250-259 | with every group's exercise loaded, the blocks' counts total the groups' sizes |
| WorkoutDraft.Draft.constructor | src/app/workouts/new/page.tsx:46-53 | the initial state: no sets, empty fields, one set per press |
| WorkoutDraft.Draft.LoadExercises | src/app/workouts/new/page.tsx:55-61 | the mount effect stores the fetched exercises |
| WorkoutDraft.Draft.SelectedExercise | src/app/workouts/new/page.tsx:63 | the selected exercise, when found, has the selected id and is loaded |
| WorkoutDraft.Draft.AddSet | src/app/workouts/new/page.tsx:65-86 | refused with the error and no change when a field is missing; otherwise the new entries are appended, the fields cleared, the count reset to 1 and the exercise kept |
| WorkoutDraft.Draft.RemoveSet | src/app/workouts/new/page.tsx:88-90 | the draft loses exactly the entries with that id |
| WorkoutDraft.Draft.Submit | src/app/workouts/new/page.tsx:92-108 | the payload of the current draft, each set being its entry without the id; every submitted set names an exercise |
| WorkoutDraft.Draft.SetsByExercise | src/app/workouts/new/page.tsx:119-125 | the entries grouped by exercise id in order of first appearance; no group has an empty id |
| ExerciseLibrary.CardOf | src/app/exercises/page.tsx:102-118 | the exercise's own name; its notes, shown exactly when present and non-empty; badge and colour from the category lookups |
| ExerciseLibrary.ExercisesByCategory | src/app/exercises/page.tsx:26-31 | the exercises grouped by category in order of first appearance |
| ExerciseLibrary.SectionsFor | src/app/exercises/page.tsx:74-94 | one section per table category with exercises, in table order, holding that category's exercises and their count |
| ExerciseLibrary.SectionsCover | src/app/exercises/page.tsx:74-94 | every table category with exercises has a section |
| ExerciseLibrary.SectionsInTableOrder | src/app/exercises/page.tsx:74-94 | sections appear in the order of their categories in the table |
| ExerciseLibrary.SectionsDistinct | src/app/exercises/page.tsx:74-94 | no category gets two sections |
| ExerciseLibrary.View | src/app/exercises/page.tsx:52-95 | the empty state exactly when nothing was fetched; the flat list exactly under a non-empty filter; else the sections |
| ExerciseLibrary.SectionHoldsItsCategory | src/app/exercises/page.tsx:75-90 | a section lists exactly the fetched exercises of its category, in fetched order |
| ExerciseLibrary.ShownIffKnownCategory | src/app/exercises/page.tsx:74-94 | in the grouped view an exercise is shown exactly when its category is in the table |
| ExerciseLibrary.ShownOnce | src/app/exercises/page.tsx:74-94 | an exercise appears under at most one heading |
| ExerciseLibrary.EveryUsedCategoryHasSection | src/app/exercises/page.tsx:74-94 | a table category used by some exercise gets a heading counting all its exercises |
| ExerciseForm.SubmitExercise | src/app/exercises/new/page.tsx:35-46 | refused exactly for a blank name or no category; otherwise the trimmed, non-empty name, the category as chosen and the trimmed notes |
| ExerciseForm.SubmittedNameIsStable | src/app/exercises/new/page.tsx:43 | submitting the stored name again gives the same payload |
| Navigation.ActiveInMembers | src/components/navigation.tsx:29-31 | an item is among those kept for a pathname exactly when it is in the list and active for it |
| Navigation.ActiveInFour | src/components/navigation.tsx:29-31 | over four items, the highlighted ones are the active items in display order |
| Navigation.ActiveItems | src/components/navigation.tsx:29-31 | an item is highlighted exactly when it is active for the pathname |
| Navigation.ItemsDistinct | src/components/navigation.tsx:8-13 | four items with distinct links |
| Navigation.ExactItems | src/components/navigation.tsx:30-31 | "/" and "/workouts/new" light up only on their exact path |
| Navigation.PrefixItems | src/components/navigation.tsx:30-31 | the other items light up exactly on paths starting with their link |
| Navigation.DiffersAt | src/components/navigation.tsx:31 | a path differing from a link at some position does not start with it |
| Navigation.LogWorkoutPage | src/components/navigation.tsx:8-31 | on "/workouts/new" both "Workouts" and "Log Workout" are highlighted |
| Navigation.WorkoutDetailPage | src/components/navigation.tsx:8-31 | on a workout's own page only "Workouts" is highlighted |
| SuggestInput.FilteredMembers | src/components/ui/suggest-input.tsx:48-50 | a suggestion is offered exactly when it contains the value, ignoring ASCII case |
| SuggestInput.EmptyValueKeepsAll | src/components/ui/suggest-input.tsx:48-50 | an empty value offers every suggestion, in order |
| SuggestInput.LowerIdempotent | src/components/ui/suggest-input.tsx:49 | lower-casing twice is lower-casing once |
| SuggestInput.CaseInsensitive | src/components/ui/suggest-input.tsx:48-50 | the filter does not depend on the case of the typed value |
| SuggestInput.OnKey | src/components/ui/suggest-input.tsx:89-115 | closed: no effect; ArrowDown moves down but not past the last entry; ArrowUp moves up to -1; Enter reports the highlighted entry and closes; Escape closes with no highlight; the index stays in bounds |
| SuggestInput.ArrowDownStopsAtLast | src/components/ui/suggest-input.tsx:93-97 | n ArrowDown presses move n entries down, stopping at the last |
| SuggestInput.ArrowUpStopsAtNone | src/components/ui/suggest-input.tsx:99-101 | n ArrowUp presses move n entries up, stopping at -1 |
| SuggestInput.Widget.constructor | src/components/ui/suggest-input.tsx:22-54 | first render: closed, index 0 after the mount effect |
| SuggestInput.Widget.Rerender | src/components/ui/suggest-input.tsx:52-54 | the index returns to 0 exactly when the filtered count changed |
| SuggestInput.Widget.InputChange | src/components/ui/suggest-input.tsx:63-77 | reports the text; the list is open afterwards exactly when some suggestion matches it |
| SuggestInput.Widget.Focus | src/components/ui/suggest-input.tsx:79-83 | focus opens the list only when something matches |
| SuggestInput.Widget.Blur | src/components/ui/suggest-input.tsx:85-87 | blur resets the index to 0 |
| SuggestInput.Widget.KeyDown | src/components/ui/suggest-input.tsx:56-115 | the key's effect on the widget and the value reported are those of OnKey |
| SuggestInput.Widget.Click | src/components/ui/suggest-input.tsx:117-122 | clicking a suggestion reports it and closes the list with index 0 |
| SuggestInput.Widget.ClickOutside | src/components/ui/suggest-input.tsx:28-46 | a click outside closes an open list with no highlight and does nothing when closed |
| SuggestInput.Widget.DropdownVisible | src/components/ui/suggest-input.tsx:143 | the drop-down is drawn exactly when open with a match |
| DateTimeInput.Label | src/components/ui/date-time-input.tsx:44 | the 12-hour label has the option's minute and AM before noon, PM after |
| DateTimeInput.PushSlot | src/components/ui/date-time-input.tsx:39-50 | the option for an hour and quarter is the next one of the list |
| DateTimeInput.SlotIndex | src/components/ui/date-time-input.tsx:39-40 | hour and quarter map to the list position and back |
| DateTimeInput.TimeOptions | src/components/ui/date-time-input.tsx:37-53 | the nested loops produce exactly 96 options, option i being hour i/4 and minute 15(i mod 4) |
| DateTimeInput.TimeValueDigits | src/components/ui/date-time-input.tsx:41-43 | an "HH:MM" value is two digits, a colon and two digits |
| DateTimeInput.OptionValueShape | src/components/ui/date-time-input.tsx:41-43 | every option value is two digits, a colon and 00, 15, 30 or 45 |
| DateTimeInput.ParseTimeValue | src/components/ui/date-time-input.tsx:70 | splitting an option value on ":" gives back its hour and minute |
| DateTimeInput.OptionsIncreasing | src/components/ui/date-time-input.tsx:39-43 | option i names minute 15i of the day, so the options run from 00:00 to 23:45 in increasing order |
| DateTimeInput.RoundedMinutes | src/components/ui/date-time-input.tsx:60 | `Math.round` of the minute over 15, times 15, equals (m + 7) / 15 * 15 |
| DateTimeInput.NearestQuarter | src/components/ui/date-time-input.tsx:59-60 | the rounded minute is within 7 minutes and no multiple of 15 is nearer |
| DateTimeInput.HourOf | src/components/ui/date-time-input.tsx:57 | the clock hour is below 24 |
| DateTimeInput.MinuteOf | src/components/ui/date-time-input.tsx:58 | the clock minute is below 60 |
| DateTimeInput.ShownClockIsNearest | src/components/ui/date-time-input.tsx:59-62 | the shown time is the nearest quarter hour, with a rounded 60 carried into the hour; hour 24 exactly from 23:53 on |
| DateTimeInput.SelectedTimeValue | src/components/ui/date-time-input.tsx:55-66 | no shown value exactly when there is no value |
| DateTimeInput.MidnightOverflowIsNoOption | src/components/ui/date-time-input.tsx:39-43 | "24:00" is none of the options |
| DateTimeInput.SelectedIsNearestOption | src/components/ui/date-time-input.tsx:55-66 | the shown value is the option nearest the clock time, except "24:00" from 23:53 on |
| DateTimeInput.HandleTimeSelect | src/components/ui/date-time-input.tsx:68-79 | the empty string is ignored, an unparsable value is an invalid date, otherwise a whole minute |
| DateTimeInput.ClockOfInstant | src/components/ui/date-time-input.tsx:71-77 | setting hour and minute on a day reads back as that day, hour and minute |
| DateTimeInput.QuarterShownAsIs | src/components/ui/date-time-input.tsx:60-62 | a time already on a quarter hour is shown unchanged |
| DateTimeInput.PickOption | src/components/ui/date-time-input.tsx:68-79 | picking an option sets its quarter hour on the current day |
| DateTimeInput.ShowSlot | src/components/ui/date-time-input.tsx:55-66 | at an option's quarter hour the picker shows that option |
| DateTimeInput.PickThenShow | src/components/ui/date-time-input.tsx:55-79 | picking an option keeps the day, sets that quarter hour, and the picker then shows the same option |
| DateTimeInput.TriggerLabel | src/components/ui/date-time-input.tsx:101-104 | the placeholder when there is no value, else the formatted value |

## Left out

- Database access, `revalidatePath`, and the queries' `where`, `orderBy` and `take` clauses are left out. Fetched records and counts are inputs, in the order the queries return them. `createWorkout` drops the RPE; persistence is not modelled.
- Time zones, daylight saving time, `Date` objects and the `timejs`/calendar libraries are left out. Instants are local-time milliseconds and days are whole days since 1970-01-01. For the same reason, date-and-time formatting, `handleDateSelect` and the trigger's formatted label are left out; the last of these is a parameter.
- Floating point is left out. Weights, RPE and volumes are exact reals, so IEEE rounding of the volume sum is not modelled.
- Number fields are taken as their parsed value, or as absent when empty. `parseInt`/`parseFloat` of exponent or partial forms are not modelled.
- Text.ToNumber: `Number` applied to a split piece is modelled for digit strings only. Leading or trailing whitespace, signs and decimals are treated as not a number.
- Lower-casing covers ASCII letters only.
- Dictionary keys are assumed to be non-numeric strings that are not property names of `Object.prototype` ("constructor", "toString", "__proto__" and the like). A numeric key would change the enumeration order of the object. An inherited name would make `!acc[key]` false, so the following `push` would throw. Categories come from a fixed list and ids from the database, so neither kind of key arises in practice.
- `crypto.randomUUID` is a parameter giving the k-th fresh id.
- These are left out: rendering and CSS classes, toasts, router navigation, the `isSubmitting` flag, async loading, the category filter buttons and the delete buttons.
- Field setters wired directly to inputs are plain field assignments and are not modelled as separate operations.
- The focus and blur calls that the suggestion box's handlers make on the input element are left out.
- SuggestInput.Widget.KeyDown: Escape leaves the index at -1. In the source, Escape then blurs the input, which runs the blur handler and sets the index to 0. In the model that is a separate `Blur` call.
- DateTimeInput.HandleTimeSelect: a picked value with no colon is an invalid date. The source passes an undefined minute to the date library there, which it does not guard. Picked values always come from the option list.
- DateTimeInput.Label: only the shape of the label (its minute and AM/PM) is stated. The date library's formatting is not modelled beyond that.

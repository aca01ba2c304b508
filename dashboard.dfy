/** The statistics of the dashboard page (src/app/page.tsx), computed from the
    workouts it fetched: the five most recent ones, newest first. */
module Dashboard {
  import opened Wrappers
  import opened Seqs
  import opened Calendar
  import opened Records
  import opened Grouping

  /** The dashboard fetches this many of the most recent workouts. */
  const RecentLimit: nat := 5
  /** The streak loop looks back over this many days, today included. */
  const StreakWindow: nat := 30
  /** Exercise names shown per recent-workout card before "+N more". */
  const NamesShown: nat := 3
  /** Recent workouts listed as cards. */
  const CardsShown: nat := 3

  // ---------------------------------------------------------------- week start

  /** `thisWeekStart`: step the date back by as many days as the day of the
      week, then set the clock to midnight. */
  method ThisWeekStart(now: int) returns (start: int)
    ensures IsWeekStartOf(start, now)
  {
    var t := now;
    var back := DayOfWeek(Day(t));
    t := t - back * MsPerDay;
    DayOfMidnightPlus(Day(now) - back, TimeOfDay(now));
    assert Day(t) == Day(now) - back;
    t := t - TimeOfDay(t);
    start := t;
    DayOfMidnightPlus(Day(now) - back, 0);
  }

  /** Every instant of the same Sunday-to-Saturday week has the same week start:
      if `b` lies in the week that starts at `a`'s week start, the two agree. */
  lemma SameWeekSameStart(a: int, b: int, sa: int, sb: int)
    requires IsWeekStartOf(sa, a) && IsWeekStartOf(sb, b)
    requires sa <= b < sa + 7 * MsPerDay
    ensures sa == sb
  {
    var da, db := Day(sa), Day(sb);
    assert sa == da * MsPerDay && sb == db * MsPerDay;
    assert (da + 4) % 7 == 0 && (db + 4) % 7 == 0;
    assert -7 < da - db < 7;
  }

  // ---------------------------------------------------------- workouts this week

  /** "Dated at or after `start`", the filter of `workoutsThisWeek`. */
  function DatedFrom(start: int): Workout -> bool
  {
    (w: Workout) => w.date >= start
  }

  /** `workoutsThisWeek`: the fetched workouts dated at or after the week start.
      There is no upper bound, so a workout dated after this week counts too. */
  function WorkoutsThisWeek(ws: seq<Workout>, weekStart: int): (n: nat)
    ensures n <= |ws|
  {
    |Filter(ws, DatedFrom(weekStart))|
  }

  /** A workout is counted exactly when its day is on or after the Sunday that
      starts the current week. */
  lemma CountedIffOnOrAfterSunday(w: Workout, weekStart: int, now: int)
    requires IsWeekStartOf(weekStart, now)
    ensures DatedFrom(weekStart)(w) <==> Day(w.date) >= Day(now) - DayOfWeek(Day(now))
  {
    var d := Day(weekStart);
    assert weekStart == d * MsPerDay;
    assert d * MsPerDay <= now < d * MsPerDay + 7 * MsPerDay;
    assert d <= Day(now) < d + 7;
    assert (d + 4) % 7 == 0;
    assert DayOfWeek(Day(now)) == Day(now) - d;
  }

  /** The weekly count never exceeds the five workouts the dashboard fetches. */
  lemma WorkoutsThisWeekAtMostFive(ws: seq<Workout>, weekStart: int)
    requires |ws| <= RecentLimit
    ensures WorkoutsThisWeek(ws, weekStart) <= 5
  {
  }

  // -------------------------------------------------------------------- volume

  /** reps x weight of one set. */
  function SetVolume(s: SetRecord): real
  {
    s.reps as real * s.weight
  }

  /** The inner reduce of `totalVolume`: reps times weight summed over the sets. Addition is
      exact here, so the fold order does not matter. */
  function Volume(sets: seq<SetRecord>): real
  {
    if sets == [] then 0.0 else SetVolume(sets[0]) + Volume(sets[1..])
  }

  /** `totalVolume`: the volumes of all fetched workouts added up. */
  function TotalVolume(ws: seq<Workout>): real
  {
    if ws == [] then 0.0 else Volume(ws[0].sets) + TotalVolume(ws[1..])
  }

  /** All sets of the fetched workouts, workout after workout. */
  function AllSets(ws: seq<Workout>): seq<SetRecord>
  {
    if ws == [] then [] else ws[0].sets + AllSets(ws[1..])
  }

  /** Volume is additive over concatenation. */
  lemma {:induction false} VolumeConcat(a: seq<SetRecord>, b: seq<SetRecord>)
    ensures Volume(a + b) == Volume(a) + Volume(b)
  {
    if a == [] {
      assert a + b == b;
    } else {
      assert (a + b)[0] == a[0];
      assert (a + b)[1..] == a[1..] + b;
      VolumeConcat(a[1..], b);
    }
  }

  /** The total volume is the volume of all fetched sets taken together. */
  lemma {:induction false} TotalVolumeOfAllSets(ws: seq<Workout>)
    ensures TotalVolume(ws) == Volume(AllSets(ws))
  {
    if ws != [] {
      TotalVolumeOfAllSets(ws[1..]);
      VolumeConcat(ws[0].sets, AllSets(ws[1..]));
    }
  }

  /** The total is 0 when no fetched workout has a set (in particular when
      nothing was fetched). */
  lemma {:induction false} TotalVolumeWithoutSets(ws: seq<Workout>)
    requires forall i :: 0 <= i < |ws| ==> ws[i].sets == []
    ensures TotalVolume(ws) == 0.0
  {
    if ws != [] {
      TotalVolumeWithoutSets(ws[1..]);
    }
  }

  /** Sets as the data model admits them: reps at least 1, weight non-negative. */
  predicate WellFormedSet(s: SetRecord)
  {
    s.reps >= 1 && s.weight >= 0.0
  }

  /** Over well-formed sets the volume is never negative. */
  lemma {:induction false} VolumeNonNegative(sets: seq<SetRecord>)
    requires forall i :: 0 <= i < |sets| ==> WellFormedSet(sets[i])
    ensures Volume(sets) >= 0.0
  {
    if sets != [] {
      VolumeNonNegative(sets[1..]);
    }
  }

  /** The order of the sets does not matter: any rearrangement has the same volume. */
  lemma {:induction false} VolumePermutation(a: seq<SetRecord>, b: seq<SetRecord>)
    requires multiset(a) == multiset(b)
    ensures Volume(a) == Volume(b)
  {
    if a == [] {
      assert |b| == |multiset(b)| == 0;
    } else {
      var j := RemoveFirst(a, b);
      VolumeRemove(b, j);
      VolumePermutation(a[1..], b[..j] + b[j + 1..]);
    }
  }

  /** The head of `a` sits at some position of its rearrangement `b`; the
      rests are rearrangements of each other. */
  lemma RemoveFirst<T>(a: seq<T>, b: seq<T>) returns (j: nat)
    requires a != [] && multiset(a) == multiset(b)
    ensures j < |b| && b[j] == a[0]
    ensures multiset(a[1..]) == multiset(b[..j] + b[j + 1..])
  {
    var x := a[0];
    assert x in multiset(b);
    j :| 0 <= j < |b| && b[j] == x;
    var pre, post := b[..j], b[j + 1..];
    assert multiset(a[1..]) == multiset(a) - multiset{x} by {
      assert a == [x] + a[1..];
    }
    assert multiset(pre + post) == multiset(b) - multiset{x} by {
      assert b == pre + [x] + post;
    }
  }

  /** Taking one set out of a sequence takes its volume off the total. */
  lemma VolumeRemove(b: seq<SetRecord>, j: nat)
    requires j < |b|
    ensures Volume(b) == SetVolume(b[j]) + Volume(b[..j] + b[j + 1..])
  {
    var pre, x, post := b[..j], b[j], b[j + 1..];
    assert b == pre + ([x] + post);
    VolumeConcat(pre, [x] + post);
    VolumeConcat(pre, post);
    assert ([x] + post)[1..] == post;
    assert Volume([x] + post) == SetVolume(x) + Volume(post);
  }

  // -------------------------------------------------------------------- streak

  /** `hasWorkout` of the streak loop: some fetched workout falls on day `d`
      (both dates taken at local midnight). */
  predicate HasWorkoutOn(ws: seq<Workout>, d: int)
  {
    exists j :: 0 <= j < |ws| && Day(ws[j].date) == d
  }

  /** The number of consecutive workout days ending at day `d`, looking at no
      more than `n` days. */
  function Run(ws: seq<Workout>, d: int, n: nat): (m: nat)
    ensures m <= n
    ensures forall x :: d - m < x <= d ==> HasWorkoutOn(ws, x)
    ensures m < n ==> !HasWorkoutOn(ws, d - m)
    decreases n
  {
    if n == 0 || !HasWorkoutOn(ws, d) then 0 else 1 + Run(ws, d - 1, n - 1)
  }

  /** `Run` is the only count with those properties, so they characterise it. */
  lemma RunUnique(ws: seq<Workout>, d: int, n: nat, m: nat)
    requires m <= n
    requires forall x :: d - m < x <= d ==> HasWorkoutOn(ws, x)
    requires m < n ==> !HasWorkoutOn(ws, d - m)
    ensures Run(ws, d, n) == m
  {
    var r := Run(ws, d, n);
    assert r < m ==> HasWorkoutOn(ws, d - r);
    assert m < r ==> HasWorkoutOn(ws, d - m);
  }

  /** What the streak loop computes: when today has a workout, the run ending
      today; otherwise today is forgiven and the run ends yesterday. */
  function StreakFrom(ws: seq<Workout>, today: int): nat
  {
    if HasWorkoutOn(ws, today) then Run(ws, today, StreakWindow)
    else Run(ws, today - 1, StreakWindow - 1)
  }

  /** The streak loop of the dashboard: day `i` back from today is checked for a
      workout; a gap stops the count, except a gap today (`i == 0`). */
  method Streak(ws: seq<Workout>, now: int) returns (streak: nat)
    ensures streak == StreakFrom(ws, Day(now))
    ensures streak <= StreakWindow
  {
    streak := 0;
    var today := Day(now);
    var i := 0;
    while i < StreakWindow
      invariant 0 <= i <= StreakWindow
      invariant streak == (if i > 0 && HasWorkoutOn(ws, today) then 1 else 0) + (if i > 1 then i - 1 else 0)
      invariant forall x :: today - i < x < today ==> HasWorkoutOn(ws, x)
    {
      var hasWorkout := HasWorkoutOn(ws, today - i);
      if hasWorkout {
        streak := streak + 1;
      } else if i > 0 {
        break;
      }
      i := i + 1;
    }
    StreakAfterGap(ws, today, i);
  }

  /** The state the streak loop stops in determines the streak: the days
      strictly between `today - i` and today all have a workout, and day
      `today - i` has none unless the whole window was seen. */
  lemma StreakAfterGap(ws: seq<Workout>, today: int, i: nat)
    requires 1 <= i <= StreakWindow
    requires forall x :: today - i < x < today ==> HasWorkoutOn(ws, x)
    requires i < StreakWindow ==> !HasWorkoutOn(ws, today - i)
    ensures StreakFrom(ws, today) == (if HasWorkoutOn(ws, today) then 1 else 0) + (i - 1)
  {
    RunUnique(ws, today - 1, StreakWindow - 1, i - 1);
  }

  /** A workout today: the streak is the run of workout days ending today. */
  lemma StreakWithWorkoutToday(ws: seq<Workout>, today: int, m: nat)
    requires HasWorkoutOn(ws, today)
    requires m <= StreakWindow
    requires forall x :: today - m < x <= today ==> HasWorkoutOn(ws, x)
    requires m < StreakWindow ==> !HasWorkoutOn(ws, today - m)
    ensures StreakFrom(ws, today) == m
  {
    RunUnique(ws, today, StreakWindow, m);
  }

  /** No workout today: the gap is forgiven and the streak is the run ending
      yesterday, which is 0 when yesterday has no workout either. */
  lemma StreakWithoutWorkoutToday(ws: seq<Workout>, today: int)
    requires !HasWorkoutOn(ws, today)
    ensures StreakFrom(ws, today) == Run(ws, today - 1, StreakWindow - 1)
    ensures !HasWorkoutOn(ws, today - 1) ==> StreakFrom(ws, today) == 0
  {
  }

  /** The distinct days of the fetched workouts. */
  function WorkoutDays(ws: seq<Workout>): (days: set<int>)
    ensures |days| <= |ws|
    ensures forall d :: d in days <==> HasWorkoutOn(ws, d)
  {
    if ws == [] then {}
    else
      var rest := WorkoutDays(ws[1..]);
      assert forall d :: HasWorkoutOn(ws, d) <==> d == Day(ws[0].date) || HasWorkoutOn(ws[1..], d) by {
        forall d ensures HasWorkoutOn(ws, d) <==> d == Day(ws[0].date) || HasWorkoutOn(ws[1..], d) {
          if HasWorkoutOn(ws[1..], d) {
            var j :| 0 <= j < |ws[1..]| && Day(ws[1..][j].date) == d;
            assert Day(ws[j + 1].date) == d;
          }
          if HasWorkoutOn(ws, d) && d != Day(ws[0].date) {
            var j :| 0 <= j < |ws| && Day(ws[j].date) == d;
            assert Day(ws[1..][j - 1].date) == d;
          }
        }
      }
      {Day(ws[0].date)} + rest
  }

  /** The `m` days ending at day `d`. */
  function DaysEndingAt(d: int, m: nat): (days: set<int>)
    ensures |days| == m
    ensures forall x :: x in days <==> d - m < x <= d
  {
    if m == 0 then {} else DaysEndingAt(d, m - 1) + {d - (m - 1)}
  }

  lemma SubsetCard(a: set<int>, b: set<int>)
    requires a <= b
    ensures |a| <= |b|
  {
    assert b == a + (b - a);
  }

  /** Several workouts on one calendar day count once: a run is never longer
      than the number of distinct workout days. */
  lemma RunAtMostDistinctDays(ws: seq<Workout>, d: int, n: nat)
    ensures Run(ws, d, n) <= |WorkoutDays(ws)|
  {
    var m := Run(ws, d, n);
    var days := DaysEndingAt(d, m);
    SubsetCard(days, WorkoutDays(ws));
  }

  /** The streak is at most the number of distinct workout days among the
      fetched workouts, so the dashboard, which fetches five, never shows more
      than 5. */
  lemma StreakAtMostDistinctDays(ws: seq<Workout>, today: int)
    ensures StreakFrom(ws, today) <= |WorkoutDays(ws)| <= |ws|
    ensures |ws| <= RecentLimit ==> StreakFrom(ws, today) <= 5
  {
    RunAtMostDistinctDays(ws, today, StreakWindow);
    RunAtMostDistinctDays(ws, today - 1, StreakWindow - 1);
  }

  // ------------------------------------------------ exercise summary per card

  /** One entry of a card's `exerciseGroups`: the exercise and its set count. */
  datatype ExerciseTally = ExerciseTally(exercise: Exercise, count: nat)

  /** What the accumulator holds for exercise id `k` once `xs` is processed: the
      exercise of the first set seen with that id, and how many sets have it. */
  function TallyOf(xs: seq<SetRecord>, k: string): ExerciseTally
    requires k in Keys(xs, ExerciseIdOf)
  {
    ExerciseTally(xs[FirstIndex(xs, ExerciseIdOf, k)].exercise, |Members(xs, ExerciseIdOf, k)|)
  }

  /** The accumulator `acc`, with its keys in insertion order `order`, is the
      summary of the sets `xs`. */
  ghost predicate Summarises(order: seq<string>, acc: map<string, ExerciseTally>, xs: seq<SetRecord>)
  {
    order == Keys(xs, ExerciseIdOf) &&
    (forall k :: k in acc <==> k in order) &&
    (forall k :: k in acc ==> acc[k] == TallyOf(xs, k))
  }

  /** One step of the reduce for a set whose id was seen before: its tally's
      count goes up by one, and the accumulator stays the summary. */
  lemma TallyStepSeen(xs: seq<SetRecord>, s: SetRecord, order: seq<string>, acc: map<string, ExerciseTally>)
    requires Summarises(order, acc, xs) && s.exerciseId in acc
    ensures var k := s.exerciseId;
            Summarises(order, acc[k := acc[k].(count := acc[k].count + 1)], xs + [s])
  {
    var k := s.exerciseId;
    var acc' := acc[k := acc[k].(count := acc[k].count + 1)];
    assert order == Keys(xs + [s], ExerciseIdOf) by {
      KeysSnoc(xs, s, ExerciseIdOf);
    }
    assert forall k' :: k' in acc' <==> k' in order;
    forall k' | k' in acc'
      ensures acc'[k'] == TallyOf(xs + [s], k')
    {
      if k' == k {
        TallyBumped(xs, s);
      } else {
        TallyUntouched(xs, s, k');
      }
    }
    assert Summarises(order, acc', xs + [s]);
  }

  /** One step of the reduce for a set with a new id: its tally is created
      with count 0 and bumped to 1, the id is appended to the order, and the
      accumulator stays the summary. */
  lemma TallyStepNew(xs: seq<SetRecord>, s: SetRecord, order: seq<string>, acc: map<string, ExerciseTally>)
    requires Summarises(order, acc, xs) && s.exerciseId !in acc
    ensures var k := s.exerciseId;
            var created := acc[k := ExerciseTally(s.exercise, 0)];
            Summarises(order + [k], created[k := created[k].(count := created[k].count + 1)], xs + [s])
  {
    var k := s.exerciseId;
    var created := acc[k := ExerciseTally(s.exercise, 0)];
    var acc' := created[k := created[k].(count := created[k].count + 1)];
    assert order + [k] == Keys(xs + [s], ExerciseIdOf) by {
      KeysSnoc(xs, s, ExerciseIdOf);
    }
    assert forall k' :: k' in acc' <==> k' in order + [k];
    forall k' | k' in acc'
      ensures acc'[k'] == TallyOf(xs + [s], k')
    {
      if k' == k {
        TallyCreated(xs, s);
      } else {
        TallyUntouched(xs, s, k');
      }
    }
  }

  /** A set whose id was seen before bumps that id's tally by one. */
  lemma TallyBumped(xs: seq<SetRecord>, s: SetRecord)
    requires s.exerciseId in Keys(xs, ExerciseIdOf)
    ensures s.exerciseId in Keys(xs + [s], ExerciseIdOf)
    ensures TallyOf(xs + [s], s.exerciseId) == TallyOf(xs, s.exerciseId).(count := TallyOf(xs, s.exerciseId).count + 1)
  {
    var ys, k := xs + [s], s.exerciseId;
    assert forall i :: 0 <= i < |xs| ==> ys[i] == xs[i];
    FilterSnoc(xs, s, KeyIs(ExerciseIdOf, k));
    FirstIndexUnique(ys, ExerciseIdOf, k, FirstIndex(xs, ExerciseIdOf, k));
  }

  /** A set with a new id creates a tally of 1 holding that set's exercise. */
  lemma TallyCreated(xs: seq<SetRecord>, s: SetRecord)
    requires s.exerciseId !in Keys(xs, ExerciseIdOf)
    ensures s.exerciseId in Keys(xs + [s], ExerciseIdOf)
    ensures TallyOf(xs + [s], s.exerciseId) == ExerciseTally(s.exercise, 1)
  {
    var ys, k := xs + [s], s.exerciseId;
    assert ys[|xs|] == s;
    FilterSnoc(xs, s, KeyIs(ExerciseIdOf, k));
    NoMembers(xs, ExerciseIdOf, k);
    FirstIndexUnique(ys, ExerciseIdOf, k, |xs|);
  }

  /** A set leaves the tallies of the other ids alone. */
  lemma TallyUntouched(xs: seq<SetRecord>, s: SetRecord, k: string)
    requires k in Keys(xs, ExerciseIdOf) && k != s.exerciseId
    ensures k in Keys(xs + [s], ExerciseIdOf)
    ensures TallyOf(xs + [s], k) == TallyOf(xs, k)
  {
    var ys := xs + [s];
    assert forall i :: 0 <= i < |xs| ==> ys[i] == xs[i];
    FilterSnoc(xs, s, KeyIs(ExerciseIdOf, k));
    FirstIndexUnique(ys, ExerciseIdOf, k, FirstIndex(xs, ExerciseIdOf, k));
  }

  /** The count reduce: a dictionary of tallies keyed by exercise id, created
      with the set's exercise on first sight and incremented for every set,
      read back with `Object.values` in insertion order. */
  method ExerciseSummary(sets: seq<SetRecord>) returns (entries: seq<ExerciseTally>)
    ensures |entries| == |Keys(sets, ExerciseIdOf)|
    ensures forall j :: 0 <= j < |entries| ==>
              Keys(sets, ExerciseIdOf)[j] in Keys(sets, ExerciseIdOf) &&
              entries[j] == TallyOf(sets, Keys(sets, ExerciseIdOf)[j])
  {
    var order: seq<string> := [];
    var acc: map<string, ExerciseTally> := map[];
    for i := 0 to |sets|
      invariant Summarises(order, acc, sets[..i])
    {
      assert sets[..i + 1] == sets[..i] + [sets[i]];
      order, acc := CountSet(sets[..i], order, acc, sets[i]);
    }
    assert sets[..|sets|] == sets;
    entries := ValuesInOrder(order, acc);
  }

  /** The reduce callback: create the tally on first sight of the id, then
      bump its count. */
  method CountSet(ghost xs: seq<SetRecord>, order: seq<string>, acc: map<string, ExerciseTally>, s: SetRecord)
    returns (order': seq<string>, acc': map<string, ExerciseTally>)
    requires Summarises(order, acc, xs)
    ensures Summarises(order', acc', xs + [s])
  {
    var k := s.exerciseId;
    order', acc' := order, acc;
    if k !in acc {
      TallyStepNew(xs, s, order, acc);
      order' := order + [k];
      acc' := acc[k := ExerciseTally(s.exercise, 0)];
    } else {
      TallyStepSeen(xs, s, order, acc);
    }
    acc' := acc'[k := acc'[k].(count := acc'[k].count + 1)];
  }

  /** `Object.values` of the tallies: one per key, in insertion order. */
  method ValuesInOrder(order: seq<string>, acc: map<string, ExerciseTally>) returns (entries: seq<ExerciseTally>)
    requires forall k :: k in order ==> k in acc
    ensures |entries| == |order|
    ensures forall q :: 0 <= q < |order| ==> entries[q] == acc[order[q]]
  {
    entries := [];
    for j := 0 to |order|
      invariant |entries| == j
      invariant forall q :: 0 <= q < j ==> entries[q] == acc[order[q]]
    {
      entries := entries + [acc[order[j]]];
    }
  }

  /** The tallies' counts in order. */
  function Counts(entries: seq<ExerciseTally>): seq<nat>
  {
    seq(|entries|, j requires 0 <= j < |entries| => entries[j].count)
  }

  lemma {:induction false} SumOfSizes<K, V>(gs: seq<Group<K, V>>, counts: seq<nat>)
    requires |counts| == |gs|
    requires forall j :: 0 <= j < |gs| ==> counts[j] == |gs[j].members|
    ensures Sum(counts) == TotalSize(gs)
  {
    if gs != [] {
      SumOfSizes(gs[1..], counts[1..]);
    }
  }

  /** The summary has one entry per distinct exercise id, and its counts add up
      to the workout's number of sets. */
  lemma SummaryCountsSum(sets: seq<SetRecord>, entries: seq<ExerciseTally>)
    requires |entries| == |Keys(sets, ExerciseIdOf)|
    requires forall j :: 0 <= j < |entries| ==>
      entries[j].count == |Members(sets, ExerciseIdOf, Keys(sets, ExerciseIdOf)[j])|
    ensures Sum(Counts(entries)) == |sets|
  {
    SumOfSizes(Grouped(sets, ExerciseIdOf), Counts(entries));
    GroupSizesSum(sets, ExerciseIdOf);
  }

  /** A recent-workout card: the names of at most three exercises, the
      "+N more" badge and the "N sets" badge. */
  datatype RecentCard = RecentCard(names: seq<string>, more: Option<nat>, setCount: nat)

  function CardFor(w: Workout, entries: seq<ExerciseTally>): (c: RecentCard)
    ensures |c.names| == if |entries| < NamesShown then |entries| else NamesShown
    ensures forall j :: 0 <= j < |c.names| ==> c.names[j] == entries[j].exercise.name
    ensures c.more.Some? <==> |entries| > NamesShown
    ensures c.more.Some? ==> c.more.value == |entries| - NamesShown
    ensures c.setCount == |w.sets|
  {
    var shown := Take(entries, NamesShown);
    RecentCard(seq(|shown|, j requires 0 <= j < |shown| => shown[j].exercise.name),
               MoreBadge(|entries|, NamesShown), |w.sets|)
  }

  /** Fed the summary of its own workout, a card names the exercises of the
      first three distinct exercise ids in order of first appearance, each by
      the exercise of its first set, and counts the ids beyond those three. */
  lemma CardOfSummary(w: Workout, entries: seq<ExerciseTally>)
    requires |entries| == |Keys(w.sets, ExerciseIdOf)|
    requires forall j :: 0 <= j < |entries| ==>
               Keys(w.sets, ExerciseIdOf)[j] in Keys(w.sets, ExerciseIdOf) &&
               entries[j] == TallyOf(w.sets, Keys(w.sets, ExerciseIdOf)[j])
    ensures var c, ks := CardFor(w, entries), Keys(w.sets, ExerciseIdOf);
            (forall j :: 0 <= j < |c.names| ==>
               c.names[j] == w.sets[FirstIndex(w.sets, ExerciseIdOf, ks[j])].exercise.name) &&
            (c.more.Some? <==> |ks| > NamesShown) &&
            (c.more.Some? ==> c.more.value == |ks| - NamesShown)
  {
    var c, ks := CardFor(w, entries), Keys(w.sets, ExerciseIdOf);
    forall j | 0 <= j < |c.names|
      ensures c.names[j] == w.sets[FirstIndex(w.sets, ExerciseIdOf, ks[j])].exercise.name
    {
      assert c.names[j] == entries[j].exercise.name;
      assert entries[j] == TallyOf(w.sets, ks[j]);
    }
  }

  /** The recent-workouts section: the empty state, or cards for the first three. */
  datatype RecentSection = NoWorkoutsYet | Cards(workouts: seq<Workout>)

  function RecentSectionFor(ws: seq<Workout>): (r: RecentSection)
    ensures r.NoWorkoutsYet? <==> ws == []
    ensures r.Cards? ==> r.workouts <= ws && |r.workouts| == (if |ws| < CardsShown then |ws| else CardsShown)
  {
    if ws == [] then NoWorkoutsYet else Cards(Take(ws, CardsShown))
  }
}

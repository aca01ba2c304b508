/** The fetched records the pages work on, as the data layer returns them:
    a workout with its sets, each set carrying its exercise. */
module Records {
  import opened Wrappers

  /** An exercise of the library. `category` is a free string: the data layer
      does not restrict it to the movement-category table. */
  datatype Exercise = Exercise(id: string, name: string, category: string, notes: Option<string>)

  /** A logged set. Weight is a decimal number of kilograms, kept exact here. */
  datatype SetRecord = SetRecord(
    id: string, exerciseId: string, reps: int, weight: real, rpe: Option<real>, exercise: Exercise)

  /** A workout session. `date` is an instant in local-time milliseconds since
      1970-01-01 00:00 (see module Calendar). */
  datatype Workout = Workout(id: string, date: int, notes: Option<string>, sets: seq<SetRecord>)

  /** The grouping key of the workout pages. */
  function ExerciseIdOf(s: SetRecord): string
  {
    s.exerciseId
  }

  /** The grouping key of the exercise library. */
  function CategoryOf(e: Exercise): string
  {
    e.category
  }
}

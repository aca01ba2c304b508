/** The "Add Exercise" form (src/app/exercises/new/page.tsx): the required-field
    check and the payload handed to `createExercise`. */
module ExerciseForm {
  import opened Wrappers
  import opened Text

  /** The argument of `createExercise`. */
  datatype ExerciseInput = ExerciseInput(name: string, category: string, notes: Option<string>)

  const RequiredFieldsError: string := "Please fill in all required fields"

  /** `handleSubmit` up to the call of `createExercise`: a blank name or no
      selected category is refused; otherwise the trimmed name, the category as
      selected, and the trimmed notes, absent when blank. */
  function SubmitExercise(name: string, category: string, notes: string): (r: Result<ExerciseInput>)
    ensures r.Failure? <==> IsBlank(name) || category == ""
    ensures r.Failure? ==> r.error == RequiredFieldsError
    ensures r.Success? ==> r.value.category == category
    ensures r.Success? ==> r.value.notes == TrimmedOrUndefined(notes)
    ensures r.Success? ==> r.value.name == Trim(name) && r.value.name != ""
  {
    TrimEmptyIffBlank(name);
    if Trim(name) == "" || category == "" then Failure(RequiredFieldsError)
    else Success(ExerciseInput(Trim(name), category, TrimmedOrUndefined(notes)))
  }

  /** Submitting is stable under its own output: the stored name, submitted
      again with the same category and notes, gives the same payload. */
  lemma SubmittedNameIsStable(name: string, category: string, notes: string)
    requires SubmitExercise(name, category, notes).Success?
    ensures SubmitExercise(Trim(name), category, notes) == SubmitExercise(name, category, notes)
  {
    TrimIdempotent(name);
  }
}

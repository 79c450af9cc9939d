/** The add-task form (`TaskForm` in `AddTask.tsx`): its state, its
    change handlers and what a submission sends. */
module TaskForm {
  import opened UtcDay
  import opened Text
  import opened TaskModel
  import opened DayFilter
  import opened Calendar

  /** The priority the form starts with and returns to after a submission. */
  const DefaultPriority: string := "medium"

  /** The three controlled inputs of the form. */
  datatype FormState = FormState(title: string, description: string, priority: string)

  /** A fresh form: empty title and description, medium priority. */
  const InitialForm: FormState := FormState("", "", DefaultPriority)

  /** The priority held by the form is one the select offers. */
  predicate ValidForm(f: FormState) {
    f.priority in PriorityOptions
  }

  /** What `onSubmit` receives. `date` is `selectedDate.toISOString()`, the
      full-precision instant of the selected date, which the store reads
      back as the same time value. */
  datatype Payload = Payload(title: string, description: string, date: TimeValue, priority: string)

  /** A rejected submission alerts and leaves the form as it was; an accepted
      one hands a payload to `onSubmit` and resets the form. */
  datatype SubmitOutcome = Rejected(form: FormState) | Submitted(payload: Payload, form: FormState)

  /** The title input's `onChange`. */
  function SetTitle(f: FormState, value: string): (g: FormState)
    ensures g.title == value && g.description == f.description && g.priority == f.priority
  {
    f.(title := value)
  }

  /** The description textarea's `onChange`. */
  function SetDescription(f: FormState, value: string): (g: FormState)
    ensures g.description == value && g.title == f.title && g.priority == f.priority
  {
    f.(description := value)
  }

  /** The priority select's `onChange`; the select only produces the values
      of its options. */
  function SetPriority(f: FormState, value: string): (g: FormState)
    requires value in PriorityOptions
    ensures ValidForm(g)
    ensures g.priority == value && g.title == f.title && g.description == f.description
  {
    f.(priority := value)
  }

  /** `handleSubmit`: a title that trims to nothing is refused and the form
      is kept; otherwise the trimmed title and description, the selected
      instant and the chosen priority are submitted and the form is reset. */
  function HandleSubmit(f: FormState, selected: TimeValue): (out: SubmitOutcome)
    ensures out.Rejected? <==> AllWhitespace(f.title)
    ensures out.Rejected? ==> out.form == f
    ensures out.Submitted? ==>
      && out.payload.title != []
      && IsTrimOf(out.payload.title, f.title)
      && IsTrimOf(out.payload.description, f.description)
      && out.payload.date == selected
      && out.payload.priority == f.priority
      && out.form == InitialForm
  {
    TrimEmptyIffAllWhitespace(f.title);
    if Trim(f.title) == [] then Rejected(f)
    else Submitted(Payload(Trim(f.title), Trim(f.description), selected, f.priority), InitialForm)
  }

  /** The form starts valid, every handler keeps it valid, and so every
      submitted priority is one of `low`, `medium` and `high`. */
  lemma FormStaysValid(f: FormState, selected: TimeValue)
    requires ValidForm(f)
    ensures ValidForm(InitialForm)
    ensures forall v :: ValidForm(SetTitle(f, v)) && ValidForm(SetDescription(f, v))
    ensures ValidForm(HandleSubmit(f, selected).form)
    ensures HandleSubmit(f, selected).Submitted? ==> HandleSubmit(f, selected).payload.priority in PriorityOptions
  {
  }

  /** The submitted title and description are already trimmed: trimming
      them again changes nothing, and the title has no surrounding whitespace. */
  lemma SubmittedFieldsAreTrimmed(f: FormState, selected: TimeValue)
    requires !AllWhitespace(f.title)
    ensures var p := HandleSubmit(f, selected).payload;
      && Trim(p.title) == p.title
      && Trim(p.description) == p.description
      && NoSurroundingWhitespace(p.title)
  {
    var p := HandleSubmit(f, selected).payload;
    assert p.title == Trim(f.title) && p.description == Trim(f.description);
    TrimIdempotent(f.title);
    TrimIdempotent(f.description);
    TrimOfIsUnique(p.title, Trim(f.title), f.title);
  }

  /** After a successful submission the reset form would be refused, so a
      second press of the button submits nothing more. */
  lemma ResetFormRejectsResubmission(f: FormState, selected: TimeValue, again: TimeValue)
    requires !AllWhitespace(f.title)
    ensures HandleSubmit(HandleSubmit(f, selected).form, again) == Rejected(InitialForm)
  {
  }

  /** A task stored with the submitted date falls on the selected day: it is
      in that day's filtered view of any list that holds it, and the
      calendar marks that day. */
  lemma SubmittedTaskShownOnSelectedDay(f: FormState, selected: TimeValue, tasks: seq<Task>, t: Task)
    requires !AllWhitespace(f.title)
    requires t.date == HandleSubmit(f, selected).payload.date
    requires t in tasks
    ensures t in FilterByDay(tasks, selected)
    ensures HasTasks(tasks, selected)
  {
    MarkedIffFilterNonEmpty(tasks, selected);
  }
}

/** How one task is rendered in the task list (`TaskList.tsx` and its
    successor `TaskSection.tsx`): priority badge colour and label, the
    completion checkbox, and the empty-day message. */
module TaskItem {
  import opened Text
  import opened TaskModel

  const HighClass: string := "bg-red-100 text-red-800 border-red-200"
  const MediumClass: string := "bg-yellow-100 text-yellow-800 border-yellow-200"
  const LowClass: string := "bg-green-100 text-green-800 border-green-200"
  const DefaultClass: string := "bg-gray-100 text-gray-800 border-gray-200"

  /** `getPriorityColor`: red, yellow and green classes for `high`, `medium`
      and `low`, gray for any other string. */
  function PriorityColor(priority: string): (c: string)
    ensures c == HighClass || c == MediumClass || c == LowClass || c == DefaultClass
    ensures priority == "high" ==> c == HighClass
    ensures priority == "medium" ==> c == MediumClass
    ensures priority == "low" ==> c == LowClass
    ensures c == DefaultClass <==> priority !in PriorityOptions
  {
    match priority
    case "high" => HighClass
    case "medium" => MediumClass
    case "low" => LowClass
    case _ => DefaultClass
  }

  /** The three known priorities get three different colours, all different
      from the default gray. */
  lemma PriorityColorsDistinct(p: string, q: string)
    requires p in PriorityOptions && q in PriorityOptions
    ensures PriorityColor(p) != DefaultClass
    ensures PriorityColor(p) == PriorityColor(q) <==> p == q
  {
  }

  /** The suffix after the capitalised priority in the badge. */
  const LabelSuffix: string := " Priority"

  /** The badge text: the priority with its first character upper-cased,
      followed by ` Priority`. */
  function PriorityLabel(priority: string): (badge: string)
    ensures |badge| == |priority| + |LabelSuffix|
    ensures badge[|priority|..] == LabelSuffix
    ensures |priority| > 0 ==> badge[0] == ToUpper(priority[0]) && badge[1..|priority|] == priority[1..]
  {
    Capitalize(priority) + LabelSuffix
  }

  /** The badges of the selectable priorities read like the select's own
      option texts. */
  lemma OptionLabels()
    ensures PriorityLabel("low") == "Low Priority"
    ensures PriorityLabel("medium") == "Medium Priority"
    ensures PriorityLabel("high") == "High Priority"
  {
  }

  /** The arguments the checkbox passes to `onToggle`. */
  datatype ToggleRequest = ToggleRequest(id: string, completed: bool)

  /** The checkbox's `onChange`: asks for the opposite of the task's
      current completion. */
  function ToggleRequestFor(t: Task): (r: ToggleRequest)
    ensures r.id == t.id && r.completed != t.completed
  {
    ToggleRequest(t.id, !t.completed)
  }

  /** Once a toggle has been applied, toggling again asks for the original
      completion value: two clicks return the task to where it was. */
  lemma ToggleTwiceRestores(t: Task)
    ensures var once := t.(completed := ToggleRequestFor(t).completed);
      var twice := once.(completed := ToggleRequestFor(once).completed);
      twice == t
  {
  }

  /** The list shows "No tasks for this date" exactly when it is given no task. */
  function ShowsEmptyState(tasks: seq<Task>): (empty: bool)
    ensures empty <==> forall t :: t !in tasks
  {
    assert |tasks| > 0 ==> tasks[0] in tasks;
    |tasks| == 0
  }
}

/** The task record as the dashboard components receive it from the task API. */
module TaskModel {
  import opened UtcDay

  datatype Option<T> = None | Some(value: T)

  /** One task. `date` is the instant the store returns for the task's
      `date` field, already read back as a time value; `priority` is free
      text because the components accept any string there. The store's
      `createdAt` and `updatedAt` stamps are never read by the components
      and are not modelled. */
  datatype Task = Task(
    id: string,
    title: string,
    description: Option<string>,
    date: TimeValue,
    completed: bool,
    priority: string,
    userId: string
  )

  /** The priorities a task is created with, in the order the add-task
      select offers them. */
  const PriorityOptions: seq<string> := ["low", "medium", "high"]

  /** The task falls on the UTC day of the selected instant. */
  predicate OnDay(t: Task, selected: TimeValue) {
    SameDay(t.date, selected)
  }
}

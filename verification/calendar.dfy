/** The calendar widget's task markers and date clicks (`TaskCalendar`). */
module Calendar {
  import opened UtcDay
  import opened TaskModel
  import opened DayFilter

  /** What `tileContent` draws on a day tile: a dot, or nothing (`null`). */
  datatype Marker = Dot

  /** The CSS class `tileClassName` gives a tile with tasks. */
  const HasTasksClass: string := "has-tasks"

  /** `tasks.some(task => dayOf(task.date) === dayOf(date))`: scans from the
      front and stops at the first task on the tile's UTC day. */
  function HasTasks(tasks: seq<Task>, tile: TimeValue): (marked: bool)
    ensures marked <==> exists i :: 0 <= i < |tasks| && OnDay(tasks[i], tile)
  {
    if |tasks| == 0 then false
    else OnDay(tasks[0], tile) || HasTasks(tasks[1..], tile)
  }

  /** The dot drawn under a tile, present exactly when the tile's day holds a task. */
  function TileContent(tasks: seq<Task>, tile: TimeValue): (m: Option<Marker>)
    ensures m.Some? <==> exists t :: t in tasks && OnDay(t, tile)
  {
    if HasTasks(tasks, tile) then Some(Dot) else None
  }

  /** The tile's class: `has-tasks` when the tile's day holds a task, else empty. */
  function TileClassName(tasks: seq<Task>, tile: TimeValue): (c: string)
    ensures c == HasTasksClass || c == ""
    ensures c == HasTasksClass <==> exists t :: t in tasks && OnDay(t, tile)
  {
    if HasTasks(tasks, tile) then HasTasksClass else ""
  }

  /** The UTC days that carry a marker: the day keys of all task dates. */
  function MarkedDays(tasks: seq<Task>): (days: set<int>)
    ensures forall i :: 0 <= i < |tasks| ==> DayKey(tasks[i].date) in days
    ensures forall d :: d in days ==> exists i :: 0 <= i < |tasks| && DayKey(tasks[i].date) == d
  {
    set i | 0 <= i < |tasks| :: DayKey(tasks[i].date)
  }

  /** The calendar's own state: the date it highlights. */
  datatype CalendarState = CalendarState(value: TimeValue)

  /** What a click produces: the calendar's next state and the date passed
      on to `onDateSelect`. */
  datatype Click = Click(state: CalendarState, forwarded: TimeValue)

  /** `handleDateClick`: the calendar highlights the clicked date and forwards
      that same date to the dashboard. */
  function HandleDateClick(date: TimeValue): (c: Click)
    ensures c.state.value == c.forwarded == date
  {
    Click(CalendarState(date), date)
  }

  /** The dot and the `has-tasks` class are two readings of one predicate,
      so they always appear together. */
  lemma DotIffHasTasksClass(tasks: seq<Task>, tile: TimeValue)
    ensures TileContent(tasks, tile).Some? <==> TileClassName(tasks, tile) == HasTasksClass
  {
  }

  /** A tile is marked exactly when the day filter for that date is non-empty:
      the calendar and the task section agree on which tasks a day holds. */
  lemma MarkedIffFilterNonEmpty(tasks: seq<Task>, tile: TimeValue)
    ensures HasTasks(tasks, tile) <==> FilterByDay(tasks, tile) != []
  {
    if HasTasks(tasks, tile) {
      var i :| 0 <= i < |tasks| && OnDay(tasks[i], tile);
      assert tasks[i] in FilterByDay(tasks, tile);
    }
  }

  /** A tile is marked exactly when its UTC day is one of the marked days. */
  lemma MarkedIffDayInMarkedDays(tasks: seq<Task>, tile: TimeValue)
    ensures HasTasks(tasks, tile) <==> DayKey(tile) in MarkedDays(tasks)
  {
  }

  /** An empty task list marks no tile. */
  lemma EmptyListMarksNothing(tile: TimeValue)
    ensures !HasTasks([], tile)
    ensures TileContent([], tile) == None && TileClassName([], tile) == ""
  {
  }

  /** Marking is monotone: a list holding every task of another list marks
      every tile the other one marks. Adding tasks never unmarks a date, and
      removing tasks never marks one. */
  lemma MarkingMonotone(small: seq<Task>, large: seq<Task>, tile: TimeValue)
    requires forall t :: t in small ==> t in large
    requires HasTasks(small, tile)
    ensures HasTasks(large, tile)
  {
    var i :| 0 <= i < |small| && OnDay(small[i], tile);
    assert small[i] in large;
    var j :| 0 <= j < |large| && large[j] == small[i];
  }

  /** Appending a task keeps every existing mark and marks the new task's day. */
  lemma AddingTaskMarksItsDay(tasks: seq<Task>, t: Task, tile: TimeValue)
    ensures HasTasks(tasks, tile) ==> HasTasks(tasks + [t], tile)
    ensures HasTasks(tasks + [t], t.date)
  {
    if HasTasks(tasks, tile) {
      MarkingMonotone(tasks, tasks + [t], tile);
    }
    assert (tasks + [t])[|tasks|] == t;
  }
}

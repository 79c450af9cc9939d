/** The dashboard page (`DashboardClient`): which list each panel receives
    in each of the three variants of the page, and how a calendar click
    and a task submission flow through them. */
module Dashboard {
  import opened UtcDay
  import opened TaskModel
  import opened DayFilter
  import opened Calendar
  import opened Statistics
  import opened TaskForm
  import opened TaskItem
  import opened Text

  /** The three versions of the page:
      - `Classic`: `src/components/DashboardClient.tsx`, statistics inline over all tasks;
      - `Sectioned`: `src/components/Dashboard/DashboardClient.tsx`, `TaskStatistics` over all tasks;
      - `DayScoped`: `src/components/Dashboard/DashboardClient.jsx`, `TaskStatistics` over the day's tasks. */
  datatype Variant = Classic | Sectioned | DayScoped

  /** The page's state: the fetched tasks, the selected date, and the
      calendar widget's own highlighted date. */
  datatype DashboardState = DashboardState(tasks: seq<Task>, selected: TimeValue, calendar: CalendarState)

  /** What the page renders: the list given to the calendar, the list given
      to the task list or section, the list given to the statistics, and the
      figures shown. */
  datatype View = View(calendarTasks: seq<Task>, sectionTasks: seq<Task>, statsTasks: seq<Task>, stats: Stats)

  /** One render. The filtered list is recomputed whenever the tasks or the
      selected date change, so it is a function of the state. */
  function Render(v: Variant, s: DashboardState): (view: View)
    ensures view.calendarTasks == s.tasks
    ensures view.sectionTasks == FilterByDay(s.tasks, s.selected)
    ensures forall t :: t in view.sectionTasks <==> t in s.tasks && OnDay(t, s.selected)
    ensures view.stats == ComputeStats(view.statsTasks)
    ensures view.stats.total == |view.statsTasks|
    ensures view.stats.completed + view.stats.pending == view.stats.total
    ensures v != DayScoped ==> view.statsTasks == s.tasks
    ensures v == DayScoped ==> view.statsTasks == view.sectionTasks
  {
    var filtered := FilterByDay(s.tasks, s.selected);
    var statsTasks := if v == DayScoped then filtered else s.tasks;
    View(s.tasks, filtered, statsTasks, ComputeStats(statsTasks))
  }

  /** A calendar click: the calendar highlights the date and forwards it;
      `handleDateSelect` stores it as the selected date. */
  function ClickDate(s: DashboardState, date: TimeValue): (s': DashboardState)
    ensures s'.tasks == s.tasks
    ensures s'.selected == date && s'.calendar.value == date
  {
    var click := HandleDateClick(date);
    s.(selected := click.forwarded, calendar := click.state)
  }

  /** A fetch of the task list (on mount and after every toggle, delete or
      create): the loading branch unmounts the calendar, so it comes back
      with its highlighted date reset to the current time `now`, while the
      page keeps its selected date. */
  function Refetch(s: DashboardState, fetched: seq<Task>, now: TimeValue): (s': DashboardState)
    ensures s'.tasks == fetched && s'.selected == s.selected
    ensures s'.calendar.value == now
  {
    s.(tasks := fetched, calendar := CalendarState(now))
  }

  /** The calendar's highlight is not part of what the panels and figures
      receive: a refetch renders the same view whatever time it happens at. */
  lemma RefetchViewIgnoresClock(v: Variant, s: DashboardState, fetched: seq<Task>, now: TimeValue, later: TimeValue)
    ensures Render(v, Refetch(s, fetched, now)) == Render(v, Refetch(s, fetched, later))
    ensures Render(v, Refetch(s, fetched, now)).sectionTasks == FilterByDay(fetched, s.selected)
  {
  }

  /** After a click, a refetch on another day leaves the calendar
      highlighting today while the page keeps listing the clicked day: the
      two agree on the date only until the next fetch. */
  lemma RefetchSplitsHighlight(s: DashboardState, date: TimeValue, fetched: seq<Task>, now: TimeValue)
    requires !SameDay(date, now)
    ensures var s' := Refetch(ClickDate(s, date), fetched, now);
      && s'.selected == date
      && s'.calendar.value != s'.selected
      && Render(Classic, s').sectionTasks == FilterByDay(fetched, date)
  {
  }

  /** In the two variants that count the whole list, the statistics do not
      depend on the selected date. */
  lemma StatsIgnoreSelectedDate(v: Variant, s: DashboardState, date: TimeValue)
    requires v != DayScoped
    ensures Render(v, ClickDate(s, date)).stats == Render(v, s).stats
    ensures Render(v, s).stats == ComputeStats(s.tasks)
  {
  }

  /** Restricting a list to one day never raises its completed or pending count. */
  lemma {:induction false} FilteredCountsBounded(tasks: seq<Task>, selected: TimeValue)
    ensures CountCompleted(FilterByDay(tasks, selected)) <= CountCompleted(tasks)
    ensures CountPending(FilterByDay(tasks, selected)) <= CountPending(tasks)
    decreases |tasks|
  {
    if |tasks| > 0 {
      var init := tasks[..|tasks| - 1];
      var last := tasks[|tasks| - 1];
      var kept := FilterByDay(init, selected);
      FilteredCountsBounded(init, selected);
      if OnDay(last, selected) {
        assert (kept + [last])[..|kept + [last]| - 1] == kept;
      }
    }
  }

  /** In the day-scoped variant the statistics count exactly the selected
      day's tasks: every counted task is on that day, the total is the
      length of the day's list, it is non-zero exactly when the calendar
      marks the day, and no figure exceeds the whole list's. */
  lemma DayScopedStatsCountSelectedDay(s: DashboardState)
    ensures var view := Render(DayScoped, s);
      && (forall i :: 0 <= i < |view.statsTasks| ==> OnDay(view.statsTasks[i], s.selected))
      && view.stats.total == |FilterByDay(s.tasks, s.selected)|
      && (view.stats.total > 0 <==> HasTasks(s.tasks, s.selected))
      && view.stats.completed <= ComputeStats(s.tasks).completed
      && view.stats.pending <= ComputeStats(s.tasks).pending
  {
    MarkedIffFilterNonEmpty(s.tasks, s.selected);
    FilteredCountsBounded(s.tasks, s.selected);
  }

  /** The calendar marks the UTC day of the selected instant exactly when
      the task panel has something to list, in every variant. After a click
      that instant is the clicked tile, which the calendar highlights until
      the next fetch remounts it at the current time; before any click it is
      the time the page was opened. */
  lemma SelectedTileMarkedIffSectionNonEmpty(v: Variant, s: DashboardState)
    ensures var view := Render(v, s);
      HasTasks(view.calendarTasks, s.selected) <==> !ShowsEmptyState(view.sectionTasks)
  {
    MarkedIffFilterNonEmpty(s.tasks, s.selected);
  }

  /** After a click, and until the next fetch, the calendar and the page
      agree on the selected date; the panel lists that day's tasks; and a
      click on any other instant of the same UTC day would give the
      calendar, the panel and the statistics the same lists and figures.
      The highlighted instant and the panel's date heading may differ. */
  lemma ClickShowsClickedDay(v: Variant, s: DashboardState, date: TimeValue, other: TimeValue)
    requires SameDay(date, other)
    ensures var s' := ClickDate(s, date);
      && s'.calendar.value == s'.selected
      && Render(v, s').sectionTasks == FilterByDay(s.tasks, date)
      && Render(v, s') == Render(v, ClickDate(s, other))
  {
    FilterDependsOnlyOnDay(s.tasks, date, other);
  }

  /** A task created through `AddTask`'s `handleSubmit`, once the list is
      fetched again, is listed under the selected date, marks that date on
      the calendar, and makes the shown total non-zero. The `Sectioned` and
      `DayScoped` pages mount `AddTask`; the `Classic` page mounts
      `src/components/TaskForm`, which is not part of this model, and is
      covered only on the assumption that it stamps the selected instant the
      same way. */
  lemma CreatedTaskAppearsOnSelectedDay(v: Variant, s: DashboardState, f: FormState, refetched: seq<Task>, now: TimeValue, t: Task)
    requires !AllWhitespace(f.title)
    requires t.date == HandleSubmit(f, s.selected).payload.date
    requires t in refetched
    ensures var view := Render(v, Refetch(s, refetched, now));
      && t in view.sectionTasks
      && HasTasks(view.calendarTasks, s.selected)
      && view.stats.total > 0
  {
    SubmittedTaskShownOnSelectedDay(f, s.selected, refetched, t);
  }
}

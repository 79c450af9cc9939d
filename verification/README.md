# Task manager dashboard: day bucketing, calendar marks, statistics and the add-task form

This project is a Dafny model of the client-side derivation layer of a small
personal task manager. The signed-in user's tasks are fetched as a list, and
the dashboard derives everything it shows from that list and one selected
date:

- **UTC day bucketing.** A task belongs to the UTC calendar day of its `date`.
  The page compares `toISOString().split('T')[0]` strings, which are the
  `YYYY-MM-DD` date part of ISO 8601 (section 4.1.2.2 of ISO 8601:2004), or the expanded `±YYYYYY-MM-DD` form (section 4.1.2.4) outside years 0–9999. The
  model uses the equivalent day number `floor(t / 86400000)` of ECMA-262
  (`UtcDay`).
- **The day view.** `filterTasksByDate` keeps the tasks on the selected day.
  It is identical in all three dashboard variants (`DayFilter`).
- **Calendar marks.** A tile gets a dot and the `has-tasks` class when some
  task is on its day. A click highlights the date and forwards it to the page
  (`Calendar`).
- **Statistics.** The page shows the total, completed and pending counts. Two
  variants count the whole list; the `.jsx` variant counts the day view
  (`Statistics`, `Dashboard`).
- **The add-task form.** It trims and validates the title, trims the
  description, offers three priorities with `medium` as the default, stamps
  the selected instant and resets after a submission (`TaskForm`, with `trim`
  in `Text`).
- **Task rendering.** The priority badge gets a colour and a capitalised
  label, the checkbox requests the negated completion, and an empty day shows
  a message (`TaskItem`).

Every operation is a pure function over immutable records. React state and
effects are modelled as functions of the page state (`Dashboard.Render`). The
filtered list is recomputed in an effect whenever the tasks or the selected
date change. Once that effect has run, it is the filter of the current state.

Modules and files: `UtcDay` (utc_day.dfy), `TaskModel` (task_model.dfy),
`DayFilter` (day_filter.dfy), `Calendar` (calendar.dfy), `Statistics`
(statistics.dfy), `Text` (text.dfy), `TaskForm` (task_form.dfy), `TaskItem`
(task_item.dfy) and `Dashboard` (dashboard.dfy).

The three dashboard variants are `Classic` (src/components/DashboardClient.tsx),
`Sectioned` (src/components/Dashboard/DashboardClient.tsx) and `DayScoped`
(src/components/Dashboard/DashboardClient.jsx). Their `filterTasksByDate`
bodies are the same text, at lines 65-72, 67-74 and 53-60 respectively. The
two `TaskCalendar` files and the two task renderers (`TaskList.tsx` and
`TaskSection.tsx`) also share their logic, so each piece is defined once and
the table cites one copy.

## Model

| member | source | states |
|---|---|---|
| UtcDay.DayKey | src/components/Dashboard/DashboardClient.tsx:68-70 | The day key of an instant is the day whose millisecond window holds it (floor, not truncation). It lies within the ±100,000,000-day range of a valid Date. |
| UtcDay.DayKeyUnique | src/components/Dashboard/DashboardClient.tsx:68-70 | Any day window that contains the instant is the one the day key names, so the key is exactly the instant's UTC day. |
| UtcDay.SameDayIffSameWindow | src/components/DashboardClient.tsx:66-69 | Two instants get equal date strings iff one UTC day window contains both. |
| UtcDay.SameDayNotSameInstant | src/components/Dashboard/DashboardClient.tsx:68-71 | 08:00 and 23:00 on 2025-06-01 are distinct instants in one bucket. 00:30 on 2025-06-02 is in another bucket. |
| UtcDay.DayKeyBeforeEpoch | src/components/Dashboard/DashboardClient.tsx:68-70 | One millisecond before the epoch is on day -1 (1969-12-31), not day 0. |
| DayFilter.FilterByDay | src/components/Dashboard/DashboardClient.tsx:67-74 | The view holds exactly the tasks whose UTC day equals the selected date's day and is no longer than the list. |
| DayFilter.FilterMultiplicity | src/components/Dashboard/DashboardClient.tsx:69-72 | The view holds each task of the selected day as often as the list does, and none of another day. |
| DayFilter.FilterIsSubsequence | src/components/DashboardClient.tsx:67-70 | The view is an order-preserving subsequence of the task list. |
| DayFilter.SubsequenceLength | src/components/DashboardClient.tsx:67-70 | A subsequence, and so the view, is never longer than the list it comes from. |
| DayFilter.FilterAppend | src/components/Dashboard/DashboardClient.jsx:55-58 | The view of a concatenation is the concatenation of the views. |
| DayFilter.FilterIdempotent | src/components/Dashboard/DashboardClient.jsx:55-58 | Re-filtering the view for the same date returns it unchanged. |
| DayFilter.FilterKeepsAllOnDay | src/components/Dashboard/DashboardClient.tsx:69-72 | A list whose tasks are all on the selected day is its own view. |
| DayFilter.FilterKeepsAllIffAllOnDay | src/components/Dashboard/DashboardClient.tsx:69-72 | The view equals the whole list iff every task is on the selected day. |
| DayFilter.FilterDependsOnlyOnDay | src/components/Dashboard/DashboardClient.tsx:68 | Any two selected instants on the same UTC day yield the same view. |
| DayFilter.SameDayTasksKeptTogether | src/components/Dashboard/DashboardClient.tsx:68-71 | Two tasks dated on the same UTC day are both kept or both dropped, whatever their instants. |
| Calendar.HasTasks | src/components/TaskCalendar.tsx:35-38 | A tile is marked iff some task's UTC day equals the tile's day. |
| Calendar.TileContent | src/components/TaskCalendar.tsx:31-50 | The dot is drawn iff some task is on the tile's day, and otherwise the content is null. |
| Calendar.TileClassName | src/components/Dashboard/Calender/TaskCalendar.tsx:53-61 | The class is `has-tasks` or empty, and it is `has-tasks` iff some task is on the tile's day. |
| Calendar.MarkedDays | src/components/TaskCalendar.tsx:30-61 | The marked days are exactly the UTC days of the task dates. |
| Calendar.HandleDateClick | src/components/Dashboard/Calender/TaskCalendar.tsx:25-28 | A click makes the calendar highlight the clicked date and forwards that same date to `onDateSelect`. |
| Calendar.DotIffHasTasksClass | src/components/TaskCalendar.tsx:31-61 | `tileContent` is non-null iff `tileClassName` returns `has-tasks`. |
| Calendar.MarkedIffFilterNonEmpty | src/components/Dashboard/Calender/TaskCalendar.tsx:35-38 | A tile is marked iff the day filter of the same list for that date is non-empty. |
| Calendar.MarkedIffDayInMarkedDays | src/components/TaskCalendar.tsx:35-38 | A tile is marked iff its UTC day is among the marked days. |
| Calendar.EmptyListMarksNothing | src/components/TaskCalendar.tsx:35 | An empty task list marks no tile: no dot and an empty class. |
| Calendar.MarkingMonotone | src/components/TaskCalendar.tsx:35-38 | A list that holds every task of another marks every tile the other marks. Adding tasks never unmarks a date, and removing tasks never marks one. |
| Calendar.AddingTaskMarksItsDay | src/components/Dashboard/Calender/TaskCalendar.tsx:35-38 | Appending a task keeps existing marks and marks the new task's own day. |
| Statistics.CountCompleted | src/components/Dashboard/Statistics/TaskStatistics.tsx:14 | The completed count is at most the list length. |
| Statistics.CountPending | src/components/Dashboard/Statistics/TaskStatistics.tsx:15 | The pending count is at most the list length. |
| Statistics.ComputeStats | src/components/Dashboard/Statistics/TaskStatistics.tsx:13-15 | total is the list length, completed is the number of positions holding a completed task, completed + pending = total, and each is at most total. |
| Statistics.CompletedPlusPending | src/components/Dashboard/Statistics/TaskStatistics.tsx:13-15 | Every task is counted once, as completed or as pending. |
| Statistics.CompletedMatchesPositions | src/components/Dashboard/Statistics/TaskStatistics.tsx:14 | The completed count equals the number of positions whose task is completed. |
| Statistics.CountAppend | src/components/Dashboard/Statistics/TaskStatistics.tsx:14-15 | Completed and pending counts add up over concatenation. |
| Statistics.StatsPermutationInvariant | src/components/Dashboard/Statistics/TaskStatistics.tsx:13-15 | Any reordering of the same tasks shows the same three figures. |
| Statistics.EmptyStats | src/components/Dashboard/Statistics/TaskStatistics.tsx:13-15 | An empty list gives 0 / 0 / 0. |
| Statistics.AllOrNoneCompleted | src/components/DashboardClient.tsx:221-227 | Pending is 0 iff every task is completed, and completed is 0 iff no task is completed. |
| Statistics.ToggleMovesOneTask | src/components/DashboardClient.tsx:216-227 | Flipping one task's completion moves exactly one unit between completed and pending and leaves total unchanged. |
| Text.TrimStart | src/components/Dashboard/tasks/AddTask.tsx:33-34 | Drops a whitespace prefix, and the result does not start with whitespace. |
| Text.TrimEnd | src/components/Dashboard/tasks/AddTask.tsx:33-34 | Drops a whitespace suffix, and the result does not end with whitespace. |
| Text.Trim | src/components/Dashboard/tasks/AddTask.tsx:24 | The trimmed string is a middle slice of the input, with only whitespace cut on either side and no whitespace left at either end. |
| Text.TrimOfIsUnique | src/components/Dashboard/tasks/AddTask.tsx:33-34 | Only one string has that property, so it determines `trim` completely. |
| Text.TrimEmptyIffAllWhitespace | src/components/Dashboard/tasks/AddTask.tsx:24-27 | `trim` yields the empty (falsy) string iff the input is empty or all whitespace. |
| Text.TrimIdempotent | src/components/Dashboard/tasks/AddTask.tsx:33-34 | Trimming twice equals trimming once. |
| Text.ToUpper | src/components/TaskList.tsx:88 | Lower-case ASCII letters map to their upper-case letters, and every other character is unchanged. |
| Text.Capitalize | src/components/Dashboard/tasks/TaskSection.tsx:106 | Upper-cases the first character, keeps the rest and preserves the length. The empty string stays empty. |
| Text.CapitalizeIdempotent | src/components/Dashboard/tasks/TaskSection.tsx:106 | Capitalising twice equals capitalising once. |
| TaskForm.SetTitle | src/components/Dashboard/tasks/AddTask.tsx:60 | Typing replaces the title and leaves description and priority alone. |
| TaskForm.SetDescription | src/components/Dashboard/tasks/AddTask.tsx:75 | Typing replaces the description and leaves title and priority alone. |
| TaskForm.SetPriority | src/components/Dashboard/tasks/AddTask.tsx:87-96 | Choosing an option sets that priority, keeps the form valid and leaves the texts alone. |
| TaskForm.HandleSubmit | src/components/Dashboard/tasks/AddTask.tsx:21-43 | Submission is rejected iff the title is empty or whitespace-only, and a rejection leaves the form unchanged. Otherwise the title and description sent are the trims of the inputs (the title non-empty), the date is the selected instant, the priority is the chosen one, and the form resets to empty / empty / medium. |
| TaskForm.FormStaysValid | src/components/Dashboard/tasks/AddTask.tsx:87-96 | The form starts at `medium`, every handler keeps a priority from {low, medium, high}, and so every submitted priority is one of them. |
| TaskForm.SubmittedFieldsAreTrimmed | src/components/Dashboard/tasks/AddTask.tsx:33-34 | Re-trimming the submitted title or description changes nothing, and the title has no surrounding whitespace. |
| TaskForm.ResetFormRejectsResubmission | src/components/Dashboard/tasks/AddTask.tsx:39-42 | After a successful submission, submitting the reset form is refused. |
| TaskForm.SubmittedTaskShownOnSelectedDay | src/components/Dashboard/tasks/AddTask.tsx:30-35 | A task stored with the submitted date is in the selected day's filtered view of any list holding it, and the calendar marks that day. |
| TaskItem.PriorityColor | src/components/TaskList.tsx:30-41 | `high` gets the red class, `medium` the yellow class and `low` the green class. Any other priority gets the gray default, and gray is returned only in that case. |
| TaskItem.PriorityColorsDistinct | src/components/Dashboard/tasks/TaskSection.tsx:37-48 | The three known priorities get pairwise-distinct, non-default classes. |
| TaskItem.PriorityLabel | src/components/TaskList.tsx:88 | The badge is the priority with its first character upper-cased and the rest unchanged, followed by " Priority". |
| TaskItem.OptionLabels | src/components/Dashboard/tasks/AddTask.tsx:93-95 | The badges for low, medium and high read "Low Priority", "Medium Priority" and "High Priority": the select's option texts followed by " Priority". |
| TaskItem.ToggleRequestFor | src/components/Dashboard/tasks/TaskSection.tsx:85 | The checkbox sends the task's id and the negation of its current completion. |
| TaskItem.ToggleTwiceRestores | src/components/TaskList.tsx:65 | Applying the requested value and toggling again restores the original task. |
| TaskItem.ShowsEmptyState | src/components/TaskList.tsx:47-51 | "No tasks for this date" is shown iff the list given to the panel holds no task. |
| Dashboard.Render | src/components/Dashboard/DashboardClient.tsx:175-190 | The calendar gets the unfiltered list. The task panel gets the selected day's filtered list, in list order, and holds exactly the tasks on that day. The figures are the statistics of the whole list in the two `.tsx` variants and of the filtered list in the `.jsx` variant, so completed counts that list's completed tasks and completed + pending = total. |
| Dashboard.ClickDate | src/components/Dashboard/DashboardClient.tsx:76-79 | After a click both the page's selected date and the calendar's highlighted date are the clicked date, and the tasks are untouched. |
| Dashboard.StatsIgnoreSelectedDate | src/components/DashboardClient.tsx:213-230 | In the `.tsx` variants the three figures are those of the whole list and do not change when another date is selected. |
| Dashboard.FilteredCountsBounded | src/components/Dashboard/DashboardClient.jsx:181 | The day view never has more completed or pending tasks than the whole list. |
| Dashboard.DayScopedStatsCountSelectedDay | src/components/Dashboard/DashboardClient.jsx:181 | In the `.jsx` variant every counted task is on the selected day, and total equals the day view's length. Total is non-zero iff the calendar marks that day, and no figure exceeds the whole list's. |
| Dashboard.SelectedTileMarkedIffSectionNonEmpty | src/components/Dashboard/tasks/TaskSection.tsx:68-72 | In every variant, the tile for the selected instant's UTC day is marked iff the task panel does not show the empty-day message. After a click and until the next fetch, that tile is the highlighted tile. Before any click, in a UTC browser, it is the highlighted tile until a fetch happens on a later UTC day. Every fetch remounts the calendar at the current time, so after a click on another day the highlight and the selected day part (see `Dashboard.RefetchSplitsHighlight`). |
| Dashboard.ClickShowsClickedDay | src/components/Dashboard/DashboardClient.jsx:72-75 | After a click, and until the next fetch, the calendar and the page agree on the date, and the panel lists the clicked day's tasks. Clicking any other instant of the same UTC day gives the calendar, the panel and the statistics the same lists and figures. The highlighted instant and the panel's date heading may differ. |
| Dashboard.Refetch | src/components/Dashboard/DashboardClient.tsx:45-64 | A fetch replaces the task list and keeps the page's selected date. The loading branch (lines 169-188) unmounts the calendar, whose state comes back as the current time (src/components/Dashboard/Calender/TaskCalendar.tsx:22), so the highlighted date becomes `now`. |
| Dashboard.RefetchViewIgnoresClock | src/components/Dashboard/DashboardClient.tsx:169-190 | The lists and figures rendered after a fetch do not depend on when it happened, and the panel holds the fetched list's tasks of the selected day. |
| Dashboard.RefetchSplitsHighlight | src/components/Dashboard/DashboardClient.tsx:45-64 | After a click on a day other than today, a fetch leaves the calendar highlighting today while the page still lists the clicked day's tasks. |
| Dashboard.CreatedTaskAppearsOnSelectedDay | src/components/Dashboard/DashboardClient.tsx:130-146 | Once the list is fetched again, a task created through `AddTask` is listed under the selected date and marks that date, and the shown total is non-zero. This holds for the `Sectioned` and `DayScoped` pages, which mount `AddTask`. For `Classic` see "## Left out". |

## Left out

- The server-side task API (`src/app/api/tasks/[id]/route.ts`) is not modelled. Its ownership scoping and its 401/404 results depend on the Prisma store and the Auth0 session library, which are not part of this model. The page only sees the list those calls return.
- The network request inside `fetch`, `alert`, `confirm` and `console` output are left out because they are network and browser I/O. The loading and error banners are left out for the same reason. The refetch after each mutation is modelled (`Dashboard.Refetch`) as replacing the task list with an arbitrary new list. Because the loading branch unmounts the calendar, the refetch also resets the calendar's highlighted date to the current time, which is a parameter.
- React scheduling (`useState`, `useEffect`, `useCallback`) is not modelled. The page is modelled as a function of its state, which is what the effects converge to after each render.
- Parsing of `task.date` strings is left out; each task's date is taken as an already-parsed time value in milliseconds. The model assumes every stored date parses; the route that lists tasks and the store's schema are not part of this model. If a date did not parse, `toISOString` would throw a RangeError, and that is not modelled.
- Rendering of the `YYYY-MM-DD` string and `toLocaleDateString` is left out. The date string is a one-to-one rendering of the day number, so the model compares day numbers instead. Locale formatting is ICU library behaviour.
- Time zones are left out. Calendar tiles are taken as the instants the widget hands over, and the tiles are bucketed in UTC exactly as the code does. A tile's local-midnight instant can fall on the previous UTC day for users east of UTC. Which day that is depends on the browser's time zone, which the model does not have.
- Text.ToUpper: only ASCII letters are upper-cased. Full Unicode `toUpperCase` can change a string's length (`ß` becomes `SS`), so `Capitalize` preserves length only under this restriction.
- Text.IsWhitespace lists the ECMAScript WhiteSpace and LineTerminator code points, taking the space separators (Zs) from current Unicode.
- The HTML `required` attribute on the title input is left out. It is browser validation that stops an empty title before `handleSubmit` runs. A whitespace-only title still reaches the trim check that the model covers.
- The calendar widget (react-calendar), CSS classes other than the priority badge and `has-tasks`, and the `<style jsx>` blocks are left out because they are presentation only.
- The landing pages, headers and Auth0 page wiring (`LandingBefore`, `LandingAfter`, `DashboardHeader`, `src/app/layout.jsx`, `src/app/page.tsx`, `src/app/dashboard/page.tsx`) are left out because they are static markup or session plumbing.
- The task's `createdAt` and `updatedAt` stamps are not modelled because no component reads them.
- Dashboard.CreatedTaskAppearsOnSelectedDay: the `Classic` page (src/components/DashboardClient.tsx:6, 234-239) mounts `src/components/TaskForm`, which is not part of this model. For that variant the lemma assumes the form stamps `selectedDate.toISOString()` as src/components/Dashboard/tasks/AddTask.tsx:30 does.

/** The task section's view: the tasks of the selected UTC day
    (`filterTasksByDate` in every dashboard variant). */
module DayFilter {
  import opened UtcDay
  import opened TaskModel

  /** `a` is `b` with some elements dropped and the others kept in order. */
  predicate IsSubsequence<T(==)>(a: seq<T>, b: seq<T>)
    decreases |b|
  {
    if a == [] then true
    else if b == [] then false
    else
      (a[|a| - 1] == b[|b| - 1] && IsSubsequence(a[..|a| - 1], b[..|b| - 1]))
      || IsSubsequence(a, b[..|b| - 1])
  }

  /** `tasks.filter(task => dayOf(task.date) === dayOf(date))`: walks the list
      left to right and appends each task whose UTC day is the selected one.
      The result holds every such task and no other. */
  function FilterByDay(tasks: seq<Task>, selected: TimeValue): (r: seq<Task>)
    ensures |r| <= |tasks|
    ensures forall i :: 0 <= i < |r| ==> OnDay(r[i], selected)
    ensures forall t :: t in r <==> t in tasks && OnDay(t, selected)
  {
    if |tasks| == 0 then []
    else
      var last := tasks[|tasks| - 1];
      var kept := FilterByDay(tasks[..|tasks| - 1], selected);
      assert tasks == tasks[..|tasks| - 1] + [last];
      if OnDay(last, selected) then kept + [last] else kept
  }

  /** The view holds each task of the selected day as many times as the
      list does, and no task of another day. */
  lemma {:induction false} FilterMultiplicity(tasks: seq<Task>, selected: TimeValue, t: Task)
    ensures multiset(FilterByDay(tasks, selected))[t] == if OnDay(t, selected) then multiset(tasks)[t] else 0
    decreases |tasks|
  {
    if |tasks| > 0 {
      var init := tasks[..|tasks| - 1];
      var last := tasks[|tasks| - 1];
      FilterMultiplicity(init, selected, t);
      assert tasks == init + [last];
    }
  }

  /** A subsequence is never longer than the sequence it is taken from. */
  lemma {:induction false} SubsequenceLength<T>(a: seq<T>, b: seq<T>)
    requires IsSubsequence(a, b)
    ensures |a| <= |b|
    decreases |b|
  {
    if a != [] {
      if a[|a| - 1] == b[|b| - 1] && IsSubsequence(a[..|a| - 1], b[..|b| - 1]) {
        SubsequenceLength(a[..|a| - 1], b[..|b| - 1]);
      } else {
        SubsequenceLength(a, b[..|b| - 1]);
      }
    }
  }

  /** The filtered view keeps the order of `tasks`: it is a subsequence. */
  lemma {:induction false} FilterIsSubsequence(tasks: seq<Task>, selected: TimeValue)
    ensures IsSubsequence(FilterByDay(tasks, selected), tasks)
    decreases |tasks|
  {
    if |tasks| > 0 {
      var init := tasks[..|tasks| - 1];
      var last := tasks[|tasks| - 1];
      var r := FilterByDay(tasks, selected);
      FilterIsSubsequence(init, selected);
      if OnDay(last, selected) {
        assert r[..|r| - 1] == FilterByDay(init, selected);
      } else {
        assert r == FilterByDay(init, selected);
      }
    }
  }

  /** Filtering distributes over concatenation, so the view of a longer list
      extends the view of its prefix. */
  lemma {:induction false} FilterAppend(a: seq<Task>, b: seq<Task>, selected: TimeValue)
    ensures FilterByDay(a + b, selected) == FilterByDay(a, selected) + FilterByDay(b, selected)
    decreases |b|
  {
    if |b| == 0 {
      assert a + b == a;
    } else {
      var init := b[..|b| - 1];
      assert (a + b)[..|a + b| - 1] == a + init;
      FilterAppend(a, init, selected);
    }
  }

  /** Re-filtering the view for the same date returns it unchanged. */
  lemma {:induction false} FilterIdempotent(tasks: seq<Task>, selected: TimeValue)
    ensures FilterByDay(FilterByDay(tasks, selected), selected) == FilterByDay(tasks, selected)
    decreases |tasks|
  {
    if |tasks| > 0 {
      var init := tasks[..|tasks| - 1];
      var last := tasks[|tasks| - 1];
      FilterIdempotent(init, selected);
      if OnDay(last, selected) {
        FilterAppend(FilterByDay(init, selected), [last], selected);
      }
    }
  }

  /** A list whose tasks are all on the selected day is its own view. */
  lemma {:induction false} FilterKeepsAllOnDay(tasks: seq<Task>, selected: TimeValue)
    requires forall i :: 0 <= i < |tasks| ==> OnDay(tasks[i], selected)
    ensures FilterByDay(tasks, selected) == tasks
    decreases |tasks|
  {
    if |tasks| > 0 {
      var init := tasks[..|tasks| - 1];
      FilterKeepsAllOnDay(init, selected);
      assert tasks == init + [tasks[|tasks| - 1]];
    }
  }

  /** The view is the whole list exactly when every task is on the selected day. */
  lemma FilterKeepsAllIffAllOnDay(tasks: seq<Task>, selected: TimeValue)
    ensures FilterByDay(tasks, selected) == tasks <==>
      forall i :: 0 <= i < |tasks| ==> OnDay(tasks[i], selected)
  {
    if forall i :: 0 <= i < |tasks| ==> OnDay(tasks[i], selected) {
      FilterKeepsAllOnDay(tasks, selected);
    }
  }

  /** Two selected instants on the same UTC day give the same view. */
  lemma {:induction false} FilterDependsOnlyOnDay(tasks: seq<Task>, d1: TimeValue, d2: TimeValue)
    requires SameDay(d1, d2)
    ensures FilterByDay(tasks, d1) == FilterByDay(tasks, d2)
    decreases |tasks|
  {
    if |tasks| > 0 {
      FilterDependsOnlyOnDay(tasks[..|tasks| - 1], d1, d2);
    }
  }

  /** Membership depends on the day of the task's date, not on the instant:
      two tasks dated on the same UTC day are both kept or both dropped. */
  lemma SameDayTasksKeptTogether(tasks: seq<Task>, selected: TimeValue, i: int, j: int)
    requires 0 <= i < |tasks| && 0 <= j < |tasks|
    requires SameDay(tasks[i].date, tasks[j].date)
    ensures tasks[i] in FilterByDay(tasks, selected) <==> tasks[j] in FilterByDay(tasks, selected)
  {
  }
}

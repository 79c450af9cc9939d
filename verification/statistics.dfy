/** Completion statistics over a task list (`TaskStatistics`, and the inline
    counts of the older dashboard). */
module Statistics {
  import opened TaskModel

  /** The three figures the statistics cards show. */
  datatype Stats = Stats(total: nat, completed: nat, pending: nat)

  /** `tasks.filter(t => t.completed).length` */
  function CountCompleted(tasks: seq<Task>): (n: nat)
    ensures n <= |tasks|
  {
    if |tasks| == 0 then 0
    else CountCompleted(tasks[..|tasks| - 1]) + (if tasks[|tasks| - 1].completed then 1 else 0)
  }

  /** `tasks.filter(t => !t.completed).length` */
  function CountPending(tasks: seq<Task>): (n: nat)
    ensures n <= |tasks|
  {
    if |tasks| == 0 then 0
    else CountPending(tasks[..|tasks| - 1]) + (if tasks[|tasks| - 1].completed then 0 else 1)
  }

  /** The positions of the completed tasks: an independent description of
      what the completed count counts. */
  function CompletedPositions(tasks: seq<Task>): set<int> {
    set i | 0 <= i < |tasks| && tasks[i].completed
  }

  /** The statistics cards: `total` is the list's length, `completed` the
      number of completed tasks and `pending` the number of the others, so
      the last two always add up to the first. */
  function ComputeStats(tasks: seq<Task>): (s: Stats)
    ensures s.total == |tasks|
    ensures s.completed == |CompletedPositions(tasks)|
    ensures s.completed + s.pending == s.total
    ensures s.completed <= s.total && s.pending <= s.total
  {
    CompletedPlusPending(tasks);
    CompletedMatchesPositions(tasks);
    Stats(|tasks|, CountCompleted(tasks), CountPending(tasks))
  }

  /** Every task is counted exactly once, as completed or as pending. */
  lemma {:induction false} CompletedPlusPending(tasks: seq<Task>)
    ensures CountCompleted(tasks) + CountPending(tasks) == |tasks|
    decreases |tasks|
  {
    if |tasks| > 0 {
      CompletedPlusPending(tasks[..|tasks| - 1]);
    }
  }

  /** The recursive count agrees with the size of the set of completed positions. */
  lemma {:induction false} CompletedMatchesPositions(tasks: seq<Task>)
    ensures CountCompleted(tasks) == |CompletedPositions(tasks)|
    decreases |tasks|
  {
    if |tasks| > 0 {
      var n := |tasks| - 1;
      var init := tasks[..n];
      CompletedMatchesPositions(init);
      var before := CompletedPositions(init);
      if tasks[n].completed {
        assert CompletedPositions(tasks) == before + {n};
        assert n !in before;
      } else {
        assert CompletedPositions(tasks) == before;
      }
    }
  }

  /** Counting splits over concatenation. */
  lemma {:induction false} CountAppend(a: seq<Task>, b: seq<Task>)
    ensures CountCompleted(a + b) == CountCompleted(a) + CountCompleted(b)
    ensures CountPending(a + b) == CountPending(a) + CountPending(b)
    decreases |b|
  {
    if |b| == 0 {
      assert a + b == a;
    } else {
      assert (a + b)[..|a + b| - 1] == a + b[..|b| - 1];
      CountAppend(a, b[..|b| - 1]);
    }
  }

  /** The statistics do not depend on the order of the list: any
      rearrangement of the same tasks shows the same three figures. */
  lemma {:induction false} StatsPermutationInvariant(a: seq<Task>, b: seq<Task>)
    requires multiset(a) == multiset(b)
    ensures ComputeStats(a) == ComputeStats(b)
    decreases |a|
  {
    assert |a| == |multiset(a)| == |multiset(b)| == |b|;
    if |a| > 0 {
      var n := |a| - 1;
      var x := a[n];
      assert a == a[..n] + [x];
      assert x in multiset(b);
      var j :| 0 <= j < |b| && b[j] == x;
      var rest := b[..j] + b[j + 1..];
      assert b == b[..j] + [x] + b[j + 1..];
      assert multiset(b) == multiset(b[..j]) + multiset{x} + multiset(b[j + 1..]);
      assert multiset(rest) == multiset(b) - multiset{x};
      assert multiset(a[..n]) == multiset(a) - multiset{x};
      StatsPermutationInvariant(a[..n], rest);
      CountAppend(a[..n], [x]);
      CountAppend(b[..j], [x]);
      CountAppend(b[..j] + [x], b[j + 1..]);
      CountAppend(b[..j], b[j + 1..]);
    }
  }

  /** The empty list shows 0 / 0 / 0. */
  lemma EmptyStats()
    ensures ComputeStats([]) == Stats(0, 0, 0)
  {
  }

  /** All tasks are completed exactly when nothing is pending, and none is
      completed exactly when everything is pending. */
  lemma {:induction false} AllOrNoneCompleted(tasks: seq<Task>)
    ensures ComputeStats(tasks).pending == 0 <==> forall i :: 0 <= i < |tasks| ==> tasks[i].completed
    ensures ComputeStats(tasks).completed == 0 <==> forall i :: 0 <= i < |tasks| ==> !tasks[i].completed
    decreases |tasks|
  {
    if |tasks| > 0 {
      var init := tasks[..|tasks| - 1];
      AllOrNoneCompleted(init);
      assert forall i :: 0 <= i < |init| ==> init[i] == tasks[i];
    }
  }

  /** Toggling one task's completion moves it between the completed and the
      pending figure and leaves the total alone. */
  lemma ToggleMovesOneTask(tasks: seq<Task>, i: int)
    requires 0 <= i < |tasks|
    ensures var after := ComputeStats(tasks[i := tasks[i].(completed := !tasks[i].completed)]);
      var before := ComputeStats(tasks);
      && after.total == before.total
      && (tasks[i].completed ==> after.completed + 1 == before.completed && after.pending == before.pending + 1)
      && (!tasks[i].completed ==> after.completed == before.completed + 1 && after.pending + 1 == before.pending)
  {
    var t := tasks[i];
    var u := t.(completed := !t.completed);
    var toggled := tasks[i := u];
    assert tasks == tasks[..i] + [t] + tasks[i + 1..];
    assert toggled == tasks[..i] + [u] + tasks[i + 1..];
    CountAppend(tasks[..i], [t]);
    CountAppend(tasks[..i] + [t], tasks[i + 1..]);
    CountAppend(tasks[..i], [u]);
    CountAppend(tasks[..i] + [u], tasks[i + 1..]);
  }
}

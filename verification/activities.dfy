/**
 * The activities screen: today's tasks, the ones still pending, a
 * "Mark Complete" button on each pending task, and the completion rate.
 */
module Activities {
  import opened Sequences

  datatype Task = Task(id: string, title: string)

  /** Today's four tasks as the screen lists them. */
  const MockTasks: seq<Task> := [
    Task("1", "Stock Check - Sharma Store"),
    Task("2", "Collect Payment - Mumbai Mart"),
    Task("3", "Customer Survey - Chennai Store"),
    Task("4", "Display Photo - Bangalore Bazaar")
  ]

  function TaskIds(tasks: seq<Task>): (r: seq<string>)
    ensures |r| == |tasks|
    ensures forall i :: 0 <= i < |tasks| ==> r[i] == tasks[i].id
  {
    seq(|tasks|, i requires 0 <= i < |tasks| => tasks[i].id)
  }

  /** The tasks whose id has not been completed, in their original order. */
  function PendingTasks(tasks: seq<Task>, completed: seq<string>): (r: seq<Task>)
    ensures |r| <= |tasks|
    ensures forall t :: t in r ==> t in tasks && t.id !in completed
  {
    if tasks == [] then []
    else (if tasks[0].id in completed then [] else [tasks[0]]) + PendingTasks(tasks[1..], completed)
  }

  /** No task that is not completed is missing from the pending list. */
  lemma {:induction false} PendingComplete(tasks: seq<Task>, completed: seq<string>, t: Task)
    requires t in tasks && t.id !in completed
    ensures t in PendingTasks(tasks, completed)
    decreases |tasks|
  {
    if tasks[0] != t {
      PendingComplete(tasks[1..], completed, t);
    }
  }

  /** The pending list keeps the order of today's tasks. */
  lemma {:induction false} PendingKeepsOrder(tasks: seq<Task>, completed: seq<string>)
    ensures IsSubsequence(PendingTasks(tasks, completed), tasks)
    decreases |tasks|
  {
    if tasks != [] {
      var rest := PendingTasks(tasks[1..], completed);
      PendingKeepsOrder(tasks[1..], completed);
      if tasks[0].id in completed {
        assert PendingTasks(tasks, completed) == rest;
        SubsequenceOfTail(rest, tasks);
      } else {
        assert PendingTasks(tasks, completed) == [tasks[0]] + rest;
        assert ([tasks[0]] + rest)[1..] == rest;
      }
    }
  }

  /** Nothing completed: every task is pending. */
  lemma {:induction false} NothingCompletedAllPending(tasks: seq<Task>)
    ensures PendingTasks(tasks, []) == tasks
    decreases |tasks|
  {
    if tasks != [] {
      NothingCompletedAllPending(tasks[1..]);
      assert tasks == [tasks[0]] + tasks[1..];
    }
  }

  /** How many of `tasks` have their id among `completed`. */
  function CompletedAmong(tasks: seq<Task>, completed: seq<string>): nat
  {
    if tasks == [] then 0
    else (if tasks[0].id in completed then 1 else 0) + CompletedAmong(tasks[1..], completed)
  }

  /** The count the screen shows as completed: today's tasks less the pending ones. */
  function CompletedCount(tasks: seq<Task>, completed: seq<string>): (c: nat)
    ensures c + |PendingTasks(tasks, completed)| == |tasks|
    ensures c == CompletedAmong(tasks, completed)
  {
    PendingPlusCompleted(tasks, completed);
    |tasks| - |PendingTasks(tasks, completed)|
  }

  /** Every task is either pending or completed. */
  lemma {:induction false} PendingPlusCompleted(tasks: seq<Task>, completed: seq<string>)
    ensures |PendingTasks(tasks, completed)| + CompletedAmong(tasks, completed) == |tasks|
    decreases |tasks|
  {
    if tasks != [] {
      PendingPlusCompleted(tasks[1..], completed);
    }
  }

  /** With distinct task ids, the completed tasks are those whose id is in both sets. */
  lemma {:induction false} CompletedAmongCount(tasks: seq<Task>, completed: seq<string>)
    requires NoDuplicates(TaskIds(tasks))
    ensures CompletedAmong(tasks, completed) == |Elements(TaskIds(tasks)) * Elements(completed)|
    decreases |tasks|
  {
    if tasks == [] {
      assert Elements(TaskIds(tasks)) == {};
    } else {
      SplitFirstId(tasks);
      CompletedAmongCount(tasks[1..], completed);
      IntersectWithNew(tasks[0].id, Elements(TaskIds(tasks[1..])), Elements(completed));
    }
  }

  /** The first task's id, and the distinct ids of the others. */
  lemma SplitFirstId(tasks: seq<Task>)
    requires tasks != [] && NoDuplicates(TaskIds(tasks))
    ensures NoDuplicates(TaskIds(tasks[1..]))
    ensures tasks[0].id !in Elements(TaskIds(tasks[1..]))
    ensures Elements(TaskIds(tasks)) == {tasks[0].id} + Elements(TaskIds(tasks[1..]))
  {
    var ids := TaskIds(tasks);
    var rest := TaskIds(tasks[1..]);
    assert rest == ids[1..];
    assert ids[0] !in rest by {
      forall i | 0 <= i < |rest| ensures rest[i] != ids[0] {
        assert rest[i] == ids[i + 1];
      }
    }
    assert ids == [ids[0]] + rest;
  }

  /** Adding a fresh value to one side of an intersection adds one element exactly when the other side has it. */
  lemma IntersectWithNew(x: string, a: set<string>, b: set<string>)
    requires x !in a
    ensures |({x} + a) * b| == (if x in b then 1 else 0) + |a * b|
  {
    if x in b {
      assert ({x} + a) * b == {x} + a * b;
    } else {
      assert ({x} + a) * b == a * b;
    }
  }

  /**
   * When the completed ids are distinct ids of today's tasks (which are
   * distinct), the completed count is the length of the completed list.
   */
  lemma CompletedCountIsLength(tasks: seq<Task>, completed: seq<string>)
    requires NoDuplicates(TaskIds(tasks)) && NoDuplicates(completed)
    requires forall i :: 0 <= i < |completed| ==> completed[i] in TaskIds(tasks)
    ensures CompletedCount(tasks, completed) == |completed|
    ensures |PendingTasks(tasks, completed)| == |tasks| - |completed|
  {
    CompletedAmongCount(tasks, completed);
    ElementsOfDistinct(completed);
    assert Elements(TaskIds(tasks)) * Elements(completed) == Elements(completed);
  }

  /** `Math.round(x)` for `x = n / d` with `d > 0`: the nearest integer, halves rounded up. */
  function RoundRatio(n: int, d: int): (r: int)
    requires d > 0
    ensures 2 * d * r <= 2 * n + d < 2 * d * r + 2 * d
  {
    (2 * n + d) / (2 * d)
  }

  /**
   * The completion rate: the completed share of today's tasks as a whole
   * percentage, rounded to the nearest integer. The screen always has tasks;
   * with none the source divides 0 by 0.
   */
  function CompletionRate(tasks: seq<Task>, completed: seq<string>): (rate: int)
    requires |tasks| > 0
    ensures 0 <= rate <= 100
    ensures PendingTasks(tasks, completed) == [] ==> rate == 100
    ensures PendingTasks(tasks, completed) == tasks ==> rate == 0
    ensures var c := CompletedCount(tasks, completed);
      2 * |tasks| * rate - |tasks| <= 200 * c < 2 * |tasks| * rate + |tasks|
  {
    var c := CompletedCount(tasks, completed);
    var t := |tasks|;
    var rate := RoundRatio(100 * c, t);
    RateBounds(c, t, rate);
    rate
  }

  /** The bounds that the rounding leaves for a rate of `c` completed out of `t`. */
  lemma RateBounds(c: int, t: int, rate: int)
    requires 0 <= c <= t && t > 0
    requires 2 * t * rate <= 200 * c + t < 2 * t * rate + 2 * t
    ensures 0 <= rate <= 100
    ensures c == t ==> rate == 100
    ensures c == 0 ==> rate == 0
  {
    MulStrict(2 * t, rate, 101);
    MulStrict(2 * t, -1, rate);
    MulStrict(2 * t, 99, rate);
    MulStrict(2 * t, rate, 1);
  }

  /** Multiplying by a positive factor keeps a strict order, and only then. */
  lemma MulStrict(k: int, a: int, b: int)
    requires k > 0
    ensures k * a < k * b <==> a < b
  {
    if a < b {
      assert k * b - k * a == k * (b - a);
    } else {
      assert k * a - k * b == k * (a - b);
    }
  }

  /**
   * With fewer than 200 tasks the rate reads 100 only when nothing is
   * pending; from 200 tasks on, one pending task can round to 100.
   */
  lemma RateHundredMeansDone(tasks: seq<Task>, completed: seq<string>)
    requires 0 < |tasks| < 200
    ensures CompletionRate(tasks, completed) == 100 <==> PendingTasks(tasks, completed) == []
  {
  }

  /** The motivation card is shown at a completion rate of 80 or more. */
  predicate ShowsMotivation(tasks: seq<Task>, completed: seq<string>)
    requires |tasks| > 0
  {
    CompletionRate(tasks, completed) >= 80
  }

  /** With today's four tasks the rate moves in steps of 25, so the card needs all four done. */
  lemma MockMotivationNeedsAllDone(completed: seq<string>)
    ensures CompletedCount(MockTasks, completed) == 3 ==> CompletionRate(MockTasks, completed) == 75
    ensures ShowsMotivation(MockTasks, completed) <==> PendingTasks(MockTasks, completed) == []
  {
    var c := CompletedCount(MockTasks, completed);
    assert CompletionRate(MockTasks, completed) == (200 * c + 4) / 8;
    assert c <= 4;
    if c == 4 {
      assert PendingTasks(MockTasks, completed) == [];
    }
  }

  class ActivitiesScreen {
    const todayTasks: seq<Task>
    var completedTasks: seq<string>

    /**
     * Task ids are distinct, and the completed list holds ids of today's
     * tasks, each at most once.
     */
    ghost predicate Valid()
      reads this
    {
      && NoDuplicates(TaskIds(todayTasks))
      && NoDuplicates(completedTasks)
      && forall i :: 0 <= i < |completedTasks| ==> completedTasks[i] in TaskIds(todayTasks)
    }

    constructor (tasks: seq<Task>)
      requires NoDuplicates(TaskIds(tasks))
      ensures todayTasks == tasks && completedTasks == []
      ensures Valid()
    {
      todayTasks := tasks;
      completedTasks := [];
    }

    /** The completion handler: the id goes on the end of the completed list. */
    method HandleTaskComplete(id: string)
      modifies this
      ensures completedTasks == old(completedTasks) + [id]
      ensures completedTasks[..|old(completedTasks)|] == old(completedTasks)
    {
      completedTasks := completedTasks + [id];
    }

    /**
     * "Mark Complete" on the `k`-th pending card: only pending tasks have the
     * button, so the completed list stays free of duplicates and of unknown
     * ids, and exactly one task leaves the pending list.
     */
    method MarkComplete(k: nat)
      requires Valid()
      requires k < |PendingTasks(todayTasks, completedTasks)|
      modifies this
      ensures completedTasks == old(completedTasks) + [old(PendingTasks(todayTasks, completedTasks))[k].id]
      ensures |PendingTasks(todayTasks, completedTasks)| == |old(PendingTasks(todayTasks, completedTasks))| - 1
      ensures CompletedCount(todayTasks, completedTasks) == |completedTasks|
      ensures Valid()
    {
      var pending := PendingTasks(todayTasks, completedTasks);
      var t := pending[k];
      assert t in pending;
      var j :| 0 <= j < |todayTasks| && todayTasks[j] == t;
      assert TaskIds(todayTasks)[j] == t.id;
      CompletedCountIsLength(todayTasks, completedTasks);
      HandleTaskComplete(t.id);
      CompletedCountIsLength(todayTasks, completedTasks);
    }
  }
}

/** A model of the non-preemptive periodic-task scheduler of src/tasker.c.

    The scheduler keeps a fixed-capacity table of task records. A timer interrupt
    calls the time manager, which advances the counter of every task that is not
    paused and marks a task READY once its period has elapsed; the main loop calls
    the runner, which flips every READY task back to RUNNABLE and calls it, in
    registration order. Getters and setters look a task up by the identity of its
    run function.

    The table is an immutable sequence; every operation returns the new table.
 */
module Tasker {

  /** Capacity of the task table. The real value is configured outside the
      scheduler; the model fixes it at 255, an upper bound for any configuration
      the 8-bit task count allows. No property depends on the value. */
  const NUMBER_OF_TASKS: nat := 255

  /** Identity of a task's run function. Only equality is ever used. */
  type TaskFunction = nat

  datatype TaskState = Runnable | Ready | Paused

  /** One task record: its run function, its period and its tick counter (both in
      timer ticks) and its scheduling state. */
  datatype Task = Task(run: TaskFunction, period: nat, counter: nat, state: TaskState)

  /** The live part of the task table: the records registered so far. */
  type Table = t: seq<Task> | |t| <= NUMBER_OF_TASKS

  /** Slot `i` holds `f`, and no earlier slot does. */
  predicate FirstMatch(t: Table, f: TaskFunction, i: int) {
    0 <= i < |t| && t[i].run == f && forall j :: 0 <= j < i ==> t[j].run != f
  }

  /** Some registered slot holds `f`. */
  predicate Registered(t: Table, f: TaskFunction) {
    exists i :: 0 <= i < |t| && t[i].run == f
  }

  /** No run function is registered twice. */
  predicate UniqueRuns(t: Table) {
    forall i, j :: 0 <= i < j < |t| ==> t[i].run != t[j].run
  }

  /** Every task that takes part in counting has a counter within [1, period]
      (which forces the period to be at least 1). */
  predicate WellTimed(t: Table) {
    forall i :: 0 <= i < |t| && t[i].state != Paused ==> 1 <= t[i].counter <= t[i].period
  }

  /** Two tables of the same length whose slots hold the same run functions. */
  predicate SameRuns(t: Table, u: Table) {
    |t| == |u| && forall i :: 0 <= i < |t| ==> t[i].run == u[i].run
  }

  // ---------------------------------------------------------------------------
  // Registration
  // ---------------------------------------------------------------------------

  /** Appends a record for `f` with the given state and period and a counter of 1.
      There is no capacity check and no duplicate check in the scheduler, so a full
      table is excluded by the precondition and a duplicate is simply appended. */
  function Create(t: Table, f: TaskFunction, state: TaskState, period: nat): (r: Table)
    requires |t| < NUMBER_OF_TASKS
    ensures |r| == |t| + 1
    ensures r[..|t|] == t
    ensures r[|t|].run == f && r[|t|].state == state && r[|t|].period == period
    ensures r[|t|].counter == 1
    ensures UniqueRuns(t) && !Registered(t, f) ==> UniqueRuns(r)
    ensures WellTimed(t) && (period >= 1 || state == Paused) ==> WellTimed(r)
  {
    t + [Task(f, period, 1, state)]
  }

  // ---------------------------------------------------------------------------
  // Lookup
  // ---------------------------------------------------------------------------

  /** The linear search of the lookup loop, started at slot `k`: the first slot at
      or after `k` holding `f`, or `|t|` when there is none. */
  function IndexFrom(t: Table, f: TaskFunction, k: nat): (i: nat)
    requires k <= |t|
    ensures k <= i <= |t|
    ensures i < |t| ==> t[i].run == f
    ensures forall j :: k <= j < i ==> t[j].run != f
    decreases |t| - k
  {
    if k == |t| then k
    else if t[k].run == f then k
    else IndexFrom(t, f, k + 1)
  }

  /** Index of the first slot holding `f`; `|t|` (one past the live records) when
      `f` is not registered. */
  function IndexOf(t: Table, f: TaskFunction): (i: nat)
    ensures i <= |t|
    ensures i < |t| ==> FirstMatch(t, f, i)
    ensures i == |t| <==> !Registered(t, f)
  {
    IndexFrom(t, f, 0)
  }

  // ---------------------------------------------------------------------------
  // Time manager
  // ---------------------------------------------------------------------------

  /** The per-task step of the time manager: a task whose counter has reached its
      period becomes READY with its counter restarted, any other task counts one
      more tick. */
  function CheckCounter(task: Task): (r: Task)
    ensures r.run == task.run && r.period == task.period
    ensures r.state != task.state ==> r.state == Ready && r.counter == 1
    ensures r.state == Ready <==> task.state == Ready || task.counter >= task.period
    ensures 1 <= task.counter <= task.period ==> 1 <= r.counter <= r.period
    ensures task.counter >= task.period ==> r == task.(counter := 1, state := Ready)
    ensures task.counter < task.period ==> r == task.(counter := task.counter + 1)
  {
    if task.counter >= task.period then task.(counter := 1, state := Ready)
    else task.(counter := task.counter + 1)
  }

  /** The time-manager loop from slot `k` on: every slot before `k` is left as it
      is, every later slot gets the per-task step unless it is paused. */
  function TickFrom(t: Table, k: nat): (r: Table)
    requires k <= |t|
    ensures |r| == |t|
    ensures forall j :: 0 <= j < k ==> r[j] == t[j]
    ensures forall j :: k <= j < |t| ==> r[j] == (if t[j].state == Paused then t[j] else CheckCounter(t[j]))
    decreases |t| - k
  {
    if k == |t| then t
    else if t[k].state != Paused then TickFrom(t[k := CheckCounter(t[k])], k + 1)
    else TickFrom(t, k + 1)
  }

  /** One timer tick over the whole table. */
  function TimeManager(t: Table): (r: Table)
    ensures SameRuns(t, r)
    ensures forall j :: 0 <= j < |t| ==> r[j].period == t[j].period
    ensures forall j :: 0 <= j < |t| && t[j].state == Paused ==> r[j] == t[j]
    ensures forall j :: 0 <= j < |t| && t[j].state != Paused && t[j].counter >= t[j].period ==>
              r[j].counter == 1 && r[j].state == Ready
    ensures forall j :: 0 <= j < |t| && t[j].state != Paused && t[j].counter < t[j].period ==>
              r[j].counter == t[j].counter + 1 && r[j].state == t[j].state
    ensures WellTimed(t) ==> WellTimed(r)
  {
    TickFrom(t, 0)
  }

  // ---------------------------------------------------------------------------
  // Runner
  // ---------------------------------------------------------------------------

  /** Outcome of one runner pass: the new table and the indices of the tasks it
      called, in the order it called them. */
  datatype Dispatch = Dispatch(table: Table, order: seq<nat>)

  /** The runner loop from slot `k` on. Task bodies are assumed to leave the table
      alone, so a call is recorded by appending its index to `order`. */
  function RunFrom(t: Table, k: nat): (d: Dispatch)
    requires k <= |t|
    ensures |d.table| == |t|
    ensures forall j :: 0 <= j < k ==> d.table[j] == t[j]
    ensures forall j :: k <= j < |t| ==>
              d.table[j] == (if t[j].state == Ready then t[j].(state := Runnable) else t[j])
    ensures forall j :: j in d.order <==> k <= j < |t| && t[j].state == Ready
    ensures forall a, b :: 0 <= a < b < |d.order| ==> d.order[a] < d.order[b]
    decreases |t| - k
  {
    if k == |t| then Dispatch(t, [])
    else if t[k].state == Ready then
      var d := RunFrom(t[k := t[k].(state := Runnable)], k + 1);
      assert forall b :: 0 <= b < |d.order| ==> k < d.order[b] by {
        forall b | 0 <= b < |d.order| ensures k < d.order[b] {
          assert d.order[b] in d.order;
        }
      }
      Dispatch(d.table, [k] + d.order)
    else RunFrom(t, k + 1)
  }

  /** One runner pass over the whole table. */
  function Runner(t: Table): (d: Dispatch)
    ensures |d.table| == |t|
    ensures forall j :: 0 <= j < |t| && t[j].state == Ready ==> d.table[j] == t[j].(state := Runnable)
    ensures forall j :: 0 <= j < |t| && t[j].state != Ready ==> d.table[j] == t[j]
    ensures forall j :: j in d.order <==> 0 <= j < |t| && t[j].state == Ready
    ensures forall a, b :: 0 <= a < b < |d.order| ==> d.order[a] < d.order[b]
    ensures (forall j :: 0 <= j < |t| ==> t[j].state != Ready) ==> d.table == t && d.order == []
    ensures forall j :: 0 <= j < |d.table| ==> d.table[j].state != Ready
  {
    var d := RunFrom(t, 0);
    assert (forall j :: 0 <= j < |t| ==> t[j].state != Ready) ==> d.table == t && d.order == [] by {
      if forall j :: 0 <= j < |t| ==> t[j].state != Ready {
        if d.order != [] {
          assert d.order[0] in d.order;
        }
      }
    }
    d
  }

  // ---------------------------------------------------------------------------
  // Accessors
  // ---------------------------------------------------------------------------

  /** State of the first task registered with `f`. */
  function GetState(t: Table, f: TaskFunction): (s: TaskState)
    requires Registered(t, f)
    ensures forall i :: FirstMatch(t, f, i) ==> s == t[i].state
    ensures UniqueRuns(t) ==> forall i :: 0 <= i < |t| && t[i].run == f ==> s == t[i].state
  {
    t[IndexOf(t, f)].state
  }

  /** Period of the first task registered with `f`. */
  function GetPeriod(t: Table, f: TaskFunction): (p: nat)
    requires Registered(t, f)
    ensures forall i :: FirstMatch(t, f, i) ==> p == t[i].period
    ensures UniqueRuns(t) ==> forall i :: 0 <= i < |t| && t[i].run == f ==> p == t[i].period
  {
    t[IndexOf(t, f)].period
  }

  /** Counter of the first task registered with `f`. */
  function GetCounter(t: Table, f: TaskFunction): (c: nat)
    requires Registered(t, f)
    ensures forall i :: FirstMatch(t, f, i) ==> c == t[i].counter
    ensures UniqueRuns(t) ==> forall i :: 0 <= i < |t| && t[i].run == f ==> c == t[i].counter
  {
    t[IndexOf(t, f)].counter
  }

  /** Overwrites the state of the first task registered with `f`; entering PAUSED
      also restarts its counter at 1. */
  function SetState(t: Table, f: TaskFunction, s: TaskState): (r: Table)
    requires Registered(t, f)
    ensures SameRuns(t, r)
    ensures forall j :: 0 <= j < |t| && !FirstMatch(t, f, j) ==> r[j] == t[j]
    ensures forall j :: FirstMatch(t, f, j) ==> r[j].state == s && r[j].period == t[j].period
    ensures forall j :: FirstMatch(t, f, j) ==> r[j].counter == (if s == Paused then 1 else t[j].counter)
  {
    var i := IndexOf(t, f);
    t[i := t[i].(state := s, counter := if s == Paused then 1 else t[i].counter)]
  }

  /** Overwrites the period of the first task registered with `f`; its counter is
      kept, so a period at or below the counter makes the next tick fire. */
  function SetPeriod(t: Table, f: TaskFunction, p: nat): (r: Table)
    requires Registered(t, f)
    ensures SameRuns(t, r)
    ensures forall j :: 0 <= j < |t| && !FirstMatch(t, f, j) ==> r[j] == t[j]
    ensures forall j :: FirstMatch(t, f, j) ==>
              r[j].period == p && r[j].state == t[j].state && r[j].counter == t[j].counter
  {
    var i := IndexOf(t, f);
    t[i := t[i].(period := p)]
  }

  /** Overwrites the counter of the first task registered with `f`. No range check
      is made: any value is stored as given. */
  function SetCounter(t: Table, f: TaskFunction, c: nat): (r: Table)
    requires Registered(t, f)
    ensures SameRuns(t, r)
    ensures forall j :: 0 <= j < |t| && !FirstMatch(t, f, j) ==> r[j] == t[j]
    ensures forall j :: FirstMatch(t, f, j) ==>
              r[j].counter == c && r[j].state == t[j].state && r[j].period == t[j].period
  {
    var i := IndexOf(t, f);
    t[i := t[i].(counter := c)]
  }
}

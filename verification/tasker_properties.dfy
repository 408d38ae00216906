/** Properties that relate several scheduler operations: repeated ticks, pausing
    and resuming, a tick followed by a runner pass, and the accessors read back
    after the setters. */
module TaskerProperties {
  import opened Tasker

  /** `n` consecutive timer ticks. */
  function Ticks(t: Table, n: nat): (r: Table)
    ensures SameRuns(t, r)
    ensures forall j :: 0 <= j < |t| ==> r[j].period == t[j].period
    ensures WellTimed(t) ==> WellTimed(r)
    decreases n
  {
    if n == 0 then t else TimeManager(Ticks(t, n - 1))
  }

  // ---------------------------------------------------------------------------
  // Lookup
  // ---------------------------------------------------------------------------

  /** At most one slot is the first match of a function. */
  lemma FirstMatchUnique(t: Table, f: TaskFunction, i: int, k: int)
    requires FirstMatch(t, f, i) && FirstMatch(t, f, k)
    ensures i == k
  {
  }

  /** Lookup depends on the run functions of the table only, so every operation
      that keeps them (ticks, the runner, the setters) keeps every lookup. */
  lemma SameRunsLookup(t: Table, u: Table, f: TaskFunction)
    requires SameRuns(t, u)
    ensures Registered(t, f) <==> Registered(u, f)
    ensures IndexOf(t, f) == IndexOf(u, f)
    ensures forall i :: FirstMatch(t, f, i) <==> FirstMatch(u, f, i)
  {
    if Registered(t, f) {
      var i :| 0 <= i < |t| && t[i].run == f;
      assert u[i].run == f;
    }
    if Registered(u, f) {
      var i :| 0 <= i < |u| && u[i].run == f;
      assert t[i].run == f;
    }
    var i, k := IndexOf(t, f), IndexOf(u, f);
    if i < |t| {
      assert FirstMatch(u, f, i);
      FirstMatchUnique(u, f, i, k);
    }
  }

  /** The lookup of a task's index finds exactly its first match, and misses
      exactly the unregistered functions. */
  lemma IndexOfIsFirstMatch(t: Table, f: TaskFunction, i: int)
    ensures FirstMatch(t, f, i) <==> Registered(t, f) && i == IndexOf(t, f)
  {
    if FirstMatch(t, f, i) {
      FirstMatchUnique(t, f, i, IndexOf(t, f));
    }
  }

  /** With unique run functions, a task is found at the one slot that holds it. */
  lemma UniqueLookup(t: Table, f: TaskFunction, i: int)
    requires UniqueRuns(t)
    requires 0 <= i < |t| && t[i].run == f
    ensures IndexOf(t, f) == i
  {
    assert FirstMatch(t, f, i);
    IndexOfIsFirstMatch(t, f, i);
  }

  // ---------------------------------------------------------------------------
  // Registration
  // ---------------------------------------------------------------------------

  /** A new function is found at the appended slot and reads back the values it was
      registered with; every function registered earlier (including `f` itself on a
      duplicate registration) is still found where it was. */
  lemma CreateThenLookup(t: Table, f: TaskFunction, s: TaskState, p: nat)
    requires |t| < NUMBER_OF_TASKS
    ensures forall g :: Registered(t, g) ==> IndexOf(Create(t, f, s, p), g) == IndexOf(t, g)
    ensures !Registered(t, f) ==> IndexOf(Create(t, f, s, p), f) == |t|
    ensures !Registered(t, f) ==>
              && GetState(Create(t, f, s, p), f) == s
              && GetPeriod(Create(t, f, s, p), f) == p
              && GetCounter(Create(t, f, s, p), f) == 1
  {
    var r := Create(t, f, s, p);
    forall g | Registered(t, g) ensures IndexOf(r, g) == IndexOf(t, g) {
      var i := IndexOf(t, g);
      assert FirstMatch(r, g, i);
      IndexOfIsFirstMatch(r, g, i);
    }
    if !Registered(t, f) {
      assert FirstMatch(r, f, |t|);
      IndexOfIsFirstMatch(r, f, |t|);
    }
  }

  // ---------------------------------------------------------------------------
  // Time manager
  // ---------------------------------------------------------------------------

  /** A counting task whose counter stays within its period counts up by one per
      tick and keeps its state. */
  lemma {:induction false} CountUpTicks(t: Table, i: nat, n: nat)
    requires i < |t| && t[i].state != Paused
    requires t[i].counter + n <= t[i].period
    ensures Ticks(t, n)[i] == t[i].(counter := t[i].counter + n)
    decreases n
  {
    if n > 0 {
      CountUpTicks(t, i, n - 1);
    }
  }

  /** From counter 1 and RUNNABLE, the task stays RUNNABLE for the first
      `period - 1` ticks, counting 1, 2, ..., and the `period`-th tick makes it
      READY with its counter back at 1. */
  lemma {:induction false} PeriodTicksMakeReady(t: Table, i: nat)
    requires i < |t| && t[i].state == Runnable && t[i].counter == 1 && t[i].period >= 1
    ensures forall k :: 0 <= k < t[i].period ==>
              Ticks(t, k)[i].state == Runnable && Ticks(t, k)[i].counter == k + 1
    ensures Ticks(t, t[i].period)[i] == t[i].(state := Ready)
  {
    forall k | 0 <= k < t[i].period
      ensures Ticks(t, k)[i].state == Runnable && Ticks(t, k)[i].counter == k + 1
    {
      CountUpTicks(t, i, k);
    }
    CountUpTicks(t, i, t[i].period - 1);
  }

  /** A paused task is frozen by any number of ticks. */
  lemma {:induction false} PausedTaskFrozen(t: Table, i: nat, n: nat)
    requires i < |t| && t[i].state == Paused
    ensures Ticks(t, n)[i] == t[i]
    decreases n
  {
    if n > 0 {
      PausedTaskFrozen(t, i, n - 1);
    }
  }

  /** Pausing a task and ticking any number of times leaves it PAUSED with counter
      1; resuming it then restarts its period count from 1. */
  lemma PauseThenResume(t: Table, f: TaskFunction, n: nat)
    requires Registered(t, f)
    ensures Registered(Ticks(SetState(t, f, Paused), n), f)
    ensures GetState(Ticks(SetState(t, f, Paused), n), f) == Paused
    ensures GetCounter(Ticks(SetState(t, f, Paused), n), f) == 1
    ensures GetState(SetState(Ticks(SetState(t, f, Paused), n), f, Runnable), f) == Runnable
    ensures GetCounter(SetState(Ticks(SetState(t, f, Paused), n), f, Runnable), f) == 1
  {
    var p := SetState(t, f, Paused);
    SameRunsLookup(t, p, f);
    var i := IndexOf(t, f);
    var q := Ticks(p, n);
    PausedTaskFrozen(p, i, n);
    SameRunsLookup(p, q, f);
    var r := SetState(q, f, Runnable);
    SameRunsLookup(q, r, f);
  }

  /** Shrinking the period of a counting task to at most its counter makes the next
      tick fire. */
  lemma ShrunkPeriodFiresNextTick(t: Table, f: TaskFunction, p: nat)
    requires Registered(t, f) && GetState(t, f) != Paused && p <= GetCounter(t, f)
    ensures Registered(TimeManager(SetPeriod(t, f, p)), f)
    ensures GetState(TimeManager(SetPeriod(t, f, p)), f) == Ready
    ensures GetCounter(TimeManager(SetPeriod(t, f, p)), f) == 1
    ensures GetPeriod(TimeManager(SetPeriod(t, f, p)), f) == p
  {
    var u := SetPeriod(t, f, p);
    SameRunsLookup(t, u, f);
    SameRunsLookup(u, TimeManager(u), f);
  }

  // ---------------------------------------------------------------------------
  // Runner
  // ---------------------------------------------------------------------------

  /** Every READY task is called exactly once in a pass. */
  lemma RunnerCallsReadyTaskOnce(t: Table, i: nat)
    requires i < |t| && t[i].state == Ready
    ensures exists a :: 0 <= a < |Runner(t).order| && Runner(t).order[a] == i
    ensures forall a, b ::
              (0 <= a < |Runner(t).order| && 0 <= b < |Runner(t).order| &&
               Runner(t).order[a] == i && Runner(t).order[b] == i) ==> a == b
  {
    var d := Runner(t);
    assert i in d.order;
    forall a, b | 0 <= a < |d.order| && 0 <= b < |d.order| && d.order[a] == i && d.order[b] == i
      ensures a == b
    {
      if a < b || b < a {
        assert false;
      }
    }
  }

  /** Two tasks READY in the same pass are called in registration order. */
  lemma RunnerKeepsRegistrationOrder(t: Table, i: nat, j: nat)
    requires i < j < |t| && t[i].state == Ready && t[j].state == Ready
    ensures exists a, b :: 0 <= a < b < |Runner(t).order| &&
              Runner(t).order[a] == i && Runner(t).order[b] == j
  {
    var d := Runner(t);
    assert i in d.order && j in d.order;
    var a :| 0 <= a < |d.order| && d.order[a] == i;
    var b :| 0 <= b < |d.order| && d.order[b] == j;
  }

  /** A second pass straight after the first finds nothing to call. */
  lemma RunnerIdempotent(t: Table)
    ensures Runner(Runner(t).table).table == Runner(t).table
    ensures Runner(Runner(t).table).order == []
  {
  }

  /** A full cycle: from counter 1 and RUNNABLE, `period` ticks and one runner pass
      call the task and leave its record exactly as it started. */
  lemma PeriodThenDispatchRestoresTask(t: Table, i: nat)
    requires i < |t| && t[i].state == Runnable && t[i].counter == 1 && t[i].period >= 1
    ensures i in Runner(Ticks(t, t[i].period)).order
    ensures Runner(Ticks(t, t[i].period)).table[i] == t[i]
  {
    PeriodTicksMakeReady(t, i);
  }

  // ---------------------------------------------------------------------------
  // Accessors
  // ---------------------------------------------------------------------------

  /** Each getter reads back what the matching setter wrote, and pausing reads back
      a counter of 1. */
  lemma SetThenGet(t: Table, f: TaskFunction, s: TaskState, p: nat, c: nat)
    requires Registered(t, f)
    ensures GetState(SetState(t, f, s), f) == s
    ensures s == Paused ==> GetCounter(SetState(t, f, s), f) == 1
    ensures s != Paused ==> GetCounter(SetState(t, f, s), f) == GetCounter(t, f)
    ensures GetPeriod(SetState(t, f, s), f) == GetPeriod(t, f)
    ensures GetPeriod(SetPeriod(t, f, p), f) == p
    ensures GetCounter(SetPeriod(t, f, p), f) == GetCounter(t, f)
    ensures GetCounter(SetCounter(t, f, c), f) == c
    ensures GetPeriod(SetCounter(t, f, c), f) == GetPeriod(t, f)
    ensures GetState(SetPeriod(t, f, p), f) == GetState(t, f)
    ensures GetState(SetCounter(t, f, c), f) == GetState(t, f)
  {
    SameRunsLookup(t, SetState(t, f, s), f);
    SameRunsLookup(t, SetPeriod(t, f, p), f);
    SameRunsLookup(t, SetCounter(t, f, c), f);
  }

  /** A setter on `f` leaves the record that another function `g` resolves to
      untouched, and `g` still resolves to it. */
  lemma SettersLeaveOtherTasks(t: Table, f: TaskFunction, g: TaskFunction, s: TaskState, p: nat, c: nat)
    requires Registered(t, f) && Registered(t, g) && IndexOf(t, f) != IndexOf(t, g)
    ensures IndexOf(SetState(t, f, s), g) == IndexOf(t, g)
    ensures SetState(t, f, s)[IndexOf(t, g)] == t[IndexOf(t, g)]
    ensures IndexOf(SetPeriod(t, f, p), g) == IndexOf(t, g)
    ensures SetPeriod(t, f, p)[IndexOf(t, g)] == t[IndexOf(t, g)]
    ensures IndexOf(SetCounter(t, f, c), g) == IndexOf(t, g)
    ensures SetCounter(t, f, c)[IndexOf(t, g)] == t[IndexOf(t, g)]
  {
    SameRunsLookup(t, SetState(t, f, s), g);
    SameRunsLookup(t, SetPeriod(t, f, p), g);
    SameRunsLookup(t, SetCounter(t, f, c), g);
    IndexOfIsFirstMatch(t, f, IndexOf(t, g));
  }

  /** The runner, pausing, a state change (resuming included) on a task whose
      counter lies within its period, a period no smaller than the counter and a
      counter within the period all keep every counting task's counter within
      [1, period]. A PAUSED task may hold period 0, so resuming needs the check. */
  lemma OperationsKeepWellTimed(t: Table, f: TaskFunction, s: TaskState, p: nat, c: nat)
    requires WellTimed(t) && Registered(t, f)
    ensures WellTimed(Runner(t).table)
    ensures WellTimed(SetState(t, f, Paused))
    ensures s == Paused || 1 <= GetCounter(t, f) <= GetPeriod(t, f) ==> WellTimed(SetState(t, f, s))
    ensures p >= GetCounter(t, f) ==> WellTimed(SetPeriod(t, f, p))
    ensures 1 <= c <= GetPeriod(t, f) ==> WellTimed(SetCounter(t, f, c))
  {
  }
}

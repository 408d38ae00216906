# Periodic task scheduler (tasker) in Dafny

This project models the non-preemptive periodic-task scheduler of `src/tasker.c`.
The scheduler keeps a fixed-capacity table of task records. Each record holds a
run function, a period, a tick counter and a state (RUNNABLE, READY or PAUSED).

- Registration appends a record whose counter starts at 1.
- Lookup finds a task by a linear search on the identity of its run function.
  The first match wins.
- The time manager runs once per timer tick. It skips PAUSED tasks. A task whose
  counter has reached its period becomes READY and its counter goes back to 1.
  Every other task counts one more tick.
- The runner scans the table in registration order. It flips each READY task to
  RUNNABLE and calls it.
- Getters and setters read or overwrite a task's state, period or counter.
  Setting the state to PAUSED also restarts the counter at 1.

The table is an immutable `seq<Task>` of at most `NUMBER_OF_TASKS` records, and
every operation is a pure function that returns the new table. The run function
is an opaque identifier (`TaskFunction`, compared only for equality). The runner
returns the new table together with the list of indices it called, in call
order. That list stands in for the calls themselves.

Files:

- `tasker.dfy` (module `Tasker`): the data model and every operation of
  `src/tasker.c`, each with its single-call contract.
- `tasker_properties.dfy` (module `TaskerProperties`): properties that relate
  several calls. These cover `n` ticks, pause and resume, a full
  period-then-dispatch cycle, dispatch order, get-after-set round trips, and
  the counter invariant `1 <= counter <= period`.

The model follows the code as written:

- A lookup that misses returns one past the last record, as the code does. It
  does not return an explicit "not found" result. Accessors therefore require
  the function to be registered.
- Registration does no capacity check and no duplicate check. A full table is
  excluded by a precondition. A duplicate is appended and then shadowed by the
  earlier record, because the first match wins.
- `SetCounter` and `SetPeriod` store any value without validation.

## Model

| member | source | states |
|---|---|---|
| Tasker.Create | src/tasker.c:30-37 | appends exactly one record (given function, state and period, counter 1), keeps every earlier record, keeps function identities unique when the new one is fresh, and keeps the counter invariant when the period is at least 1 |
| Tasker.IndexFrom | src/tasker.c:43-50 | the search loop from slot k returns an index in [k, length]; no slot it passed holds the function, and an index below length holds it |
| Tasker.IndexOf | src/tasker.c:43-50 | returns an index at most the table length; below the length it is the first slot holding the function; it equals the length exactly when the function is not registered |
| Tasker.CheckCounter | src/tasker.c:61-73 | keeps function and period; the state can only change to READY, with the counter restarted at 1; the result is READY iff the task was READY or its counter had reached its period; a counter in [1, period] stays there; a task that is due becomes READY with counter 1, any other task's counter goes up by exactly one with its state kept |
| Tasker.TickFrom | src/tasker.c:54-59 | the tick loop from slot k leaves earlier slots alone, leaves PAUSED slots alone and applies the per-task step to every other later slot |
| Tasker.TimeManager | src/tasker.c:54-73 | keeps length, functions and periods; PAUSED records are unchanged; a due record gets counter 1 and READY; any other record's counter goes up by exactly one and its state is kept; preserves counter in [1, period] for every counting task |
| Tasker.RunFrom | src/tasker.c:77-86 | the runner loop from slot k flips each later READY record to RUNNABLE and leaves the rest alone; the dispatched indices are exactly the READY slots from k on, strictly increasing |
| Tasker.Runner | src/tasker.c:77-86 | every READY record becomes RUNNABLE and every other record is unchanged; the dispatched indices are exactly the READY indices in strictly increasing order; no READY record means an unchanged table and no dispatch; no record is READY afterwards |
| Tasker.GetState | src/tasker.c:89-92 | returns the state of the first record holding the function (of the only one, when identities are unique) |
| Tasker.GetPeriod | src/tasker.c:95-98 | returns the period of the first record holding the function (of the only one, when identities are unique) |
| Tasker.GetCounter | src/tasker.c:101-104 | returns the counter of the first record holding the function (of the only one, when identities are unique) |
| Tasker.SetState | src/tasker.c:107-113 | writes the new state into the first matching record only; its counter becomes 1 if the new state is PAUSED and is kept otherwise; its period and all other records are unchanged |
| Tasker.SetPeriod | src/tasker.c:116-119 | changes only the period of the first matching record; every other field and record is unchanged |
| Tasker.SetCounter | src/tasker.c:122-125 | changes only the counter of the first matching record, to any value given; every other field and record is unchanged |
| TaskerProperties.Ticks | src/tasker.c:54-73 | any number of consecutive ticks keeps functions and periods and preserves the counter invariant |
| TaskerProperties.FirstMatchUnique | src/tasker.c:43-50 | a function has at most one first-matching slot |
| TaskerProperties.SameRunsLookup | src/tasker.c:43-50 | tables with the same functions in the same slots agree on registration and on every lookup |
| TaskerProperties.IndexOfIsFirstMatch | src/tasker.c:43-50 | a slot is the first match of a function iff the function is registered and the lookup returns that slot |
| TaskerProperties.UniqueLookup | src/tasker.c:43-50 | with unique function identities, the lookup returns the one slot holding the function |
| TaskerProperties.CreateThenLookup | src/tasker.c:30-50 | after registration every earlier function is still found at its old slot (so a duplicate stays shadowed); a fresh function is found at the new slot and reads back its state, its period and counter 1 |
| TaskerProperties.CountUpTicks | src/tasker.c:69-72 | a counting task with counter + n at most its period counts up by exactly n over n ticks and keeps its state |
| TaskerProperties.PeriodTicksMakeReady | src/tasker.c:54-73 | from RUNNABLE with counter 1, ticks 0 to period - 1 give RUNNABLE with counter k + 1, and the period-th tick gives READY with counter 1 |
| TaskerProperties.PausedTaskFrozen | src/tasker.c:56-58 | any number of ticks leaves a PAUSED record unchanged |
| TaskerProperties.PauseThenResume | src/tasker.c:107-113 | after pausing and any number of ticks, the task is PAUSED with counter 1; resuming it gives RUNNABLE with counter 1 |
| TaskerProperties.ShrunkPeriodFiresNextTick | src/tasker.c:116-119 | setting a counting task's period to at most its counter makes the next tick mark it READY with counter 1 and the new period |
| TaskerProperties.RunnerCallsReadyTaskOnce | src/tasker.c:79-84 | each READY task appears in the dispatch list exactly once |
| TaskerProperties.RunnerKeepsRegistrationOrder | src/tasker.c:79-84 | of two tasks READY in the same pass, the one registered first is called first |
| TaskerProperties.RunnerIdempotent | src/tasker.c:77-86 | a second runner pass right after the first changes nothing and calls nothing |
| TaskerProperties.PeriodThenDispatchRestoresTask | src/tasker.c:54-86 | from RUNNABLE with counter 1, period ticks and one runner pass call the task and return its record to its starting value |
| TaskerProperties.SetThenGet | src/tasker.c:89-125 | each getter reads back what the matching setter wrote; pausing reads back counter 1; the other fields, the state included, read back unchanged |
| TaskerProperties.SettersLeaveOtherTasks | src/tasker.c:106-125 | a setter on one function keeps the record and the lookup of every function that resolves to another slot |
| TaskerProperties.OperationsKeepWellTimed | src/tasker.c:77-125 | the runner, pausing, resuming or otherwise setting a state when the task's counter is within its period, a period no smaller than the counter, and a counter within the period each keep every counting task's counter in [1, period] |

## Left out

- Timer interrupt versus main loop: the time manager runs in a timer interrupt and the runner in the main loop, and they share the table without locking. The model treats the two as separate sequential steps and leaves the concurrency out.
- Task bodies: the call `task_array[i].run()` is a call into code the model cannot see. It is modelled by recording the index in the runner's dispatch list. Task bodies are assumed not to change the table, so a setter called from inside a task is not modelled.
- Integer widths: `TaskTime` and `NUMBER_OF_TASKS` are defined in `tasker.h` and `config.h`, which are not part of this model. Counters and periods are unbounded naturals, so there is no wrap-around. The tick increments a counter only when it is below the period (src/tasker.c:64-71), so the incremented value is at most the period and fits in `TaskTime` whatever the other fields hold; `Tasker.CheckCounter` states this, and `Tasker.TimeManager` and `TaskerProperties.OperationsKeepWellTimed` show that counters in [1, period] stay there. The model fixes `NUMBER_OF_TASKS` at 255, an upper bound for any configuration the 8-bit `numberof_tasks` allows; no lemma depends on the value.
- Lookup misses: for a function that is not registered, the lookup returns `numberof_tasks` (src/tasker.c:43-50), and a getter or setter then reads or writes that spare slot (src/tasker.c:91, 97, 103, 110-112, 118, 124). The spare slot is zero-initialised (src/tasker.c:27) or holds what an earlier missed setter wrote, and the next registration overwrites it (src/tasker.c:32-35). The access is out of bounds only when the table is full. The model keeps only the live records and excludes misses with the `Registered` precondition, so the spare slot and its contents are not modelled.
- Registering past capacity: `tsk_task_create` writes past the end of the array when the table is full (src/tasker.c:32-36). The model excludes this with the precondition `|t| < NUMBER_OF_TASKS`.

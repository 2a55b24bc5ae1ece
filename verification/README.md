# Process manager roster, modelled in Dafny

This project models `ProcessManagerCore`, the process manager of PyFunceble
(`PyFunceble/ext/process_manager/core.py`). It models the manager's bookkeeping
of its workers and proves what that bookkeeping promises.

The manager keeps two lists of worker handles: `created_workers` and
`running_workers`. It bounds the running workers by `max_workers`. It moves
workers through the two lists with these operations:

- `spawn_worker` and `spawn_workers`;
- `start`;
- `terminate_worker` and `terminate`;
- `wait`.

It also routes data items to the workers' input, output and configuration
queues, either to one worker picked at random or to every worker.

A worker is the handle the manager sees. It has:

- a name;
- the answer `is_alive()` gives;
- the exception its process stored, if any.

The manager's `start`, `join`, `terminate` and push calls on a worker are
appended to one trace. A push carries its message, which says the queue, the
item, the sender and, for a fan-out, the addressee. Each worker's share of the
trace is what the recording mocks of the test double in
`tests/test_process_core.py` keep for those methods. `is_alive()` is read but
not recorded.

The files:

- `wrappers.dfy` holds `Option`.
- `settings.dfy` holds the values the manager computes once. These are:
  - its name and the worker names;
  - `cpu_count`;
  - the `max_workers` clamp;
  - the queue set-up of `__init__`.
- `py_lists.dfy` holds the Python list operations the manager relies on:
  - `list.remove`;
  - `list(set(...))`;
  - a `for` loop over a list its body shrinks.
- `worker.dfy` holds the worker handle and the trace of calls.
- `manager_spec.dfy` holds the specification functions:
  - the outcome of an operation;
  - how many workers a round of spawning creates;
  - the calls a push or a run of pushes makes;
  - what each worker receives from them.
- `manager.dfy` holds the manager as a class. There is one method per operation
  and per loop. Each method is proved against those functions.
- `wait_finding.dfy` and `start_again.dfy` apply the contracts to concrete
  managers.

An operation that raises is modelled with an `Outcome`:

- `WorkerClassNotSet` stands for a `WORKER_CLASS` that is not set. A falsy
  `WORKER_CLASS` gives the `TypeError` of `ensure_worker_class_is_set`. One
  that was never assigned gives the `AttributeError` of `__getattr__`.
- `WorkerNotListed` is the `ValueError` of `list.remove` in `wait`.
- `WorkerRaised` is a worker's stored exception, raised again.

`random.choice` becomes a choice the contract leaves open (`:|`). The worker
picked is returned as a ghost value.

## Model

| member | source | states |
|---|---|---|
| Settings.CpuCount | PyFunceble/ext/process_manager/core.py:396-409 | With more than two CPUs available, exactly two are left free. Otherwise all are used. With at least one CPU the result is between 1 and the number available. |
| Settings.ClampMaxWorkers | PyFunceble/ext/process_manager/core.py:419-434 | The setter stores `max(1, value)`. The result is at least 1 and at least the value, and it is either the value or 1. |
| Settings.InitialMaxWorkers | PyFunceble/ext/process_manager/core.py:273 | `__init__` stores `max_workers or cpu_count`. A missing or zero bound falls back to `cpu_count`. Any other value is kept exactly as given. |
| Settings.InitialMaxWorkersIsNotClamped | PyFunceble/ext/process_manager/core.py:273 | A negative bound given to the constructor is stored below what the setter would store for it. |
| Settings.DecimalRoundTrip | PyFunceble/ext/process_manager/core.py:613 | Reading back the decimal digits of a worker number gives the number. |
| Settings.WorkerName | PyFunceble/ext/process_manager/core.py:613 | A worker name is the manager's name `ppm-<STD_NAME>`, then a dash, then the worker's number in decimal. |
| Settings.WorkerNameInjective | PyFunceble/ext/process_manager/core.py:613 | Two worker names `ppm-<STD_NAME>-<n>` are equal exactly when their numbers are. |
| Settings.WorkerNameIsNotManagerName | PyFunceble/ext/process_manager/core.py:388-394 | No worker name equals the manager's own name `ppm-<STD_NAME>`. |
| Settings.InputQueueSetup | PyFunceble/ext/process_manager/core.py:303-306 | A supplied input queue is kept. Without one, a queue is generated exactly when generation is asked for. |
| Settings.GeneratedOutputs | PyFunceble/ext/process_manager/core.py:309-311 | `count` generated output queues, numbered 0 to `count - 1` in order. |
| Settings.OutputQueuesSetup | PyFunceble/ext/process_manager/core.py:308-315 | There are output queues exactly when one was supplied or generation is asked for. A single supplied queue becomes a one-item list. A supplied list is kept. Otherwise `max(1, output_queue_count)` queues are generated. |
| Settings.ConfigurationQueueAsWritten | PyFunceble/ext/process_manager/core.py:317-318 | As written, a configuration queue is stored only when it is generated. It is generated exactly when none is supplied and generation is asked for. |
| Settings.ConfigurationQueueDropsSupplied | PyFunceble/ext/process_manager/core.py:303-318 | A supplied configuration queue is lost, where a supplied input queue is kept. |
| Settings.ConfigurationQueueSetup | PyFunceble/ext/process_manager/core.py:317-318 | Corrected set-up: a supplied configuration queue is kept. Without one, a queue is generated exactly when generation is asked for. |
| Settings.TargetedProcessingAsWritten | PyFunceble/ext/process_manager/core.py:276 | `targeted_processing or True` is true whatever is passed. |
| Settings.TargetedProcessing | PyFunceble/ext/process_manager/core.py:276 | Corrected flag: a passed value is kept, and true is only the default. |
| Settings.TargetedProcessingFalseIgnored | PyFunceble/ext/process_manager/core.py:276 | Passing `False` gives a different flag as written than as intended. |
| PyLists.FirstIndex | PyFunceble/ext/process_manager/core.py:759 | The position `list.remove` finds: it holds the item, and no earlier position does. |
| PyLists.RemoveFirst | PyFunceble/ext/process_manager/core.py:759 | `list.remove` makes the list one shorter and takes exactly one copy of the item out of its multiset. |
| PyLists.RemoveFirstHead | PyFunceble/ext/process_manager/core.py:759 | `list.remove` of the head item leaves the tail. |
| PyLists.RemoveFirstCons | PyFunceble/ext/process_manager/core.py:759 | `list.remove` keeps a leading item that differs from the one asked for and removes from the rest. |
| PyLists.RemoveFirstAfter | PyFunceble/ext/process_manager/core.py:759 | `list.remove(x)` on `p + [x] + q` with no `x` in `p` leaves `p + q`. The items stay in order. |
| PyLists.RemoveIfPresent | PyFunceble/ext/process_manager/core.py:703-707 | `if x in l: l.remove(x)` takes one copy of `x` out when there is one and leaves the list alone otherwise. |
| PyLists.RemoveAll | PyFunceble/ext/process_manager/core.py:728-733 | A loop of guarded removals subtracts the removed items' multiset from the list's. |
| PyLists.RemoveAllSnoc | PyFunceble/ext/process_manager/core.py:728-733 | One more removal at the end of the loop is applied last. |
| PyLists.RemoveAllMembers | PyFunceble/ext/process_manager/core.py:759-760 | When the list holds every removed item, an item is on it exactly when it was removed or is left over. |
| PyLists.RemoveIfPresentDistinct | PyFunceble/ext/process_manager/core.py:703-707 | On a list without repeats, the removal leaves no copy of the item. |
| PyLists.Dedup | PyFunceble/ext/process_manager/core.py:722 | `list(set(...))` is never longer than the list it comes from. |
| PyLists.DedupMembers | PyFunceble/ext/process_manager/core.py:722 | `list(set(...))` has no repeats and holds exactly the items of the list. |
| PyLists.EachRemovableWhenIncluded | PyFunceble/ext/process_manager/core.py:760 | Every `created_workers.remove` succeeds when the created list holds each removed worker at least as often as it is removed. |
| PyLists.EachRemovableSnoc | PyFunceble/ext/process_manager/core.py:760 | A run of successful removals stays successful when its next item is still on the list. |
| PyLists.EachRemovablePrefix | PyFunceble/ext/process_manager/core.py:760 | When a whole run of removals succeeds, so does each of its prefixes. |
| PyLists.LoopVisitsEvenPositions | PyFunceble/ext/process_manager/core.py:748-760 | A `for` loop that removes each item it visits from the list it walks visits only positions 0, 2, 4, ... of a list without repeats. |
| PyLists.LoopVisitsFrom | PyFunceble/ext/process_manager/core.py:748-760 | The same loop, resumed after the prefix it has already removed, visits the even positions of what is left. |
| PyLists.EvenPositionsAt | PyFunceble/ext/process_manager/core.py:748 | The `j`-th item that loop visits is the item at position `2j`. |
| PyLists.LoopVisitsMissesOddPositions | PyFunceble/ext/process_manager/core.py:748-760 | That loop never reaches an item at an odd position of a list without repeats. |
| PyLists.LoopVisitsSubMultiset | PyFunceble/ext/process_manager/core.py:748-760 | That loop visits only items of the list, each at most as often as it occurs. |
| PyLists.LoopVisits | PyFunceble/ext/process_manager/core.py:748-760 | Defines the items a `for` loop visits when its body removes the current item from the list it walks: the hidden index moves on by one while the list shifts left under it. Its lemmas above state what it visits. |
| Workers.Worker.constructor | tests/test_process_core.py:8-21 | A new worker handle carries its name, is alive and has stored no exception. |
| Workers.Worker.Reporting | tests/test_process_core.py:8-21 | A worker handle carries its name, the given `is_alive()` answer and the given stored exception. |
| Workers.CallsOnSingle | tests/test_process_core.py:12-19 | A single call is in a worker's log exactly when it was made on that worker. |
| Workers.CallsOnAppend | tests/test_process_core.py:12-19 | A worker's log of two traces in a row is its log of the first, then its log of the second. |
| Workers.CallsOnNone | tests/test_process_core.py:12-19 | A trace with no call on a worker leaves that worker's log empty. |
| Workers.CallsOn | tests/test_process_core.py:12-19 | A worker's share of the trace, in order: its `start`, `join`, `terminate` and push calls, as the test double's mocks for those methods keep them. It is never longer than the trace. |
| ManagerSpec.SourceOrDefault | PyFunceble/ext/process_manager/core.py:480 | `source_worker or self.name`: a given non-empty sender is kept. A missing or empty one becomes the manager's name. |
| ManagerSpec.SpawnCount | PyFunceble/ext/process_manager/core.py:647-658 | Once the running workers reach the bound, no worker is created. Spawning with `start` brings the running workers up to the bound. Spawning without it creates `max_workers` workers, because unstarted workers do not count against the bound. |
| ManagerSpec.Addressed | PyFunceble/ext/process_manager/core.py:482-486 | Defines the message a fan-out push hands a target: the queue, the item, the sender, and the target's own name as `destination_worker`. |
| ManagerSpec.Unaddressed | PyFunceble/ext/process_manager/core.py:487-490 | Defines the message a single-receiver push hands the picked worker: the queue, the item and the sender, with no `destination_worker`. |
| ManagerSpec.CallsOf | PyFunceble/ext/process_manager/core.py:700-701 | Defines a run of calls made on one worker, in order. It makes one call per event. |
| ManagerSpec.CallsForEach | PyFunceble/ext/process_manager/core.py:728-733 | Defines the calls a loop leaves when it makes the same calls on each listed worker in turn. |
| ManagerSpec.CallsOfOn | PyFunceble/ext/process_manager/core.py:700-701 | The calls made on one worker are, in that worker's log, exactly those calls, and other workers see none of them. |
| ManagerSpec.CallsForEachOn | PyFunceble/ext/process_manager/core.py:728-733 | A loop making the same calls on each listed worker gives each worker those calls once for every time it is listed. |
| ManagerSpec.FanOutCalls | PyFunceble/ext/process_manager/core.py:482-486 | A fan-out push makes one call per target. |
| ManagerSpec.PushCalls | PyFunceble/ext/process_manager/core.py:482-490 | A push makes one call per target with `all_queues`, one call when a receiver was picked, and none when there was no worker to pick. |
| ManagerSpec.FanOutCallsOn | PyFunceble/ext/process_manager/core.py:482-486 | A fan-out push gives each worker one copy of the item, addressed to it by name, for every time it is listed among the targets. |
| ManagerSpec.FanOutReachesEachOnce | PyFunceble/ext/process_manager/core.py:482-486 | A target listed once receives the item exactly once, with itself as `destination_worker`. |
| ManagerSpec.PushCallsOutside | PyFunceble/ext/process_manager/core.py:482-490 | A worker that is neither a target nor the picked receiver receives nothing from a push. |
| ManagerSpec.PickOn | PyFunceble/ext/process_manager/core.py:487-490 | A single-receiver push reaches a worker once if it was picked and not at all otherwise. |
| ManagerSpec.PickedOn | PyFunceble/ext/process_manager/core.py:833-837 | A run of single-receiver pushes gives each worker one item for every time it was picked. |
| ManagerSpec.PickedDeliversEach | PyFunceble/ext/process_manager/core.py:833-837 | When there is always a target, each item of the run is delivered exactly once. |
| ManagerSpec.Picked | PyFunceble/ext/process_manager/core.py:833-837 | A run of single-receiver pushes makes at most one call per item. |
| ManagerSpec.PickedNone | PyFunceble/ext/process_manager/core.py:487-490 | A run of single-receiver pushes that never found a worker to pick makes no call. |
| ManagerSpec.AddressedEach | PyFunceble/ext/process_manager/core.py:839-840 | The messages one target gets from a run of fan-out pushes are each item in turn, addressed to that target. |
| ManagerSpec.Broadcasts | PyFunceble/ext/process_manager/core.py:839-840 | Defines the calls of a run of fan-out pushes to the same targets: each item's fan-out, item after item. Its lemmas below state what each worker receives. |
| ManagerSpec.BroadcastsLength | PyFunceble/ext/process_manager/core.py:839-840 | A run of fan-out pushes makes one call per item and target. |
| ManagerSpec.BroadcastsOnce | PyFunceble/ext/process_manager/core.py:839-840 | A target listed once receives every item of a fan-out run exactly once, in order, addressed to itself. |
| ManagerSpec.BroadcastsOutside | PyFunceble/ext/process_manager/core.py:839-840 | A worker that is not a target receives nothing from a fan-out run. |
| ManagerSpec.BroadcastsToNone | PyFunceble/ext/process_manager/core.py:482-486 | A run of fan-out pushes with no target makes no call. |
| Manager.NumberedDistinct | PyFunceble/ext/process_manager/core.py:613 | Workers numbered one after another are distinct workers. |
| Manager.AliveIn | PyFunceble/ext/process_manager/core.py:722-730 | The alive workers of a list, in order. A worker is in the result exactly when it is on the list and alive, and the result is never longer than the list. |
| Manager.Clean | PyFunceble/ext/process_manager/core.py:766-808 | Defines a list of workers none of which stored an exception. |
| Manager.RaisedBy | PyFunceble/ext/process_manager/core.py:766-773 | Defines an outcome that raises again the exception a given worker stored. |
| Manager.StoppedAt | PyFunceble/ext/process_manager/core.py:759-773 | Defines why a loop of `wait` stopped at a worker: it was missing from the created list and the removal raised `ValueError`, or it was there and its stored exception is raised. |
| Manager.WaitsCleanly | PyFunceble/ext/process_manager/core.py:748-814 | Defines when the intended loops of `wait` get through: every running worker can be removed from the created list in turn, and neither a running worker nor a created one left over stored an exception. |
| Manager.WaitsCleanlyAsWritten | PyFunceble/ext/process_manager/core.py:748-814 | Defines when the loops of `wait` as written get through: the same conditions, but only over the workers each loop visits (LoopVisits). |
| Manager.PicksAmong | PyFunceble/ext/process_manager/core.py:487-490 | Defines a run of picks each made among the given targets: a pick is made exactly when there is a target, and it is one of them. |
| Manager.CleanSplit | PyFunceble/ext/process_manager/core.py:748-814 | When the running workers are among the created ones, they and the created workers left over are free of exceptions exactly when all created workers are. |
| Manager.FirstLoopStops | PyFunceble/ext/process_manager/core.py:759-773 | The intended first loop of `wait` stops early in only two ways. A `ValueError` means some removal from the created list fails. A re-raised exception was stored by a running or left-over worker. |
| Manager.StoppedWithin | PyFunceble/ext/process_manager/core.py:748 | The worker the loop as written stopped at is on the list it walked. |
| Manager.FirstLoopAsWrittenStops | PyFunceble/ext/process_manager/core.py:748-773 | The same two ways of stopping for the first loop as written, over the workers it visits. |
| Manager.FirstLoopStopped | PyFunceble/ext/process_manager/core.py:748-773 | Defines where the first loop of `wait` as written stopped: the workers it visited are the first ones it visits, it stopped at the last of them, and not all the workers it visits are removable and clean. |
| Manager.ProcessManager.constructor | PyFunceble/ext/process_manager/core.py:270-318 | After `__init__`, both lists and the trace are empty and the exit event is clear. The bound is `max_workers or cpu_count`. The queues and the targeted-processing flag are set up as their functions say (corrected, see Findings). |
| Manager.ProcessManager.IsRunning | PyFunceble/ext/process_manager/core.py:436-444 | `is_running` answers true exactly when some running worker is alive. |
| Manager.ProcessManager.Running | PyFunceble/ext/process_manager/core.py:436-444 | Some running worker is alive exactly when the alive running workers are not none. |
| Manager.ProcessManager.Targets | PyFunceble/ext/process_manager/core.py:475-478 | A push goes to one of the two lists, whole. It goes to the created list only when no running worker is alive. |
| Manager.ProcessManager.SetMaxWorkers | PyFunceble/ext/process_manager/core.py:419-434 | The setter stores `max(1, value)`. |
| Manager.ProcessManager.SpawnWorker | PyFunceble/ext/process_manager/core.py:593-645 | Once the running workers reach the bound, nothing changes and no worker is returned. Without a worker class it raises `TypeError` and nothing changes. Otherwise exactly one new worker is appended to the created list, named after the count of created workers plus one. It is started and appended to the running list exactly when `start` is set. |
| Manager.ProcessManager.SpawnWorkers | PyFunceble/ext/process_manager/core.py:647-658 | The new workers are SpawnCount of them: distinct, new, numbered on from the created ones, and appended to the created list. With `start` they are started in order and appended to the running list. It raises `TypeError` exactly when a worker would be built without a worker class, and then nothing changes. |
| Manager.Spawned | PyFunceble/ext/process_manager/core.py:647-658 | Defines the outcome of a round of spawning: it raises exactly without a worker class while the running workers are below the bound; otherwise it creates SpawnCount workers, distinct, numbered on from the created ones, alive and free of exceptions. |
| Manager.ProcessManager.SpawnRound | PyFunceble/ext/process_manager/core.py:655-656 | One `spawn_worker` of the loop adds at most one new worker, numbered after those before it. It raises only without a worker class, and then it changes nothing. |
| Manager.ProcessManager.EnsureWorkerSpawned | PyFunceble/ext/process_manager/core.py:358-371 | The `ensure_worker_spawned` guard spawns one round of unstarted workers exactly when no worker was created. It never touches the running list or the trace. |
| Manager.ProcessManager.FanOut | PyFunceble/ext/process_manager/core.py:482-486 | The `all_queues` loop appends exactly the fan-out calls to the trace. |
| Manager.ProcessManager.Deliver | PyFunceble/ext/process_manager/core.py:482-490 | With `all_queues` every target receives the item. Otherwise exactly one target is picked when there is one, and none when there is none. |
| Manager.ProcessManager.Pushed | PyFunceble/ext/process_manager/core.py:446-494 | Defines the state after a push: a round of unstarted workers is spawned only when none was created, a receiver is picked only for a single-receiver push with targets and is one of them, and the trace gains the push's calls unless the guard raised. |
| Manager.ProcessManager.Push | PyFunceble/ext/process_manager/core.py:446-494 | A push runs the guard first, then delivers unless the guard raised. Targets are the running list when a worker runs and the created list otherwise. The item is signed by the given sender or the manager's name. The running list is left alone. |
| Manager.ProcessManager.PushToInputQueue | PyFunceble/ext/process_manager/core.py:446-494 | The same push, to the input queues. |
| Manager.ProcessManager.PushToOutputQueues | PyFunceble/ext/process_manager/core.py:496-544 | The same push, to the output queues. |
| Manager.ProcessManager.PushToConfigurationQueue | PyFunceble/ext/process_manager/core.py:546-591 | The same push, to the configuration queues. |
| Manager.ProcessManager.PushStopSignal | PyFunceble/ext/process_manager/core.py:660-673 | `"stop"` is fanned out to every target's input queue. |
| Manager.ProcessManager.PushWaitSignal | PyFunceble/ext/process_manager/core.py:675-688 | `"wait"` is fanned out to every target's input queue. |
| Manager.ProcessManager.TerminateWorker | PyFunceble/ext/process_manager/core.py:690-713 | The worker is terminated, then joined, once. Its first entry leaves each list it is on, and every other entry stays in order. |
| Manager.ProcessManager.AliveAmong | PyFunceble/ext/process_manager/core.py:728-730 | The `is_alive()` filter of `terminate`: exactly the alive workers, in order. |
| Manager.ProcessManager.TerminateEach | PyFunceble/ext/process_manager/core.py:728-733 | `terminate_worker` on each worker in turn removes them all from both lists and terminates and joins each of them, in order. |
| Manager.ProcessManager.TerminateAliveWorkers | PyFunceble/ext/process_manager/core.py:722-733 | Exactly the alive workers of `list(set(running + created))` go through `terminate_worker`. Workers that are not alive stay on the lists, untouched. |
| Manager.ProcessManager.AfterTerminate | PyFunceble/ext/process_manager/core.py:715-741 | Defines the state after `terminate`: the exit event is set when it was or some worker existed, the alive workers are dropped from both lists after being terminated and joined in order, and then `"stop"` is pushed to all targets' output queues. |
| Manager.ProcessManager.Terminate | PyFunceble/ext/process_manager/core.py:715-741 | The exit event ends up set exactly when it was set before or some worker existed. The alive workers are terminated and dropped. Then `"stop"` is fanned out to the output queues. That push re-spawns a round of unstarted workers when no created worker is left, and it raises only without a worker class. |
| Manager.ProcessManager.WaitForRunning | PyFunceble/ext/process_manager/core.py:748-773 | One running worker is joined, then terminated, and leaves the running list. It ends normally exactly when it was on the created list and stored no exception. Otherwise the outcome says which of the two failed. |
| Manager.ProcessManager.WaitForCreated | PyFunceble/ext/process_manager/core.py:787-808 | One created worker is terminated without a join and leaves the created list. It ends normally exactly when the worker stored no exception. Otherwise that exception is raised. |
| Manager.ProcessManager.JoinRunning | PyFunceble/ext/process_manager/core.py:748-785 | The intended first loop gets through exactly when every removal from the created list succeeds and no running worker stored an exception. It then empties the running list and removes the running workers from the created list. Each running worker is joined and then terminated, in order. When it stops early, the state says where it stopped and why. |
| Manager.ProcessManager.JoinRunningStep | PyFunceble/ext/process_manager/core.py:748-773 | One round of that loop. A failure here means the whole loop cannot get through. |
| Manager.ProcessManager.TerminateCreated | PyFunceble/ext/process_manager/core.py:787-814 | The intended second loop gets through exactly when no created worker stored an exception. It then empties the created list, terminating each worker in order. Otherwise it raises the exception of the worker where it stopped. |
| Manager.ProcessManager.TerminateCreatedStep | PyFunceble/ext/process_manager/core.py:787-808 | One round of that loop. A failure here means the whole loop cannot get through. |
| Manager.ProcessManager.JoinRunningAsWritten | PyFunceble/ext/process_manager/core.py:748-785 | The first loop as written handles only the workers LoopVisits lists. It gets through exactly when those workers are all removable and free of exceptions. Either way it drops the workers it handled from both lists and joins and terminates each in order. When it stops early it has stopped at a worker it visits, and FirstLoopStopped says why. |
| Manager.ProcessManager.JoinRunningAsWrittenStep | PyFunceble/ext/process_manager/core.py:748-773 | One round of the loop as written, at the position the shrinking list has reached. |
| Manager.ProcessManager.TerminateCreatedAsWritten | PyFunceble/ext/process_manager/core.py:787-814 | The second loop as written handles only the workers LoopVisits lists. It gets through exactly when those workers are free of exceptions. |
| Manager.ProcessManager.TerminateCreatedAsWrittenStep | PyFunceble/ext/process_manager/core.py:787-808 | One round of that loop as written. |
| Manager.ProcessManager.WaitLoops | PyFunceble/ext/process_manager/core.py:748-814 | The intended loops get through exactly when WaitsCleanly holds. A `ValueError` means some removal fails. A re-raised exception was stored by a worker the loops look at. A normal end empties both lists, with the running workers joined and terminated and the created ones left over terminated. |
| Manager.ProcessManager.TerminateLeftOver | PyFunceble/ext/process_manager/core.py:787-814 | The second loop after a complete first loop gets through exactly when the created workers left over are clean, and it empties the created list. |
| Manager.ProcessManager.TerminateAndRaise | PyFunceble/ext/process_manager/core.py:762-773 | After the loops, `terminate` runs with its whole effect on the exit event, the lists and the trace. Then the stored exception is raised, if there was one. Only the `TypeError` of a missing worker class can take its place. |
| Manager.ProcessManager.Wait | PyFunceble/ext/process_manager/core.py:743-819 | Intended `wait` ends normally exactly when every running worker is on the created list and no worker stored an exception, given a worker class or a bound of at most 0. A `ValueError` means a removal fails. A raised exception is one a worker stored. A normal end leaves the running list empty and the created list holding only the round `terminate` re-spawned. The trace records the joins, the terminations and the final `"stop"`. |
| Manager.ProcessManager.FinalTerminate | PyFunceble/ext/process_manager/core.py:816-817 | The closing `terminate` on empty lists only pushes `"stop"`, to a freshly spawned round of unstarted workers. It ends normally exactly when there is a worker class or a bound of at most 0. |
| Manager.ProcessManager.WaitLoopsAsWritten | PyFunceble/ext/process_manager/core.py:748-814 | The loops as written get through exactly when WaitsCleanlyAsWritten holds, which checks only the workers LoopVisits lists. Whatever the outcome, the workers the first loop handled are dropped from both lists and joined and terminated, and those the second loop handled are dropped from the created list and terminated, in order. A `ValueError` means a removal fails and the second loop never runs. |
| Manager.ProcessManager.TerminateLeftOverAsWritten | PyFunceble/ext/process_manager/core.py:787-814 | The second loop as written gets through exactly when the workers it visits are clean. It drops the workers it handled from the created list and terminates each in order, and it leaves the running list alone. A raised exception belongs to a created worker. |
| Manager.ProcessManager.WaitAsWritten | PyFunceble/ext/process_manager/core.py:743-819 | `wait` as written, with a worker class, ends normally exactly when the workers its loops visit are removable and clean. A `ValueError` leaves the lists and trace as the loops left them. Otherwise `terminate` runs from that state, with its whole effect on the exit event, the lists and the trace. A raised exception belongs to a running or created worker. |
| Manager.ProcessManager.StartCreatedWorkers | PyFunceble/ext/process_manager/core.py:829-831 | Every created worker is started once, in order, and appended to the running list. |
| Manager.ProcessManager.PushFromStart | PyFunceble/ext/process_manager/core.py:833-840 | A push from `start`, signed `"ppm"`, leaves both lists alone and reaches the current targets. |
| Manager.ProcessManager.PushEachToOne | PyFunceble/ext/process_manager/core.py:833-837 | Each dataset item goes to one target picked among the current targets. |
| Manager.ProcessManager.PushEachToAll | PyFunceble/ext/process_manager/core.py:839-840 | Each dataset item is fanned out to every current target. |
| Manager.ProcessManager.PushDatasets | PyFunceble/ext/process_manager/core.py:833-840 | The input items each go to one picked target, then the output items, then the configuration items fan out to all targets. |
| Manager.ProcessManager.Launch | PyFunceble/ext/process_manager/core.py:829-840 | All created workers are started, then all datasets are pushed. |
| Manager.ProcessManager.Start | PyFunceble/ext/process_manager/core.py:821-842 | Without a worker class `start` raises `TypeError` and changes nothing. It spawns unstarted workers when none were created, and does nothing more while a worker runs. Otherwise it starts every created worker and pushes the datasets. |
| StartAgain.StartTwice | PyFunceble/ext/process_manager/core.py:373-386 | A second `start` after one over alive workers leaves both lists and the trace as the first left them: `start` is idempotent. This holds also when there is no created worker and no room to spawn one. When no worker ran before, the trace between the two calls is the old trace, then one `start` per created worker, then each input and output dataset pushed to one of the push targets (or dropped), then each configuration dataset sent to every target. When a worker ran, that trace is the old one. |
| StartAgain.AliveAfterSpawning | PyFunceble/ext/process_manager/core.py:358-371 | After the spawning of the first `start`, the created list is not empty and all its workers are alive. |
| StartAgain.StartedIsRunning | PyFunceble/ext/process_manager/core.py:829-831 | After `start` over alive created workers, some started worker is alive. |
| StartAgain.StartTwiceFresh | tests/test_process_core.py:69-101 | On a fresh manager with a worker class and a bound of two, `start` twice with datasets creates two workers and starts both. The trace after the first `start` is one `start` per created worker, then each input and output dataset pushed to one of the two workers, signed "ppm", then each configuration dataset sent to both. The second `start` adds no call to it. |
| StartAgain.NothingToLaunch | PyFunceble/ext/process_manager/core.py:829-840 | With no created worker and none running, the rest of `start` starts no worker and its pushes find no target, so it adds no call. |
| WaitFinding.WaitsCleanlyWhenIncluded | PyFunceble/ext/process_manager/core.py:743-819 | When the running workers are among the created ones, the intended `wait` loops get through exactly when no created worker stored an exception. |
| WaitFinding.VisitsOfFour | PyFunceble/ext/process_manager/core.py:748 | Over four distinct workers the loop as written visits the first and the third. |
| WaitFinding.LeftOverOfFour | PyFunceble/ext/process_manager/core.py:759-760 | Removing the first and the third of four leaves the second and the fourth. |
| WaitFinding.VisitsOfTwo | PyFunceble/ext/process_manager/core.py:787 | Over two distinct workers the loop as written visits the first only. |
| WaitFinding.FirstLoopOfFour | PyFunceble/ext/process_manager/core.py:748-773 | The first loop as written, over four workers, visits and passes the first and the third. |
| WaitFinding.SecondLoopOfFour | PyFunceble/ext/process_manager/core.py:787-808 | The second loop as written, over the two left over, passes the second worker only. |
| WaitFinding.FourthWorkerUnchecked | PyFunceble/ext/process_manager/core.py:743-819 | The loops as written get through four workers whenever the first three stored no exception, whatever the fourth stored. |
| WaitFinding.FourthWorkerMissed | PyFunceble/ext/process_manager/core.py:743-819 | With only the fourth of four workers failed, the loops as written get through and every removal succeeds, while the intended loops do not get through. |
| WaitFinding.WaitRaisesFourth | PyFunceble/ext/process_manager/core.py:762-773 | The contract of intended `wait` leaves only the fourth worker's failure as the outcome. |
| WaitFinding.FourWorkers | tests/test_process_core.py:8-21 | Four new, distinct workers, of which only the fourth stored the given failure. |
| WaitFinding.StartedManager | PyFunceble/ext/process_manager/core.py:270-271 | A manager with a worker class whose created and running lists are both the given workers. |
| WaitFinding.WaitAsWrittenOnFour | PyFunceble/ext/process_manager/core.py:743-819 | `wait` as written ends normally on four started workers of which the fourth failed. |
| WaitFinding.WaitOnFour | PyFunceble/ext/process_manager/core.py:743-819 | The intended `wait` raises the fourth worker's failure on the same manager. |
| WaitFinding.WaitOnFourWorkers | PyFunceble/ext/process_manager/core.py:743-819 | On the same four workers, `wait` as written ends normally and the intended `wait` raises the failure. |

## Left out

- Real processes. `multiprocessing.Manager`, the queues, `Event` and the workers' `start`, `join`, `terminate` and `is_alive` are foreign calls. A worker is a handle whose `start`, `join`, `terminate` and push calls are recorded in a trace.
- Calls of `is_alive()`. The manager reads the answer in `is_running`, `spawn_worker`, every push, `ignore_if_running` and `terminate`, but the trace has no event for it. So the model cannot state how often `is_alive()` is called on a worker, such as the single call that `tests/test_process_core.py:374` checks.
- A worker's process ending or failing while the manager runs. A handle's `is_alive()` answer and stored exception are fixed when it is built, as in the recording test double, so terminating a worker does not change what `is_alive()` later answers for it.
- What a worker does with the items it receives (`WorkerCore`). It is concurrent, and `PyFunceble/ext/process_manager/worker/core.py` is not part of this model.
- Timing, blocking in `join`, and the `KeyboardInterrupt` that `wait` swallows around `join` and `terminate`.
- Logging, `daemon`, the delay and signal-spreading flags passed through to the worker constructor, and the `concurrent_workers_names` hint. They are configuration plumbing with no effect on the lists.
- `__getattr__` over the extra keyword arguments, and `__post_init__`. These are Python attribute machinery and an empty hook.
- The exception type when `WORKER_CLASS` is not set. An unassigned `WORKER_CLASS` raises `AttributeError` from `__getattr__` and a falsy one raises `TypeError`. The model has the one outcome `WorkerClassNotSet` for both.
- Setting `WORKER_CLASS` after the manager is built. Whether it is set is fixed at construction; no operation of `core.py` assigns it.
- The `TypeError` the `max_workers` setter raises for a non-integer. The model's value is always an integer.
- `os.cpu_count()` returning `None`. The available CPU count is a parameter.
- The queue objects themselves. Queues are abstract handles, and generated output queues are only counted.
- `random.choice` in `terminate` picks the worker whose shared exit event is set. Since the event is shared, the model keeps one flag.
- `terminate` iterates over `list(set(...))`, whose order Python leaves open. The model fixes it to first-occurrence order (Dedup).
- The alive workers are read before the first `terminate_worker`. In the source each `is_alive()` check comes just before that worker's termination; terminating one worker does not change whether another is alive.
- Manager.ProcessManager.constructor: stores the corrected configuration queue (ConfigurationQueueSetup) and the corrected targeted-processing flag (TargetedProcessing), not what `__init__` stores as written. No operation of the model reads these two fields. The as-written values and how they differ are stated by Settings.ConfigurationQueueAsWritten and Settings.TargetedProcessingAsWritten (see Findings).
- Manager.ProcessManager.WaitAsWritten: states its normal end as an if-and-only-if only when a worker class is set. Without one, the closing `terminate` may raise `TypeError` in place of the loops' outcome. The contract then states the state `terminate` leaves, but not which outcome of the loops was replaced.
- Manager.ProcessManager.Wait: states its normal end as an if-and-only-if together with the worker-class condition of the closing `terminate`. It does not describe the state after an exception.
- WaitFinding.StartedManager: puts the four workers on both lists directly, as the unit tests do with their test double, instead of through `spawn_workers(start=True)`.
- The `queue_size`, `queue_full` and `is_queue_full` members the unit tests use are not defined in `core.py`, and so are not part of this model.

## Findings

| source | as written | input that shows it | evidently intended | confidence | as-written member | corrected member |
|---|---|---|---|---|---|---|
| PyFunceble/ext/process_manager/core.py:748-795 | Both loops of `wait` iterate over `running_workers` and `created_workers` while removing the current worker from that same list, so each loop skips every other worker. | Four workers started together, on both lists, of which only the fourth stored an exception. | Every worker is waited for, and the fourth worker's exception is raised after a `terminate`. | not executed | WaitFinding.WaitOnFourWorkers | Manager.ProcessManager.Wait |
| PyFunceble/ext/process_manager/core.py:317-318 | The configuration-queue set-up has no `else` branch, so a supplied `configuration_queue` is never stored. | `configuration_queue=q` for any queue `q`. | The supplied queue is kept, as for the input queue at lines 303-306. | not executed | Settings.ConfigurationQueueDropsSupplied | Settings.ConfigurationQueueSetup |
| PyFunceble/ext/process_manager/core.py:276 | `targeted_processing or True` is always true. | `targeted_processing=False`. | A passed value is kept, and true is only the default for `None`. | not executed | Settings.TargetedProcessingFalseIgnored | Settings.TargetedProcessing |

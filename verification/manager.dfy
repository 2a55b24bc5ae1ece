/**
 * `ProcessManagerCore`: the bookkeeping of a pool of workers. The manager
 * keeps the workers it created and, separately, those it started, bounds
 * the started ones by `max_workers`, and routes data items to the workers'
 * queues. Every operation is a method of ProcessManager; what it does to the
 * two lists, to the exit flag and to the trace of calls made on workers is
 * stated in its postcondition.
 */
module Manager {
  import opened Wrappers
  import opened PyLists
  import opened Settings
  import opened Workers
  import opened ManagerSpec

  /** No worker of `workers` stored an exception. */
  predicate Clean(workers: seq<Worker>)
  {
    forall w :: w in workers ==> w.exception == None
  }

  /** One more worker without exception keeps a list clean. */
  lemma CleanSnoc(workers: seq<Worker>, w: Worker)
    requires Clean(workers) && w.exception == None
    ensures Clean(workers + [w])
  {
  }

  /** The workers of `workers` that are alive, in order. */
  function AliveIn(workers: seq<Worker>): (r: seq<Worker>)
    ensures |r| <= |workers|
    ensures forall w {:trigger w in r} :: w in r ==> w in workers && w.alive
    ensures forall w {:trigger w in workers} :: w in workers && w.alive ==> w in r
  {
    if workers == [] then []
    else
      assert forall w {:trigger w in workers} :: w in workers ==> w == workers[0] || w in workers[1..];
      (if workers[0].alive then [workers[0]] else []) + AliveIn(workers[1..])
  }

  /**
   * The workers one round of spawning created, when `created` workers had been
   * created and `running` were running before: the TypeError exactly when a
   * worker would be built without a worker class, and otherwise SpawnCount
   * new workers, all distinct, numbered on from the created ones,
   * alive and without exception. That they are new objects is stated by
   * `fresh(spawned)` on the methods that spawn them.
   */
  predicate Spawned(maxWorkers: int, workerClassSet: bool, created: nat, running: nat,
                    start: bool, r: Outcome, spawned: seq<Worker>)
  {
    && (r == Ok || r == WorkerClassNotSet)
    && (r == WorkerClassNotSet <==> !workerClassSet && running < maxWorkers)
    && |spawned| == (if r == Ok then SpawnCount(running, maxWorkers, start) else 0)
    && Distinct(spawned)
    && (forall k :: 0 <= k < |spawned| ==> spawned[k].name == WorkerName(created + k + 1))
    && forall k :: 0 <= k < |spawned| ==> spawned[k].alive && spawned[k].exception == None
  }

  /** Workers numbered one after another from `base + 1` are distinct workers. */
  lemma NumberedDistinct(workers: seq<Worker>, base: nat)
    requires forall k :: 0 <= k < |workers| ==> workers[k].name == WorkerName(base + k + 1)
    ensures Distinct(workers)
  {
    forall i, j | 0 <= i < j < |workers|
      ensures workers[i] != workers[j]
    {
      WorkerNameInjective(base + i + 1, base + j + 1);
    }
  }

  /** `w` stored an exception and `r` re-raises it. */
  predicate RaisedBy(r: Outcome, w: Worker)
  {
    w.exception.Some? && r == WorkerRaised(w.exception.value)
  }

  /**
   * Why a loop of `wait` stopped at `w` when `created` was the created list:
   * `w` was not on it, so removing it raised, or it was and `w` had stored
   * the exception `r` re-raises.
   */
  predicate StoppedAt(r: Outcome, w: Worker, created: seq<Worker>)
  {
    (w !in created && r == WorkerNotListed) || (w in created && RaisedBy(r, w))
  }

  /**
   * When the running list is part of the created list, the two loops of
   * `wait` between them look at every created worker: all of them are free
   * of exceptions exactly when the running ones and the created ones left
   * over are.
   */
  lemma CleanSplit(running: seq<Worker>, created: seq<Worker>)
    requires multiset(running) <= multiset(created)
    ensures Clean(running) && Clean(RemoveAll(created, running)) <==> Clean(created)
  {
    var rest := RemoveAll(created, running);
    if Clean(created) {
      forall w | w in running
        ensures w.exception == None
      {
        RemoveAllMembers(created, running, w);
      }
      forall w | w in rest
        ensures w.exception == None
      {
        RemoveAllMembers(created, running, w);
      }
    }
    if Clean(running) && Clean(rest) {
      forall w | w in created
        ensures w.exception == None
      {
        RemoveAllMembers(created, running, w);
      }
    }
  }

  /**
   * `wait` gets through both of its loops, run over copies of `running` and
   * `created`: every running worker is still on the created list when its
   * turn comes, and neither a running worker nor a created one left over
   * stored an exception.
   */
  predicate WaitsCleanly(running: seq<Worker>, created: seq<Worker>)
  {
    EachRemovable(running, created) && Clean(running) && Clean(RemoveAll(created, running))
  }

  /** The same for the two loops of `wait` as written, which reach only the workers LoopVisits lists. */
  predicate WaitsCleanlyAsWritten(running: seq<Worker>, created: seq<Worker>)
  {
    var first := LoopVisits(running, 0);
    EachRemovable(first, created) && Clean(first) && Clean(LoopVisits(RemoveAll(created, first), 0))
  }

  /** How the first loop of `wait` can stop early: on a worker missing from the created list, or on an exception. */
  lemma FirstLoopStops(running: seq<Worker>, created: seq<Worker>, r: Outcome, done: nat)
    requires 0 < done <= |running|
    requires StoppedAt(r, running[done - 1], RemoveAll(created, running[..done - 1]))
    ensures r == WorkerNotListed || r.WorkerRaised?
    ensures r == WorkerNotListed ==> !EachRemovable(running, created)
    ensures r.WorkerRaised? ==> exists w :: (w in running || w in RemoveAll(created, running)) && RaisedBy(r, w)
  {
    if r == WorkerNotListed {
      assert !RemovableAt(running, created, done - 1);
    } else {
      assert running[done - 1] in running;
    }
  }

  /** The worker at which a loop of `wait` as written stopped is one of the workers of the list it ran over. */
  lemma StoppedWithin(s: seq<Worker>, visited: seq<Worker>)
    requires visited != [] && visited <= LoopVisits(s, 0)
    ensures visited[|visited| - 1] in s
  {
    var w := visited[|visited| - 1];
    LoopVisitsSubMultiset(s, 0);
    assert w in LoopVisits(s, 0);
    assert w in multiset(LoopVisits(s, 0));
  }

  /** How the first loop of `wait` as written can stop early: on a worker missing from the created list, or on an exception. */
  lemma FirstLoopAsWrittenStops(running: seq<Worker>, created: seq<Worker>, r: Outcome, visited: seq<Worker>)
    requires visited != [] && visited <= LoopVisits(running, 0)
    requires StoppedAt(r, visited[|visited| - 1], RemoveAll(created, visited[..|visited| - 1]))
    ensures r == WorkerNotListed || r.WorkerRaised?
    ensures r == WorkerNotListed ==> !EachRemovable(LoopVisits(running, 0), created)
    ensures r.WorkerRaised? ==> exists w :: w in running && RaisedBy(r, w)
  {
    var all := LoopVisits(running, 0);
    var k := |visited| - 1;
    StoppedWithin(running, visited);
    assert all[k] == visited[k] && all[..k] == visited[..k];
    if r == WorkerNotListed {
      assert !RemovableAt(all, created, k);
    }
  }

  /**
   * The first loop of `wait` as written over `running`, with `created` as the
   * created list, stopped at the last of the workers `visited`: they are the
   * first workers it visits, and not all the workers it visits are
   * removable and clean.
   */
  predicate FirstLoopStopped(running: seq<Worker>, created: seq<Worker>, r: Outcome, visited: seq<Worker>)
  {
    && visited != [] && visited <= LoopVisits(running, 0)
    && StoppedAt(r, visited[|visited| - 1], RemoveAll(created, visited[..|visited| - 1]))
    && !(EachRemovable(LoopVisits(running, 0), created) && Clean(LoopVisits(running, 0)))
  }

  /** A second loop of `wait` that visits no worker changes neither the created list nor the trace. */
  lemma NothingTerminated(created: seq<Worker>, calls: seq<Call>)
    ensures RemoveAll(created, []) == created
    ensures calls + CallsForEach([], [Terminated]) == calls
  {
    assert CallsForEach([], [Terminated]) == [];
  }

  /** Every push of a run picked one of `targets`, and picked none only when there was none to pick. */
  predicate PicksAmong(picks: seq<Option<Worker>>, targets: seq<Worker>) {
    forall p :: p in picks ==> (p.Some? <==> targets != []) && (p.Some? ==> p.value in targets)
  }

  class ProcessManager {
    var createdWorkers: seq<Worker>
    var runningWorkers: seq<Worker>
    var maxWorkers: int
    /** Whether `WORKER_CLASS` is set. */
    const workerClassSet: bool
    /** Whether the exit event shared by all workers is set. */
    var exitEventSet: bool
    var inputDatasets: seq<Data>
    var outputDatasets: seq<Data>
    var configurationDatasets: seq<Data>
    const inputQueue: Option<Queue>
    const outputQueues: Option<seq<Queue>>
    const configurationQueue: Option<Queue>
    const targetedProcessing: bool
    /** Every call the manager made on a worker, oldest first. */
    var calls: seq<Call>

    /**
     * `__init__`: no workers, the bound `max_workers or cpu_count`, the queues
     * set up from the arguments, the exit event clear and the dataset lists
     * at their empty class defaults.
     */
    constructor (maxWorkers: Option<int>, availableCpus: int, workerClassSet: bool,
                 inputQueue: Option<Queue>, generateInputQueue: bool,
                 outputQueue: OutputArgument, outputQueueCount: int, generateOutputQueue: bool,
                 configurationQueue: Option<Queue>, generateConfigurationQueue: bool,
                 targetedProcessing: Option<bool>)
      ensures createdWorkers == [] && runningWorkers == [] && calls == []
      ensures this.maxWorkers == InitialMaxWorkers(maxWorkers, availableCpus)
      ensures this.workerClassSet == workerClassSet && !exitEventSet
      ensures inputDatasets == [] && outputDatasets == [] && configurationDatasets == []
      ensures this.inputQueue == InputQueueSetup(inputQueue, generateInputQueue)
      ensures this.outputQueues == OutputQueuesSetup(outputQueue, outputQueueCount, generateOutputQueue)
      ensures this.configurationQueue == ConfigurationQueueSetup(configurationQueue, generateConfigurationQueue)
      ensures this.targetedProcessing == TargetedProcessing(targetedProcessing)
    {
      createdWorkers := [];
      runningWorkers := [];
      this.maxWorkers := InitialMaxWorkers(maxWorkers, availableCpus);
      this.workerClassSet := workerClassSet;
      exitEventSet := false;
      inputDatasets := [];
      outputDatasets := [];
      configurationDatasets := [];
      this.inputQueue := InputQueueSetup(inputQueue, generateInputQueue);
      this.outputQueues := OutputQueuesSetup(outputQueue, outputQueueCount, generateOutputQueue);
      this.configurationQueue := ConfigurationQueueSetup(configurationQueue, generateConfigurationQueue);
      this.targetedProcessing := TargetedProcessing(targetedProcessing);
      calls := [];
    }

    /** Some started worker is still alive. */
    predicate Running()
      reads this`runningWorkers
      ensures Running() <==> AliveIn(runningWorkers) != []
    {
      assert AliveIn(runningWorkers) != [] ==> AliveIn(runningWorkers)[0] in AliveIn(runningWorkers);
      exists w {:trigger w in runningWorkers} :: w in runningWorkers && w.alive
    }

    /** The workers a push goes to: the running list while a worker runs, the created list otherwise. */
    function Targets(): (r: seq<Worker>)
      reads this`runningWorkers, this`createdWorkers
      ensures r == runningWorkers || r == createdWorkers
      ensures r != runningWorkers ==> forall w :: w in runningWorkers ==> !w.alive
    {
      if Running() then runningWorkers else createdWorkers
    }

    /** `is_running`. */
    method IsRunning() returns (r: bool)
      ensures r == Running()
    {
      if runningWorkers == [] {
        return false;
      }
      var i := 0;
      while i < |runningWorkers|
        invariant 0 <= i <= |runningWorkers|
        invariant forall k :: 0 <= k < i ==> !runningWorkers[k].alive
      {
        if runningWorkers[i].alive {
          assert runningWorkers[i] in runningWorkers;
          return true;
        }
        i := i + 1;
      }
      return false;
    }

    /** The `max_workers` setter. */
    method SetMaxWorkers(value: int)
      modifies this`maxWorkers
      ensures maxWorkers == ClampMaxWorkers(value)
    {
      maxWorkers := ClampMaxWorkers(value);
    }

    /**
     * `spawn_worker`: nothing happens once the running workers reach the
     * bound; otherwise a new worker, numbered after the created ones, is
     * appended to the created list and, with `start`, started and appended to
     * the running list.
     */
    method SpawnWorker(start: bool) returns (r: Outcome, worker: Option<Worker>)
      modifies this`createdWorkers, this`runningWorkers, this`calls
      ensures |old(runningWorkers)| >= maxWorkers ==>
        && r == Ok && worker == None
        && createdWorkers == old(createdWorkers) && runningWorkers == old(runningWorkers) && calls == old(calls)
      ensures |old(runningWorkers)| < maxWorkers && !workerClassSet ==>
        && r == WorkerClassNotSet && worker == None
        && createdWorkers == old(createdWorkers) && runningWorkers == old(runningWorkers) && calls == old(calls)
      ensures |old(runningWorkers)| < maxWorkers && workerClassSet ==>
        && r == Ok && worker.Some? && fresh(worker.value)
        && worker.value.name == WorkerName(|old(createdWorkers)| + 1)
        && worker.value.alive && worker.value.exception == None
        && createdWorkers == old(createdWorkers) + [worker.value]
        && runningWorkers == old(runningWorkers) + (if start then [worker.value] else [])
        && calls == old(calls) + (if start then CallsOf(worker.value, [Started]) else [])
    {
      if |runningWorkers| >= maxWorkers {
        return Ok, None;
      }
      if !workerClassSet {
        return WorkerClassNotSet, None;
      }
      var w := new Worker(WorkerName(|createdWorkers| + 1));
      createdWorkers := createdWorkers + [w];
      if start {
        calls := calls + [Call(w, Started)];
        runningWorkers := runningWorkers + [w];
      }
      return Ok, Some(w);
    }

    /** `spawn_workers`: `max_workers` calls of `spawn_worker`. */
    method SpawnWorkers(start: bool) returns (r: Outcome, ghost spawned: seq<Worker>)
      modifies this`createdWorkers, this`runningWorkers, this`calls
      ensures fresh(spawned)
      ensures Spawned(maxWorkers, workerClassSet, |old(createdWorkers)|, |old(runningWorkers)|, start, r, spawned)
      ensures createdWorkers == old(createdWorkers) + spawned
      ensures runningWorkers == old(runningWorkers) + (if start then spawned else [])
      ensures calls == old(calls) + (if start then CallsForEach(spawned, [Started]) else [])
    {
      r := Ok;
      spawned := [];
      ghost var running0 := |runningWorkers|;
      var i := 0;
      while i < maxWorkers
        invariant 0 <= i <= (if maxWorkers > 0 then maxWorkers else 0)
        invariant i > 0 ==> workerClassSet || running0 >= maxWorkers
        invariant |runningWorkers| == running0 + (if start then |spawned| else 0)
        invariant running0 >= maxWorkers ==> spawned == []
        invariant running0 < maxWorkers && !start ==> |spawned| == i
        invariant running0 < maxWorkers && start ==> |spawned| == if i < maxWorkers - running0 then i else maxWorkers - running0
        invariant createdWorkers == old(createdWorkers) + spawned
        invariant runningWorkers == old(runningWorkers) + (if start then spawned else [])
        invariant forall k :: 0 <= k < |spawned| ==>
          fresh(spawned[k]) && spawned[k].name == WorkerName(|old(createdWorkers)| + k + 1)
        invariant forall k :: 0 <= k < |spawned| ==> spawned[k].alive && spawned[k].exception == None
        invariant calls == old(calls) + (if start then CallsForEach(spawned, [Started]) else [])
      {
        var res;
        ghost var next;
        res, next := SpawnRound(start, old(createdWorkers), old(runningWorkers), old(calls), spawned);
        if res != Ok {
          NumberedDistinct(spawned, |old(createdWorkers)|);
          r := res;
          return;
        }
        spawned := next;
        i := i + 1;
      }
      NumberedDistinct(spawned, |old(createdWorkers)|);
    }

    /** One round of the loop of SpawnWorkers, after the workers `spawned` of the earlier rounds. */
    method SpawnRound(start: bool, ghost created0: seq<Worker>, ghost running0: seq<Worker>, ghost calls0: seq<Call>,
                      ghost spawned: seq<Worker>)
      returns (r: Outcome, ghost after: seq<Worker>)
      requires createdWorkers == created0 + spawned
      requires runningWorkers == running0 + (if start then spawned else [])
      requires calls == calls0 + (if start then CallsForEach(spawned, [Started]) else [])
      modifies this`createdWorkers, this`runningWorkers, this`calls
      ensures r == WorkerClassNotSet <==> |old(runningWorkers)| < maxWorkers && !workerClassSet
      ensures r != WorkerClassNotSet ==> r == Ok
      ensures r != Ok ==>
        createdWorkers == old(createdWorkers) && runningWorkers == old(runningWorkers) && calls == old(calls)
      ensures r == Ok && |old(runningWorkers)| >= maxWorkers ==> after == spawned
      ensures r == Ok && |old(runningWorkers)| < maxWorkers ==>
        && |after| == |spawned| + 1 && after[..|spawned|] == spawned
        && fresh(after[|spawned|]) && after[|spawned|].name == WorkerName(|created0| + |spawned| + 1)
        && after[|spawned|].alive && after[|spawned|].exception == None
      ensures r == Ok ==>
        && createdWorkers == created0 + after
        && runningWorkers == running0 + (if start then after else [])
        && calls == calls0 + (if start then CallsForEach(after, [Started]) else [])
    {
      after := spawned;
      var w;
      r, w := SpawnWorker(start);
      if w.Some? {
        AppendAssoc(created0, spawned, [w.value]);
        AppendAssoc(running0, spawned, [w.value]);
        CallsForEachSnoc(calls0, spawned, w.value, [Started]);
        after := spawned + [w.value];
      }
    }

    /** The `ensure_worker_spawned` guard: one round of unstarted spawning when no worker was created. */
    method EnsureWorkerSpawned() returns (r: Outcome, ghost spawned: seq<Worker>)
      modifies this`createdWorkers, this`runningWorkers, this`calls
      ensures fresh(spawned)
      ensures old(createdWorkers) != [] ==> r == Ok && spawned == []
      ensures old(createdWorkers) == [] ==>
        Spawned(maxWorkers, workerClassSet, 0, |old(runningWorkers)|, false, r, spawned)
      ensures createdWorkers == old(createdWorkers) + spawned
      ensures runningWorkers == old(runningWorkers) && calls == old(calls)
    {
      if createdWorkers == [] {
        r, spawned := SpawnWorkers(false);
      } else {
        r, spawned := Ok, [];
      }
    }

    /** The `all_queues` loop of a push: each target in turn gets the item, addressed to itself. */
    method FanOut(targets: seq<Worker>, channel: Channel, data: Data, source: string)
      modifies this`calls
      ensures calls == old(calls) + FanOutCalls(targets, channel, data, source)
    {
      var i := 0;
      while i < |targets|
        invariant 0 <= i <= |targets|
        invariant calls == old(calls) + FanOutCalls(targets[..i], channel, data, source)
      {
        var w := targets[i];
        calls := calls + [Call(w, Received(Message(channel, data, source, Some(w.name))))];
        assert targets[..i + 1][..i] == targets[..i];
        i := i + 1;
      }
      assert targets[..i] == targets;
    }

    /** The body of a push once the targets are known: a fan-out over all of them, or one picked at random. */
    method Deliver(targets: seq<Worker>, channel: Channel, data: Data, source: string, allQueues: bool)
      returns (ghost receiver: Option<Worker>)
      modifies this`calls
      ensures receiver.Some? <==> !allQueues && targets != []
      ensures receiver.Some? ==> receiver.value in targets
      ensures calls == old(calls) + PushCalls(targets, channel, data, source, allQueues, receiver)
    {
      receiver := None;
      if allQueues {
        FanOut(targets, channel, data, source);
      } else if targets != [] {
        assert targets[0] in targets;
        var w :| w in targets;
        calls := calls + [Call(w, Received(Message(channel, data, source, None)))];
        receiver := Some(w);
      }
    }

    /**
     * What a push did, from a state with created list `created0` and trace
     * `calls0`: the `ensure_worker_spawned` guard spawned `spawned` when no
     * worker was created, and then, unless that raised, the item went to the
     * targets chosen by `is_running`: all of them with `allQueues`, else the
     * one `receiver` picked. The running list is left as it was.
     */
    predicate Pushed(created0: seq<Worker>, calls0: seq<Call>, channel: Channel, data: Data, source: string,
                     allQueues: bool, r: Outcome, spawned: seq<Worker>, receiver: Option<Worker>)
      reads this
    {
      && createdWorkers == created0 + spawned
      && (created0 != [] ==> r == Ok && spawned == [])
      && (created0 == [] ==> Spawned(maxWorkers, workerClassSet, 0, |runningWorkers|, false, r, spawned))
      && (receiver.Some? <==> r == Ok && !allQueues && Targets() != [])
      && (receiver.Some? ==> receiver.value in Targets())
      && calls == calls0 + (if r == Ok then PushCalls(Targets(), channel, data, source, allQueues, receiver) else [])
    }

    /**
     * The common body of `push_to_input_queue`, `push_to_output_queues` and
     * `push_to_configuration_queue` on `channel`: the `ensure_worker_spawned`
     * guard, then a delivery to the current targets signed with `source` or
     * the manager's name.
     */
    method Push(channel: Channel, data: Data, source: Option<string>, allQueues: bool)
      returns (r: Outcome, ghost spawned: seq<Worker>, ghost receiver: Option<Worker>)
      modifies this`createdWorkers, this`runningWorkers, this`calls
      ensures fresh(spawned)
      ensures runningWorkers == old(runningWorkers)
      ensures Pushed(old(createdWorkers), old(calls), channel, data, SourceOrDefault(source), allQueues, r, spawned, receiver)
    {
      r, spawned := EnsureWorkerSpawned();
      if r != Ok {
        receiver := None;
        return;
      }
      var running := IsRunning();
      var targets := if running then runningWorkers else createdWorkers;
      receiver := Deliver(targets, channel, data, SourceOrDefault(source), allQueues);
    }

    /** `push_to_input_queue`. */
    method PushToInputQueue(data: Data, source: Option<string>, allQueues: bool)
      returns (r: Outcome, ghost spawned: seq<Worker>, ghost receiver: Option<Worker>)
      modifies this`createdWorkers, this`runningWorkers, this`calls
      ensures fresh(spawned)
      ensures runningWorkers == old(runningWorkers)
      ensures Pushed(old(createdWorkers), old(calls), InputQueue, data, SourceOrDefault(source), allQueues, r, spawned, receiver)
    {
      r, spawned, receiver := Push(InputQueue, data, source, allQueues);
    }

    /** `push_to_output_queues`. */
    method PushToOutputQueues(data: Data, source: Option<string>, allQueues: bool)
      returns (r: Outcome, ghost spawned: seq<Worker>, ghost receiver: Option<Worker>)
      modifies this`createdWorkers, this`runningWorkers, this`calls
      ensures fresh(spawned)
      ensures runningWorkers == old(runningWorkers)
      ensures Pushed(old(createdWorkers), old(calls), OutputQueues, data, SourceOrDefault(source), allQueues, r, spawned, receiver)
    {
      r, spawned, receiver := Push(OutputQueues, data, source, allQueues);
    }

    /** `push_to_configuration_queue`; its `all_queues` defaults to true where the other two default to false. */
    method PushToConfigurationQueue(data: Data, source: Option<string>, allQueues: bool)
      returns (r: Outcome, ghost spawned: seq<Worker>, ghost receiver: Option<Worker>)
      modifies this`createdWorkers, this`runningWorkers, this`calls
      ensures fresh(spawned)
      ensures runningWorkers == old(runningWorkers)
      ensures Pushed(old(createdWorkers), old(calls), ConfigurationQueue, data, SourceOrDefault(source), allQueues, r, spawned, receiver)
    {
      r, spawned, receiver := Push(ConfigurationQueue, data, source, allQueues);
    }

    /** `push_stop_signal`: `"stop"` to every target's input queue. */
    method PushStopSignal(source: Option<string>) returns (r: Outcome, ghost spawned: seq<Worker>)
      modifies this`createdWorkers, this`runningWorkers, this`calls
      ensures fresh(spawned)
      ensures runningWorkers == old(runningWorkers)
      ensures Pushed(old(createdWorkers), old(calls), InputQueue, "stop", SourceOrDefault(source), true, r, spawned, None)
    {
      ghost var receiver;
      r, spawned, receiver := Push(InputQueue, "stop", source, true);
    }

    /** `push_wait_signal`: `"wait"` to every target's input queue. */
    method PushWaitSignal(source: Option<string>) returns (r: Outcome, ghost spawned: seq<Worker>)
      modifies this`createdWorkers, this`runningWorkers, this`calls
      ensures fresh(spawned)
      ensures runningWorkers == old(runningWorkers)
      ensures Pushed(old(createdWorkers), old(calls), InputQueue, "wait", SourceOrDefault(source), true, r, spawned, None)
    {
      ghost var receiver;
      r, spawned, receiver := Push(InputQueue, "wait", source, true);
    }

    /**
     * `terminate_worker`: the worker is terminated, then joined, and its first
     * entry leaves each list it is on; every other entry stays, in order.
     */
    method TerminateWorker(w: Worker)
      modifies this`createdWorkers, this`runningWorkers, this`calls
      ensures calls == old(calls) + CallsOf(w, [Terminated, Joined])
      ensures runningWorkers == RemoveIfPresent(old(runningWorkers), w)
      ensures createdWorkers == RemoveIfPresent(old(createdWorkers), w)
    {
      calls := calls + [Call(w, Terminated)];
      calls := calls + [Call(w, Joined)];
      assert [Terminated, Joined][..1] == [Terminated];
      if w in runningWorkers {
        runningWorkers := RemoveFirst(runningWorkers, w);
      }
      if w in createdWorkers {
        createdWorkers := RemoveFirst(createdWorkers, w);
      }
    }

    /**
     * The `is_alive()` checks of the loop of `terminate`, all taken before its
     * first termination: terminating one worker does not change whether
     * another is alive, so the workers found alive are the same.
     */
    method AliveAmong(workers: seq<Worker>) returns (r: seq<Worker>)
      ensures r == AliveIn(workers)
    {
      var todo := workers;
      r := [];
      while todo != []
        invariant AliveIn(workers) == r + AliveIn(todo)
      {
        var w := todo[0];
        ghost var rest := AliveIn(todo[1..]);
        assert AliveIn(todo) == (if w.alive then [w] else []) + rest;
        if w.alive {
          assert r + ([w] + rest) == (r + [w]) + rest;
          r := r + [w];
        } else {
          assert [] + rest == rest;
        }
        todo := todo[1..];
      }
    }

    /** `terminate_worker` on each of `workers`, in order. */
    method TerminateEach(workers: seq<Worker>)
      modifies this`createdWorkers, this`runningWorkers, this`calls
      ensures runningWorkers == RemoveAll(old(runningWorkers), workers)
      ensures createdWorkers == RemoveAll(old(createdWorkers), workers)
      ensures calls == old(calls) + CallsForEach(workers, [Terminated, Joined])
    {
      for i := 0 to |workers|
        invariant runningWorkers == RemoveAll(old(runningWorkers), workers[..i])
        invariant createdWorkers == RemoveAll(old(createdWorkers), workers[..i])
        invariant calls == old(calls) + CallsForEach(workers[..i], [Terminated, Joined])
      {
        SliceSnoc(workers, i);
        CallsForEachSnoc(old(calls), workers[..i], workers[i], [Terminated, Joined]);
        RemoveAllSnoc(old(runningWorkers), workers[..i], workers[i]);
        RemoveAllSnoc(old(createdWorkers), workers[..i], workers[i]);
        TerminateWorker(workers[i]);
      }
      assert workers[..|workers|] == workers;
    }

    /**
     * The loop of `terminate` over `list(set(running + created))`, the listing
     * taken in first-occurrence order: each listed worker that is alive goes
     * through `terminate_worker`, the others are left alone.
     */
    method TerminateAliveWorkers() returns (ghost order: seq<Worker>)
      modifies this`createdWorkers, this`runningWorkers, this`calls
      ensures order == AliveIn(Dedup(old(runningWorkers) + old(createdWorkers)))
      ensures runningWorkers == RemoveAll(old(runningWorkers), order)
      ensures createdWorkers == RemoveAll(old(createdWorkers), order)
      ensures calls == old(calls) + CallsForEach(order, [Terminated, Joined])
    {
      var workers := Dedup(runningWorkers + createdWorkers);
      var alive := AliveAmong(workers);
      TerminateEach(alive);
      order := alive;
    }

    /**
     * What a `terminate` did, from a state with running list `running0`,
     * created list `created0`, trace `calls0` and exit event `exit0`, once
     * its loop found the workers `order` alive: the exit event is set when
     * there was a worker at all; each worker of `order` was terminated,
     * joined and dropped from both lists, in turn; then `"stop"` was pushed
     * to the output queues of all targets, with outcome `r`.
     */
    predicate AfterTerminate(running0: seq<Worker>, created0: seq<Worker>, calls0: seq<Call>,
                             exit0: bool, r: Outcome, order: seq<Worker>, spawned: seq<Worker>)
      reads this
    {
      && exitEventSet == (exit0 || running0 + created0 != [])
      && runningWorkers == RemoveAll(running0, order)
      && Pushed(RemoveAll(created0, order), calls0 + CallsForEach(order, [Terminated, Joined]),
                OutputQueues, "stop", ManagerName, true, r, spawned, None)
    }

    /**
     * `terminate`: the exit event is set when there is a worker at all, every
     * alive worker is terminated and dropped, and `"stop"` is pushed to the
     * output queues of all targets, which spawns a fresh round of unstarted
     * workers when no created worker is left.
     */
    method Terminate() returns (r: Outcome, ghost order: seq<Worker>, ghost spawned: seq<Worker>)
      modifies this`createdWorkers, this`runningWorkers, this`exitEventSet, this`calls
      ensures fresh(spawned)
      ensures order == AliveIn(Dedup(old(runningWorkers) + old(createdWorkers)))
      ensures AfterTerminate(old(runningWorkers), old(createdWorkers), old(calls), old(exitEventSet), r, order, spawned)
      ensures r == Ok || (r == WorkerClassNotSet && !workerClassSet)
    {
      if runningWorkers + createdWorkers != [] {
        exitEventSet := true;
      }
      order := TerminateAliveWorkers();
      ghost var receiver;
      r, spawned, receiver := PushToOutputQueues("stop", None, true);
    }

    /**
     * The body of the first loop of `wait` for the running worker `w`: `w` is
     * joined, then terminated, and leaves the running list; removing it from
     * the created list raises when it is not there; then the exception `w`
     * stored, if any, is raised. When none of the workers `before` it
     * stored an exception, a normal end adds `w` to them.
     */
    method WaitForRunning(ghost before: seq<Worker>, w: Worker) returns (r: Outcome)
      requires w in runningWorkers && Clean(before)
      modifies this`createdWorkers, this`runningWorkers, this`calls
      ensures calls == old(calls) + CallsOf(w, [Joined, Terminated])
      ensures runningWorkers == RemoveFirst(old(runningWorkers), w)
      ensures createdWorkers == RemoveIfPresent(old(createdWorkers), w)
      ensures r == Ok <==> w in old(createdWorkers) && w.exception == None
      ensures r == Ok ==> Clean(before + [w])
      ensures r != Ok ==> StoppedAt(r, w, old(createdWorkers))
    {
      calls := calls + [Call(w, Joined)];
      calls := calls + [Call(w, Terminated)];
      assert [Joined, Terminated][..1] == [Joined];
      runningWorkers := RemoveFirst(runningWorkers, w);
      if w !in createdWorkers {
        return WorkerNotListed;
      }
      createdWorkers := RemoveFirst(createdWorkers, w);
      if w.exception.Some? {
        return WorkerRaised(w.exception.value);
      }
      CleanSnoc(before, w);
      return Ok;
    }

    /**
     * The body of the second loop of `wait` for the created worker `w`: `w`
     * is terminated and leaves the created list, then the exception it
     * stored, if any, is raised. When none of the workers `before` it
     * stored an exception, a normal end adds `w` to them.
     */
    method WaitForCreated(ghost before: seq<Worker>, w: Worker) returns (r: Outcome)
      requires w in createdWorkers && Clean(before)
      modifies this`createdWorkers, this`calls
      ensures calls == old(calls) + CallsOf(w, [Terminated])
      ensures createdWorkers == RemoveFirst(old(createdWorkers), w)
      ensures r == Ok <==> w.exception == None
      ensures r == Ok ==> Clean(before + [w])
      ensures r != Ok ==> RaisedBy(r, w)
    {
      calls := calls + [Call(w, Terminated)];
      assert [Terminated][..0] == [];
      createdWorkers := RemoveFirst(createdWorkers, w);
      if w.exception.Some? {
        return WorkerRaised(w.exception.value);
      }
      CleanSnoc(before, w);
      return Ok;
    }

    /**
     * The first loop of `wait`, run over a copy of the running list: each
     * running worker in turn goes through WaitForRunning until one of them
     * raises. It stops after `done` workers, all of them when none raises.
     */
    method JoinRunning() returns (r: Outcome, ghost done: nat)
      modifies this`createdWorkers, this`runningWorkers, this`calls
      ensures r == Ok <==> EachRemovable(old(runningWorkers), old(createdWorkers)) && Clean(old(runningWorkers))
      ensures r == Ok ==>
        && runningWorkers == []
        && createdWorkers == RemoveAll(old(createdWorkers), old(runningWorkers))
        && calls == old(calls) + CallsForEach(old(runningWorkers), [Joined, Terminated])
      ensures r != Ok ==>
        && 0 < done <= |old(runningWorkers)|
        && runningWorkers == old(runningWorkers)[done..]
        && createdWorkers == RemoveAll(old(createdWorkers), old(runningWorkers)[..done])
        && calls == old(calls) + CallsForEach(old(runningWorkers)[..done], [Joined, Terminated])
        && StoppedAt(r, old(runningWorkers)[done - 1], RemoveAll(old(createdWorkers), old(runningWorkers)[..done - 1]))
    {
      var workers := runningWorkers;
      ghost var created := createdWorkers;
      r := Ok;
      var i := 0;
      while i < |workers|
        invariant i <= |workers| && r == Ok
        invariant runningWorkers == workers[i..]
        invariant createdWorkers == RemoveAll(created, workers[..i])
        invariant calls == old(calls) + CallsForEach(workers[..i], [Joined, Terminated])
        invariant EachRemovable(workers[..i], created) && Clean(workers[..i])
      {
        r := JoinRunningStep(workers, created, old(calls), i);
        if r != Ok {
          done := i + 1;
          return;
        }
        i := i + 1;
      }
      assert workers[..i] == workers;
      assert workers[i..] == [];
      done := i;
    }

    /** One round of the loop of JoinRunning, at position `i` of the copy `workers` of the running list. */
    method JoinRunningStep(workers: seq<Worker>, ghost created: seq<Worker>, ghost calls0: seq<Call>, i: nat)
      returns (r: Outcome)
      requires i < |workers|
      requires runningWorkers == workers[i..] && createdWorkers == RemoveAll(created, workers[..i])
      requires calls == calls0 + CallsForEach(workers[..i], [Joined, Terminated])
      requires EachRemovable(workers[..i], created) && Clean(workers[..i])
      modifies this`createdWorkers, this`runningWorkers, this`calls
      ensures runningWorkers == workers[i + 1..]
      ensures createdWorkers == RemoveAll(created, workers[..i + 1])
      ensures calls == calls0 + CallsForEach(workers[..i + 1], [Joined, Terminated])
      ensures r == Ok ==> EachRemovable(workers[..i + 1], created) && Clean(workers[..i + 1])
      ensures r != Ok ==> !(EachRemovable(workers, created) && Clean(workers))
      ensures r != Ok ==> StoppedAt(r, workers[i], RemoveAll(created, workers[..i]))
    {
      var w := workers[i];
      SliceSnoc(workers, i);
      SliceCons(workers, i);
      RemoveFirstHead(w, workers[i + 1..]);
      RemoveAllSnoc(created, workers[..i], w);
      CallsForEachSnoc(calls0, workers[..i], w, [Joined, Terminated]);
      r := WaitForRunning(workers[..i], w);
      if r == Ok {
        EachRemovableSnoc(workers[..i], w, created);
      } else {
        assert !RemovableAt(workers, created, i) || !Clean(workers);
      }
    }

    /**
     * The second loop of `wait`, run over a copy of the created list: each
     * created worker in turn goes through WaitForCreated until one of them
     * raises. It stops after `done` workers, all of them when none raises.
     */
    method TerminateCreated() returns (r: Outcome, ghost done: nat)
      modifies this`createdWorkers, this`calls
      ensures r == Ok <==> Clean(old(createdWorkers))
      ensures r == Ok ==> createdWorkers == [] && calls == old(calls) + CallsForEach(old(createdWorkers), [Terminated])
      ensures r != Ok ==>
        && 0 < done <= |old(createdWorkers)|
        && createdWorkers == old(createdWorkers)[done..]
        && calls == old(calls) + CallsForEach(old(createdWorkers)[..done], [Terminated])
        && RaisedBy(r, old(createdWorkers)[done - 1])
    {
      var workers := createdWorkers;
      r := Ok;
      var i := 0;
      while i < |workers|
        invariant i <= |workers| && r == Ok
        invariant createdWorkers == workers[i..]
        invariant calls == old(calls) + CallsForEach(workers[..i], [Terminated])
        invariant Clean(workers[..i])
      {
        r := TerminateCreatedStep(workers, old(calls), i);
        if r != Ok {
          done := i + 1;
          return;
        }
        i := i + 1;
      }
      assert workers[..i] == workers;
      assert workers[i..] == [];
      done := i;
    }

    /** One round of the loop of TerminateCreated, at position `i` of the copy `workers` of the created list. */
    method TerminateCreatedStep(workers: seq<Worker>, ghost calls0: seq<Call>, i: nat) returns (r: Outcome)
      requires i < |workers| && createdWorkers == workers[i..]
      requires calls == calls0 + CallsForEach(workers[..i], [Terminated])
      requires Clean(workers[..i])
      modifies this`createdWorkers, this`calls
      ensures createdWorkers == workers[i + 1..]
      ensures calls == calls0 + CallsForEach(workers[..i + 1], [Terminated])
      ensures r == Ok ==> Clean(workers[..i + 1])
      ensures r != Ok ==> !Clean(workers) && RaisedBy(r, workers[i])
    {
      var w := workers[i];
      SliceSnoc(workers, i);
      SliceCons(workers, i);
      RemoveFirstHead(w, workers[i + 1..]);
      CallsForEachSnoc(calls0, workers[..i], w, [Terminated]);
      r := WaitForCreated(workers[..i], w);
    }

    /**
     * The first loop of `wait` as written: `for worker in self.running_workers`
     * walks the very list its body removes `worker` from, so it goes through
     * WaitForRunning for the workers LoopVisits lists only, until one of
     * them raises.
     */
    method JoinRunningAsWritten() returns (r: Outcome, ghost visited: seq<Worker>)
      modifies this`createdWorkers, this`runningWorkers, this`calls
      ensures runningWorkers == RemoveAll(old(runningWorkers), visited)
      ensures createdWorkers == RemoveAll(old(createdWorkers), visited)
      ensures calls == old(calls) + CallsForEach(visited, [Joined, Terminated])
      ensures r == Ok ==>
        && visited == LoopVisits(old(runningWorkers), 0)
        && EachRemovable(visited, old(createdWorkers)) && Clean(visited)
      ensures r != Ok ==> FirstLoopStopped(old(runningWorkers), old(createdWorkers), r, visited)
    {
      ghost var running, created := runningWorkers, createdWorkers;
      ghost var all := LoopVisits(running, 0);
      visited := [];
      r := Ok;
      var i := 0;
      while i < |runningWorkers|
        invariant |visited| == i && r == Ok
        invariant all == visited + LoopVisits(runningWorkers, i)
        invariant runningWorkers == RemoveAll(running, visited)
        invariant createdWorkers == RemoveAll(created, visited)
        invariant calls == old(calls) + CallsForEach(visited, [Joined, Terminated])
        invariant EachRemovable(visited, created) && Clean(visited)
        decreases |runningWorkers| - i
      {
        r, visited := JoinRunningAsWrittenStep(running, created, old(calls), all, visited, i);
        if r != Ok {
          return;
        }
        i := i + 1;
      }
      assert LoopVisits(runningWorkers, i) == [];
      assert visited + [] == visited;
    }

    /**
     * One round of the loop of JoinRunningAsWritten: the worker at position
     * `i` of the running list, which the loop visits after `visited`.
     */
    method JoinRunningAsWrittenStep(ghost running: seq<Worker>, ghost created: seq<Worker>, ghost calls0: seq<Call>,
                                    ghost all: seq<Worker>, ghost visited: seq<Worker>, i: nat)
      returns (r: Outcome, ghost after: seq<Worker>)
      requires i < |runningWorkers| && |visited| == i
      requires all == LoopVisits(running, 0) && all == visited + LoopVisits(runningWorkers, i)
      requires runningWorkers == RemoveAll(running, visited) && createdWorkers == RemoveAll(created, visited)
      requires calls == calls0 + CallsForEach(visited, [Joined, Terminated])
      requires EachRemovable(visited, created) && Clean(visited)
      modifies this`createdWorkers, this`runningWorkers, this`calls
      ensures after == visited + [old(runningWorkers)[i]] && |after| == i + 1
      ensures |runningWorkers| == |old(runningWorkers)| - 1
      ensures all == after + LoopVisits(runningWorkers, i + 1)
      ensures runningWorkers == RemoveAll(running, after)
      ensures createdWorkers == RemoveAll(created, after)
      ensures calls == calls0 + CallsForEach(after, [Joined, Terminated])
      ensures r == Ok ==> EachRemovable(after, created) && Clean(after)
      ensures r != Ok ==> FirstLoopStopped(running, created, r, after)
    {
      var worker := runningWorkers[i];
      ghost var w := worker;
      after := visited + [w];
      assert after[..|after| - 1] == visited;
      ghost var rest := LoopVisits(RemoveFirst(runningWorkers, w), i + 1);
      AppendAt(visited, w, rest);
      AppendAssoc(visited, [w], rest);
      CallsForEachSnoc(calls0, visited, w, [Joined, Terminated]);
      RemoveAllSnoc(running, visited, w);
      RemoveAllSnoc(created, visited, w);
      r := WaitForRunning(visited, worker);
      if r == Ok {
        EachRemovableSnoc(visited, w, created);
      } else {
        assert !RemovableAt(all, created, i) || !Clean(all);
      }
    }

    /**
     * The second loop of `wait` as written: `for worker in self.created_workers`
     * walks the very list its body removes `worker` from, so it goes through
     * WaitForCreated for the workers LoopVisits lists only, until one of them
     * raises.
     */
    method TerminateCreatedAsWritten() returns (r: Outcome, ghost visited: seq<Worker>)
      modifies this`createdWorkers, this`calls
      ensures createdWorkers == RemoveAll(old(createdWorkers), visited)
      ensures calls == old(calls) + CallsForEach(visited, [Terminated])
      ensures r == Ok <==> Clean(LoopVisits(old(createdWorkers), 0))
      ensures r == Ok ==> visited == LoopVisits(old(createdWorkers), 0)
      ensures r != Ok ==> visited != [] && visited[|visited| - 1] in old(createdWorkers) && RaisedBy(r, visited[|visited| - 1])
      ensures visited <= LoopVisits(old(createdWorkers), 0)
      ensures runningWorkers == old(runningWorkers)
    {
      ghost var created := createdWorkers;
      ghost var all := LoopVisits(created, 0);
      visited := [];
      r := Ok;
      var i := 0;
      while i < |createdWorkers|
        invariant |visited| == i && r == Ok
        invariant all == visited + LoopVisits(createdWorkers, i)
        invariant createdWorkers == RemoveAll(created, visited)
        invariant calls == old(calls) + CallsForEach(visited, [Terminated])
        invariant Clean(visited)
        decreases |createdWorkers| - i
      {
        r, visited := TerminateCreatedAsWrittenStep(created, old(calls), all, visited, i);
        if r != Ok {
          return;
        }
        i := i + 1;
      }
      assert LoopVisits(createdWorkers, i) == [];
      assert visited + [] == visited;
    }

    /**
     * One round of the loop of TerminateCreatedAsWritten: the worker at
     * position `i` of the created list, which the loop visits after `visited`.
     */
    method TerminateCreatedAsWrittenStep(ghost created: seq<Worker>, ghost calls0: seq<Call>,
                                         ghost all: seq<Worker>, ghost visited: seq<Worker>, i: nat)
      returns (r: Outcome, ghost after: seq<Worker>)
      requires i < |createdWorkers| && |visited| == i
      requires all == visited + LoopVisits(createdWorkers, i)
      requires createdWorkers == RemoveAll(created, visited)
      requires calls == calls0 + CallsForEach(visited, [Terminated])
      requires Clean(visited)
      modifies this`createdWorkers, this`calls
      ensures after == visited + [old(createdWorkers)[i]]
      ensures all == after + LoopVisits(createdWorkers, i + 1)
      ensures createdWorkers == RemoveAll(created, after)
      ensures calls == calls0 + CallsForEach(after, [Terminated])
      ensures r == Ok ==> Clean(after)
      ensures r != Ok ==> !Clean(all) && after != [] && after[|after| - 1] in created && RaisedBy(r, after[|after| - 1])
    {
      var worker := createdWorkers[i];
      ghost var w := worker;
      after := visited + [w];
      assert w in multiset(RemoveAll(created, visited));
      ghost var rest := LoopVisits(RemoveFirst(createdWorkers, w), i + 1);
      AppendAt(visited, w, rest);
      AppendAssoc(visited, [w], rest);
      CallsForEachSnoc(calls0, visited, w, [Terminated]);
      RemoveAllSnoc(created, visited, w);
      r := WaitForCreated(visited, worker);
      if r != Ok {
        assert w in all;
      }
    }

    /**
     * The two loops of `wait`, each over a copy of its list, up to the first
     * exception: a normal end leaves both lists empty, every running worker
     * joined and terminated, then every created one left over terminated.
     */
    method WaitLoops() returns (r: Outcome)
      modifies this`createdWorkers, this`runningWorkers, this`calls
      ensures r == Ok || r == WorkerNotListed || r.WorkerRaised?
      ensures r == Ok <==> WaitsCleanly(old(runningWorkers), old(createdWorkers))
      ensures r == WorkerNotListed ==> !EachRemovable(old(runningWorkers), old(createdWorkers))
      ensures r.WorkerRaised? ==>
        exists w :: (w in old(runningWorkers) || w in RemoveAll(old(createdWorkers), old(runningWorkers))) && RaisedBy(r, w)
      ensures r == Ok ==> runningWorkers == [] && createdWorkers == []
      ensures r == Ok ==>
        calls == old(calls) + CallsForEach(old(runningWorkers), [Joined, Terminated])
                 + CallsForEach(RemoveAll(old(createdWorkers), old(runningWorkers)), [Terminated])
    {
      ghost var running, created := runningWorkers, createdWorkers;
      ghost var done;
      r, done := JoinRunning();
      if r != Ok {
        FirstLoopStops(running, created, r, done);
        return;
      }
      r := TerminateLeftOver(running, created);
    }

    /** The second loop of WaitLoops, once the first one went through all of `running`. */
    method TerminateLeftOver(ghost running: seq<Worker>, ghost created: seq<Worker>) returns (r: Outcome)
      requires createdWorkers == RemoveAll(created, running)
      modifies this`createdWorkers, this`calls
      ensures r == Ok || r.WorkerRaised?
      ensures r == Ok <==> Clean(RemoveAll(created, running))
      ensures r.WorkerRaised? ==> exists w :: w in RemoveAll(created, running) && RaisedBy(r, w)
      ensures r == Ok ==>
        createdWorkers == [] && calls == old(calls) + CallsForEach(RemoveAll(created, running), [Terminated])
    {
      ghost var done;
      r, done := TerminateCreated();
      if r != Ok {
        assert old(createdWorkers)[done - 1] in old(createdWorkers);
      }
    }

    /**
     * What `wait` does after its loops: `terminate`, then the exception
     * `raised` that a worker stored, if any, unless `terminate` raised first.
     */
    method TerminateAndRaise(raised: Outcome) returns (r: Outcome, ghost order: seq<Worker>, ghost spawned: seq<Worker>)
      requires raised == Ok || raised.WorkerRaised?
      modifies this`createdWorkers, this`runningWorkers, this`exitEventSet, this`calls
      ensures fresh(spawned)
      ensures r == raised || (r == WorkerClassNotSet && !workerClassSet)
      ensures order == AliveIn(Dedup(old(runningWorkers) + old(createdWorkers)))
      ensures AfterTerminate(old(runningWorkers), old(createdWorkers), old(calls), old(exitEventSet),
                             if r == WorkerClassNotSet then WorkerClassNotSet else Ok, order, spawned)
    {
      r, order, spawned := Terminate();
      if r == Ok {
        r := raised;
      }
    }

    /**
     * `wait`: the two loops over copies of the lists, then `terminate` for
     * "double safety". A worker missing from the created list raises at
     * once; a worker's exception is raised after a `terminate`.
     */
    method Wait() returns (r: Outcome, ghost spawned: seq<Worker>)
      modifies this`createdWorkers, this`runningWorkers, this`exitEventSet, this`calls
      ensures fresh(spawned)
      ensures r == Ok <==> WaitsCleanly(old(runningWorkers), old(createdWorkers)) && (workerClassSet || maxWorkers <= 0)
      ensures r == WorkerClassNotSet ==> !workerClassSet
      ensures r == WorkerNotListed ==> !EachRemovable(old(runningWorkers), old(createdWorkers))
      ensures r.WorkerRaised? ==>
        exists w :: (w in old(runningWorkers) || w in RemoveAll(old(createdWorkers), old(runningWorkers))) && RaisedBy(r, w)
      ensures r == Ok ==>
        && runningWorkers == [] && createdWorkers == spawned && exitEventSet == old(exitEventSet)
        && Spawned(maxWorkers, workerClassSet, 0, 0, false, Ok, spawned)
        && calls == old(calls) + CallsForEach(old(runningWorkers), [Joined, Terminated])
             + CallsForEach(RemoveAll(old(createdWorkers), old(runningWorkers)), [Terminated])
             + FanOutCalls(spawned, OutputQueues, "stop", ManagerName)
    {
      r := WaitLoops();
      if r == WorkerNotListed {
        spawned := [];
        return;
      }
      if r != Ok {
        ghost var order;
        r, order, spawned := TerminateAndRaise(r);
        return;
      }
      r, spawned := FinalTerminate();
    }

    /**
     * The `terminate` that ends `wait` when both loops went through: there
     * is no worker left to stop, so it only pushes `"stop"`, which spawns a
     * fresh round of unstarted workers to receive it.
     */
    method FinalTerminate() returns (r: Outcome, ghost spawned: seq<Worker>)
      requires runningWorkers == [] && createdWorkers == []
      modifies this`createdWorkers, this`runningWorkers, this`exitEventSet, this`calls
      ensures fresh(spawned)
      ensures r == Ok <==> workerClassSet || maxWorkers <= 0
      ensures r == Ok || r == WorkerClassNotSet
      ensures runningWorkers == [] && createdWorkers == spawned && exitEventSet == old(exitEventSet)
      ensures Spawned(maxWorkers, workerClassSet, 0, 0, false, r, spawned)
      ensures r == Ok ==> calls == old(calls) + FanOutCalls(spawned, OutputQueues, "stop", ManagerName)
    {
      assert |runningWorkers + createdWorkers| == 0;
      ghost var order;
      r, order, spawned := Terminate();
      assert |order| == 0;
      assert CallsForEach(order, [Terminated, Joined]) == [];
      assert old(calls) + CallsForEach(order, [Terminated, Joined]) == old(calls);
      assert Targets() == spawned;
      assert PushCalls(Targets(), OutputQueues, "stop", ManagerName, true, None) == FanOutCalls(spawned, OutputQueues, "stop", ManagerName);
    }

    /**
     * The two loops of `wait` as written, up to the first exception: both
     * run over the very lists they remove from, so each reaches only the
     * workers LoopVisits lists. The first joins and terminates the workers
     * `joined` and drops them from both lists, the second terminates the
     * workers `terminated` and drops them from the created list.
     */
    method WaitLoopsAsWritten() returns (r: Outcome, ghost joined: seq<Worker>, ghost terminated: seq<Worker>)
      modifies this`createdWorkers, this`runningWorkers, this`calls
      ensures r == Ok || r == WorkerNotListed || r.WorkerRaised?
      ensures r == Ok <==> WaitsCleanlyAsWritten(old(runningWorkers), old(createdWorkers))
      ensures r == WorkerNotListed ==>
        !EachRemovable(LoopVisits(old(runningWorkers), 0), old(createdWorkers)) && terminated == []
      ensures r.WorkerRaised? ==> exists w :: (w in old(runningWorkers) || w in old(createdWorkers)) && RaisedBy(r, w)
      ensures r == Ok ==>
        && joined == LoopVisits(old(runningWorkers), 0)
        && terminated == LoopVisits(RemoveAll(old(createdWorkers), joined), 0)
      ensures runningWorkers == RemoveAll(old(runningWorkers), joined)
      ensures createdWorkers == RemoveAll(RemoveAll(old(createdWorkers), joined), terminated)
      ensures calls == old(calls) + CallsForEach(joined, [Joined, Terminated]) + CallsForEach(terminated, [Terminated])
      ensures joined <= LoopVisits(old(runningWorkers), 0)
      ensures terminated <= LoopVisits(RemoveAll(old(createdWorkers), joined), 0)
    {
      ghost var running, created := runningWorkers, createdWorkers;
      r, joined := JoinRunningAsWritten();
      if r != Ok {
        FirstLoopAsWrittenStops(running, created, r, joined);
        terminated := [];
        NothingTerminated(createdWorkers, calls);
        return;
      }
      ghost var culprit;
      r, culprit, terminated := TerminateLeftOverAsWritten(joined, created);
      if r.WorkerRaised? {
        assert culprit.value in created;
      }
    }

    /**
     * The second loop of WaitLoopsAsWritten, once the first one went through
     * the workers `first`: it terminates the workers `second` and drops them
     * from the created list.
     */
    method TerminateLeftOverAsWritten(ghost first: seq<Worker>, ghost created: seq<Worker>)
      returns (r: Outcome, ghost culprit: Option<Worker>, ghost second: seq<Worker>)
      requires createdWorkers == RemoveAll(created, first)
      modifies this`createdWorkers, this`calls
      ensures r == Ok || r.WorkerRaised?
      ensures r == Ok <==> Clean(LoopVisits(RemoveAll(created, first), 0))
      ensures r.WorkerRaised? ==> culprit.Some? && culprit.value in created && RaisedBy(r, culprit.value)
      ensures runningWorkers == old(runningWorkers)
      ensures r == Ok ==> second == LoopVisits(old(createdWorkers), 0)
      ensures createdWorkers == RemoveAll(old(createdWorkers), second)
      ensures calls == old(calls) + CallsForEach(second, [Terminated])
      ensures second <= LoopVisits(old(createdWorkers), 0)
    {
      r, second := TerminateCreatedAsWritten();
      culprit := None;
      if r != Ok {
        culprit := Some(second[|second| - 1]);
        assert culprit.value in multiset(old(createdWorkers));
      }
    }

    /**
     * `wait` as written: its two loops, then `terminate`, which stops the
     * workers the loops passed over without looking at their exceptions. A
     * worker missing from the created list raises before `terminate`;
     * otherwise `terminate` starts from the lists and trace the loops left
     * and stops the workers `order` it finds alive there.
     */
    method WaitAsWritten()
      returns (r: Outcome, ghost joined: seq<Worker>, ghost terminated: seq<Worker>,
               ghost running1: seq<Worker>, ghost created1: seq<Worker>, ghost calls1: seq<Call>, ghost exit1: bool,
               ghost order: seq<Worker>, ghost spawned: seq<Worker>)
      modifies this`createdWorkers, this`runningWorkers, this`exitEventSet, this`calls
      ensures exit1 == old(exitEventSet)
      ensures running1 == RemoveAll(old(runningWorkers), joined)
      ensures created1 == RemoveAll(RemoveAll(old(createdWorkers), joined), terminated)
      ensures calls1 == old(calls) + CallsForEach(joined, [Joined, Terminated]) + CallsForEach(terminated, [Terminated])
      ensures r == WorkerNotListed ==>
        && terminated == [] && order == [] && spawned == []
        && runningWorkers == running1 && createdWorkers == created1 && calls == calls1
        && exitEventSet == exit1
      ensures r != WorkerNotListed ==>
        && order == AliveIn(Dedup(running1 + created1))
        && AfterTerminate(running1, created1, calls1, exit1,
                          if r == WorkerClassNotSet then WorkerClassNotSet else Ok, order, spawned)
      ensures fresh(spawned)
      ensures joined <= LoopVisits(old(runningWorkers), 0)
      ensures terminated <= LoopVisits(RemoveAll(old(createdWorkers), joined), 0)
      ensures r == Ok ==>
        && joined == LoopVisits(old(runningWorkers), 0)
        && terminated == LoopVisits(RemoveAll(old(createdWorkers), joined), 0)
      ensures workerClassSet ==> (r == Ok <==> WaitsCleanlyAsWritten(old(runningWorkers), old(createdWorkers)))
      ensures r == WorkerClassNotSet ==> !workerClassSet
      ensures r == WorkerNotListed ==> !EachRemovable(LoopVisits(old(runningWorkers), 0), old(createdWorkers))
      ensures r.WorkerRaised? ==> exists w :: (w in old(runningWorkers) || w in old(createdWorkers)) && RaisedBy(r, w)
    {
      r, joined, terminated := WaitLoopsAsWritten();
      running1, created1, calls1, exit1 := runningWorkers, createdWorkers, calls, exitEventSet;
      if r == WorkerNotListed {
        order, spawned := [], [];
        return;
      }
      r, order, spawned := TerminateAndRaise(r);
    }

    /**
     * The body of `start` after its guards: every created worker is started
     * and appended to the running list, then the three dataset lists are
     * pushed, signed `"ppm"`.
     */
    method StartCreatedWorkers()
      modifies this`runningWorkers, this`calls
      ensures runningWorkers == old(runningWorkers) + createdWorkers
      ensures calls == old(calls) + CallsForEach(createdWorkers, [Started])
    {
      var i := 0;
      while i < |createdWorkers|
        invariant 0 <= i <= |createdWorkers|
        invariant runningWorkers == old(runningWorkers) + createdWorkers[..i]
        invariant calls == old(calls) + CallsForEach(createdWorkers[..i], [Started])
      {
        var w := createdWorkers[i];
        CallsForEachSnoc(old(calls), createdWorkers[..i], w, [Started]);
        assert createdWorkers[..i + 1] == createdWorkers[..i] + [w];
        calls := calls + [Call(w, Started)];
        runningWorkers := runningWorkers + [w];
        i := i + 1;
      }
      assert createdWorkers[..i] == createdWorkers;
    }

    /**
     * One push of `start`, signed `"ppm"`: with a worker class set and either
     * a created worker or no room for one, the `ensure_worker_spawned` guard
     * does nothing and the item goes to the current targets.
     */
    method PushFromStart(channel: Channel, data: Data, allQueues: bool) returns (ghost receiver: Option<Worker>)
      requires workerClassSet
      requires createdWorkers == [] ==> |runningWorkers| >= maxWorkers
      modifies this`createdWorkers, this`runningWorkers, this`calls
      ensures createdWorkers == old(createdWorkers) && runningWorkers == old(runningWorkers)
      ensures receiver.Some? <==> !allQueues && Targets() != []
      ensures receiver.Some? ==> receiver.value in Targets()
      ensures calls == old(calls) + PushCalls(Targets(), channel, data, StartSource, allQueues, receiver)
    {
      var r;
      ghost var spawned;
      r, spawned, receiver := Push(channel, data, Some(StartSource), allQueues);
      assert r == Ok && spawned == [];
    }

    /** `for data in datas: push(data, source_worker="ppm")` on `channel`, each push to one picked worker. */
    method PushEachToOne(channel: Channel, datas: seq<Data>) returns (ghost picks: seq<Option<Worker>>)
      requires workerClassSet
      requires createdWorkers == [] ==> |runningWorkers| >= maxWorkers
      modifies this`createdWorkers, this`runningWorkers, this`calls
      ensures createdWorkers == old(createdWorkers) && runningWorkers == old(runningWorkers)
      ensures |picks| == |datas|
      ensures PicksAmong(picks, Targets())
      ensures calls == old(calls) + Picked(channel, datas, StartSource, picks)
    {
      ghost var targets := Targets();
      picks := [];
      for i := 0 to |datas|
        invariant |picks| == i
        invariant createdWorkers == old(createdWorkers) && runningWorkers == old(runningWorkers)
        invariant Targets() == targets
        invariant PicksAmong(picks, targets)
        invariant calls == old(calls) + Picked(channel, datas[..i], StartSource, picks)
      {
        ghost var receiver := PushFromStart(channel, datas[i], false);
        PickedSnoc(old(calls), channel, datas, i, StartSource, picks, receiver);
        picks := picks + [receiver];
      }
      assert datas[..|datas|] == datas;
    }

    /** `for data in datas: push(data, source_worker="ppm")` on `channel`, each push a fan-out. */
    method PushEachToAll(channel: Channel, datas: seq<Data>)
      requires workerClassSet
      requires createdWorkers == [] ==> |runningWorkers| >= maxWorkers
      modifies this`createdWorkers, this`runningWorkers, this`calls
      ensures createdWorkers == old(createdWorkers) && runningWorkers == old(runningWorkers)
      ensures calls == old(calls) + Broadcasts(channel, datas, StartSource, Targets())
    {
      ghost var targets := Targets();
      for i := 0 to |datas|
        invariant createdWorkers == old(createdWorkers) && runningWorkers == old(runningWorkers)
        invariant Targets() == targets
        invariant calls == old(calls) + Broadcasts(channel, datas[..i], StartSource, targets)
      {
        ghost var receiver := PushFromStart(channel, datas[i], true);
        BroadcastsSnoc(old(calls), channel, datas, i, StartSource, targets);
      }
      assert datas[..|datas|] == datas;
    }

    /**
     * The dataset pushes of `start`: the input and output datasets each to one
     * picked worker, then the configuration datasets to all targets, signed
     * `"ppm"`.
     */
    method PushDatasets() returns (ghost inputPicks: seq<Option<Worker>>, ghost outputPicks: seq<Option<Worker>>)
      requires workerClassSet
      requires createdWorkers == [] ==> |runningWorkers| >= maxWorkers
      modifies this`createdWorkers, this`runningWorkers, this`calls
      ensures createdWorkers == old(createdWorkers) && runningWorkers == old(runningWorkers)
      ensures |inputPicks| == |inputDatasets| && |outputPicks| == |outputDatasets|
      ensures PicksAmong(inputPicks, Targets()) && PicksAmong(outputPicks, Targets())
      ensures calls == old(calls)
        + Picked(InputQueue, inputDatasets, StartSource, inputPicks)
        + Picked(OutputQueues, outputDatasets, StartSource, outputPicks)
        + Broadcasts(ConfigurationQueue, configurationDatasets, StartSource, Targets())
    {
      ghost var targets := Targets();
      inputPicks := PushEachToOne(InputQueue, inputDatasets);
      outputPicks := PushEachToOne(OutputQueues, outputDatasets);
      assert Targets() == targets;
      PushEachToAll(ConfigurationQueue, configurationDatasets);
      assert Targets() == targets;
    }

    /**
     * The body of `start` past its guards: every created worker is started and
     * appended to the running list, then the datasets are pushed.
     */
    method Launch() returns (ghost inputPicks: seq<Option<Worker>>, ghost outputPicks: seq<Option<Worker>>)
      requires workerClassSet
      requires createdWorkers == [] ==> |runningWorkers| >= maxWorkers
      modifies this`createdWorkers, this`runningWorkers, this`calls
      ensures createdWorkers == old(createdWorkers)
      ensures runningWorkers == old(runningWorkers) + createdWorkers
      ensures |inputPicks| == |inputDatasets| && |outputPicks| == |outputDatasets|
      ensures PicksAmong(inputPicks, Targets()) && PicksAmong(outputPicks, Targets())
      ensures calls == old(calls) + CallsForEach(createdWorkers, [Started])
        + Picked(InputQueue, inputDatasets, StartSource, inputPicks)
        + Picked(OutputQueues, outputDatasets, StartSource, outputPicks)
        + Broadcasts(ConfigurationQueue, configurationDatasets, StartSource, Targets())
    {
      StartCreatedWorkers();
      inputPicks, outputPicks := PushDatasets();
    }

    /**
     * `start`: raises without a worker class; spawns a round of unstarted
     * workers when none was created; does nothing more while a worker runs;
     * otherwise goes on as Launch.
     */
    method Start() returns (r: Outcome, ghost spawned: seq<Worker>,
                            ghost inputPicks: seq<Option<Worker>>, ghost outputPicks: seq<Option<Worker>>)
      modifies this`createdWorkers, this`runningWorkers, this`calls
      ensures fresh(spawned)
      ensures !workerClassSet ==>
        r == WorkerClassNotSet && createdWorkers == old(createdWorkers) && runningWorkers == old(runningWorkers)
        && calls == old(calls)
      ensures workerClassSet ==> r == Ok && createdWorkers == old(createdWorkers) + spawned
      ensures workerClassSet && old(createdWorkers) != [] ==> spawned == []
      ensures workerClassSet && old(createdWorkers) == [] ==>
        Spawned(maxWorkers, true, 0, |old(runningWorkers)|, false, Ok, spawned)
      ensures workerClassSet && old(Running()) ==> runningWorkers == old(runningWorkers) && calls == old(calls)
      ensures workerClassSet && !old(Running()) ==>
        && runningWorkers == old(runningWorkers) + createdWorkers
        && |inputPicks| == |inputDatasets| && |outputPicks| == |outputDatasets|
        && PicksAmong(inputPicks, Targets()) && PicksAmong(outputPicks, Targets())
        && calls == old(calls) + CallsForEach(createdWorkers, [Started])
             + Picked(InputQueue, inputDatasets, StartSource, inputPicks)
             + Picked(OutputQueues, outputDatasets, StartSource, outputPicks)
             + Broadcasts(ConfigurationQueue, configurationDatasets, StartSource, Targets())
    {
      inputPicks, outputPicks := [], [];
      if !workerClassSet {
        r, spawned := WorkerClassNotSet, [];
        return;
      }
      ghost var wasRunning := Running();
      r, spawned := EnsureWorkerSpawned();
      assert Running() == wasRunning;
      var running := IsRunning();
      if running {
        return;
      }
      inputPicks, outputPicks := Launch();
    }
  }
}

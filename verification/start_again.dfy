/**
 * `start` twice in a row. The `ignore_if_running` guard turns the second call
 * into a no-op as soon as a started worker is alive, which the first call
 * brings about: it starts the created workers, or the round of workers
 * `ensure_worker_spawned` creates when there is none.
 */
module StartAgain {
  import opened Wrappers
  import opened Settings
  import opened Workers
  import opened ManagerSpec
  import opened Manager

  /**
   * Two calls of `start` on a manager with a worker class whose created
   * workers are alive: the first spawns `spawned` when none was created and,
   * unless a worker already runs, starts the created workers and pushes the
   * datasets, the single-receiver ones to `inputPicks` and `outputPicks`;
   * the second leaves the lists and the trace of calls exactly as the first
   * left them.
   */
  method StartTwice(m: ProcessManager)
    returns (first: Outcome, second: Outcome, ghost spawned: seq<Worker>,
             ghost runningBetween: seq<Worker>, ghost callsBetween: seq<Call>,
             ghost inputPicks: seq<Option<Worker>>, ghost outputPicks: seq<Option<Worker>>)
    requires m.workerClassSet
    requires forall w :: w in m.createdWorkers ==> w.alive
    modifies m`createdWorkers, m`runningWorkers, m`calls
    ensures first == Ok && second == Ok
    ensures m.createdWorkers == old(m.createdWorkers) + spawned
    ensures old(m.createdWorkers) != [] ==> spawned == []
    ensures old(m.createdWorkers) == [] ==> |spawned| == SpawnCount(|old(m.runningWorkers)|, m.maxWorkers, false)
    ensures runningBetween == if old(m.Running()) then old(m.runningWorkers) else old(m.runningWorkers) + m.createdWorkers
    ensures old(m.Running()) ==> callsBetween == old(m.calls)
    ensures !old(m.Running()) ==>
      && |inputPicks| == |old(m.inputDatasets)| && |outputPicks| == |old(m.outputDatasets)|
      && PicksAmong(inputPicks, m.Targets()) && PicksAmong(outputPicks, m.Targets())
      && callsBetween == old(m.calls) + CallsForEach(m.createdWorkers, [Started])
           + Picked(InputQueue, old(m.inputDatasets), StartSource, inputPicks)
           + Picked(OutputQueues, old(m.outputDatasets), StartSource, outputPicks)
           + Broadcasts(ConfigurationQueue, old(m.configurationDatasets), StartSource, m.Targets())
    ensures m.runningWorkers == runningBetween && m.calls == callsBetween
  {
    ghost var again, inputPicksAgain, outputPicksAgain;
    var room := m.createdWorkers != [] || |m.runningWorkers| < m.maxWorkers;
    first, spawned, inputPicks, outputPicks := m.Start();
    runningBetween, callsBetween := m.runningWorkers, m.calls;
    if room {
      AliveAfterSpawning(old(m.createdWorkers), spawned, |old(m.runningWorkers)|, m.maxWorkers);
      StartedIsRunning(m, old(m.runningWorkers), m.createdWorkers, old(m.Running()));
      second, again, inputPicksAgain, outputPicksAgain := m.Start();
    } else {
      assert m.createdWorkers == [];
      ghost var wasRunning := m.Running();
      second, again, inputPicksAgain, outputPicksAgain := m.Start();
      if !wasRunning {
        NothingToLaunch(m.calls, callsBetween, m.inputDatasets, m.outputDatasets, m.configurationDatasets,
                        inputPicksAgain, outputPicksAgain);
      }
    }
  }

  /**
   * With no created worker and none running, `start` goes on to start no
   * worker and finds no target for its pushes, so it adds no call.
   */
  lemma NothingToLaunch(calls: seq<Call>, calls0: seq<Call>, inputs: seq<Data>, outputs: seq<Data>,
                        configurations: seq<Data>, inputPicks: seq<Option<Worker>>, outputPicks: seq<Option<Worker>>)
    requires |inputPicks| == |inputs| && |outputPicks| == |outputs|
    requires PicksAmong(inputPicks, []) && PicksAmong(outputPicks, [])
    requires calls == calls0 + CallsForEach([], [Started])
      + Picked(InputQueue, inputs, StartSource, inputPicks)
      + Picked(OutputQueues, outputs, StartSource, outputPicks)
      + Broadcasts(ConfigurationQueue, configurations, StartSource, [])
    ensures calls == calls0
  {
    PickedNone(InputQueue, inputs, StartSource, inputPicks);
    PickedNone(OutputQueues, outputs, StartSource, outputPicks);
    BroadcastsToNone(ConfigurationQueue, configurations, StartSource);
  }

  /**
   * The created workers after the spawning of the first `start` are there and
   * alive: the old ones were, and a round spawned without starting has
   * `max_workers` alive workers when the running ones are below the bound.
   */
  lemma AliveAfterSpawning(created: seq<Worker>, spawned: seq<Worker>, running: nat, maxWorkers: int)
    requires forall w :: w in created ==> w.alive
    requires forall k :: 0 <= k < |spawned| ==> spawned[k].alive
    requires created != [] || running < maxWorkers
    requires created != [] ==> spawned == []
    requires created == [] ==> |spawned| == SpawnCount(running, maxWorkers, false)
    ensures created + spawned != []
    ensures forall w :: w in created + spawned ==> w.alive
  {
    forall w | w in created + spawned
      ensures w.alive
    {
      if w !in created {
        var k :| 0 <= k < |spawned| && spawned[k] == w;
      }
    }
  }

  /** After the first `start` some started worker is alive. */
  lemma StartedIsRunning(m: ProcessManager, running0: seq<Worker>, created: seq<Worker>, wasRunning: bool)
    requires created != [] && forall w :: w in created ==> w.alive
    requires wasRunning ==> exists w :: w in running0 && w.alive
    requires m.runningWorkers == if wasRunning then running0 else running0 + created
    ensures m.Running()
  {
    if !wasRunning {
      assert created[0] in m.runningWorkers;
    }
  }

  /**
   * A fresh manager with a worker class and a bound of two, started twice
   * with datasets on all three queues: the first `start` spawns two
   * workers, starts both and pushes every item signed `"ppm"`, the input and
   * output items each to one of the two (`inputPicks`, `outputPicks`) and
   * the configuration items to both; the second pushes nothing and starts
   * nothing.
   */
  method StartTwiceFresh(inputs: seq<Data>, outputs: seq<Data>, configurations: seq<Data>)
    returns (m: ProcessManager, ghost callsBetween: seq<Call>,
             ghost inputPicks: seq<Option<Worker>>, ghost outputPicks: seq<Option<Worker>>)
    ensures |m.createdWorkers| == 2 && m.runningWorkers == m.createdWorkers
    ensures |inputPicks| == |inputs| && |outputPicks| == |outputs|
    ensures PicksAmong(inputPicks, m.createdWorkers) && PicksAmong(outputPicks, m.createdWorkers)
    ensures callsBetween == CallsForEach(m.createdWorkers, [Started])
      + Picked(InputQueue, inputs, StartSource, inputPicks)
      + Picked(OutputQueues, outputs, StartSource, outputPicks)
      + Broadcasts(ConfigurationQueue, configurations, StartSource, m.createdWorkers)
    ensures m.calls == callsBetween
  {
    m := new ProcessManager(Some(2), 4, true, None, true, NoOutputQueue, 1, true, None, true, None);
    m.inputDatasets, m.outputDatasets, m.configurationDatasets := inputs, outputs, configurations;
    var first, second;
    ghost var spawned, runningBetween;
    assert !m.Running();
    ghost var calls0 := m.calls;
    assert calls0 == [];
    first, second, spawned, runningBetween, callsBetween, inputPicks, outputPicks := StartTwice(m);
    assert m.Targets() == m.createdWorkers;
    assert calls0 + CallsForEach(m.createdWorkers, [Started]) == CallsForEach(m.createdWorkers, [Started]);
  }
}

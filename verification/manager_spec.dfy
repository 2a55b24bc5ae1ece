/**
 * The values the process manager's operations are specified with: their
 * outcome, how many workers one round of spawning creates, who signs a push,
 * and the calls a run of operations makes on the workers, with what each
 * worker sees of them.
 */
module ManagerSpec {
  import opened Wrappers
  import opened PyLists
  import opened Settings
  import opened Workers

  /**
   * How an operation ends: normally, or with the exception it raises.
   * WorkerClassNotSet is the TypeError of a manager without `WORKER_CLASS`;
   * WorkerNotListed is the ValueError of `list.remove` in `wait` when a running
   * worker is not among the created ones; WorkerRaised re-raises the error a
   * worker stored.
   */
  datatype Outcome = Ok | WorkerClassNotSet | WorkerNotListed | WorkerRaised(failure: Failure)

  /** `source_worker or self.name`: a missing or empty sender name becomes the manager's name. */
  function SourceOrDefault(source: Option<string>): (s: string)
    ensures s != ""
    ensures source.Some? && source.value != "" ==> s == source.value
    ensures source == None || source == Some("") ==> s == ManagerName
  {
    if source.Some? && source.value != "" then source.value else ManagerName
  }

  /**
   * How many workers `spawn_workers` creates when `running` workers are
   * running: none once the bound is reached; with `start` enough to bring the
   * running workers up to the bound; without it `max_workers` of them, since
   * unstarted workers do not count against the bound.
   */
  function SpawnCount(running: nat, maxWorkers: int, start: bool): (n: nat)
    ensures running >= maxWorkers ==> n == 0
    ensures running < maxWorkers && start ==> running + n == maxWorkers
    ensures running < maxWorkers && !start ==> n == maxWorkers
  {
    if running >= maxWorkers then 0 else if start then maxWorkers - running else maxWorkers
  }

  /** The message a fan-out push hands to `w`: addressed to `w` by name. */
  function Addressed(channel: Channel, data: Data, source: string, w: Worker): Event {
    Received(Message(channel, data, source, Some(w.name)))
  }

  /** The message a single-receiver push hands to the worker it picks: not addressed. */
  function Unaddressed(channel: Channel, data: Data, source: string): Event {
    Received(Message(channel, data, source, None))
  }

  /** The calls `events`, in order, all made on `w`. */
  function CallsOf(w: Worker, events: seq<Event>): (r: seq<Call>)
    ensures |r| == |events|
  {
    if events == [] then [] else CallsOf(w, events[..|events| - 1]) + [Call(w, events[|events| - 1])]
  }

  /** The calls `events` made on each of `ws` in turn: what a loop over `ws` making those calls leaves. */
  function CallsForEach(ws: seq<Worker>, events: seq<Event>): seq<Call> {
    if ws == [] then [] else CallsForEach(ws[..|ws| - 1], events) + CallsOf(ws[|ws| - 1], events)
  }

  /** One more worker at the end of the loop adds its calls at the end of the trace, after any `prefix`. */
  lemma CallsForEachSnoc(prefix: seq<Call>, ws: seq<Worker>, w: Worker, events: seq<Event>)
    ensures prefix + CallsForEach(ws, events) + CallsOf(w, events) == prefix + CallsForEach(ws + [w], events)
  {
    assert (ws + [w])[..|ws|] == ws;
  }

  /** The `all_queues` loop of one push: each target in turn gets the item addressed to itself. */
  function FanOutCalls(targets: seq<Worker>, channel: Channel, data: Data, source: string): (r: seq<Call>)
    ensures |r| == |targets|
  {
    if targets == [] then []
    else
      var n := |targets| - 1;
      FanOutCalls(targets[..n], channel, data, source) + [Call(targets[n], Addressed(channel, data, source, targets[n]))]
  }

  /**
   * The calls of one push after its guard: the fan-out to `targets` with
   * `allQueues`; otherwise the unaddressed item to the `receiver` picked, or
   * nothing when there was no worker to pick.
   */
  function PushCalls(targets: seq<Worker>, channel: Channel, data: Data, source: string, allQueues: bool,
                     receiver: Option<Worker>): (r: seq<Call>)
    ensures |r| == if allQueues then |targets| else if receiver.Some? then 1 else 0
  {
    if allQueues then FanOutCalls(targets, channel, data, source)
    else if receiver.Some? then [Call(receiver.value, Unaddressed(channel, data, source))]
    else []
  }

  /**
   * The calls of a run of single-receiver pushes of `datas`, the `k`-th of
   * which went to `picks[k]`.
   */
  function Picked(channel: Channel, datas: seq<Data>, source: string, picks: seq<Option<Worker>>): (r: seq<Call>)
    requires |picks| == |datas|
    ensures |r| <= |datas|
  {
    if datas == [] then []
    else
      var n := |datas| - 1;
      Picked(channel, datas[..n], source, picks[..n]) + PushCalls([], channel, datas[n], source, false, picks[n])
  }

  /** The calls of a run of fan-out pushes of `datas` to the same `targets`. */
  function Broadcasts(channel: Channel, datas: seq<Data>, source: string, targets: seq<Worker>): seq<Call> {
    if datas == [] then []
    else
      var n := |datas| - 1;
      Broadcasts(channel, datas[..n], source, targets) + FanOutCalls(targets, channel, datas[n], source)
  }

  /** Every item of a run of fan-out pushes reaches every target once. */
  lemma {:induction false} BroadcastsLength(channel: Channel, datas: seq<Data>, source: string, targets: seq<Worker>)
    ensures |Broadcasts(channel, datas, source, targets)| == |datas| * |targets|
  {
    if datas != [] {
      var n := |datas| - 1;
      BroadcastsLength(channel, datas[..n], source, targets);
      assert |datas| * |targets| == n * |targets| + |targets|;
    }
  }

  /** One more fan-out push at the end of a run adds its calls at the end of the trace, after any `prefix`. */
  lemma BroadcastsSnoc(prefix: seq<Call>, channel: Channel, datas: seq<Data>, i: nat, source: string, targets: seq<Worker>)
    requires i < |datas|
    ensures prefix + Broadcasts(channel, datas[..i], source, targets) + FanOutCalls(targets, channel, datas[i], source)
         == prefix + Broadcasts(channel, datas[..i + 1], source, targets)
  {
    assert datas[..i + 1][..i] == datas[..i];
  }

  /** One more push to a picked worker at the end of a run adds its call at the end of the trace, after any `prefix`. */
  lemma PickedSnoc(prefix: seq<Call>, channel: Channel, datas: seq<Data>, i: nat, source: string,
                   picks: seq<Option<Worker>>, pick: Option<Worker>)
    requires i < |datas| && |picks| == i
    ensures prefix + Picked(channel, datas[..i], source, picks) + PushCalls([], channel, datas[i], source, false, pick)
         == prefix + Picked(channel, datas[..i + 1], source, picks + [pick])
  {
    assert datas[..i + 1][..i] == datas[..i];
    assert (picks + [pick])[..i] == picks;
  }

  /** A worker sees `events` once for every time it is listed in `ws`. */
  lemma {:induction false} CallsForEachOn(ws: seq<Worker>, events: seq<Event>, w: Worker)
    ensures CallsOn(CallsForEach(ws, events), w) == Repeat(events, multiset(ws)[w])
  {
    if ws != [] {
      var n := |ws| - 1;
      CallsForEachOn(ws[..n], events, w);
      assert ws == ws[..n] + [ws[n]];
      CallsForEachOnSnoc(ws[..n], ws[n], events, w);
    }
  }

  /** One more worker at the end of the loop adds `events` to its own share once. */
  lemma CallsForEachOnSnoc(init: seq<Worker>, last: Worker, events: seq<Event>, w: Worker)
    requires CallsOn(CallsForEach(init, events), w) == Repeat(events, multiset(init)[w])
    ensures CallsOn(CallsForEach(init + [last], events), w) == Repeat(events, multiset(init + [last])[w])
  {
    var ws := init + [last];
    assert ws[..|init|] == init;
    CallsOnAppend(CallsForEach(init, events), CallsOf(last, events), w);
    CallsOfOn(last, events, w);
    var m := multiset(init)[w];
    assert multiset(ws)[w] == m + (if last == w then 1 else 0);
  }

  /** The calls of `events` on `v` are, to `v`, exactly `events`, and nothing to any other worker. */
  lemma {:induction false} CallsOfOn(v: Worker, events: seq<Event>, w: Worker)
    ensures CallsOn(CallsOf(v, events), w) == if v == w then events else []
  {
    if events != [] {
      var n := |events| - 1;
      CallsOfOn(v, events[..n], w);
      CallsOnAppend(CallsOf(v, events[..n]), [Call(v, events[n])], w);
      assert CallsOn([Call(v, events[n])], w) == CallsOn([], w) + (if v == w then [events[n]] else []);
      assert events == events[..n] + [events[n]];
    }
  }

  /** A fan-out hands each worker one addressed copy of the item for every time it is listed among the targets. */
  lemma {:induction false} FanOutCallsOn(targets: seq<Worker>, channel: Channel, data: Data, source: string, w: Worker)
    ensures CallsOn(FanOutCalls(targets, channel, data, source), w)
      == Repeat([Addressed(channel, data, source, w)], multiset(targets)[w])
  {
    if targets != [] {
      var n := |targets| - 1;
      var e := Call(targets[n], Addressed(channel, data, source, targets[n]));
      FanOutCallsOn(targets[..n], channel, data, source, w);
      CallsOnAppend(FanOutCalls(targets[..n], channel, data, source), [e], w);
      var m := multiset(targets[..n])[w];
      assert FanOutCalls(targets, channel, data, source) == FanOutCalls(targets[..n], channel, data, source) + [e];
      assert targets == targets[..n] + [targets[n]];
      assert CallsOn([e], w) == CallsOn([], w) + (if targets[n] == w then [e.event] else []);
      if targets[n] == w {
        assert multiset(targets)[w] == m + 1;
      } else {
        assert multiset(targets)[w] == m;
      }
    }
  }

  /** A fan-out reaches each target listed once exactly once, addressed to that target by name. */
  lemma FanOutReachesEachOnce(targets: seq<Worker>, channel: Channel, data: Data, source: string, w: Worker)
    requires Distinct(targets) && w in targets
    ensures CallsOn(FanOutCalls(targets, channel, data, source), w) == [Addressed(channel, data, source, w)]
  {
    FanOutCallsOn(targets, channel, data, source, w);
    DistinctOccursOnce(targets, w);
    assert Repeat([Addressed(channel, data, source, w)], 1) == [Addressed(channel, data, source, w)];
  }

  /** A worker that is not a target, nor the one picked, receives nothing from a push. */
  lemma PushCallsOutside(targets: seq<Worker>, channel: Channel, data: Data, source: string, allQueues: bool,
                         receiver: Option<Worker>, w: Worker)
    requires w !in targets && receiver != Some(w)
    ensures CallsOn(PushCalls(targets, channel, data, source, allQueues, receiver), w) == []
  {
    if allQueues {
      FanOutCallsOn(targets, channel, data, source, w);
      assert multiset(targets)[w] == 0;
    }
  }

  /** A run of single-receiver pushes hands `w` one item for every time it was the one picked. */
  lemma {:induction false} PickedOn(channel: Channel, datas: seq<Data>, source: string, picks: seq<Option<Worker>>, w: Worker)
    requires |picks| == |datas|
    ensures |CallsOn(Picked(channel, datas, source, picks), w)| == multiset(picks)[Some(w)]
  {
    if datas != [] {
      var n := |datas| - 1;
      var last := PushCalls([], channel, datas[n], source, false, picks[n]);
      PickedOn(channel, datas[..n], source, picks[..n], w);
      CallsOnAppend(Picked(channel, datas[..n], source, picks[..n]), last, w);
      PickOn(channel, datas[n], source, picks[n], w);
      CountSnoc(picks, Some(w));
    }
  }

  /** A single-receiver push reaches `w` once when `w` was picked and not at all otherwise. */
  lemma PickOn(channel: Channel, data: Data, source: string, pick: Option<Worker>, w: Worker)
    ensures |CallsOn(PushCalls([], channel, data, source, false, pick), w)| == if pick == Some(w) then 1 else 0
  {
    if pick.Some? {
      CallsOnSingle(Call(pick.value, Unaddressed(channel, data, source)), w);
    } else {
      assert PushCalls([], channel, data, source, false, pick) == [];
    }
  }

  /** When there is always a worker to pick, every item of the run is delivered to exactly one worker. */
  lemma {:induction false} PickedDeliversEach(channel: Channel, datas: seq<Data>, source: string, picks: seq<Option<Worker>>)
    requires |picks| == |datas|
    requires forall k :: 0 <= k < |picks| ==> picks[k].Some?
    ensures |Picked(channel, datas, source, picks)| == |datas|
  {
    if datas != [] {
      PickedDeliversEach(channel, datas[..|datas| - 1], source, picks[..|datas| - 1]);
    }
  }

  /** Each of `datas` in turn, as the addressed message `w` receives for it. */
  function AddressedEach(channel: Channel, datas: seq<Data>, source: string, w: Worker): (r: seq<Event>)
    ensures |r| == |datas|
    ensures forall k :: 0 <= k < |datas| ==> r[k] == Addressed(channel, datas[k], source, w)
  {
    if datas == [] then []
    else
      var n := |datas| - 1;
      AddressedEach(channel, datas[..n], source, w) + [Addressed(channel, datas[n], source, w)]
  }

  /** A worker listed once among the targets receives every item of a fan-out run exactly once, in order, addressed to itself. */
  lemma {:induction false} BroadcastsOnce(channel: Channel, datas: seq<Data>, source: string, targets: seq<Worker>, w: Worker)
    requires Distinct(targets) && w in targets
    ensures CallsOn(Broadcasts(channel, datas, source, targets), w) == AddressedEach(channel, datas, source, w)
  {
    if datas != [] {
      var n := |datas| - 1;
      BroadcastsOnce(channel, datas[..n], source, targets, w);
      assert Broadcasts(channel, datas, source, targets)
        == Broadcasts(channel, datas[..n], source, targets) + FanOutCalls(targets, channel, datas[n], source);
      CallsOnAppend(Broadcasts(channel, datas[..n], source, targets), FanOutCalls(targets, channel, datas[n], source), w);
      FanOutReachesEachOnce(targets, channel, datas[n], source, w);
    }
  }

  /** A worker outside the targets receives nothing from a fan-out run. */
  lemma {:induction false} BroadcastsOutside(channel: Channel, datas: seq<Data>, source: string, targets: seq<Worker>, w: Worker)
    requires w !in targets
    ensures CallsOn(Broadcasts(channel, datas, source, targets), w) == []
  {
    if datas != [] {
      var n := |datas| - 1;
      BroadcastsOutside(channel, datas[..n], source, targets, w);
      CallsOnAppend(Broadcasts(channel, datas[..n], source, targets), FanOutCalls(targets, channel, datas[n], source), w);
      PushCallsOutside(targets, channel, datas[n], source, true, None, w);
    }
  }

  /** A run of single-receiver pushes that never found a worker to pick makes no call. */
  lemma {:induction false} PickedNone(channel: Channel, datas: seq<Data>, source: string, picks: seq<Option<Worker>>)
    requires |picks| == |datas| && forall p :: p in picks ==> p.None?
    ensures Picked(channel, datas, source, picks) == []
  {
    if datas != [] {
      var n := |datas| - 1;
      assert picks[n] in picks;
      assert forall p :: p in picks[..n] ==> p in picks;
      PickedNone(channel, datas[..n], source, picks[..n]);
    }
  }

  /** A run of fan-out pushes with no target makes no call. */
  lemma {:induction false} BroadcastsToNone(channel: Channel, datas: seq<Data>, source: string)
    ensures Broadcasts(channel, datas, source, []) == []
  {
    if datas != [] {
      BroadcastsToNone(channel, datas[..|datas| - 1], source);
    }
  }
}

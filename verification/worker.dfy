/**
 * A worker handle as the process manager sees it. The manager only ever calls
 * `start`, `join`, `terminate`, `is_alive` and the three `push_to_*` methods
 * of a worker and reads its `name` and `exception`; the worker's own process
 * and message loop are not part of this model. What `is_alive()` answers and
 * the exception a worker stored are state of the worker's own process: the
 * manager reads them and never changes them. The `start`, `join`,
 * `terminate` and push calls the manager makes are kept, in order, as a trace
 * of Call values; CallsOn reads one worker's share back. Reading `is_alive()`
 * is not a call in the trace.
 */
module Workers {
  import opened Wrappers

  /** A dataset item; the manager never looks inside one. */
  type Data = string

  /** The three worker queues a manager can push to. */
  datatype Channel = InputQueue | OutputQueues | ConfigurationQueue

  /** One push: the queue, the item, the sender's name and, for a fan-out push, the addressee's name. */
  datatype Message = Message(channel: Channel, data: Data, source: string, destination: Option<string>)

  /** One call the manager made on a worker. */
  datatype Event = Started | Joined | Terminated | Received(message: Message)

  /** The `(error, trace)` pair a worker stores when its work raised. */
  datatype Failure = Failure(error: string, trace: string)

  class Worker {
    const name: string
    /** What `is_alive()` answers. */
    const alive: bool
    /** The `exception` attribute: set by the worker's process when its work raised. */
    const exception: Option<Failure>

    /** A freshly built worker: alive and without exception. */
    constructor (name: string)
      ensures this.name == name
      ensures alive && exception == None
    {
      this.name := name;
      alive := true;
      exception := None;
    }

    /** A worker whose process answers `alive` to `is_alive()` and stored `exception`. */
    constructor Reporting(name: string, alive: bool, exception: Option<Failure>)
      ensures this.name == name
      ensures this.alive == alive && this.exception == exception
    {
      this.name := name;
      this.alive := alive;
      this.exception := exception;
    }
  }

  /** `event` happened to `worker`. */
  datatype Call = Call(worker: Worker, event: Event)

  /** The calls of `calls` made on `w`, in order: one worker's `start`, `join`, `terminate` and push calls. */
  function CallsOn(calls: seq<Call>, w: Worker): (r: seq<Event>)
    ensures |r| <= |calls|
  {
    if calls == [] then []
    else
      var n := |calls| - 1;
      CallsOn(calls[..n], w) + (if calls[n].worker == w then [calls[n].event] else [])
  }

  /** One call is in `w`'s share exactly when it was made on `w`. */
  lemma CallsOnSingle(c: Call, w: Worker)
    ensures CallsOn([c], w) == if c.worker == w then [c.event] else []
  {
    assert [c][..0] == [];
  }

  /** One worker's share of two traces in a row is its share of the first, then of the second. */
  lemma {:induction false} CallsOnAppend(a: seq<Call>, b: seq<Call>, w: Worker)
    ensures CallsOn(a + b, w) == CallsOn(a, w) + CallsOn(b, w)
    decreases |b|
  {
    if b != [] {
      var n := |b| - 1;
      assert (a + b)[..|a| + n] == a + b[..n];
      assert (a + b)[|a| + n] == b[n];
      CallsOnAppend(a, b[..n], w);
    } else {
      assert a + b == a;
    }
  }

  /** A trace with no call on `w` leaves `w`'s log empty. */
  lemma {:induction false} CallsOnNone(calls: seq<Call>, w: Worker)
    requires forall k :: 0 <= k < |calls| ==> calls[k].worker != w
    ensures CallsOn(calls, w) == []
    decreases |calls|
  {
    if calls != [] {
      CallsOnNone(calls[..|calls| - 1], w);
    }
  }
}

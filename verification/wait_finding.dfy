/**
 * What the two loops of `wait` check, as written and as intended, on a
 * manager whose running workers are also its created workers, the state
 * `start` leaves behind. The intended loops look at every created worker;
 * the loops as written remove each worker from the very list they walk, so
 * they see only every other worker and can end normally although a worker
 * stored an exception.
 */
module WaitFinding {
  import opened Wrappers
  import opened PyLists
  import opened Settings
  import opened Workers
  import opened ManagerSpec
  import opened Manager

  /**
   * With every running worker on the created list, the intended loops of
   * `wait` get through exactly when no created worker stored an exception.
   */
  lemma WaitsCleanlyWhenIncluded(running: seq<Worker>, created: seq<Worker>)
    requires multiset(running) <= multiset(created)
    ensures WaitsCleanly(running, created) <==> Clean(created)
  {
    EachRemovableWhenIncluded(running, created);
    CleanSplit(running, created);
  }

  /** Over four distinct workers the loop as written visits the first and the third. */
  lemma VisitsOfFour<T>(a: T, b: T, c: T, d: T)
    requires Distinct([a, b, c, d])
    ensures LoopVisits([a, b, c, d], 0) == [a, c]
  {
    var s := [a, b, c, d];
    LoopVisitsEvenPositions(s);
    var rest := s[2..];
    assert rest == [c, d] && rest[2..] == [];
    assert EvenPositions(rest) == [c] + EvenPositions([]);
    assert EvenPositions(s) == [a] + EvenPositions(rest);
  }

  /** `list.remove` of the second of three items leaves the other two. */
  lemma RemoveMiddleOfThree<T>(b: T, c: T, d: T)
    requires b != c
    ensures RemoveFirst([b, c, d], c) == [b, d]
  {
    var s := [b, c, d];
    assert s[1..] == [c, d];
    assert FirstIndex([c, d], c) == 0;
    assert FirstIndex(s, c) == 1;
    assert s[..1] == [b] && s[2..] == [d];
  }

  /** Removing two items is removing the first, then the second. */
  lemma RemoveAllPair<T>(s: seq<T>, x: T, y: T)
    ensures RemoveAll(s, [x, y]) == RemoveIfPresent(RemoveIfPresent(s, x), y)
  {
    assert [x] == [] + [x];
    RemoveAllSnoc(s, [], x);
    assert [x, y] == [x] + [y];
    RemoveAllSnoc(s, [x], y);
  }

  /** `list.remove` of the first of four items. */
  lemma RemoveFrontOfFour<T>(a: T, b: T, c: T, d: T)
    ensures RemoveFirst([a, b, c, d], a) == [b, c, d]
  {
    var s := [a, b, c, d];
    assert FirstIndex(s, a) == 0;
    assert s[1..] == [b, c, d];
  }

  /** Taking the first and the third of four items off the list leaves the second and the fourth. */
  lemma LeftOverOfFour<T>(a: T, b: T, c: T, d: T)
    requires b != c
    ensures RemoveAll([a, b, c, d], [a, c]) == [b, d]
  {
    RemoveAllPair([a, b, c, d], a, c);
    RemoveFrontOfFour(a, b, c, d);
    RemoveMiddleOfThree(b, c, d);
  }

  /** Over two distinct workers the loop as written visits the first only. */
  lemma VisitsOfTwo<T>(b: T, d: T)
    requires b != d
    ensures LoopVisits([b, d], 0) == [b]
  {
    var s := [b, d];
    assert Distinct(s);
    LoopVisitsEvenPositions(s);
    assert s[2..] == [];
    assert EvenPositions(s) == [b] + EvenPositions([]);
  }

  /** Each of the first and the third of four items is still there when its turn to be removed comes. */
  lemma FirstAndThirdRemovable<T>(a: T, b: T, c: T, d: T)
    requires a != c
    ensures EachRemovable([a, c], [a, b, c, d])
  {
    assert multiset([a, c]) <= multiset([a, b, c, d]);
    EachRemovableWhenIncluded([a, c], [a, b, c, d]);
  }

  /** The first loop of `wait` as written, over four workers, visits and passes the first and the third. */
  lemma FirstLoopOfFour(a: Worker, b: Worker, c: Worker, d: Worker)
    requires Distinct([a, b, c, d])
    requires a.exception == None && c.exception == None
    ensures LoopVisits([a, b, c, d], 0) == [a, c]
    ensures EachRemovable([a, c], [a, b, c, d]) && Clean([a, c])
  {
    var s := [a, b, c, d];
    VisitsOfFour(a, b, c, d);
    assert s[0] != s[2];
    FirstAndThirdRemovable(a, b, c, d);
  }

  /** The second loop of `wait` as written, over the second and the fourth of four workers, passes the second only. */
  lemma SecondLoopOfFour(a: Worker, b: Worker, c: Worker, d: Worker)
    requires Distinct([a, b, c, d])
    requires b.exception == None
    ensures Clean(LoopVisits(RemoveAll([a, b, c, d], [a, c]), 0))
  {
    var s := [a, b, c, d];
    assert s[1] != s[2] && s[1] != s[3];
    LeftOverOfFour(a, b, c, d);
    VisitsOfTwo(b, d);
  }

  /** The loops of `wait` as written get through four workers of which only the fourth may have stored an exception. */
  lemma FourthWorkerUnchecked(a: Worker, b: Worker, c: Worker, d: Worker)
    requires Distinct([a, b, c, d])
    requires a.exception == None && b.exception == None && c.exception == None
    ensures WaitsCleanlyAsWritten([a, b, c, d], [a, b, c, d])
  {
    FirstLoopOfFour(a, b, c, d);
    SecondLoopOfFour(a, b, c, d);
    GetsThroughAsWritten([a, b, c, d], [a, b, c, d], [a, c], RemoveAll([a, b, c, d], [a, c]));
  }

  /** The loops of `wait` as written get through when the workers each of them visits pass. */
  lemma GetsThroughAsWritten(running: seq<Worker>, created: seq<Worker>, first: seq<Worker>, rest: seq<Worker>)
    requires LoopVisits(running, 0) == first && EachRemovable(first, created) && Clean(first)
    requires RemoveAll(created, first) == rest && Clean(LoopVisits(rest, 0))
    ensures WaitsCleanlyAsWritten(running, created)
  {
  }

  /**
   * Four workers started together, of which only the fourth stored an
   * exception: the loops as written get through them, the intended loops do
   * not, and no removal of the first loop fails.
   */
  lemma FourthWorkerMissed(a: Worker, b: Worker, c: Worker, d: Worker)
    requires Distinct([a, b, c, d])
    requires a.exception == None && b.exception == None && c.exception == None && d.exception != None
    ensures WaitsCleanlyAsWritten([a, b, c, d], [a, b, c, d])
    ensures EachRemovable([a, b, c, d], [a, b, c, d])
    ensures !WaitsCleanly([a, b, c, d], [a, b, c, d])
  {
    FourthWorkerUnchecked(a, b, c, d);
    EachRemovableWhenIncluded([a, b, c, d], [a, b, c, d]);
    assert d in [a, b, c, d];
  }

  /** A worker of `workers` re-raising a failure is `d` when no other worker of `workers` stored one. */
  lemma RaisedByOnly(r: Outcome, workers: seq<Worker>, d: Worker, failure: Failure)
    requires forall w :: w in workers && w != d ==> w.exception == None
    requires d.exception == Some(failure)
    requires exists w :: (w in workers || w in RemoveAll(workers, workers)) && RaisedBy(r, w)
    ensures r == WorkerRaised(failure)
  {
    var w :| (w in workers || w in RemoveAll(workers, workers)) && RaisedBy(r, w);
    assert multiset(RemoveAll(workers, workers)) == multiset{};
    assert w in multiset(workers);
  }

  /**
   * What the contract of Wait leaves for a manager with a worker class whose
   * running and created workers are both `[a, b, c, d]`, of which only `d`
   * stored an exception: the outcome is `d`'s failure.
   */
  lemma WaitRaisesFourth(r: Outcome, a: Worker, b: Worker, c: Worker, d: Worker, failure: Failure)
    requires a.exception == None && b.exception == None && c.exception == None && d.exception == Some(failure)
    requires r != WorkerClassNotSet
    requires r == Ok ==> WaitsCleanly([a, b, c, d], [a, b, c, d])
    requires r == WorkerNotListed ==> !EachRemovable([a, b, c, d], [a, b, c, d])
    requires r.WorkerRaised? ==>
      exists w :: (w in [a, b, c, d] || w in RemoveAll([a, b, c, d], [a, b, c, d])) && RaisedBy(r, w)
    ensures r == WorkerRaised(failure)
  {
    var workers := [a, b, c, d];
    assert d in workers;
    EachRemovableWhenIncluded(workers, workers);
    RaisedByOnly(r, workers, d, failure);
  }

  /** Four workers as `start` leaves them, the fourth of which failed with `failure`. */
  method FourWorkers(failure: Failure) returns (a: Worker, b: Worker, c: Worker, d: Worker)
    ensures fresh(a) && fresh(b) && fresh(c) && fresh(d)
    ensures Distinct([a, b, c, d])
    ensures a.exception == None && b.exception == None && c.exception == None && d.exception == Some(failure)
  {
    a := new Worker(WorkerName(1));
    b := new Worker(WorkerName(2));
    c := new Worker(WorkerName(3));
    d := new Worker.Reporting(WorkerName(4), true, Some(failure));
  }

  /** A manager as `__init__` leaves it, with a worker class and a bound of four, whose workers `workers` were started. */
  method StartedManager(workers: seq<Worker>) returns (m: ProcessManager)
    ensures fresh(m) && m.workerClassSet
    ensures m.createdWorkers == workers && m.runningWorkers == workers
  {
    m := new ProcessManager(Some(4), 4, true, None, false, NoOutputQueue, 0, false, None, false, None);
    m.createdWorkers, m.runningWorkers := workers, workers;
  }

  /** `wait` as written ends normally on four started workers of which the fourth failed. */
  method WaitAsWrittenOnFour(failure: Failure) returns (r: Outcome)
    ensures r == Ok
  {
    var a, b, c, d := FourWorkers(failure);
    var m := StartedManager([a, b, c, d]);
    ghost var joined, terminated, running1, created1, calls1, exit1, order, spawned;
    r, joined, terminated, running1, created1, calls1, exit1, order, spawned := m.WaitAsWritten();
    FourthWorkerUnchecked(a, b, c, d);
  }

  /** The intended `wait` re-raises the failure of the fourth of four started workers. */
  method WaitOnFour(failure: Failure) returns (r: Outcome)
    ensures r == WorkerRaised(failure)
  {
    var a, b, c, d := FourWorkers(failure);
    var m := StartedManager([a, b, c, d]);
    ghost var spawned;
    r, spawned := m.Wait();
    WaitRaisesFourth(r, a, b, c, d, failure);
  }

  /**
   * `wait` on a manager whose four running workers are also its created
   * workers, the fourth of which failed with `failure`: `wait` as written
   * ends normally, the intended `wait` re-raises the failure.
   */
  method WaitOnFourWorkers(failure: Failure) returns (asWritten: Outcome, intended: Outcome)
    ensures asWritten == Ok
    ensures intended == WorkerRaised(failure)
  {
    asWritten := WaitAsWrittenOnFour(failure);
    intended := WaitOnFour(failure);
  }
}

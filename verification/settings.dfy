/**
 * The values `ProcessManagerCore` computes once, from its class attributes and
 * constructor arguments: its own name and its workers' names, the CPU-derived
 * default bound, the `max_workers` clamp and the queue set-up of `__init__`.
 */
module Settings {
  import opened Wrappers

  /** `STD_NAME`, the standard name every worker name is built from. */
  const StdName: string := "pyfunceble-process-manager"

  /** The manager's own name, `ppm-<STD_NAME>`; pushes without a source are signed with it. */
  const ManagerName: string := "ppm-" + StdName

  /** The source name `start` signs its dataset pushes with. */
  const StartSource: string := "ppm"

  predicate IsDigit(c: char) {
    '0' <= c <= '9'
  }

  predicate AllDigits(s: string) {
    forall i :: 0 <= i < |s| ==> IsDigit(s[i])
  }

  function DigitChar(d: nat): (c: char)
    requires d < 10
    ensures IsDigit(c) && c as int - '0' as int == d
  {
    ('0' as int + d) as char
  }

  /** Python's `str(n)` for a natural number: its decimal digits, without leading zeros. */
  function DecimalString(n: nat): (s: string)
    ensures |s| >= 1 && AllDigits(s)
    ensures s[0] == '0' ==> n == 0
  {
    if n < 10 then [DigitChar(n)] else DecimalString(n / 10) + [DigitChar(n % 10)]
  }

  /** The number a string of decimal digits denotes. */
  function DecimalValue(s: string): nat
    requires AllDigits(s)
  {
    if s == [] then 0 else DecimalValue(s[..|s| - 1]) * 10 + (s[|s| - 1] as int - '0' as int)
  }

  /** Reading back the digits of `n` gives `n`. */
  lemma {:induction false} DecimalRoundTrip(n: nat)
    ensures DecimalValue(DecimalString(n)) == n
  {
    if n >= 10 {
      DecimalRoundTrip(n / 10);
      var s := DecimalString(n);
      assert s[..|s| - 1] == DecimalString(n / 10);
    }
  }

  /** The name `spawn_worker` gives the worker it creates when `count` workers were created before: `ppm-<STD_NAME>-<count + 1>`. */
  function WorkerName(number: nat): (r: string)
    ensures |r| > |ManagerName| + 1 && r[..|ManagerName| + 1] == ManagerName + "-"
  {
    ManagerName + "-" + DecimalString(number)
  }

  /** Two worker names are equal exactly when their numbers are. */
  lemma WorkerNameInjective(m: nat, n: nat)
    ensures WorkerName(m) == WorkerName(n) <==> m == n
  {
    if WorkerName(m) == WorkerName(n) {
      var k := |ManagerName + "-"|;
      assert DecimalString(m) == WorkerName(m)[k..];
      assert DecimalString(n) == WorkerName(n)[k..];
      DecimalRoundTrip(m);
      DecimalRoundTrip(n);
    }
  }

  /** No worker name is the manager's own name, so a message signed by the manager never looks like one a worker sent. */
  lemma WorkerNameIsNotManagerName(n: nat)
    ensures WorkerName(n) != ManagerName
  {
    assert |WorkerName(n)| > |ManagerName|;
  }

  /**
   * `cpu_count`: the number of CPUs to use out of `available`, leaving two
   * free when there are more than two and using all of them otherwise.
   */
  function CpuCount(available: int): (r: int)
    ensures available > 2 ==> available - r == 2
    ensures available <= 2 ==> r == available
    ensures available >= 1 ==> 1 <= r <= available
  {
    if available > 2 then available - 2 else available
  }

  /** The `max_workers` setter: the given value, raised to 1 when it is smaller (`max(1, value)`). */
  function ClampMaxWorkers(value: int): (r: int)
    ensures r >= 1 && r >= value
    ensures r == value || r == 1
  {
    if value < 1 then 1 else value
  }

  /**
   * The bound `__init__` stores, `max_workers or cpu_count`: a missing or zero
   * argument falls back to `cpu_count`; any other value is kept as given,
   * without the setter's clamp.
   */
  function InitialMaxWorkers(given: Option<int>, available: int): (r: int)
    ensures given == None || given == Some(0) ==> r == CpuCount(available)
    ensures given.Some? && given.value != 0 ==> r == given.value
  {
    match given
    case Some(v) => if v == 0 then CpuCount(available) else v
    case None => CpuCount(available)
  }

  /** The constructor can store a bound below 1 that the setter would have raised to 1. */
  lemma InitialMaxWorkersIsNotClamped(v: int, available: int)
    requires v < 0
    ensures InitialMaxWorkers(Some(v), available) < ClampMaxWorkers(v)
  {
  }

  /** An abstract queue handle: one handed to the constructor, or one the manager generated. */
  datatype Queue =
    | Supplied(id: nat)
    | GeneratedInput
    | GeneratedOutput(index: nat)
    | GeneratedConfiguration

  /** The `output_queue` argument: absent, one queue, or a list of queues. */
  datatype OutputArgument = NoOutputQueue | OneOutputQueue(queue: Queue) | OutputQueueList(queues: seq<Queue>)

  /** Python's truth value of the `output_queue` argument: an empty list counts as no queue. */
  predicate OutputGiven(given: OutputArgument) {
    given.OneOutputQueue? || (given.OutputQueueList? && given.queues != [])
  }

  /** The input queue `__init__` keeps: a supplied one, else a generated one when asked for, else none. */
  function InputQueueSetup(given: Option<Queue>, generate: bool): (r: Option<Queue>)
    ensures given.Some? ==> r == given
    ensures given.None? ==> (r.Some? <==> generate) && (generate ==> r.value.GeneratedInput?)
  {
    if given.None? && generate then Some(GeneratedInput) else given
  }

  /** The generated output queues `0 .. count - 1`. */
  function GeneratedOutputs(count: nat): (r: seq<Queue>)
    ensures |r| == count
    ensures forall i :: 0 <= i < count ==> r[i] == GeneratedOutput(i)
  {
    if count == 0 then [] else GeneratedOutputs(count - 1) + [GeneratedOutput(count - 1)]
  }

  /**
   * The output queues `__init__` keeps: the supplied queue or list when there
   * is one, else `max(1, output_queue_count)` generated queues when asked for,
   * else none.
   */
  function OutputQueuesSetup(given: OutputArgument, count: int, generate: bool): (r: Option<seq<Queue>>)
    ensures r.Some? <==> OutputGiven(given) || generate
    ensures given.OneOutputQueue? ==> r == Some([given.queue])
    ensures OutputGiven(given) && given.OutputQueueList? ==> r == Some(given.queues)
    ensures !OutputGiven(given) && generate ==>
      |r.value| == (if count < 1 then 1 else count) && forall i :: 0 <= i < |r.value| ==> r.value[i] == GeneratedOutput(i)
  {
    if !OutputGiven(given) && generate then Some(GeneratedOutputs(if count < 1 then 1 else count))
    else if OutputGiven(given) then
      if given.OneOutputQueue? then Some([given.queue]) else Some(given.queues)
    else None
  }

  /** The configuration queue exactly as `__init__` sets it: a supplied queue is never stored. */
  function ConfigurationQueueAsWritten(given: Option<Queue>, generate: bool): (r: Option<Queue>)
    ensures r.Some? ==> r.value.GeneratedConfiguration?
    ensures r.Some? <==> given.None? && generate
  {
    if given.None? && generate then Some(GeneratedConfiguration) else None
  }

  /** A supplied configuration queue is lost, where the input queue is kept. */
  lemma ConfigurationQueueDropsSupplied(q: Queue, generate: bool)
    ensures ConfigurationQueueAsWritten(Some(q), generate) == None
    ensures InputQueueSetup(Some(q), generate) == Some(q)
  {
  }

  /** The configuration queue set up the way the input queue is: a supplied one is kept. */
  function ConfigurationQueueSetup(given: Option<Queue>, generate: bool): (r: Option<Queue>)
    ensures given.Some? ==> r == given
    ensures given.None? ==> (r.Some? <==> generate) && (generate ==> r.value.GeneratedConfiguration?)
  {
    if given.None? && generate then Some(GeneratedConfiguration) else given
  }

  /** `targeted_processing or True` exactly as `__init__` writes it: true whatever is passed. */
  function TargetedProcessingAsWritten(given: Option<bool>): (r: bool)
    ensures r
  {
    (given.Some? && given.value) || true
  }

  /** The `targeted_processing` flag with the default applied only when none is passed. */
  function TargetedProcessing(given: Option<bool>): (r: bool)
    ensures given.Some? ==> r == given.value
    ensures given.None? ==> r
  {
    if given.Some? then given.value else true
  }

  /** Passing `targeted_processing=False` is ignored by `__init__` but respected by the intended default. */
  lemma TargetedProcessingFalseIgnored()
    ensures TargetedProcessingAsWritten(Some(false)) != TargetedProcessing(Some(false))
  {
  }
}

/** The messages exchanged between the coordinator and its workers
    (src/index.js, lines 54-111). */
module Protocol {
  import opened ExtendedReals

  /** The model's own label for a worker: 0, 1, 2, ... in fork order. */
  type WorkerId = nat

  /** Coordinator to worker. */
  datatype ToWorker =
    | Configuration(args: map<string, int>)
    | ProcessIteration
    | Shutdown

  /** Worker to coordinator. */
  datatype ToCoordinator =
    | ReadyToProcess
    | Result(value: Num)

  /** The estimate in a `result` message as the coordinator adds it. Node's
      cluster channel serializes messages as JSON, which writes NaN and
      ±Infinity as `null`, and `accumulatedPi += null` adds 0. A finite
      estimate arrives unchanged. */
  function Delivered(v: Num): (r: Num)
    ensures r.Finite?
    ensures v.Finite? ==> r == v
    ensures !v.Finite? ==> r == Finite(0.0)
  {
    if v.Finite? then v else Finite(0.0)
  }

  /** The exit code of a worker that obeys a shutdown request. */
  const CleanExitCode: int := 42
}

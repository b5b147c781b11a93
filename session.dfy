/** Coordinator and worker together. The configuration handshake
    (src/index.js, lines 84-87 and 101-104): the `online` handler sends the
    configuration, and the worker builds its estimator from it and asks for
    work. Then what the coordinator does with an estimate that is not finite
    (lines 60-83 and 107): Node's cluster channel serializes each message as
    JSON, so NaN and ±Infinity reach the coordinator as `null`, and
    `accumulatedPi += null` adds 0. */
module Session {
  import opened ExtendedReals
  import opened Protocol
  import opened Estimator
  import Coordinator
  import opened WorkerProcess

  /** A worker that has just come online, given the coordinator's first
      message, ends up with the estimator settings `{...defaultArgs,
      ...processedArgs}` and answers `readyToProcess`. */
  method Handshake(c: Coordinator.Coordinator, w: WorkerId) returns (worker: Worker, reply: Reply)
    ensures reply == Reply(ReadyToProcess)
    ensures worker.estimator != null && worker.estimator.settings == Merge(c.processedArgs)
    ensures !worker.exited
  {
    var out := c.OnOnline(w);
    worker := new Worker();
    reply := worker.OnMessage(out[0].msg, []);
  }

  /** `iterations=1 n=0` on one CPU: the worker's estimate is NaN (0/0), it
      arrives as `null`, `accumulatedPi += null` adds 0, and the coordinator
      reports an average of 0. */
  method NoPointsReportsZero() returns (estimate: Num, out: seq<Coordinator.Action>)
    ensures estimate.NaN?
    ensures Coordinator.Report(Finite(0.0)) in out
  {
    estimate := NoPointsEstimate();
    out := NonFiniteResultReportsZero(estimate);
  }

  /** A worker configured with `n=0` answers its work request with NaN. */
  method NoPointsEstimate() returns (estimate: Num)
    ensures estimate.NaN?
  {
    var c := new Coordinator.Coordinator(map["iterations" := 1, "n" := 0], 1);
    var configure := c.OnOnline(0);
    var worker := new Worker();
    var ready := worker.OnMessage(configure[0].msg, []);
    assert worker.estimator.N() == 0;
    var reply := worker.OnMessage(ProcessIteration, []);
    NoPointsIsNaN(worker.estimator.Gridsize(), worker.estimator.Diameter());
    estimate := reply.msg.value;
  }

  /** With `iterations=1` on one CPU, a NaN or infinite result makes the
      coordinator report an average of 0, not NaN or Infinity, and then
      tell its one worker to shut down. */
  method NonFiniteResultReportsZero(estimate: Num) returns (out: seq<Coordinator.Action>)
    requires !estimate.Finite?
    ensures out == [Coordinator.Report(Finite(0.0))] + Coordinator.ShutdownRequests([0])
  {
    var c := AwaitingLastResult();
    out := LastResult(c, estimate);
  }

  /** The only result of a one-unit, one-worker session arrives and is not
      finite: it is added as 0, so the report is 0 and the worker is told to
      shut down. */
  method LastResult(c: Coordinator.Coordinator, estimate: Num) returns (out: seq<Coordinator.Action>)
    requires !estimate.Finite?
    requires c.Valid() && c.workers == [0] && c.numIterations == 1
    requires c.assignedIterations == 1 && c.doneIterations == 0 && c.received == []
    modifies c
    ensures out == [Coordinator.Report(Finite(0.0))] + Coordinator.ShutdownRequests([0])
  {
    out := c.OnResult(0, estimate);
    SumOfDelivered(estimate, c.received);
    ZeroAverage(Sum(c.received), c.numIterations);
  }

  /** `iterations=1` on one CPU, after the only worker was handed the only
      unit: the coordinator now waits for that one result. */
  method AwaitingLastResult() returns (c: Coordinator.Coordinator)
    ensures fresh(c) && c.Valid()
    ensures c.workers == [0] && c.numIterations == 1
    ensures c.assignedIterations == 1 && c.doneIterations == 0 && c.received == []
  {
    c := new Coordinator.Coordinator(map["iterations" := 1], 1);
    assert c.workers == [0] && c.numIterations == 1;
    var grant := c.OnReadyToProcess(0);
  }

  /** One delivered non-finite estimate sums to 0. */
  lemma SumOfDelivered(estimate: Num, received: seq<Num>)
    requires !estimate.Finite? && received == [] + [Delivered(estimate)]
    ensures Sum(received) == Finite(0.0)
  {
    assert received == [Finite(0.0)];
  }

  /** Over one iteration, the average of a zero sum is 0. */
  lemma ZeroAverage(total: Num, n: int)
    requires total == Finite(0.0) && n == 1
    ensures Div(total, n as real) == Finite(0.0)
  {
  }
}

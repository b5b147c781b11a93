/** A worker process of src/index.js, lines 98-112: it waits for the
    coordinator's messages and answers each one. */
module WorkerProcess {
  import opened Protocol
  import opened Estimator

  /** What the worker does in answer to one message. */
  datatype Reply =
    | Reply(msg: ToCoordinator)   // `process.send(msg)`
    | ExitProcess(code: int)      // the process ends with this exit code

  /** Node's exit code for an exception nobody catches. */
  const UncaughtExceptionExitCode: int := 1

  class Worker {
    /** `null` until the configuration arrives. */
    var estimator: PiEstimator?
    var exited: bool

    constructor()
      ensures estimator == null && !exited
    {
      estimator := null;
      exited := false;
    }

    ghost predicate Valid()
      reads this
    {
      estimator != null ==> estimator.Valid()
    }

    /** Answer one message. A configuration builds a fresh estimator and asks
        for work; a work request runs one estimate with the random numbers
        `draws` and returns it, or, before any configuration, fails on the
        `null` estimator and ends the process; a shutdown request ends the
        process with code 42. */
    method OnMessage(m: ToWorker, draws: seq<real>) returns (reply: Reply)
      requires Valid() && !exited
      requires m.ProcessIteration? && estimator != null ==> 2 * estimator.N() <= |draws|
      modifies this
      ensures Valid()
      ensures m.Configuration? ==>
                && estimator != null && fresh(estimator) && estimator.settings == Merge(m.args)
                && reply == Reply(ReadyToProcess) && !exited
      ensures m.ProcessIteration? && old(estimator) == null ==>
                estimator == null && reply == ExitProcess(UncaughtExceptionExitCode) && exited
      ensures m.ProcessIteration? && old(estimator) != null ==>
                && estimator == old(estimator) && !exited
                && var points := DrawnPoints(estimator.Gridsize(), estimator.N(), draws);
                   reply == Reply(Result(Pipeline(estimator.Gridsize(), estimator.Diameter(),
                                                   CountInside(estimator.Gridsize(), estimator.Diameter(), points),
                                                   |points|)))
      ensures m.Shutdown? ==> estimator == old(estimator) && reply == ExitProcess(CleanExitCode) && exited
    {
      match m
      case Configuration(args) =>
        estimator := new PiEstimator(args);
        reply := Reply(ReadyToProcess);
      case ProcessIteration =>
        if estimator == null {
          exited := true;
          reply := ExitProcess(UncaughtExceptionExitCode);
        } else {
          var estimatedPi := estimator.EstimatePi(draws);
          reply := Reply(Result(estimatedPi));
        }
      case Shutdown =>
        exited := true;
        reply := ExitProcess(CleanExitCode);
    }
  }
}

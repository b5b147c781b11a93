/** The coordinator (master) process of src/index.js, lines 38-96: the
    worker pool, the three counters and the `message` and `exit` handlers.

    The handlers run one event at a time, so each is a method of one object.
    What they ask of the cluster (fork, send, report the average) is returned
    as a list of actions, in the order the source performs them. */
module Coordinator {
  import opened ExtendedReals
  import opened Protocol
  import Args

  /** How a worker process ended: with an exit code, or killed by a signal
      (then Node reports the code as `null`, which is not 42). */
  datatype ExitStatus = Code(code: int) | Signal

  /** What a handler asks the cluster to do. */
  datatype Action =
    | Fork(id: WorkerId)                  // `cluster.fork()`, giving worker `id`
    | Send(to: WorkerId, msg: ToWorker)   // `worker.send(msg)`
    | Report(average: Num)                // 'Average Pi value was ...'

  predicate StrictlyIncreasing(s: seq<WorkerId>)
  {
    forall i, j :: 0 <= i < j < |s| ==> s[i] < s[j]
  }

  /** `s` with `w` taken out, order kept. */
  function Without(s: seq<WorkerId>, w: WorkerId): (r: seq<WorkerId>)
    ensures forall x :: x in r <==> x in s && x != w
    ensures StrictlyIncreasing(s) ==> StrictlyIncreasing(r)
  {
    if s == [] then []
    else if s[0] == w then Without(s[1..], w)
    else
      var rest := Without(s[1..], w);
      assert StrictlyIncreasing(s) ==> StrictlyIncreasing([s[0]] + rest) by {
        if StrictlyIncreasing(s) {
          forall x | x in rest ensures s[0] < x {
            var j :| 0 <= j < |s[1..]| && s[1..][j] == x;
            assert s[j + 1] == x;
          }
          assert StrictlyIncreasing(s[1..]) by {
            forall i, j | 0 <= i < j < |s[1..]| ensures s[1..][i] < s[1..][j] {
              assert s[1..][i] == s[i + 1] && s[1..][j] == s[j + 1];
            }
          }
          var t := [s[0]] + rest;
          forall i, j | 0 <= i < j < |t| ensures t[i] < t[j] {
            assert t[j] == rest[j - 1] && rest[j - 1] in rest;
            if i > 0 {
              assert t[i] == rest[i - 1];
            }
          }
        }
      }
      [s[0]] + rest
  }

  /** Appending an id above every id present keeps the order. */
  lemma AppendGreatest(s: seq<WorkerId>, x: WorkerId)
    requires StrictlyIncreasing(s)
    requires forall y :: y in s ==> y < x
    ensures StrictlyIncreasing(s + [x])
  {
    var t := s + [x];
    forall i, j | 0 <= i < j < |t| ensures t[i] < t[j] {
      assert t[i] == s[i];
      if j < |s| {
        assert t[j] == s[j];
      } else {
        assert s[i] in s;
      }
    }
  }

  /** Putting back or taking out a member the set already holds. */
  lemma SameCardinality(before: set<WorkerId>, w: WorkerId, after: set<WorkerId>)
    requires w in before
    requires after == before + {w} || after == before - {w}
    ensures after == before + {w} ==> |after| == |before|
    ensures after == before - {w} ==> |after| == |before| - 1
  {
    if after == before + {w} {
      assert after == before;
    }
  }

  /** The shutdown request to each live worker, in `cluster.workers` order. */
  function ShutdownRequests(workers: seq<WorkerId>): (out: seq<Action>)
    ensures |out| == |workers|
    ensures forall i :: 0 <= i < |out| ==> out[i] == Send(workers[i], Shutdown)
  {
    seq(|workers|, i requires 0 <= i < |workers| => Send(workers[i], Shutdown))
  }

  /** The broadcast reaches every live worker and sends nothing else. */
  lemma ShutdownRequestsReachAll(workers: seq<WorkerId>)
    ensures forall w :: w in workers ==> Send(w, Shutdown) in ShutdownRequests(workers)
    ensures forall a :: a in ShutdownRequests(workers) ==> a.Send? && a.msg == Shutdown && a.to in workers
  {
    var out := ShutdownRequests(workers);
    forall w | w in workers ensures Send(w, Shutdown) in out {
      var k :| 0 <= k < |workers| && workers[k] == w;
      assert out[k] == Send(w, Shutdown);
    }
    forall a | a in out ensures a.Send? && a.msg == Shutdown && a.to in workers {
      var k :| 0 <= k < |out| && out[k] == a;
      assert workers[k] in workers;
    }
  }

  /** The actions of a `result` event hold a report exactly when they hold
      the final report: the work request before it is no report, and neither
      is any shutdown request. */
  lemma ReportMarksCompletion(out: seq<Action>, w: WorkerId, assign: bool, finished: bool,
                              average: Num, workers: seq<WorkerId>)
    requires out == (if assign then [Send(w, ProcessIteration)] else [])
                    + (if finished then [Report(average)] + ShutdownRequests(workers) else [])
    ensures (exists a :: a in out && a.Report?) <==> finished
  {
    var grant: seq<Action> := if assign then [Send(w, ProcessIteration)] else [];
    ShutdownRequestsReachAll(workers);
    if finished {
      assert out[|grant|] == Report(average);
    } else {
      assert out == grant;
    }
  }

  class Coordinator {
    /** `processedArgs`, sent to every worker as its configuration. */
    const processedArgs: map<string, int>
    const numIterations: int
    const numWorkers: int

    var assignedIterations: int
    var doneIterations: nat
    var accumulatedPi: Num

    /** `cluster.workers`: the live workers, in fork order. */
    var workers: seq<WorkerId>
    /** The id the next `cluster.fork()` gives. */
    var nextId: WorkerId
    /** The workers holding a unit of work: sent `processIteration`, whose
        result has not come back. The source keeps no such set; the model
        keeps it to state what the counters mean. */
    var busy: set<WorkerId>
    /** The results received so far, as delivered, in arrival order. */
    ghost var received: seq<Num>

    /** What every handler preserves, whatever the order of events. */
    ghost predicate Valid()
      reads this
    {
      && StrictlyIncreasing(workers)
      && (forall w :: w in workers ==> w < nextId)
      && (forall w :: w in busy ==> w in workers)
      && (numIterations > 0 ==> assignedIterations <= numIterations)
      && (numIterations <= 0 ==> workers == [] && assignedIterations == 0 && doneIterations == 0)
      && |received| == doneIterations
      && accumulatedPi == Sum(received)
      && accumulatedPi.Finite?
    }

    /** Every unit handed out has either come back or is held by a live
        worker. Then 0 <= done <= assigned <= numIterations, and once all
        results are in no worker holds a unit, so no further result (and no
        second report) can come. */
    ghost predicate Balanced()
      reads this
      ensures Balanced() ==> 0 <= doneIterations <= assignedIterations
      ensures Balanced() && numIterations > 0 ==> assignedIterations <= numIterations && doneIterations <= numIterations
      ensures Balanced() && doneIterations == numIterations ==> busy == {}
    {
      Valid() && assignedIterations == doneIterations + |busy|
    }

    /** Counters at zero, then `numWorkers` forks (src/index.js, lines 38-49). */
    constructor(processedArgs: map<string, int>, cpuCount: int)
      ensures this.processedArgs == processedArgs
      ensures numIterations == Args.NumIterations(processedArgs)
      ensures numWorkers == Args.NumWorkers(cpuCount, numIterations)
      ensures assignedIterations == 0 && doneIterations == 0 && accumulatedPi == Finite(0.0)
      ensures |workers| == (if numWorkers < 0 then 0 else numWorkers)
      ensures forall i :: 0 <= i < |workers| ==> workers[i] == i
      ensures nextId == |workers| && busy == {} && received == []
      ensures Balanced()
    {
      this.processedArgs := processedArgs;
      numIterations := Args.NumIterations(processedArgs);
      var workerCount := Args.NumWorkers(cpuCount, Args.NumIterations(processedArgs));
      numWorkers := workerCount;
      assignedIterations, doneIterations, accumulatedPi := 0, 0, Finite(0.0);
      var forked: seq<WorkerId> := [];
      var index := 0;
      while index < workerCount
        invariant 0 <= index && |forked| == index
        invariant index <= workerCount || index == 0
        invariant forall i :: 0 <= i < index ==> forked[i] == i
      {
        forked := forked + [index];
        index := index + 1;
      }
      workers, nextId, busy, received := forked, index, {}, [];
    }

    /** The `online` handler: send the configuration (src/index.js, line 86). */
    method OnOnline(w: WorkerId) returns (out: seq<Action>)
      ensures out == [Send(w, Configuration(processedArgs))]
    {
      out := [Send(w, Configuration(processedArgs))];
    }

    /** The shutdown broadcast: collect the ids of `cluster.workers`, then
        send each a shutdown request (src/index.js, lines 71-82). */
    method ShutdownAll() returns (out: seq<Action>)
      ensures out == ShutdownRequests(workers)
    {
      var workerIds: seq<WorkerId> := [];
      for i := 0 to |workers|
        invariant workerIds == workers[..i]
      {
        workerIds := workerIds + [workers[i]];
      }
      assert workerIds == workers;
      out := [];
      for i := 0 to |workerIds|
        invariant |out| == i
        invariant forall k :: 0 <= k < i ==> out[k] == Send(workerIds[k], Shutdown)
      {
        out := out + [Send(workerIds[i], Shutdown)];
      }
    }

    /** `readyToProcess`: hand out a unit only while fewer than
        `numIterations` have been handed out (src/index.js, lines 55-59).
        A worker asks once, right after its configuration, so it holds no
        unit then; the balance is kept under that condition. */
    method OnReadyToProcess(w: WorkerId) returns (out: seq<Action>)
      requires Valid() && w in workers
      modifies this
      ensures Valid()
      ensures old(assignedIterations) < numIterations ==>
                assignedIterations == old(assignedIterations) + 1 && busy == old(busy) + {w}
                && out == [Send(w, ProcessIteration)]
      ensures old(assignedIterations) >= numIterations ==>
                assignedIterations == old(assignedIterations) && busy == old(busy) && out == []
      ensures doneIterations == old(doneIterations) && accumulatedPi == old(accumulatedPi) && received == old(received)
      ensures workers == old(workers) && nextId == old(nextId)
      ensures old(Balanced()) && w !in old(busy) ==> Balanced()
    {
      out := [];
      if assignedIterations < numIterations {
        out := [Send(w, ProcessIteration)];
        assignedIterations := assignedIterations + 1;
        busy := busy + {w};
      }
    }

    /** `result`: add the estimate, count it, hand the same worker the next
        unit under the same guard, and on the result that makes
        `doneIterations === numIterations` report the average and ask every
        live worker to shut down (src/index.js, lines 60-83). `value` is the
        estimate the worker sent; what is added is its `Delivered` form, so
        the sum stays finite. A worker sends a result only for the unit it
        holds; the balance is kept under that condition. */
    method OnResult(w: WorkerId, value: Num) returns (out: seq<Action>)
      requires Valid() && w in workers
      modifies this
      ensures Valid()
      ensures accumulatedPi == Add(old(accumulatedPi), Delivered(value))
      ensures doneIterations == old(doneIterations) + 1 && received == old(received) + [Delivered(value)]
      ensures var assign := old(assignedIterations) < numIterations;
              && assignedIterations == old(assignedIterations) + (if assign then 1 else 0)
              && busy == (if assign then old(busy) + {w} else old(busy) - {w})
              && out == (if assign then [Send(w, ProcessIteration)] else [])
                        + (if doneIterations == numIterations
                           then [Report(Div(Sum(received), numIterations as real))] + ShutdownRequests(workers)
                           else [])
      ensures (exists a :: a in out && a.Report?) <==> doneIterations == numIterations
      ensures workers == old(workers) && nextId == old(nextId)
      ensures old(Balanced()) && w in old(busy) ==> Balanced()
    {
      ghost var before := received;
      ghost var held := w in busy;
      var arrived := Delivered(value);
      accumulatedPi := Add(accumulatedPi, arrived);
      received := received + [arrived];
      SumAppend(before, arrived);
      doneIterations := doneIterations + 1;
      var grant: seq<Action> := [];
      if assignedIterations < numIterations {
        grant := [Send(w, ProcessIteration)];
        assignedIterations := assignedIterations + 1;
        busy := busy + {w};
      } else {
        busy := busy - {w};
      }
      if held {
        SameCardinality(old(busy), w, busy);
      }
      assert Valid();
      var finish: seq<Action> := [];
      if doneIterations == numIterations {
        var shutdowns := ShutdownAll();
        finish := [Report(Div(accumulatedPi, numIterations as real))] + shutdowns;
      }
      out := grant + finish;
      ReportMarksCompletion(out, w, old(assignedIterations) < numIterations, doneIterations == numIterations,
                            Div(Sum(received), numIterations as real), workers);
    }

    /** `exit`, as written: unless the code is 42 or all results are in, count
        the dead worker's unit as lost and fork one replacement
        (src/index.js, lines 89-96). The counters stay balanced exactly when
        the dead worker did hold a unit whenever the handler decrements. */
    method OnExit(w: WorkerId, status: ExitStatus) returns (out: seq<Action>)
      requires Valid() && w in workers
      modifies this
      ensures Valid()
      ensures var crashed := status != Code(CleanExitCode) && old(doneIterations) < numIterations;
              && assignedIterations == old(assignedIterations) - (if crashed then 1 else 0)
              && workers == Without(old(workers), w) + (if crashed then [old(nextId)] else [])
              && nextId == old(nextId) + (if crashed then 1 else 0)
              && out == (if crashed then [Fork(old(nextId))] else [])
              && (old(Balanced()) ==> (Balanced() <==> (crashed <==> w in old(busy))))
      ensures busy == old(busy) - {w}
      ensures doneIterations == old(doneIterations) && accumulatedPi == old(accumulatedPi) && received == old(received)
    {
      workers := Without(workers, w);
      busy := busy - {w};
      out := [];
      if status != Code(CleanExitCode) && doneIterations < numIterations {
        assignedIterations := assignedIterations - 1;
        out := [Fork(nextId)];
        AppendGreatest(workers, nextId);
        workers := workers + [nextId];
        nextId := nextId + 1;
      }
    }

    /** `exit` with the lost unit counted exactly when the dead worker held
        one; the replacement is forked under the source's own condition.
        This keeps the counters balanced after any exit. */
    method OnExitCorrected(w: WorkerId, status: ExitStatus) returns (out: seq<Action>)
      requires Valid() && w in workers
      modifies this
      ensures Valid()
      ensures var crashed := status != Code(CleanExitCode) && old(doneIterations) < numIterations;
              && assignedIterations == old(assignedIterations) - (if w in old(busy) then 1 else 0)
              && workers == Without(old(workers), w) + (if crashed then [old(nextId)] else [])
              && nextId == old(nextId) + (if crashed then 1 else 0)
              && out == (if crashed then [Fork(old(nextId))] else [])
      ensures busy == old(busy) - {w}
      ensures doneIterations == old(doneIterations) && accumulatedPi == old(accumulatedPi) && received == old(received)
      ensures old(Balanced()) ==> Balanced()
    {
      var held := w in busy;
      workers := Without(workers, w);
      busy := busy - {w};
      out := [];
      if held {
        assignedIterations := assignedIterations - 1;
      }
      if status != Code(CleanExitCode) && doneIterations < numIterations {
        out := [Fork(nextId)];
        AppendGreatest(workers, nextId);
        workers := workers + [nextId];
        nextId := nextId + 1;
      }
    }
  }

  /** `iterations=1` on one CPU: the only worker dies before it asks for
      work, and its replacement then computes two units. The second result
      arrives after the report: done 2, assigned 1, numIterations 1. */
  method IdleCrashOvershoots(first: Num, second: Num) returns (done: nat, handedOut: int, target: int)
    ensures target == 1 && done == 2 && handedOut == 1
  {
    var c := IdleCrash(false);
    ServeTwice(c, first, second);
    done, handedOut, target := c.doneIterations, c.assignedIterations, c.numIterations;
  }

  /** The same run with the corrected exit handler: one unit is computed and,
      after the report, no worker holds a unit, so no further result can come. */
  method IdleCrashCorrected(first: Num) returns (done: nat, handedOut: int, holding: set<WorkerId>)
    ensures done == 1 && handedOut == 1 && holding == {}
  {
    var c := IdleCrash(true);
    ServeOnce(c, first);
    done, handedOut, holding := c.doneIterations, c.assignedIterations, c.busy;
  }

  /** `iterations=1` on one CPU; worker 0 exits with code 1 before it asks for
      work, handled as written or, when `corrected`, by the corrected handler. */
  method IdleCrash(corrected: bool) returns (c: Coordinator)
    ensures fresh(c) && c.Valid()
    ensures c.workers == [1] && c.numIterations == 1 && c.doneIterations == 0 && c.busy == {}
    ensures c.assignedIterations == (if corrected then 0 else -1)
  {
    c := new Coordinator(map["iterations" := 1], 1);
    assert c.workers == [0];
    if corrected {
      var _ := c.OnExitCorrected(0, Code(1));
    } else {
      var _ := c.OnExit(0, Code(1));
    }
  }

  /** Worker 1 asks for work and returns one result. */
  method ServeOnce(c: Coordinator, first: Num)
    requires c.Valid() && c.workers == [1] && c.numIterations == 1
    requires c.assignedIterations == 0 && c.doneIterations == 0 && c.busy == {}
    modifies c
    ensures c.doneIterations == 1 && c.assignedIterations == 1 && c.busy == {}
  {
    var _ := c.OnReadyToProcess(1);
    var _ := c.OnResult(1, first);
  }

  /** Worker 1 asks for work and returns two results: after the first, the
      count of handed-out units, still below `numIterations`, lets it have
      another. */
  method ServeTwice(c: Coordinator, first: Num, second: Num)
    requires c.Valid() && c.workers == [1] && c.numIterations == 1
    requires c.assignedIterations == -1 && c.doneIterations == 0 && c.busy == {}
    modifies c
    ensures c.doneIterations == 2 && c.assignedIterations == 1
  {
    ServeFirst(c, first);
    var _ := c.OnResult(1, second);
  }

  /** The first request and result after the crash counted as written. */
  method ServeFirst(c: Coordinator, first: Num)
    requires c.Valid() && c.workers == [1] && c.numIterations == 1
    requires c.assignedIterations == -1 && c.doneIterations == 0 && c.busy == {}
    modifies c
    ensures c.Valid() && c.workers == [1]
    ensures c.doneIterations == 1 && c.assignedIterations == 1 && c.busy == {1}
  {
    var _ := c.OnReadyToProcess(1);
    assert c.assignedIterations == 0 && c.busy == {1};
    var _ := c.OnResult(1, first);
  }
}

# PiEstimator in Dafny

PiEstimator estimates π by the Monte Carlo method. One coordinator
process forks a pool of worker processes. It hands each worker iterations
(units of work) one at a time and averages the estimates that come back.
Each estimate drops `n` random points on a `gridsize × gridsize` grid and
counts how many fall in a centred circle of diameter `circleDiameter`. The
count is turned into a percentage, the percentage into an area, and the
area into π = area / radius².

This project models the coordinator's bookkeeping, the worker's replies,
the command-line handling and the estimator, and proves properties of them:

- `extended_reals.dfy` (module `ExtendedReals`): JavaScript numbers as
  exact reals plus NaN and ±Infinity. The degenerate settings `n <= 0` and
  `circleDiameter = 0` make the source divide by zero, and the model keeps
  what JavaScript then yields in the worker. It also defines the
  left-to-right running sum of the workers' results.
- `args.dfy` (module `Args`), the command line. It covers:
  - `--help`;
  - `String.prototype.split('=')`, with its inverse `Join`;
  - `parseInt` in radix 10;
  - the argument loop that fills `processedArgs`;
  - the `iterations` default;
  - the pool size `Math.min(cpus, numIterations)`.
- `estimator.dfy` (module `Estimator`), the `PiEstimator` class. It covers:
  - the defaults merge;
  - the point generator, which takes the random draws as input;
  - the hit count and percentage;
  - the area and π steps and their composition;
  - the closed form 4·c·g² / (n·d²), its bounds and its special cases.
- `protocol.dfy` (module `Protocol`): the messages between coordinator and
  workers, the clean exit code 42, and `Delivered`, an estimate as the
  coordinator receives it. Node's cluster channel encodes each message as
  JSON, which writes NaN and ±Infinity as `null`, and
  `accumulatedPi += null` adds 0. So a worker's NaN or infinite estimate
  counts as 0 at the coordinator.
- `coordinator.dfy` (module `Coordinator`), the coordinator as a class:
  - the counters `assignedIterations`, `doneIterations` and `accumulatedPi`;
  - the live workers, labelled in fork order;
  - the `online`, `readyToProcess`, `result` and `exit` handlers, which
    return what they send and fork as a list of actions.

  The class invariant `Valid()` ties the counters to the live workers and
  the received results. The stronger predicate `Balanced()` says that every
  handed-out unit has either come back or is held by a live worker. It
  needs one thing the source does not keep: the set `busy` of workers
  holding a unit. The handlers keep `Balanced()` under the conditions their
  rows state, and the as-written `exit` handler can break it.
- `worker.dfy` (module `WorkerProcess`): the worker's message handler as a
  class holding the estimator, which is `null` until configured.
- `session.dfy` (module `Session`): the configuration handshake, from the
  coordinator's `online` handler to the worker's `readyToProcess`, and the
  run `iterations=1 n=0` from the worker's NaN to the coordinator's report,
  through a one-unit run whose only result is not finite.
- `sequences.dfy` (module `Sequences`): a helper fact about reordered
  sequences, shared by the two order-independence proofs.

On a malformed argument the source calls `process.exit()` with no code
(src/index.js:32), so the process ends with status 0. `Args.Start` returns
`ArgError` and models no exit status.

## Model

| member | source | states |
|---|---|---|
| `ExtendedReals.Add` | src/index.js:61 | `+` on JavaScript numbers: the result is finite exactly when both operands are, and is then their sum. It is NaN exactly when an operand is NaN or the operands are opposite infinities. The coordinator only ever adds delivered estimates, which are finite. |
| `Protocol.Delivered` | src/index.js:61 | A finite estimate arrives unchanged. NaN and ±Infinity arrive as `null`, which `+=` adds as 0. So what is added is always finite. |
| `ExtendedReals.Mul` | src/PiEstimator.js:66 | Multiplying by a finite factor keeps finiteness (the value becomes the product) and keeps NaN. |
| `ExtendedReals.Div` | src/PiEstimator.js:91 | Dividing by a non-zero number keeps finiteness, and the quotient times the divisor gives back the dividend. Dividing by +0 gives NaN for 0 and +Infinity for a positive dividend. |
| `ExtendedReals.SumPermutation` | src/index.js:61 | The accumulated sum depends only on the multiset of results, not on the order in which the workers' results arrive. |
| `Args.Split` | src/index.js:27 | `split('=')` yields one more part than there are separators, and no part contains the separator. |
| `Args.JoinSplit` | src/index.js:27 | Joining the parts of a split with the separator gives back the argument. |
| `Args.SplitJoin` | src/index.js:27 | Splitting parts that are free of the separator, once joined, gives back those parts. |
| `Args.ParseArg` | src/index.js:27-28 | One argument's acceptance test. What it accepts is stated in both directions: `Args.ParseArgShape` (an accepted argument is key, `=`, readable text) and `Args.ParseArgOfShape` (every such argument is accepted, for instance `n=007`, `n=12abc` and `n=+5`). |
| `Args.Store` | src/index.js:29 | One assignment `processedArgs[key] = value`. Its effect on the map is stated by `Args.ParseAllKeys`, `Args.ParseAllLastWins` and `Args.ProtoKeyIgnored`. |
| `Args.ParseAll` | src/index.js:26-34 | The argument loop as a function. Its properties are stated by `Args.ParseAllSucceeds`, `Args.ParseAllKeys`, `Args.ParseAllLastWins` and `Args.ParseAllAbort`. |
| `Args.ParseInt` | src/index.js:28-29 | `parseInt` succeeds (is not NaN) exactly when digits follow the optional sign. |
| `Args.ParseShowInt` | src/index.js:28-29 | `parseInt` reads back the decimal rendering of every integer, negative ones included, whatever non-digit text follows. |
| `Args.ParseArgShape` | src/index.js:27-29 | An accepted argument is its key, exactly one `=`, and a text that `parseInt` reads as the stored value. |
| `Args.ParseArgShowInt` | src/index.js:27-29 | Every `key=<integer>` with an `=`-free key is accepted, with that key and that value. |
| `Args.ParseArgOfShape` | src/index.js:27-29 | The converse of `Args.ParseArgShape`: every `=`-free key, `=`, and `=`-free text that `parseInt` reads is accepted with that key and the value read, including texts that are not the rendering of their value (`Args.NonCanonicalValuesAccepted`). |
| `Args.NonCanonicalValuesAccepted` | src/index.js:27-29 | `n=007`, `n=12abc`, `n=+5` and `n=-0` are accepted with the values 7, 12, 5 and 0. |
| `Args.ParseAllSucceeds` | src/index.js:26-34 | The argument loop succeeds exactly when every argument is accepted. |
| `Args.ParseAllKeys` | src/index.js:26-34 | The parsed map has exactly the keys the arguments define, recognised ones or not, except `__proto__`, whose assignment on a plain object stores nothing. |
| `Args.ParseAllLastWins` | src/index.js:29 | A key repeated on the command line keeps the value of its last occurrence; `__proto__` keeps no value. |
| `Args.ProtoKeyIgnored` | src/index.js:28-29 | `__proto__=5` is accepted, and the parsed map stays empty. |
| `Args.ParseAllAbort` | src/index.js:30-33 | Once one argument is rejected, so is the whole command line, whatever follows. |
| `Args.ParseArgs` | src/index.js:26-34 | The loop returns the map that `ParseAll` specifies, and no map on the first malformed argument. |
| `Args.NumIterations` | src/index.js:38 | `numIterations` is never 0: the given value when it is present and non-zero, otherwise 10. |
| `Args.NumWorkers` | src/index.js:42 | The pool size is the smaller of the CPU count and `numIterations`. |
| `Args.Start` | src/index.js:13-42 | `--help` anywhere shows help and nothing else. An argument error happens exactly when there is no `--help` and some argument is rejected. Otherwise the launch carries the parsed map, `numIterations` and the pool size. |
| `Args.ZeroIterationsDefault` | src/index.js:38 | `iterations=0` is accepted, and then falls back to 10 iterations. |
| `Args.NonIntegerValueRejected` | src/index.js:28-32 | `n=abc` is an argument error. |
| `Estimator.Merge` | src/PiEstimator.js:9-15 | The settings have the default keys plus the given keys. A given key overrides its default, and a missing key keeps its default. |
| `Estimator.Cell` | src/PiEstimator.js:42-43 | `Math.floor(Math.random() * gridsize)`. Its range is stated by `Estimator.CellOnGrid`. |
| `Estimator.CellOnGrid` | src/PiEstimator.js:42-43 | `Math.floor(r * gridsize)` of a draw in [0, 1) is a cell in [0, gridsize). |
| `Estimator.DrawnPoints` | src/PiEstimator.js:38-48 | The generator yields `n` points, or none when `n <= 0`. |
| `Estimator.DrawnPointsOnGrid` | src/PiEstimator.js:40-46 | With draws in [0, 1) on a positive grid, every generated point lies on the grid. |
| `Estimator.InCircle` | src/PiEstimator.js:57-62 | The hit test `dist <= radius`. Its integer form is stated by `Estimator.InCircleInteger`. |
| `Estimator.InCircleInteger` | src/PiEstimator.js:57-62 | The inclusive distance test is the integer test (2x−g)² + (2y−g)² ≤ d² with d ≥ 0. |
| `Estimator.CountInside` | src/PiEstimator.js:59-65 | The count of points inside the circle never exceeds the number of points. |
| `Estimator.CountInsidePermutation` | src/PiEstimator.js:60-64 | The count does not depend on the order of the points. |
| `Estimator.Percentage` | src/PiEstimator.js:66 | No points gives NaN. Otherwise the percentage is finite, lies in [0, 100], and times the number of points equals 100 × count. |
| `Estimator.EstimateAreaOfCircle` | src/PiEstimator.js:77-80 | area × 100 = percentage × gridsize², a percentage in [0, 100] gives an area in [0, gridsize²], and NaN propagates. |
| `Estimator.EstimatePiFromArea` | src/PiEstimator.js:89-93 | Finite for a finite area and non-zero diameter, with π × d² = 4 × area and π ≥ 0 for a non-negative area. A zero diameter gives NaN for area 0 and +Infinity for a positive area. NaN propagates. |
| `Estimator.Pipeline` | src/PiEstimator.js:25-28 | The three steps after the points are drawn. Its value is stated by `Estimator.ClosedForm`, `Estimator.EstimateBounds`, `Estimator.NoPointsIsNaN` and `Estimator.ZeroDiameter`. |
| `Estimator.ClosedForm` | src/PiEstimator.js:23-32 | With at least one point and a non-zero diameter, the estimate is exactly 4·count·g² / (len·d²). |
| `Estimator.ClosedFormFullCircle` | src/PiEstimator.js:23-32 | With the circle as wide as the grid, the estimate is 4·count / len. |
| `Estimator.EstimateBounds` | src/PiEstimator.js:23-32 | The estimate is finite and lies in [0, 4g²/d²], and no hit gives exactly 0. |
| `Estimator.NoPointsIsNaN` | src/PiEstimator.js:66 | With no points the estimate is NaN. |
| `Estimator.ZeroDiameter` | src/PiEstimator.js:90-91 | A zero diameter gives NaN when there is no hit or the grid is 0, and +Infinity otherwise. |
| `Estimator.DefaultSettingsExample` | src/PiEstimator.js:9-15 | On the default grid (1000) and circle (900), 78 hits out of 100 give 104/27. |
| `Estimator.FullCircleExample` | src/PiEstimator.js:23-32 | 79 hits out of 100 with a full-width circle give 3.16. |
| `Estimator.PiEstimator.constructor` | src/PiEstimator.js:8-16 | The settings are the defaults merged with the given properties. |
| `Estimator.PiEstimator.GenerateRandomPoints` | src/PiEstimator.js:38-48 | The loop builds exactly the points `DrawnPoints` specifies (`max(n, 0)` of them, in draw order), all on the grid when the draws are in [0, 1). |
| `Estimator.PiEstimator.InCirclePercentage` | src/PiEstimator.js:56-68 | The loop's count is `CountInside`, and the result is its percentage: NaN for no points, otherwise in [0, 100]. |
| `Estimator.PiEstimator.EstimatePi` | src/PiEstimator.js:23-32 | The estimate is the pipeline applied to the count of hits among the generated points, and NaN when `n <= 0`. |
| `Coordinator.ShutdownRequests` | src/index.js:71-82 | One shutdown request per live worker, in `cluster.workers` order. |
| `Coordinator.ShutdownRequestsReachAll` | src/index.js:71-82 | The broadcast reaches every live worker and sends nothing but shutdown requests to live workers. |
| `Coordinator.Coordinator.Balanced` | src/index.js:43-45 | While balanced, 0 ≤ done ≤ assigned, both are ≤ numIterations when numIterations > 0, and once all results are in, no worker holds a unit. |
| `Coordinator.Coordinator.constructor` | src/index.js:38-49 | The counters start at 0 and `numIterations` and the pool size come from the parsed arguments. `max(numWorkers, 0)` workers are forked, labelled 0, 1, … in fork order (the model's own labels). The state is balanced. |
| `Coordinator.Coordinator.OnOnline` | src/index.js:86 | The new worker is sent exactly one message, the configuration carrying `processedArgs`. |
| `Session.Handshake` | src/index.js:84-87 | A worker that comes online and is handed the coordinator's configuration message builds an estimator with the settings `Merge(processedArgs)`, answers `readyToProcess` and keeps running. |
| `Session.NoPointsEstimate` | src/index.js:101-107 | A worker configured with `iterations=1 n=0` answers its work request with NaN. |
| `Session.NoPointsReportsZero` | src/index.js:60-69 | With `iterations=1 n=0` on one CPU, the worker's estimate is NaN and the coordinator reports an average of 0. |
| `Session.NonFiniteResultReportsZero` | src/index.js:60-83 | With `iterations=1` on one CPU, a NaN or infinite result makes the coordinator report an average of 0, then send the one worker a shutdown request. |
| `Coordinator.Coordinator.ShutdownAll` | src/index.js:71-82 | Both loops together send exactly `ShutdownRequests(workers)`. |
| `Coordinator.Coordinator.OnReadyToProcess` | src/index.js:55-59 | A unit is sent, and `assignedIterations` incremented, exactly when `assignedIterations < numIterations`. Nothing else changes, and a worker holding no unit leaves the state balanced. |
| `Coordinator.Coordinator.OnResult` | src/index.js:60-83 | The delivered value `Delivered(value)` is added and counted, so `accumulatedPi` stays finite (part of `Valid()`). The next unit goes to the same worker under the same guard. The report of `accumulatedPi / numIterations` and the shutdown broadcast happen exactly when `doneIterations` reaches `numIterations`. The balance is kept when the worker held a unit. |
| `Coordinator.Coordinator.OnExit` | src/index.js:89-96 | As written: only an exit with code ≠ 42 while results are missing decrements `assignedIterations` and forks one replacement. After such an exit, balance survives exactly when the dead worker held a unit. |
| `Coordinator.Coordinator.OnExitCorrected` | src/index.js:89-96 | Same replacement rule, but the lost unit is recounted only when the dead worker held one. Balance is kept after every exit. |
| `Coordinator.IdleCrashOvershoots` | src/index.js:89-96 | With `iterations=1` on one CPU, a crash before the first request leads to 2 results for 1 iteration, with only 1 unit counted as assigned. |
| `Coordinator.IdleCrashCorrected` | src/index.js:89-96 | The same run with the corrected handler computes 1 unit and ends with no worker holding one. |
| `WorkerProcess.Worker.constructor` | src/index.js:100 | A new worker has no estimator and has not exited. |
| `WorkerProcess.Worker.OnMessage` | src/index.js:101-111 | A configuration builds a fresh estimator with the merged settings and answers `readyToProcess`. A work request answers `result` with that estimator's estimate, or ends with code 1 when no configuration came first. A shutdown ends the process with code 42. |

## Left out

- Cluster and IPC plumbing (`cluster.fork`, `worker.send`, `process.send`, message delivery) is not modelled. The handlers return their sends and forks as action lists; the constructor's forks are its initial `workers` list. The worker's replies are returned as values. Of the JSON encoding of messages, only the `null` for a non-finite estimate is modelled (`Protocol.Delivered`). The other messages carry integers and strings, which the encoding keeps.
- The number of CPUs (`os.cpus().length`) is a parameter of `Args.Start` and of the coordinator's constructor.
- `Math.random()` comes in as the `draws` sequence. Whether the draws are uniform, and so whether the estimate converges, is not modelled.
- The one-second `SIGKILL` timer after the shutdown broadcast (src/index.js, lines 77-81) is not modelled, because it only depends on time.
- Parallel execution and message interleaving are not composed into one system model. Each handler is proved for any order of calls that meets its preconditions, and `SumPermutation` covers the order of the results.
- Floating point is not modelled: numbers are exact reals with NaN and ±Infinity. Rounding, `-0` and overflow to Infinity are left out, and `Math.sqrt` is replaced by the equivalent squared comparison.
- `Args.ParseInt`: leading whitespace, `0x` prefixes and the range limits of JavaScript numbers are not modelled.
- `lodash.toArray` over `process.argv.slice(2)` is taken to be the argument list itself.
- Console output (usage text, warnings, per-result log lines) is not modelled. Of the final log line, only the reported average is kept.
- The help check at src/index.js:13 also runs in worker processes. Workers are started with the coordinator's arguments, so the model takes it as a coordinator decision.
- `Coordinator.Coordinator.OnReadyToProcess`: balance is promised only when the asking worker holds no unit. A worker asks once, right after its configuration, and the model does not derive this from the worker's behaviour.
- `Coordinator.Coordinator.OnResult`: balance is promised only when the reporting worker holds a unit. A worker answers only the work requests it receives, and the model does not derive this from the worker's behaviour.
- `WorkerProcess.Worker.OnMessage`: the uncaught `TypeError` from a work request before any configuration is modelled as exit code 1, Node's code for an uncaught exception. Messages of unknown type are not in the message datatype.

## Findings

| source | as written | input that shows it | evidently intended | confidence | as-written member | corrected member |
|---|---|---|---|---|---|---|
| src/index.js:89-96 | Every unexpected exit before all results are in decrements `assignedIterations`, even when the dead worker held no unit. | `iterations=1` on one CPU. Worker 0 exits with code 1 before asking for work, then its replacement asks and returns two results. The run ends with `doneIterations = 2`, `assignedIterations = 1` and `numIterations = 1`. | Recount a unit only when the dead worker held one, so units handed out never exceed `numIterations`. | not executed; medium | `Coordinator.IdleCrashOvershoots` | `Coordinator.Coordinator.OnExitCorrected` |

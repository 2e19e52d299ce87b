# A verified model of the Zeebe client's job worker and token refresh

The Zeebe client for Rust runs *job workers*: a poller asks the gateway for jobs, an activation
task streams them into a bounded job queue, a dispatcher hands each one to a handler, and every
finished handler tells the poller so through a bounded poll queue. With OAuth configured, a
background loop keeps an access token fresh for every call. This project models both in Dafny and
proves what holds in every run.

## How it is organised

| file | what it holds |
|---|---|
| `Common.dfy` | options, results, integer casts |
| `JobPoller.dfy` | one poller message, the fold over many, its closed form; the long-poll deadline; the `JobPoller` class |
| `WorkerProtocol.dfy` | the whole worker as a step system: events, runs, what is read off a state |
| `WorkerInvariants.dfy` | what every event keeps, and the induction over runs |
| `FlowControl.dfy` | the ledger, the credit bound, request range, single flight |
| `Delivery.dfy` | each job dispatched once, in order, and reported once under its own key |
| `Availability.dfy` | jobs run side by side and finish in any order; a timeout ends any request |
| `Progress.dfy` | no deadlock; a measure bounding every run between ticks |
| `Liveness.dfy` | when the next tick activates, and when nothing ever will again |
| `Revival.dfy` | from any state: exactly when another activation can follow |
| `Overcommit.dfy` | exactly when the maximum can be exceeded, and by how much at most |
| `OrderedRuns.dfy` | runs in which the count is the plain count |
| `Activation.dfy`, `Dispatcher.dfy`, `Worker.dfy`, `Builder.dfy` | the objects, updated in place, proved to take exactly the protocol's steps |
| `JobReports.dfy`, `AutoHandler.dfy` | completing and failing jobs; extracting a handler's parameters |
| `TokenRefresh.dfy`, `OAuth.dfy` | the refresh schedule and freshness; the token provider and its loop |

The step system has five kinds of event: a tick of the poll interval, the poller taking a queued
message, the dispatcher taking a queued job, a step of an activation task, a step of a handler. They
interleave freely. A send is enabled only when its channel has a free place, so back-pressure is
part of the model. The poll queue's capacity, the threshold and the concurrency limit are
parameters; a concurrency of zero means no limit, as it does for the stream combinator used.

A state also records history: the jobs sent and started, the messages polled, the decrements
*clipped* by the saturating subtraction, the jobs *lost* because a timeout dropped the message that
would have counted them, and the auto handler's reports. Jobs carry a serial number and the number
of their activation, messages the activation or the job they stem from. The poller never reads these.

## What is found

* Jobs are queued before the message that counts them. A job can therefore be finished, and its
  decrement clipped, before it is counted; it then counts as active for ever. For every setting
  there is a run without any timeout, its jobs all of different keys, that ends with no job anywhere
  and a worker that never asks for jobs again (`EveryWorkerCanWedge`). With no request in progress,
  whatever jobs are still about, the worker can ask again exactly while the clipped decrements exceed
  the lost jobs by no more than the threshold (`Dichotomy`). Without timeouts the same is decided in
  every reachable state, by the decrements that will be clipped before the request under way is over
  (`QuietDichotomy`).
* In ordered runs none of this happens and the count is exact (`OrderedRunsRefineCounter`).
* The builder's documentation presents `max_jobs_active` as the most jobs activated at a time. That holds
  of every run without timeouts, but not of all runs. After any run with timeouts, a worker with no
  request in progress can exceed the maximum, without another timeout, if and only if the timeouts have
  lost more jobs than were clipped; `ExceedsExactly` states the condition for every reachable state,
  also during a request. One timeout is enough to get there (`TimeoutsOvercommit`, a run whose jobs all
  have different keys). The bounds that do hold are the maximum plus the lost jobs less the clipped ones
  (`CreditBound`), and, exactly when the concurrency is limited, an absolute one (`BoundedExactly`).
  The code is what is modelled.
* Each activation overwrites the request timeout that the builder put in the request with the long-poll
  deadline, computed from the local limit (`JobPolling.JobPoller.ActivateJobs`). Before rounding to
  milliseconds that deadline is the configured timeout exactly from 90 s upwards, and a longer one
  below (`ConfiguredIsKept`); the number of milliseconds sent is the configured one exactly from
  90 s upwards or, just below, where the difference is lost in the rounding (`MillisAreKept`). The
  default of 10 s, for one, is sent as 18 s (`DefaultIsReplaced`).
* Configured request timeouts of 2^63 milliseconds and more do not survive the cast to an i64, and the
  deadline sent is then not the computed one (`DeadlineIsExact`).
* With checks ten seconds apart and a buffer of fifteen, no stale token is ever served exactly when
  requests take at most five seconds and tokens outlive ten seconds and one request; neither bound can
  be relaxed (`FreshnessIsExact`).

## Model

| member | source | states |
|---|---|---|
| PollerReflection.LowestIsMinimum | src/worker/job_poller.rs:119-125 | the reference walk's lowest point is the least arrivals-minus-finishes over all prefixes of the messages, and is attained |
| PollerReflection.ReflectionFormula | src/worker/job_poller.rs:115-126 | at every point of any message sequence the saturating count equals arrivals minus finishes measured from its lowest point, if and only if that never exceeds a u32 |
| PollerReflection.NeverUndercounts | src/worker/job_poller.rs:119-125 | for every message sequence the count is below arrivals minus finishes if and only if more arrivals overflowed a u32 than decrements were clipped at zero; none overflow while the reflected walk fits a u32 |
| PollerReflection.SaturationLedger | src/worker/job_poller.rs:119-125 | for every message sequence the count is arrivals minus finishes, plus what saturated at zero, less what saturated at the top |
| LongPolling.DeadlineIsExact | src/worker/job_poller.rs:144-151 | the deadline sent is the exact one if and only if the configured timeout is an i64 of milliseconds |
| LongPolling.HugeTimeoutWraps | src/worker/job_poller.rs:150 | the first timeout past that range yields a negative deadline |
| LongPolling.ConfiguredIsKept | src/worker/job_poller.rs:144-151 | before rounding, the deadline is the configured timeout if and only if that is at least 90 s, and longer below; from 90 s on the number sent is the one the builder stored |
| LongPolling.MillisAreKept | src/worker/job_poller.rs:144-151 | the number of milliseconds sent is the configured one if and only if the timeout is at least 90 s or falls short of it by less than the rounding hides (whole milliseconds: from 89 991 on); else a larger one is sent |
| LongPolling.DefaultIsReplaced | src/worker/builder.rs:30-31 | the default request timeout of 10 s is sent as 18 s |
| LongPolling.LongPollMargin | src/worker/job_poller.rs:144-151 | the deadline is nine tenths of the local limit up to 100 s and 10 s less above, grows with the configured timeout, and is at least 1 s before the local limit |
| JobPolling.JobPoller.ActivateJobs | src/worker/job_poller.rs:51-60 | the request gets the room left and the long-poll deadline, and keeps its other fields |
| JobPolling.JobPoller.Handle | src/worker/job_poller.rs:115-141 | one turn of the loop takes the specified step and spawns exactly when it should |
| JobPolling.JobPoller.Poll | src/worker/job_poller.rs:115-142 | the loop leaves the fold of all ready messages and spawns exactly its activations, in order |
| Activation.ActivationTask.Advance | src/worker/job_poller.rs:62-108 | each stretch between awaits changes the task and the two queues as the protocol says |
| Activation.ActivationTask.RunUndisturbed | src/worker/job_poller.rs:70-107 | taken step by step through `Advance`, an undisturbed task queues all jobs of all batches in order and then sends `JobsArrived` with their number and `FetchJobsComplete` |
| WorkerInvariants.TaskConserves | src/worker/job_poller.rs:62-108 | no step of a task makes or loses a job: those sent are still unannounced, announced, or counted as lost |
| WorkerInvariants.InvariantKept | src/worker/job_poller.rs:62-141 | every event of every part keeps the whole invariant |
| WorkerInvariants.RunsKeepInvariant | src/worker/builder.rs:350-362 | so does every interleaving of any length |
| FlowControl.ExactLedger | src/worker/job_poller.rs:79-141 | sent minus finished is what is queued, handled or in a queued `JobFinished`, and is remaining minus clipped plus lost plus unreported, in every state of every run |
| FlowControl.CreditBound | src/worker/job_poller.rs:51-90 | jobs outstanding are at most the maximum plus lost minus clipped |
| FlowControl.SendsNeverWait | src/worker/job_poller.rs:82-90 | without timeouts at most the maximum is outstanding and a send to the job queue always finds a free place |
| FlowControl.RequestRange | src/worker/job_poller.rs:47-52 | remaining, unreported and still allowed jobs stay within the maximum; every activation asks for 1 to max jobs, the subtraction never underflows, the addition never saturates |
| FlowControl.SingleFlight | src/worker/job_poller.rs:62-136 | live tasks and queued completions number one exactly while a request is in progress; control messages come activation by activation, arrival before completion, each at most once |
| FlowControl.CountIsReflection | src/worker/job_poller.rs:115-136 | in every run the poller's state is the fold of its messages, its requests those the fold calls for, its count the reflected walk, the clipped decrements the walk's depth |
| FlowControl.AbandonedIsSilent | src/worker/job_poller.rs:62-107 | after a refused call, or a timeout, no continuation ever contains a `JobsArrived` of that activation |
| Delivery.DispatchConservation | src/worker/job_dispatcher.rs:22-44 | jobs sent are, each once, queued, handled or finished; they start in order; handlers stay within the limit |
| Availability.RunsAtOnceExactly | src/worker/job_dispatcher.rs:22-44 | for every setting and every n, some run without timeouts has n jobs running at once if and only if n is within the maximum and within the concurrency, if that is limited |
| Availability.AnyJobCanFinish | src/worker/job_dispatcher.rs:33-44 | in every reachable state any job's handler, with any outcome, can report, end and be told to the poller while all other handlers, the tasks and the job queue stand still |
| Availability.TimeoutEndsRequest | src/worker/job_poller.rs:62-107 | from every reachable state with a request in progress, polls, one timeout at most and the last send end it, without a step of the gateway or of a handler |
| Delivery.AtMostOneReport | src/worker/builder.rs:223-257 | no job is ever reported twice |
| Delivery.ExactlyOneReport | src/worker/builder.rs:223-257 | every finished job has exactly one report, made before its `JobFinished` can be sent; every report reached its call under its own job's key, completing the job with the function's result if and only if the outcome is a success, and else failing it without retries |
| Progress.InternalDecreases | src/worker/job_poller.rs:62-108 | every step but ticks and empty batches strictly decreases the measure; an empty batch changes nothing |
| Progress.NoDeadlock | src/worker/builder.rs:328-342 | whatever the capacities, a worker not at rest has an enabled step that is neither a tick nor a timeout |
| Progress.RunsAreShort | src/worker/job_dispatcher.rs:22-44 | with ticks withheld no run is longer than the drop of the measure |
| Progress.MeasureIsLinear | src/worker/builder.rs:328-348 | the measure is linear in the maximum, the handlers and the poll queue's capacity |
| Progress.RunsAreLinear | src/worker/builder.rs:328-348 | from every reachable state, however full the channels, a run without ticks takes a number of steps linear in the settings and the handlers |
| Progress.StuckIsDrained | src/worker/job_poller.rs:62-141 | whatever steps were chosen, a run without ticks that cannot be continued has drained the worker and left no request in progress |
| Progress.ComesToRest | src/worker/job_poller.rs:62-141 | every reachable state can be drained without ticks or timeouts, within the measure |
| Liveness.DrainedTick | src/worker/job_poller.rs:47-49 | at rest the count is clipped minus lost, and the next tick activates if and only if that is within the threshold |
| Liveness.ClippedGrows | src/worker/job_poller.rs:123-125 | clipped decrements never drop, and without timeouts never exceed the maximum |
| Liveness.WedgedForEver | src/worker/job_poller.rs:127-132 | with too many phantom jobs and no request in progress no continuation ever activates again, timeouts included |
| Revival.Dichotomy | src/worker/job_poller.rs:47-49 | with no request in progress, whatever jobs are about, some continuation activates again if and only if clipped minus lost is within the threshold; at rest the next tick decides it |
| Revival.QuietDichotomy | src/worker/job_poller.rs:47-49 | in every reachable state, some continuation without timeouts activates again if and only if the decrements clipped by the end of the request under way exceed the lost jobs by no more than the threshold |
| Overcommit.ExceedsExactly | src/worker/job_poller.rs:47-108 | in every reachable state, some continuation without further timeouts exceeds the maximum if and only if the worker is overdrawn; with no request in progress, if and only if more jobs were lost than clipped |
| Overcommit.TimeoutsOvercommit | src/worker/job_poller.rs:62-108 | for every setting a run with exactly one timeout, its jobs all of different keys, holds one job more than the maximum, attaining the credit bound |
| Overcommit.BoundedExactly | src/worker/job_dispatcher.rs:22-44 | however many timeouts, the jobs outstanding are bounded over all runs if and only if the concurrency is limited, by the maximum plus the concurrency plus the poll queue's capacity |
| Liveness.EveryWorkerCanWedge | src/worker/job_poller.rs:82-97 | for every setting a run without timeouts, its jobs all of different keys, ends at rest with no later activation possible |
| OrderedRuns.OrderedRunsRefineCounter | src/worker/job_poller.rs:82-125 | without timeouts, and with each activation announced before one of its jobs is polled as finished, nothing is clipped, the count is arrivals minus finishes at every message, and equals the jobs outstanding whenever nothing is unreported |
| OrderedRuns.OrderedRunsKeepAsking | src/worker/job_poller.rs:47-49 | a worker at rest after such a run activates at its next tick |
| JobReports.KeysAreChosen | src/job.rs:130-139 | an explicit key wins, else the client's; a request is refused if and only if both are missing; what was not set is sent empty |
| JobReports.AutoReportIsRight | src/worker/builder.rs:223-257 | an outcome's report, through a bound client, is exactly the call for it: completion with the function's result, or failure without retries with the function's error, or with the fixed text and the extraction error |
| AutoHandler.ExtractionIsComplete | src/worker/auto_handler/extractor/mod.rs:17-58 | with the dispatcher's extensions all parameters are extracted if and only if every data type deserializes and every state type is registered; else the error is that of the first missing one |
| AutoHandler.NoStateWithoutExtensions | src/worker/auto_handler/extractor/mod.rs:35-47 | without extensions no state parameter can be extracted |
| Dispatcher.Client.Clone | src/client.rs:33-39 | a clone is a new object with the same key and extensions |
| Dispatcher.JobDispatcher.Bind | src/worker/job_dispatcher.rs:24-36 | a task gets a fresh client bound to its job's key and the worker's extensions |
| Dispatcher.JobDispatcher.Dispatch | src/worker/job_dispatcher.rs:22-37 | a new task is added, no client is shared, and every earlier task keeps its binding |
| Dispatcher.JobDispatcher.AttemptReport | src/worker/builder.rs:226-239 | the report goes through the task's own client and no other task changes |
| Dispatcher.JobDispatcher.CallAutoHandler | src/worker/builder.rs:216-258 | the function is called if and only if all parameters are available; exactly one report is added, for this job and its key: completion with the function's result, failure with its error, or failure with the error of the first missing parameter |
| Dispatcher.JobDispatcher.Return | src/worker/job_dispatcher.rs:39 | the handler is done and no other task changes |
| Dispatcher.JobDispatcher.Remove | src/worker/job_dispatcher.rs:42-43 | the task leaves its place and the others keep their order and bindings |
| RunningWorker.Worker.Step | src/worker/builder.rs:350-362 | whichever part moves, the objects take exactly the protocol's step |
| RunningWorker.Worker.RunAutoHandler | src/worker/builder.rs:216-258 | an auto handler's turn is the protocol's report step; its outcome is a success, the function's error or the first missing parameter's error exactly as the parameters and the function's result decide |
| RunningWorker.Worker.Execute | src/worker/builder.rs:350-362 | a whole schedule leaves the objects in the state the protocol reaches |
| RunningWorker.Worker.ExecuteFromStart | src/worker/builder.rs:320-365 | a started worker keeps the invariant under every schedule |
| RunningWorker.Worker.constructor | src/worker/builder.rs:328-348 | the worker starts empty, with queues of the configured capacities |
| Builder.ThresholdIsThreeTenths | src/worker/builder.rs:345-346 | the threshold is three tenths of the maximum rounded down, 9 for the default of 32 |
| Builder.MaximumIsKept | src/worker/builder.rs:117-119 | the configured maximum survives its casts and opens the queue if and only if it is a positive i32 |
| Builder.JobWorkerBuilder.Run | src/worker/builder.rs:321-365 | refused without job type or handler, a panic when the maximum is no capacity, else a fresh worker in its start state with valid settings |
| Builder.LaunchAndPoll | src/worker/builder.rs:62-365 | a worker configured with every setting launches if and only if it has a job type and a maximum from 1 to 2^31 - 1; its first activation asks for exactly that many jobs of that type, for 300 000 ms, with the long-poll deadline, from 90 s on the configured timeout itself |
| Builder.LaunchDefaults | src/worker/builder.rs:24-31 | with only a job type and a handler, a worker runs 4 handlers, asks again at 9 of 32 jobs, and first asks for 32 with a deadline of 18 s |
| TokenRefresh.CheckSpacing | src/oauth.rs:234-241 | check n is never earlier than n - 1 times ten seconds after the start, and the next follows within ten seconds or the request's length, catching up included |
| TokenRefresh.QuickChecksAreRegular | src/oauth.rs:235-239 | when requests take no time the first two checks come at the start and the others exactly ten seconds apart |
| TokenRefresh.ServedTokenIsFresh | src/oauth.rs:103-128 | after a first success of any latency, with requests of at most 5 s and lifetimes above 15 s, every token served at any instant is valid, and outlives each later check by more than 5 s |
| TokenRefresh.FreshnessIsExact | src/oauth.rs:121-128 | no stale token is ever served if and only if latencies are at most 5 s and lifetimes exceed ten seconds plus the latency |
| TokenRefresh.ShortLivedGoesStale | src/oauth.rs:180-190 | shorter lifetimes let a token run out during the request that replaces it |
| TokenRefresh.SlowGoesStale | src/oauth.rs:121-128 | slower requests let a token run out that the previous check accepted, however long tokens live |
| TokenRefresh.GrantsAreSpaced | src/oauth.rs:115-143 | successful requests are at least the lifetime less the buffer apart |
| TokenRefresh.RefreshEconomy | src/oauth.rs:115-143 | a window of length T holds at most 1 + T / (lifetime - 15 s) starts of successful requests |
| TokenRefresh.CachedIsLastGranted | src/oauth.rs:130-199 | the cached token is the server's secret of the last granted check, and ends the server's lifetime after that check, or at once without one |
| TokenRefresh.NoLifetimeNoReuse | src/oauth.rs:180 | a token granted without a lifetime is expired at once and replaced at the next check |
| AuthSpec.InitialisationSafety | src/oauth.rs:96-113 | a waiting call returns if and only if a refresh completes after it subscribed; once one has returned, the access token is available in every continuation |
| OAuth.TokenProvider.AuthInitialized | src/oauth.rs:96-101 | the call subscribes |
| OAuth.TokenProvider.GetAccessToken | src/oauth.rs:103-113 | the cached secret, or an error before the first token |
| OAuth.TokenProvider.CachedTokenIsExpired | src/oauth.rs:115-128 | no token, or one within 15 s of its end |
| OAuth.TokenProvider.RefreshToken | src/oauth.rs:130-199 | requests only when expired, gives up at the request timeout with nothing changed, and only a granted answer in time replaces the token, by the server's secret and lifetime, and wakes all waiting calls |
| OAuth.ChecksKeepComing | src/oauth.rs:234-241 | checks are never further apart than ten seconds or the request timeout |
| OAuth.Interval.Tick | src/oauth.rs:235-239 | overdue ticks pass at once, each moving the next by one period |
| AuthSpec.WokenExactly | src/oauth.rs:96-101 | across the rounds of the loop a call has returned if and only if a request was granted in its round or a later one, and otherwise waits |
| OAuth.KeepRefreshing | src/oauth.rs:234-241 | for any number of checks, and whatever calls subscribe between them, the loop's cache and clock follow the specified schedule, the calls that wait and return are those of its event sequence, and the cached secret is the one the server gave at the last check it granted within the timeout, if any |
| OAuth.CallAfterChecks | src/oauth.rs:259-276 | a gateway call after any number of checks carries "Bearer " and the secret of the last check granted in time; it is denied if and only if there was none |
| OAuth.AuthInterceptor.Call | src/oauth.rs:259-276 | without a provider requests pass unchanged; else they carry the bearer token and are otherwise unchanged, or are denied for want of a token or for what is wrong with the header text |

## Left out

- PollerSpec.Config: the threshold is any value below the maximum, and the builder's is the exact three tenths rounded down; the f32 product is not modelled.
- LongPolling.ExactMillis: exact tenths instead of the f32 product.
- WorkerProtocol.Enabled: the gateway streams at most as many jobs as requested, as its interface promises; a gateway that streams more is not modelled.
- AutoHandler.FromJob: whether variables deserialize into a type, and the parser's error text if not, are parameters; JSON and the type-indexed map itself are not modelled.
- OAuth.AuthInterceptor.Call: what is wrong with the header text as a metadata value, if anything, is a parameter.
- Activation.ActivationTask.RunUndisturbed: states the course without full queues, stream errors and timeouts; `Advance` and the protocol cover those.
- Revival.Dichotomy: while a request is in progress only continuations without timeouts are decided (`QuietDichotomy`).
- Builder.JobWorkerBuilder.Run: the capacity test assumes a 64-bit usize.
- Handlers finish and do not panic; dropping the worker's future and the end of the message stream, which an endless interval rules out, are not modelled.
- The handler wrapper binds the job's key to its client a second time, to the same value; only the dispatcher's binding is modelled.
- The builder's setters for worker name, job timeout and fetched variables: plain fields of the request.
- Calls a user's handler makes through its client are not in the report log.
- Lock poisoning and subscribers that fall behind the notification channel are not modelled; clocks run at one rate and woken tasks run at once.
- Throwing errors, updating retries, process, message, topology and incident calls: request builders of the same shape.
- gRPC, TLS, the token exchange itself, environment variables, addresses, files and tracing.

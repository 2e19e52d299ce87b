/** The worker builder of src/worker/builder.rs, and what starting the worker requires. */
module Builder {
  import opened Common
  import opened AutoHandler
  import opened PollerSpec
  import opened LongPolling
  import opened JobPolling
  import opened WorkerProtocol
  import opened WorkerInvariants
  import opened Dispatcher
  import opened RunningWorker

  const DEFAULT_JOB_TIMEOUT := 300 * SECOND
  const DEFAULT_MAX_JOBS_ACTIVE := 32
  const DEFAULT_CONCURRENCY := 4
  const DEFAULT_REQUEST_TIMEOUT := 10 * SECOND
  const POLL_QUEUE_CAPACITY := 32

  const DEFAULT_REQUEST := ActivateJobsRequest(
    "",
    "default",
    DEFAULT_JOB_TIMEOUT / MILLISECOND,
    DEFAULT_MAX_JOBS_ACTIVE,
    [],
    DEFAULT_REQUEST_TIMEOUT / MILLISECOND)

  const PARAMETERS_MISSING := InvalidParameters("`job_type` and `handler` must be set")

  /** How `Run` ends before its first poll: refused, in a panic, or with a worker running. */
  datatype Launch = Refused(error: Error) | Panicked | Launched

  datatype HandlerKind = Manual | Auto

  /** Three tenths of the maximum, rounded down. */
  function Threshold(max: nat): nat {
    3 * max / 10
  }

  lemma ThresholdIsThreeTenths(max: nat)
    ensures 10 * Threshold(max) <= 3 * max < 10 * Threshold(max) + 10
    ensures Threshold(DEFAULT_MAX_JOBS_ACTIVE) == 9
  {
  }

  /** A channel needs at least one place, and a negative i32 read as a capacity is far too large. */
  predicate OpensChannel(capacity: int) {
    1 <= capacity <= I32_MAX
  }

  /** The maximum survives its u32 to i32 cast, and opens the job queue, exactly in the positive i32 range. */
  lemma MaximumIsKept(jobs: nat)
    requires jobs <= U32_MAX
    ensures OpensChannel(AsI32(jobs)) <==> 1 <= jobs <= 0x7FFF_FFFF
    ensures OpensChannel(AsI32(jobs)) ==> AsU32(AsI32(jobs)) == AsI32(jobs) == jobs
  {
  }

  class JobWorkerBuilder {
    const client: Client
    var handler: Option<HandlerKind>
    var data: set<TypeId>
    var concurrency: nat
    var request: ActivateJobsRequest
    var requestTimeout: nat

    constructor (client: Client)
      ensures this.client == client && handler == None && data == {} && concurrency == DEFAULT_CONCURRENCY
      ensures request == DEFAULT_REQUEST
      ensures requestTimeout == RequestLimit(DEFAULT_REQUEST_TIMEOUT)
    {
      this.client := client;
      handler, data, concurrency := None, {}, DEFAULT_CONCURRENCY;
      request := DEFAULT_REQUEST;
      requestTimeout := DEFAULT_REQUEST_TIMEOUT + REQUEST_TIMEOUT_OFFSET;
    }

    method WithJobType(jobType: string)
      modifies this`request
      ensures request == old(request).(jobType := jobType)
    {
      request := request.(jobType := jobType);
    }

    method WithRequestTimeout(timeout: nat)
      modifies this`request, this`requestTimeout
      ensures request == old(request).(requestTimeout := ConfiguredMillis(timeout))
      ensures requestTimeout == RequestLimit(timeout)
    {
      request := request.(requestTimeout := ConfiguredMillis(timeout));
      requestTimeout := timeout + REQUEST_TIMEOUT_OFFSET;
    }

    method WithMaxJobsActive(jobs: nat)
      requires jobs <= U32_MAX
      modifies this`request
      ensures request == old(request).(maxJobsToActivate := AsI32(jobs))
    {
      request := request.(maxJobsToActivate := AsI32(jobs));
    }

    method WithConcurrency(limit: nat)
      requires limit <= U32_MAX
      modifies this`concurrency
      ensures concurrency == limit
    {
      concurrency := limit;
    }

    method WithHandler(kind: HandlerKind)
      modifies this`handler
      ensures handler == Some(kind)
    {
      handler := Some(kind);
    }

    method WithState(ty: TypeId)
      modifies this`data
      ensures data == old(data) + {ty}
    {
      data := data + {ty};
    }

    /**
     Starts the worker: refused without job type or handler; a panic when the maximum cannot
     be a channel capacity; else a fresh worker in its start state, with valid settings.
     */
    method Run() returns (launch: Launch, worker: Worker?)
      ensures launch == (if request.jobType == "" || handler.None? then Refused(PARAMETERS_MISSING)
                         else if !OpensChannel(request.maxJobsToActivate) then Panicked
                         else Launched)
      ensures worker != null <==> launch.Launched?
      ensures launch.Launched? ==>
                && fresh(worker) && fresh(worker.poller)
                && worker.Valid() && worker.JustStarted() && ValidConfig(worker.config)
                && worker.config == Config(request.maxJobsToActivate, Threshold(request.maxJobsToActivate), concurrency,
                                           POLL_QUEUE_CAPACITY, handler == Some(Auto))
                && worker.poller.requestTimeout == requestTimeout && worker.poller.request == request
                && worker.dispatcher.jobClient == client && worker.dispatcher.extensions == data
    {
      worker := null;
      if request.jobType == "" || handler.None? {
        return Refused(PARAMETERS_MISSING), null;
      }
      if !OpensChannel(request.maxJobsToActivate) {
        return Panicked, null;
      }
      var max := AsU32(request.maxJobsToActivate);
      var config := Config(max, Threshold(max), concurrency, POLL_QUEUE_CAPACITY, handler == Some(Auto));
      worker := new Worker(config, requestTimeout, request, client, data);
      launch := Launched;
    }
  }

  lemma FirstTick(c: Config, start: State, next: State)
    requires ValidConfig(c) && IsStart(start) && next == Apply(c, start, Tick)
    ensures Activates(c, start.poller, FetchJobs) && Requested(c, start.poller) == c.max
    ensures Reaches(c, [Tick], next) && next.tasks == [Requesting(0, c.max)]
  {
    RequestedIsRoom(c, start.poller);
    var run := [Tick];
    assert |run[1..]| == 0;
    assert Legal(c, start, run) && After(c, start, run) == next;
  }

  /** The interval's first tick comes at once: it starts the first activation, for the maximum. */
  method PollFirst(worker: Worker)
    requires worker.Valid() && worker.JustStarted() && ValidConfig(worker.config)
    modifies worker, worker.poller
    ensures worker.Valid() && Reaches(worker.config, [Tick], worker.Abs())
    ensures worker.Abs().tasks == [Requesting(0, worker.config.max)]
    ensures |worker.activations| == 1
    ensures worker.activations[0].request ==
            old(worker.poller.request).(
              maxJobsToActivate := worker.config.max,
              requestTimeout := LongPollingMillis(worker.poller.requestTimeout))
  {
    ghost var start := worker.Abs();
    worker.StartsTheProtocol();
    worker.Deliver(FetchJobs);
    FirstTick(worker.config, start, worker.Abs());
    assert |worker.Tasks()| == |worker.activations|;
  }

  /** A builder with every setting set. */
  method Configure(
    client: Client, jobType: string, jobs: nat, timeout: nat, limit: nat, kind: HandlerKind, state: TypeId)
    returns (builder: JobWorkerBuilder)
    requires jobs <= U32_MAX && limit <= U32_MAX
    ensures fresh(builder) && builder.client == client && builder.handler == Some(kind)
    ensures builder.concurrency == limit && builder.data == {state}
    ensures builder.request ==
            DEFAULT_REQUEST.(
              jobType := jobType, maxJobsToActivate := AsI32(jobs), requestTimeout := ConfiguredMillis(timeout))
    ensures builder.requestTimeout == RequestLimit(timeout)
  {
    builder := new JobWorkerBuilder(client);
    builder.WithJobType(jobType);
    builder.WithMaxJobsActive(jobs);
    builder.WithRequestTimeout(timeout);
    builder.WithConcurrency(limit);
    builder.WithHandler(kind);
    builder.WithState(state);
  }

  /**
   From the settings to the gateway: a worker configured with all of them launches exactly when it
   has a job type and the maximum is a positive i32. Its first poll asks for that many jobs, with
   the long-poll deadline: the configured timeout itself, in milliseconds, from ninety seconds on.
   */
  method LaunchAndPoll(
    client: Client, jobType: string, jobs: nat, timeout: nat, limit: nat, kind: HandlerKind, state: TypeId)
    returns (launch: Launch, worker: Worker?)
    requires jobs <= U32_MAX && limit <= U32_MAX
    ensures launch == if jobType == "" then Refused(InvalidParameters("`job_type` and `handler` must be set"))
                      else if 1 <= jobs <= 0x7FFF_FFFF then Launched
                      else Panicked
    ensures worker != null <==> launch.Launched?
    ensures worker != null ==>
              && worker.Valid() && ValidConfig(worker.config) && Reaches(worker.config, [Tick], worker.Abs())
              && worker.Abs().tasks == [Requesting(0, jobs)]
              && worker.config.max == jobs && worker.config.concurrency == limit && worker.config.capacity == 32
              && 10 * worker.config.threshold <= 3 * jobs < 10 * worker.config.threshold + 10
              && (worker.config.autoHandler <==> kind == Auto)
              && worker.dispatcher.jobClient == client && worker.dispatcher.extensions == {state}
    ensures worker != null ==>
              && |worker.activations| == 1
              && worker.activations[0].request ==
                 ActivateJobsRequest(jobType, "default", 300_000, jobs, [], LongPollingMillis(RequestLimit(timeout)))
    ensures timeout >= 90 * SECOND && worker != null ==>
              |worker.activations| == 1 && worker.activations[0].request.requestTimeout == ConfiguredMillis(timeout)
  {
    MaximumIsKept(jobs);
    ConfiguredIsKept(timeout);
    var builder := Configure(client, jobType, jobs, timeout, limit, kind, state);
    launch, worker := builder.Run();
    if worker != null {
      PollFirst(worker);
    }
  }

  /** What a worker gets when only a job type and a handler are set: the documented defaults. */
  method LaunchDefaults(client: Client, jobType: string, kind: HandlerKind) returns (worker: Worker?)
    ensures worker == null <==> jobType == ""
    ensures worker != null ==>
              && worker.Valid() && worker.config == Config(32, 9, 4, 32, kind == Auto)
              && |worker.activations| == 1
              && worker.activations[0].request == ActivateJobsRequest(jobType, "default", 300_000, 32, [], 18_000)
  {
    ThresholdIsThreeTenths(DEFAULT_MAX_JOBS_ACTIVE);
    DefaultIsReplaced();
    var builder := new JobWorkerBuilder(client);
    builder.WithJobType(jobType);
    builder.WithHandler(kind);
    var launch;
    launch, worker := builder.Run();
    if worker != null {
      PollFirst(worker);
    }
  }
}

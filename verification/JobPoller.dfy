/**
 The poller of src/worker/job_poller.rs: the spec of one message, the fold over a
 message sequence, and the class whose loop is proved to compute that fold.
 */
module PollerSpec {
  import opened Common

  /**
   A job as the gateway streamed it. `serial` (its place in the order of jobs put in
   the job queue) and `activation` (the request that fetched it) are history: keys may
   repeat, because the broker hands a job out again once its timeout has passed.
   */
  datatype Job = Job(serial: nat, activation: nat, key: int)

  /**
   The poller's messages. The poller reads only the kind and the count; the activation
   number and the finished job are history that says which task sent the message.
   */
  datatype PollMessage =
    | FetchJobs
    | JobsArrived(activation: nat, count: nat)
    | FetchJobsComplete(activation: nat)
    | JobFinished(job: Job)

  /**
   A running worker's settings: `max` is both the most jobs active and the capacity of
   the job queue, `capacity` that of the poll queue. `concurrency == 0` means unlimited.
   */
  datatype Config = Config(max: nat, threshold: nat, concurrency: nat, capacity: nat, autoHandler: bool)

  /** The settings with which a worker starts: outside this range of `max` opening the queue panics. */
  predicate ValidConfig(c: Config) {
    1 <= c.max <= I32_MAX && c.threshold < c.max && 1 <= c.capacity
  }

  datatype PollerState = PollerState(remaining: nat, requestInProgress: bool)

  const INITIAL := PollerState(0, false)

  predicate ShouldActivate(c: Config, p: PollerState) {
    p.remaining <= c.threshold && !p.requestInProgress
  }

  /** The number of jobs an activation asks for: a u32 subtraction, sent as an i32. */
  function Requested(c: Config, p: PollerState): int {
    AsI32(AsU32(c.max - p.remaining))
  }

  predicate Activates(c: Config, p: PollerState, m: PollMessage) {
    m.FetchJobs? && ShouldActivate(c, p)
  }

  function HandleMessage(c: Config, p: PollerState, m: PollMessage): PollerState {
    match m
    case JobsArrived(_, count) => p.(remaining := SaturatingAddU32(p.remaining, count))
    case JobFinished(_) => p.(remaining := SaturatingSubU32(p.remaining, 1))
    case FetchJobs => if ShouldActivate(c, p) then p.(requestInProgress := true) else p
    case FetchJobsComplete(_) => p.(requestInProgress := false)
  }

  /** The poller after a whole sequence of messages. */
  function HandleAll(c: Config, p: PollerState, ms: seq<PollMessage>): PollerState {
    if |ms| == 0 then p else HandleMessage(c, HandleAll(c, p, ms[..|ms| - 1]), ms[|ms| - 1])
  }

  /** The sizes of the activations a sequence of messages starts, in order. */
  function ActivationsOf(c: Config, p: PollerState, ms: seq<PollMessage>): seq<int> {
    if |ms| == 0 then [] else
      var before := HandleAll(c, p, ms[..|ms| - 1]);
      ActivationsOf(c, p, ms[..|ms| - 1])
      + if Activates(c, before, ms[|ms| - 1]) then [Requested(c, before)] else []
  }
}

/** The saturating counter in closed form. */
module PollerReflection {
  import opened Common
  import opened PollerSpec

  function Delta(m: PollMessage): int {
    match m
    case JobsArrived(_, count) => count
    case JobFinished(_) => -1
    case FetchJobs => 0
    case FetchJobsComplete(_) => 0
  }

  /** Arrivals minus finishes. */
  function Net(ms: seq<PollMessage>): int {
    if |ms| == 0 then 0 else Net(ms[..|ms| - 1]) + Delta(ms[|ms| - 1])
  }

  /** The least `Net` of any prefix, the empty one included. */
  function Lowest(ms: seq<PollMessage>): int {
    if |ms| == 0 then 0 else Min(Lowest(ms[..|ms| - 1]), Net(ms))
  }

  lemma {:induction false} LowestIsMinimum(ms: seq<PollMessage>)
    ensures forall k :: 0 <= k <= |ms| ==> Lowest(ms) <= Net(ms[..k])
    ensures exists k :: 0 <= k <= |ms| && Lowest(ms) == Net(ms[..k])
  {
    assert ms[..|ms|] == ms;
    if |ms| > 0 {
      var front := ms[..|ms| - 1];
      LowestIsMinimum(front);
      forall k | 0 <= k <= |front| ensures front[..k] == ms[..k] {
        assert front[..k] == ms[..k];
      }
      var least :| 0 <= least <= |front| && Lowest(front) == Net(front[..least]);
      assert Net(ms[..least]) == Lowest(front);
      forall k | 0 <= k <= |ms| ensures Lowest(ms) <= Net(ms[..k]) {
        if k < |ms| {
          assert front[..k] == ms[..k];
        }
      }
      assert Lowest(ms) == Net(ms[..if Lowest(front) <= Net(ms) then least else |ms|]);
    }
  }

  /** Arrivals minus finishes, measured from its lowest point so far. */
  function Reflected(ms: seq<PollMessage>): int {
    Net(ms) - Lowest(ms)
  }

  /** No prefix drives the reflected walk beyond what a u32 holds. */
  ghost predicate FitsU32(ms: seq<PollMessage>) {
    forall k :: 0 <= k <= |ms| ==> Reflected(ms[..k]) <= 0xFFFF_FFFF
  }

  ghost predicate FollowsReflection(c: Config, ms: seq<PollMessage>) {
    forall k :: 0 <= k <= |ms| ==> HandleAll(c, INITIAL, ms[..k]).remaining == Reflected(ms[..k])
  }

  lemma {:induction false} RemainingFitsU32(c: Config, ms: seq<PollMessage>)
    ensures HandleAll(c, INITIAL, ms).remaining <= U32_MAX
  {
    if |ms| > 0 {
      RemainingFitsU32(c, ms[..|ms| - 1]);
    }
  }

  lemma {:induction false} ReflectionStep(c: Config, ms: seq<PollMessage>, m: PollMessage)
    requires HandleAll(c, INITIAL, ms).remaining == Reflected(ms)
    requires Reflected(ms + [m]) <= U32_MAX
    ensures HandleAll(c, INITIAL, ms + [m]).remaining == Reflected(ms + [m])
    ensures Lowest(ms + [m]) ==
            Lowest(ms) - if m.JobFinished? && HandleAll(c, INITIAL, ms).remaining == 0 then 1 else 0
  {
    assert (ms + [m])[..|ms|] == ms;
    LowestIsMinimum(ms);
    assert ms[..|ms|] == ms;
  }

  /**
   The saturating counter follows the reflected walk at every point of a message
   sequence exactly when that walk stays within a u32.
   */
  lemma {:induction false} ReflectionFormula(c: Config, ms: seq<PollMessage>)
    ensures FollowsReflection(c, ms) <==> FitsU32(ms)
  {
    if FollowsReflection(c, ms) {
      forall k | 0 <= k <= |ms| ensures Reflected(ms[..k]) <= U32_MAX {
        RemainingFitsU32(c, ms[..k]);
      }
    }
    if FitsU32(ms) {
      for n := 0 to |ms|
        invariant forall k :: 0 <= k <= n ==> HandleAll(c, INITIAL, ms[..k]).remaining == Reflected(ms[..k])
      {
        assert ms[..n] + [ms[n]] == ms[..n + 1];
        ReflectionStep(c, ms[..n], ms[n]);
      }
    }
  }

  /** The decrements that met a count of zero. */
  function Clips(c: Config, ms: seq<PollMessage>): nat {
    if |ms| == 0 then 0 else
      var front, last := ms[..|ms| - 1], ms[|ms| - 1];
      Clips(c, front) + if last.JobFinished? && HandleAll(c, INITIAL, front).remaining == 0 then 1 else 0
  }

  /** The arrivals that went beyond a u32. */
  function Overflow(c: Config, ms: seq<PollMessage>): nat {
    if |ms| == 0 then 0 else
      var front, last := ms[..|ms| - 1], ms[|ms| - 1];
      Overflow(c, front)
      + if last.JobsArrived? then Max(0, HandleAll(c, INITIAL, front).remaining + last.count - U32_MAX) else 0
  }

  /** Whatever the messages, the count is off by what saturated, upwards at zero and downwards at the top. */
  lemma {:induction false} SaturationLedger(c: Config, ms: seq<PollMessage>)
    ensures HandleAll(c, INITIAL, ms).remaining == Net(ms) + Clips(c, ms) - Overflow(c, ms)
  {
    if |ms| > 0 {
      SaturationLedger(c, ms[..|ms| - 1]);
      RemainingFitsU32(c, ms[..|ms| - 1]);
    }
  }

  /**
   However late the arrivals are reported, the counter undercounts arrivals minus finishes exactly when
   more overflowed than was clipped; never while the reflected walk stays within a u32.
   */
  lemma NeverUndercounts(c: Config, ms: seq<PollMessage>)
    ensures HandleAll(c, INITIAL, ms).remaining >= Net(ms) <==> Overflow(c, ms) <= Clips(c, ms)
    ensures FitsU32(ms) ==> Overflow(c, ms) == 0 && Clips(c, ms) == -Lowest(ms)
  {
    SaturationLedger(c, ms);
    if FitsU32(ms) {
      NoOverflow(c, ms);
      ReflectionFormula(c, ms);
      assert ms[..|ms|] == ms;
    }
  }

  lemma {:induction false} NoOverflow(c: Config, ms: seq<PollMessage>)
    requires FitsU32(ms)
    ensures Overflow(c, ms) == 0
  {
    if |ms| > 0 {
      var n := |ms| - 1;
      assert forall k :: 0 <= k <= n ==> ms[..n][..k] == ms[..k];
      NoOverflow(c, ms[..n]);
      ReflectionFormula(c, ms);
      assert ms[..n + 1] == ms;
      LowestIsMinimum(ms[..n]);
      assert Lowest(ms) <= Lowest(ms[..n]);
      assert Reflected(ms[..n + 1]) <= U32_MAX;
      assert HandleAll(c, INITIAL, ms[..n]).remaining == Reflected(ms[..n]);
    }
  }
}

/** The deadline an activation sends along, against the limit after which the client gives it up. */
module LongPolling {
  import opened Common

  const REQUEST_TIMEOUT_OFFSET := 10 * SECOND
  const LONG_POLLING_MAX_DURATION := 10 * SECOND

  /** The client's own limit on an activation, for a configured request timeout. */
  function RequestLimit(configured: nat): nat {
    configured + REQUEST_TIMEOUT_OFFSET
  }

  /** The limit less a tenth of it, or less ten seconds if that is smaller, in tenths of a nanosecond. */
  function DeadlineTenths(limit: nat): nat {
    10 * limit - Min(limit, 10 * LONG_POLLING_MAX_DURATION)
  }

  /** That deadline in whole milliseconds. */
  function ExactMillis(limit: nat): nat {
    DeadlineTenths(limit) / (10 * MILLISECOND)
  }

  /** What is sent: the milliseconds, cast to an i64. */
  function LongPollingMillis(limit: nat): int {
    AsI64(ExactMillis(limit))
  }

  /** The cast keeps the exact value precisely when the configured timeout is itself an i64 of milliseconds. */
  lemma DeadlineIsExact(configured: nat)
    ensures LongPollingMillis(RequestLimit(configured)) == ExactMillis(RequestLimit(configured)) <==>
            configured / MILLISECOND <= I64_MAX
  {
    var limit := RequestLimit(configured);
    assert LongPollingMillis(limit) == ExactMillis(limit) <==> ExactMillis(limit) <= I64_MAX;
    if limit > 100 * SECOND {
      assert ExactMillis(limit) == configured / MILLISECOND;
    }
  }

  /** One millisecond more, and the deadline sent is negative, which asks the gateway for no long polling at all. */
  lemma HugeTimeoutWraps()
    ensures LongPollingMillis(RequestLimit((I64_MAX + 1) * MILLISECOND)) == -0x8000_0000_0000_0000
  {
    assert ExactMillis(RequestLimit((I64_MAX + 1) * MILLISECOND)) == I64_MAX + 1;
  }

  /**
   Up to a limit of a hundred seconds the deadline is nine tenths of it, above that ten seconds
   less. It grows with the configured timeout, and comes at least a second before the limit.
   */
  lemma LongPollMargin(configured: nat, longer: nat)
    requires configured <= longer && longer / MILLISECOND <= I64_MAX
    ensures var limit := RequestLimit(configured);
            && LongPollingMillis(limit) == (if limit <= 100 * SECOND then 9 * limit / (10 * MILLISECOND)
                                            else (limit - 10 * SECOND) / MILLISECOND)
            && 0 < LongPollingMillis(limit) <= LongPollingMillis(RequestLimit(longer))
            && LongPollingMillis(limit) * MILLISECOND + SECOND <= limit
  {
    var limit := RequestLimit(configured);
    MillisGrow(limit, RequestLimit(longer));
    DeadlineIsExact(configured);
    DeadlineIsExact(longer);
    var tenths := DeadlineTenths(limit);
    var millis := LongPollingMillis(limit);
    assert millis == tenths / (10 * MILLISECOND);
    assert 10 * (millis * MILLISECOND) <= tenths <= 10 * limit - 10 * SECOND;
  }

  lemma MillisGrow(a: nat, b: nat)
    requires a <= b
    ensures ExactMillis(a) <= ExactMillis(b)
  {
    assert DeadlineTenths(a) <= DeadlineTenths(b);
  }

  /** The milliseconds the builder put in the request for a configured timeout. */
  function ConfiguredMillis(configured: nat): int {
    AsI64(configured / MILLISECOND)
  }

  /**
   The long-poll deadline that replaces the configured timeout in the request is that very timeout
   exactly from ninety seconds on, and longer below.
   */
  lemma ConfiguredIsKept(configured: nat)
    ensures DeadlineTenths(RequestLimit(configured)) == 10 * configured <==> configured >= 90 * SECOND
    ensures configured < 90 * SECOND ==> DeadlineTenths(RequestLimit(configured)) > 10 * configured
    ensures configured >= 90 * SECOND ==> LongPollingMillis(RequestLimit(configured)) == ConfiguredMillis(configured)
  {
    if configured >= 90 * SECOND {
      assert ExactMillis(RequestLimit(configured)) == 10 * configured / (10 * MILLISECOND) == configured / MILLISECOND;
    }
  }

  /**
   After rounding down to milliseconds, the number sent is the number configured also for a
   few timeouts just short of ninety seconds: of whole milliseconds, the last nine.
   */
  lemma MillisAreKept(configured: nat)
    ensures LongPollingMillis(RequestLimit(configured)) == ConfiguredMillis(configured) <==>
            || configured >= 90 * SECOND
            || 90 * SECOND - configured + 10 * (configured % MILLISECOND) < 10 * MILLISECOND
    ensures configured % MILLISECOND == 0 ==>
              (LongPollingMillis(RequestLimit(configured)) == ConfiguredMillis(configured) <==>
               configured / MILLISECOND >= 89_991)
    ensures configured < 90 * SECOND ==> LongPollingMillis(RequestLimit(configured)) >= ConfiguredMillis(configured)
  {
    ConfiguredIsKept(configured);
    if configured < 90 * SECOND {
      var millis, rest := configured / MILLISECOND, configured % MILLISECOND;
      assert DeadlineTenths(RequestLimit(configured)) ==
             millis * (10 * MILLISECOND) + (90 * SECOND - configured + 10 * rest);
    }
  }

  /** The default of ten seconds is sent as eighteen. */
  lemma DefaultIsReplaced()
    ensures ConfiguredMillis(10 * SECOND) == 10_000 && LongPollingMillis(RequestLimit(10 * SECOND)) == 18_000
  {
  }
}

/** The poller object itself. */
module JobPolling {
  import opened Common
  import opened PollerSpec
  import opened LongPolling

  /** The request an activation sends to the gateway. */
  datatype ActivateJobsRequest = ActivateJobsRequest(
    jobType: string,
    worker: string,
    timeout: int,
    maxJobsToActivate: int,
    fetchVariable: seq<string>,
    requestTimeout: int)

  class JobPoller {
    const config: Config
    const requestTimeout: nat
    var request: ActivateJobsRequest
    var requestInProgress: bool
    var remaining: nat

    function State(): PollerState
      reads this
    {
      PollerState(remaining, requestInProgress)
    }

    constructor (config: Config, requestTimeout: nat, request: ActivateJobsRequest)
      ensures this.config == config && this.requestTimeout == requestTimeout && this.request == request
      ensures State() == INITIAL
    {
      this.config := config;
      this.requestTimeout := requestTimeout;
      this.request := request;
      requestInProgress, remaining := false, 0;
    }

    /** A request for the room left, with the long-poll deadline, and all else as in `template`. */
    function Filled(template: ActivateJobsRequest): ActivateJobsRequest
      reads this
    {
      template.(
        maxJobsToActivate := Requested(config, State()),
        requestTimeout := LongPollingMillis(requestTimeout))
    }

    /** Fills in the request, and returns it as the spawned task will send it. */
    method ActivateJobs() returns (sent: ActivateJobsRequest)
      modifies this`request
      ensures request == old(Filled(request)) && sent == request
    {
      request := request.(maxJobsToActivate := AsI32(AsU32(config.max - remaining)));
      request := request.(requestTimeout := LongPollingMillis(requestTimeout));
      sent := request;
    }

    /** One turn of the loop. A spawned activation is returned to the runtime. */
    method Handle(m: PollMessage) returns (spawned: Option<ActivateJobsRequest>)
      modifies this
      ensures State() == HandleMessage(config, old(State()), m)
      ensures spawned.Some? <==> Activates(config, old(State()), m)
      ensures request == if spawned.Some? then old(Filled(request)) else old(request)
      ensures spawned.Some? ==> spawned.value == request
    {
      spawned := None;
      match m
      case JobsArrived(_, count) =>
        remaining := SaturatingAddU32(remaining, count);
      case JobFinished(_) =>
        remaining := SaturatingSubU32(remaining, 1);
      case FetchJobs =>
        if remaining <= config.threshold && !requestInProgress {
          requestInProgress := true;
          var sent := ActivateJobs();
          spawned := Some(sent);
        }
      case FetchJobsComplete(_) =>
        requestInProgress := false;
    }

    /** The poll: handle every message that is ready, then wait. */
    method Poll(ready: seq<PollMessage>) returns (spawned: seq<ActivateJobsRequest>)
      modifies this
      ensures State() == HandleAll(config, old(State()), ready)
      ensures |spawned| == |ActivationsOf(config, old(State()), ready)|
      ensures forall i :: 0 <= i < |spawned| ==>
                && spawned[i].maxJobsToActivate == ActivationsOf(config, old(State()), ready)[i]
                && spawned[i].requestTimeout == LongPollingMillis(requestTimeout)
    {
      spawned := [];
      ghost var before := State();
      for n := 0 to |ready|
        invariant State() == HandleAll(config, before, ready[..n])
        invariant |spawned| == |ActivationsOf(config, before, ready[..n])|
        invariant forall i :: 0 <= i < |spawned| ==>
                    && spawned[i].maxJobsToActivate == ActivationsOf(config, before, ready[..n])[i]
                    && spawned[i].requestTimeout == LongPollingMillis(requestTimeout)
      {
        assert ready[..n + 1][..n] == ready[..n];
        var activation := Handle(ready[n]);
        if activation.Some? {
          spawned := spawned + [activation.value];
        }
      }
      assert ready[..|ready|] == ready;
    }
  }
}

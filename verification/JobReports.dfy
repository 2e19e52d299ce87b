/**
 Completing and failing a job: the request builders of src/job.rs, and the choice
 the auto handler makes between them. Variables are their serialized JSON text.
 */
module JobReports {
  import opened Common

  datatype CompleteJobRequest = CompleteJobRequest(jobKey: int, variables: string)

  datatype FailJobRequest = FailJobRequest(jobKey: int, retries: int, errorMessage: string)

  /** A call that reached the gateway. */
  datatype GatewayCall =
    | CompleteJob(complete: CompleteJobRequest)
    | FailJob(fail: FailJobRequest)

  const KEY_MISSING := InvalidParameters("`job_key` must be set")

  /** The builder keeps a clone of the client; only the client's current job key matters to `Send`. */
  datatype CompleteJobBuilder = CompleteJobBuilder(
    clientKey: Option<int>,
    jobKey: Option<int>,
    variables: Option<string>)
  {
    static function New(clientKey: Option<int>): CompleteJobBuilder {
      CompleteJobBuilder(clientKey, None, None)
    }

    function WithJobKey(key: int): CompleteJobBuilder {
      this.(jobKey := Some(key))
    }

    function WithVariables(text: string): CompleteJobBuilder {
      this.(variables := Some(text))
    }

    function Send(): Result<CompleteJobRequest, Error> {
      if jobKey.None? && clientKey.None? then
        Err(KEY_MISSING)
      else
        Ok(CompleteJobRequest(Or(jobKey, clientKey).value, if variables.Some? then variables.value else ""))
    }
  }

  datatype FailJobBuilder = FailJobBuilder(
    clientKey: Option<int>,
    jobKey: Option<int>,
    retries: Option<nat>,
    errorMessage: Option<string>)
  {
    static function New(clientKey: Option<int>): FailJobBuilder {
      FailJobBuilder(clientKey, None, None, None)
    }

    function WithJobKey(key: int): FailJobBuilder {
      this.(jobKey := Some(key))
    }

    function WithRetries(count: nat): FailJobBuilder {
      this.(retries := Some(count))
    }

    function WithErrorMessage(message: string): FailJobBuilder {
      this.(errorMessage := Some(message))
    }

    /** The retry count is a u32 sent as an i32, so it wraps above I32_MAX. */
    function Send(): Result<FailJobRequest, Error> {
      if jobKey.None? && clientKey.None? then
        Err(KEY_MISSING)
      else
        Ok(FailJobRequest(
             Or(jobKey, clientKey).value,
             AsI32(if retries.Some? then retries.value else 0),
             if errorMessage.Some? then errorMessage.value else ""))
    }
  }

  /** Why a parameter cannot be had. `detail` is the parser's error as its own debug text. */
  datatype ExtractionError =
    | DeserializationError(detail: string)
    | MissingWorkerStateConfig

  /** What became of one auto-handled job: its parameters, or else the user's function, failed or not. */
  datatype Outcome =
    | ExtractionFailed(error: ExtractionError)
    | Completed(variables: string)
    | Failed(message: string)

  const EXTRACTION_MESSAGE := "variables do not deserialize to expected type: "

  /** The error as debug text. */
  function Describe(error: ExtractionError): string {
    match error
    case DeserializationError(detail) => "DeserializationError(" + detail + ")"
    case MissingWorkerStateConfig => "MissingWorkerStateConfig"
  }

  /** The one report the auto handler attempts, through a client whose current job key is `clientKey`. */
  function AutoReport(clientKey: Option<int>, outcome: Outcome): Result<GatewayCall, Error> {
    match outcome
    case Completed(variables) =>
      (match CompleteJobBuilder.New(clientKey).WithVariables(variables).Send()
       case Ok(r) => Ok(CompleteJob(r))
       case Err(e) => Err(e))
    case Failed(message) =>
      FailWith(clientKey, message)
    case ExtractionFailed(error) =>
      FailWith(clientKey, EXTRACTION_MESSAGE + Describe(error))
  }

  function FailWith(clientKey: Option<int>, message: string): Result<GatewayCall, Error> {
    match FailJobBuilder.New(clientKey).WithErrorMessage(message).Send()
    case Ok(r) => Ok(FailJob(r))
    case Err(e) => Err(e)
  }

  /**
   A key set on the builder wins over the client's; without either nothing is sent. What was not
   set is sent empty: no variables, no message, no retries.
   */
  lemma KeysAreChosen(complete: CompleteJobBuilder, fail: FailJobBuilder, key: int)
    ensures complete.WithJobKey(key).Send().Ok? && complete.WithJobKey(key).Send().value.jobKey == key
    ensures fail.WithJobKey(key).Send().Ok? && fail.WithJobKey(key).Send().value.jobKey == key
    ensures complete.jobKey == None && complete.clientKey == Some(key) ==>
              complete.Send().Ok? && complete.Send().value.jobKey == key
    ensures fail.jobKey == None && fail.clientKey == Some(key) ==> fail.Send().Ok? && fail.Send().value.jobKey == key
    ensures complete.Send() == Err(KEY_MISSING) <==> complete.jobKey == None && complete.clientKey == None
    ensures fail.Send() == Err(KEY_MISSING) <==> fail.jobKey == None && fail.clientKey == None
    ensures KEY_MISSING == InvalidParameters("`job_key` must be set")
    ensures CompleteJobBuilder.New(Some(key)).Send() == Ok(CompleteJobRequest(key, ""))
    ensures FailJobBuilder.New(Some(key)).Send() == Ok(FailJobRequest(key, 0, ""))
  {
  }

  /** The retry count arrives as set exactly when it is a non-negative i32; above, it arrives 2^32 less. */
  lemma RetriesAreKept(fail: FailJobBuilder, key: int, retries: nat)
    requires retries <= U32_MAX
    ensures fail.WithJobKey(key).WithRetries(retries).Send().value.retries == retries <==> retries <= 0x7FFF_FFFF
    ensures fail.WithJobKey(key).WithRetries(retries).Send().value.retries ==
            if retries <= 0x7FFF_FFFF then retries else retries - 0x1_0000_0000
  {
  }

  /** The call names the job, and completes it with the function's own result or else fails it with no retries left. */
  predicate Fulfils(call: Result<GatewayCall, Error>, key: int, outcome: Outcome) {
    match outcome
    case Completed(variables) =>
      call == Ok(CompleteJob(CompleteJobRequest(key, variables)))
    case Failed(message) =>
      call == Ok(FailJob(FailJobRequest(key, 0, message)))
    case ExtractionFailed(DeserializationError(detail)) =>
      call == Ok(FailJob(FailJobRequest(
                   key, 0, "variables do not deserialize to expected type: DeserializationError(" + detail + ")")))
    case ExtractionFailed(MissingWorkerStateConfig) =>
      call == Ok(FailJob(FailJobRequest(
                   key, 0, "variables do not deserialize to expected type: MissingWorkerStateConfig")))
  }

  lemma DeserializationText(detail: string)
    ensures EXTRACTION_MESSAGE + Describe(DeserializationError(detail)) ==
            "variables do not deserialize to expected type: DeserializationError(" + detail + ")"
  {
    assert EXTRACTION_MESSAGE + "DeserializationError(" ==
           "variables do not deserialize to expected type: DeserializationError(";
    assert EXTRACTION_MESSAGE + ("DeserializationError(" + detail + ")") ==
           EXTRACTION_MESSAGE + "DeserializationError(" + detail + ")";
  }

  lemma MissingStateText()
    ensures EXTRACTION_MESSAGE + Describe(MissingWorkerStateConfig) ==
            "variables do not deserialize to expected type: MissingWorkerStateConfig"
  {
  }

  /** The auto handler's report is sent exactly when its client is bound to a job, and then fulfils its outcome. */
  lemma AutoReportIsRight(clientKey: Option<int>, outcome: Outcome)
    ensures AutoReport(clientKey, outcome).Ok? <==> clientKey.Some?
    ensures clientKey.Some? ==> Fulfils(AutoReport(clientKey, outcome), clientKey.value, outcome)
  {
    if outcome.ExtractionFailed? {
      match outcome.error
      case DeserializationError(detail) => DeserializationText(detail);
      case MissingWorkerStateConfig => MissingStateText();
    }
  }
}

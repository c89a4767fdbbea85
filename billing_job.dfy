/**
 * The hand-written job: it reads `input.file`, reports its own status on the
 * execution and hands the execution to the job repository in every case.
 */
module Job {
  import opened Wrappers
  import Validation

  const JobName: string := "BillingJob"

  /** Spring Batch's batch status of an execution. */
  datatype BatchStatus = Starting | Started | Stopping | Stopped | Failed | Completed | Abandoned | Unknown

  /** An exit code with its description. */
  datatype ExitStatus = ExitStatus(exitCode: string, exitDescription: string)
  {
    /** The same exit code with `description` as its description. */
    function WithDescription(description: string): ExitStatus
    {
      ExitStatus(exitCode, description)
    }
  }

  const ExitUnknown: ExitStatus := ExitStatus("UNKNOWN", "")
  const ExitCompleted: ExitStatus := ExitStatus("COMPLETED", "")
  const ExitFailed: ExitStatus := ExitStatus("FAILED", "")

  /** An exception raised while the job reads its parameters. */
  datatype JobException = JobException(message: string)

  /**
   * What the body of `execute` raises before it sets the statuses: nothing, an
   * `Exception` (which the catch handles), or a `Throwable` that is not an
   * `Exception`, such as an `Error`, which skips the catch.
   */
  datatype Raised = NothingRaised | ExceptionRaised(exception: JobException) | ErrorRaised(message: string)
  {
    /** The exception the catch block receives, if it runs. */
    function Caught(): Option<JobException>
    {
      match this
      case ExceptionRaised(e) => Some(e)
      case _ => None
    }
  }

  /** What `execute` may change on an execution. */
  datatype ExecutionState = ExecutionState(
    status: BatchStatus,
    exitStatus: ExitStatus,
    failureExceptions: seq<JobException>)

  /**
   * The execution state `execute` leaves behind, given the state before and
   * the exception the body raised, if any. The batch status is COMPLETED on
   * both paths; only the exit status tells a failure apart.
   */
  function Finished(before: ExecutionState, raised: Option<JobException>): (after: ExecutionState)
    ensures after.status == Completed
    ensures after.exitStatus.exitCode == "COMPLETED" <==> raised.None?
    ensures after.exitStatus.exitCode == "FAILED" <==> raised.Some?
    ensures raised.None? ==> after.exitStatus.exitDescription == ""
    ensures raised.None? ==> after.failureExceptions == before.failureExceptions
    ensures raised.Some? ==> after.exitStatus.exitDescription == raised.value.message
    ensures raised.Some? ==> after.failureExceptions == before.failureExceptions + [raised.value]
  {
    match raised
    case None => ExecutionState(Completed, ExitCompleted, before.failureExceptions)
    case Some(e) => ExecutionState(Completed, ExitFailed.WithDescription(e.message), before.failureExceptions + [e])
  }

  class JobExecution {
    /** The run's parameters: read by the job, never changed. */
    const jobParameters: Validation.JobParameters
    var status: BatchStatus
    var exitStatus: ExitStatus
    var failureExceptions: seq<JobException>

    constructor (jobParameters: Validation.JobParameters)
      ensures this.jobParameters == jobParameters
      ensures State() == ExecutionState(Starting, ExitUnknown, [])
    {
      this.jobParameters := jobParameters;
      status := Starting;
      exitStatus := ExitUnknown;
      failureExceptions := [];
    }

    function State(): ExecutionState
      reads this
    {
      ExecutionState(status, exitStatus, failureExceptions)
    }

    method SetStatus(status: BatchStatus)
      modifies this
      ensures State() == old(State()).(status := status)
    {
      this.status := status;
    }

    method SetExitStatus(exitStatus: ExitStatus)
      modifies this
      ensures State() == old(State()).(exitStatus := exitStatus)
    {
      this.exitStatus := exitStatus;
    }

    method AddFailureException(exception: JobException)
      modifies this
      ensures State() == old(State()).(failureExceptions := old(failureExceptions) + [exception])
    {
      failureExceptions := failureExceptions + [exception];
    }
  }

  /** The job repository, seen through the execution states it has been asked to persist. */
  class JobRepository {
    var updates: seq<ExecutionState>

    constructor ()
      ensures updates == []
    {
      updates := [];
    }

    method Update(execution: JobExecution)
      modifies this
      ensures updates == old(updates) + [execution.State()]
    {
      updates := updates + [execution.State()];
    }
  }

  class BillingJob {
    const jobRepository: JobRepository

    constructor (jobRepository: JobRepository)
      ensures this.jobRepository == jobRepository
    {
      this.jobRepository := jobRepository;
    }

    function GetName(): (name: string)
      ensures name == "BillingJob"
    {
      JobName
    }

    /**
     * `execute`: `raised` is what reading the parameters throws, if anything.
     * Without a throw or on an `Exception`, it sets the statuses as `Finished`
     * says; a throwable that is not an `Exception` leaves them as they were and
     * leaves `execute`. In every case the `finally` persists the execution
     * exactly once, with the state it then has.
     */
    method Execute(execution: JobExecution, raised: Raised) returns (r: Outcome<string>)
      modifies execution, jobRepository
      ensures raised.ErrorRaised? ==> r == Fail(raised.message) && execution.State() == old(execution.State())
      ensures !raised.ErrorRaised? ==>
        r == Pass && execution.State() == Finished(old(execution.State()), raised.Caught())
      ensures jobRepository.updates == old(jobRepository.updates) + [execution.State()]
    {
      r := Pass;
      match raised {
        case NothingRaised =>
          var inputFile := if Validation.InputFileKey in execution.jobParameters
                           then Some(execution.jobParameters[Validation.InputFileKey]) else None;
          execution.SetStatus(Completed);
          execution.SetExitStatus(ExitCompleted);
        case ExceptionRaised(exception) =>
          execution.AddFailureException(exception);
          execution.SetStatus(Completed);
          execution.SetExitStatus(ExitFailed.WithDescription(exception.message));
        case ErrorRaised(message) =>
          r := Fail(message);
      }
      jobRepository.Update(execution);
    }
  }
}

/**
 * The stored records of yascheduler: jobs, executions and attempts, and the moves an execution may make.
 */
module StoreRecords {
  import opened Wrappers
  import opened ProtocolTypes
  import opened Schedules

  datatype ExecutionState =
    | Scheduled | Ready | WaitingExecutor | WaitingCompatible | WaitingLabel | Dispatching | Running | RetryWait
    | Succeeded | Failed | Cancelled | Skipped
  {
    predicate Terminal() {
      Succeeded? || Failed? || Cancelled? || Skipped?
    }

    // Holds a dispatch or run lease.
    predicate Leased() {
      Dispatching? || Running?
    }

    predicate Waiting() {
      WaitingExecutor? || WaitingCompatible? || WaitingLabel?
    }
  }

  datatype AttemptState =
    | Dispatched | Accepted | AttemptSucceeded | FunctionFailed | InfraFailed | Lost | AttemptCancelled
  {
    predicate Terminal() {
      !Dispatched? && !Accepted?
    }
  }

  function Targets(from: ExecutionState): set<ExecutionState> {
    match from
    case Scheduled => {Ready, Dispatching, WaitingExecutor, WaitingCompatible, WaitingLabel, Cancelled, Skipped}
    case Ready => {Dispatching, WaitingExecutor, WaitingCompatible, WaitingLabel, Cancelled, Skipped}
    case WaitingExecutor => {Ready, Dispatching, WaitingCompatible, WaitingLabel, Cancelled, Skipped}
    case WaitingCompatible => {Ready, Dispatching, WaitingExecutor, WaitingLabel, Cancelled, Skipped}
    case WaitingLabel => {Ready, Dispatching, WaitingExecutor, WaitingCompatible, Cancelled, Skipped}
    case Dispatching => {Running, Ready, WaitingExecutor, WaitingCompatible, WaitingLabel, Cancelled}
    case Running => {Succeeded, Failed, RetryWait, Ready, Cancelled}
    case RetryWait => {Dispatching, Ready, WaitingExecutor, WaitingCompatible, WaitingLabel, Cancelled}
    case Succeeded => {}
    case Failed => {}
    case Cancelled => {}
    case Skipped => {}
  }

  predicate CanTransition(from: ExecutionState, to: ExecutionState) {
    to in Targets(from)
  }

  // The shape of the table: settled states are final, a function outcome is reached only by running, running only by
  // dispatching, and a retry is never skipped.
  lemma TransitionShape(from: ExecutionState, to: ExecutionState)
    requires CanTransition(from, to)
    ensures !from.Terminal() && from != to
    ensures to == Running ==> from == Dispatching
    ensures to in {Succeeded, Failed, RetryWait} ==> from == Running
    ensures to == Skipped ==> from != RetryWait && !from.Leased()
    ensures to == Dispatching ==> !from.Leased()
  {
  }

  // Every unfinished state has a way on to a settled one, and every unleased one can be dispatched.
  lemma TransitionsReach(from: ExecutionState)
    requires !from.Terminal()
    ensures CanTransition(from, Cancelled)
    ensures !from.Leased() ==> CanTransition(from, Dispatching)
    ensures from == Ready || CanTransition(from, Ready)
  {
  }

  datatype JobScope = JobScope(executorType: ExecutorType, key: Bytes)

  datatype Job = Job(
    id: JobUUID, scope: JobScope, function_: FunctionSpec, schedule: ScheduleSpec, enabled: bool,
    backfill: BackfillSpec, retry: RetrySpec, overlap: uint8, pin: PinSpec, resultMode: uint8,
    submitter: InstanceID, skippedOccurrences: uint64, version: nat)

  datatype Execution = Execution(
    id: ExecutionID, jobID: JobUUID, scheduledAt: Instant, state: ExecutionState, functionAttempts: uint32,
    currentAttemptID: AttemptID, nextAttemptAt: Instant, leaseExpiresAt: Option<Instant>, backfilled: bool,
    version: nat, createdAt: Instant, updatedAt: Instant)

  datatype Attempt = Attempt(
    id: AttemptID, executionID: ExecutionID, number: uint32, instanceID: InstanceID, state: AttemptState,
    createdAt: Instant, updatedAt: Instant)
  {
    predicate Open() {
      !state.Terminal()
    }
  }

  // A partial update of one execution. A missing field leaves the stored value untouched.
  datatype ExecutionUpdate = ExecutionUpdate(
    state: Option<ExecutionState>, functionAttempts: Option<uint32>, currentAttemptID: Option<AttemptID>,
    nextAttemptAt: Option<Instant>, leaseExpiresAt: Option<Instant>)

  const NO_UPDATE := ExecutionUpdate(None, None, None, None, None)

  // An occurrence is identified by its job and its instant in nanoseconds, as an `int64`.
  datatype OccurrenceKey = OccurrenceKey(jobID: JobUUID, unixNano: int64)

  function OccurrenceOf(jobID: JobUUID, at: Instant): OccurrenceKey {
    OccurrenceKey(jobID, WrapInt64(at))
  }

  datatype StoreError = ExecutionNotFound | VersionConflict | TerminalState | IllegalTransition

  function OrKeep<T>(update: Option<T>, stored: T): T {
    if update.Some? then update.value else stored
  }
}

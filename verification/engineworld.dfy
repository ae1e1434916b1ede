/**
 * The scheduling engine as a state machine: everything stored, every registered executor, and the atomic steps that
 * the handlers and passes are made of.
 */
module EngineWorlds {
  import opened Wrappers
  import opened ProtocolTypes
  import opened Schedules
  import opened Materialization
  import opened Registries
  import opened StoreRecords

  datatype World = World(
    jobs: map<JobUUID, Job>, jobKeys: map<JobScope, JobUUID>,
    executions: map<ExecutionID, Execution>, occurrences: map<OccurrenceKey, ExecutionID>, lastExecutionID: ExecutionID,
    attempts: map<AttemptID, Attempt>, lastAttemptID: AttemptID,
    executors: map<InstanceID, Executor>)

  const EMPTY_WORLD := World(map[], map[], map[], map[], 0, map[], 0, map[])

  datatype Event =
    | PutJob(job: Job)
    | DropJob(jobID: JobUUID)
    | CountSkipped(jobID: JobUUID, count: nat)
    | Create(jobID: JobUUID, scheduledAt: Instant, backfilled: bool, at: Instant)
    | Move(id: ExecutionID, to: ExecutionState, next: Option<Instant>, at: Instant)
    | Dispatch(id: ExecutionID, instanceID: InstanceID, lease: Instant, at: Instant)
    | Accept(id: ExecutionID, lease: Instant, at: Instant)
    | Close(id: ExecutionID, verdict: AttemptState, to: ExecutionState, next: Option<Instant>, at: Instant)
    | Renew(id: ExecutionID, lease: Instant, at: Instant)
    | Purge(id: ExecutionID, at: Instant)
    | Join(instanceID: InstanceID, executor: Executor)
    | Leave(instanceID: InstanceID)
    | Relabel(instanceID: InstanceID, labels: set<Label>)

  function Updated(e: Execution, u: ExecutionUpdate, at: Instant): Execution {
    e.(state := OrKeep(u.state, e.state),
       functionAttempts := OrKeep(u.functionAttempts, e.functionAttempts),
       currentAttemptID := OrKeep(u.currentAttemptID, e.currentAttemptID),
       nextAttemptAt := OrKeep(u.nextAttemptAt, e.nextAttemptAt),
       leaseExpiresAt := if u.leaseExpiresAt.Some? then u.leaseExpiresAt else e.leaseExpiresAt,
       version := e.version + 1,
       updatedAt := at)
  }

  // The stored form of an upserted job: an existing job keeps its identity and its skip count.
  function StoredJob(jobs: map<JobUUID, Job>, jobKeys: map<JobScope, JobUUID>, job: Job): Job {
    if job.scope in jobKeys && jobKeys[job.scope] in jobs then
      var existing := jobs[jobKeys[job.scope]];
      job.(id := existing.id, skippedOccurrences := existing.skippedOccurrences, version := existing.version + 1)
    else job.(version := 1)
  }

  // Looking the key up comes to a stored job, if it comes to anything. The store crashes on a key that does not.
  predicate KeyResolves(jobs: map<JobUUID, Job>, jobKeys: map<JobScope, JobUUID>, scope: JobScope) {
    scope in jobKeys ==> jobKeys[scope] in jobs
  }

  // The skip count of a job grows, in 64 bits.
  function WithSkipped(jobs: map<JobUUID, Job>, jobID: JobUUID, count: nat): map<JobUUID, Job>
    requires jobID in jobs
  {
    jobs[jobID := jobs[jobID].(skippedOccurrences := (jobs[jobID].skippedOccurrences + count) % TWO_TO_64)]
  }

  // One more in 32 bits, where the largest count wraps to zero.
  function Increment32(n: uint32): uint32 {
    if n == TWO_TO_32 - 1 then 0 else n + 1
  }

  function MaxFunctionAttempts(retry: RetrySpec): uint32 {
    if retry.policy == RETRY_POLICY_NONE then 1
    else if retry.policy in {RETRY_POLICY_IMMEDIATE, RETRY_POLICY_FIXED, RETRY_POLICY_EXPONENTIAL} then
      Increment32(retry.maxRetries)
    else DEFAULT_MAX_RETRIES + 1
  }

  function ResolveOverlap(policy: uint8): uint8 {
    if policy == OVERLAP_POLICY_INHERIT then OVERLAP_POLICY_ALLOW else policy
  }

  function NextAttemptNumber(prior: nat): uint32 {
    if prior >= TWO_TO_32 - 1 then TWO_TO_32 - 1 else prior + 1
  }

  function AttemptsOf(attempts: map<AttemptID, Attempt>, id: ExecutionID): set<AttemptID> {
    set a | a in attempts && attempts[a].executionID == id
  }

  // Another execution of the job holds a lease.
  predicate HasActive(executions: map<ExecutionID, Execution>, jobID: JobUUID, exclude: ExecutionID) {
    exists id | id in executions :: id != exclude && executions[id].jobID == jobID && executions[id].state.Leased()
  }

  // The executors a dispatch of the job may choose among. A preferred pin widens to the pool when the label has none.
  predicate Eligible(executors: map<InstanceID, Executor>, job: Job, instanceID: InstanceID) {
    && instanceID in executors
    && executors[instanceID].Takes(job.scope.executorType, job.function_)
    && (job.pin.pinned == NO_LABEL
        || job.pin.pinned in executors[instanceID].labels
        || (job.pin.policy == PIN_POLICY_PREFERRED && !LabelHasTaker(executors, job)))
  }

  predicate LabelHasTaker(executors: map<InstanceID, Executor>, job: Job) {
    exists id | id in executors ::
      job.pin.pinned in executors[id].labels && executors[id].Takes(job.scope.executorType, job.function_)
  }

  function Released(executors: map<InstanceID, Executor>, instanceID: InstanceID, attemptID: AttemptID)
    : map<InstanceID, Executor>
  {
    if instanceID in executors then
      executors[instanceID := executors[instanceID].(inFlight := executors[instanceID].inFlight - {attemptID})]
    else executors
  }

  function Occupied(executors: map<InstanceID, Executor>, instanceID: InstanceID, attemptID: AttemptID)
    : map<InstanceID, Executor>
  {
    if instanceID in executors then
      executors[instanceID := executors[instanceID].(inFlight := executors[instanceID].inFlight + {attemptID})]
    else executors
  }

  function NewExecution(id: ExecutionID, jobID: JobUUID, scheduledAt: Instant, backfilled: bool, at: Instant): Execution
  {
    Execution(id, jobID, scheduledAt, Scheduled, 0, NO_ATTEMPT, scheduledAt, None, backfilled, 1, at, at)
  }

  function WithCreate(w: World, jobID: JobUUID, scheduledAt: Instant, backfilled: bool, at: Instant): World {
    var id := w.lastExecutionID + 1;
    w.(executions := w.executions[id := NewExecution(id, jobID, scheduledAt, backfilled, at)],
       occurrences := w.occurrences[OccurrenceOf(jobID, scheduledAt) := id],
       lastExecutionID := id)
  }

  // The claim, the new attempt, and the fence that makes it current.
  function WithDispatch(w: World, id: ExecutionID, instanceID: InstanceID, lease: Instant, at: Instant): World
    requires id in w.executions
  {
    var attemptID := w.lastAttemptID + 1;
    var claimed := Updated(w.executions[id], NO_UPDATE.(state := Some(Dispatching), leaseExpiresAt := Some(lease)), at);
    var number := NextAttemptNumber(|AttemptsOf(w.attempts, id)|);
    w.(executions := w.executions[id := Updated(claimed, NO_UPDATE.(currentAttemptID := Some(attemptID)), at)],
       attempts := w.attempts[attemptID := Attempt(attemptID, id, number, instanceID, AttemptState.Dispatched, at, at)],
       lastAttemptID := attemptID,
       executors := Occupied(w.executors, instanceID, attemptID))
  }

  function Consumed(e: Execution): uint32 {
    Increment32(e.functionAttempts)
  }

  function WithAccept(w: World, id: ExecutionID, lease: Instant, at: Instant): World
    requires id in w.executions && w.executions[id].currentAttemptID in w.attempts
  {
    var e := w.executions[id];
    w.(executions := w.executions[id := Updated(e,
         NO_UPDATE.(state := Some(Running), leaseExpiresAt := Some(lease), functionAttempts := Some(Consumed(e))), at)],
       attempts := WithState(w.attempts, e.currentAttemptID, AttemptState.Accepted, at))
  }

  function WithState(attempts: map<AttemptID, Attempt>, id: AttemptID, state: AttemptState, at: Instant)
    : map<AttemptID, Attempt>
    requires id in attempts
  {
    attempts[id := attempts[id].(state := state, updatedAt := at)]
  }

  // The current attempt ends with a verdict and gives its slot back, and the execution moves on.
  function WithClose(w: World, id: ExecutionID, verdict: AttemptState, to: ExecutionState, next: Option<Instant>,
                  at: Instant): World
    requires id in w.executions && w.executions[id].currentAttemptID in w.attempts
  {
    var e := w.executions[id];
    w.(executions := w.executions[id := Updated(e, NO_UPDATE.(state := Some(to), nextAttemptAt := next), at)],
       attempts := WithState(w.attempts, e.currentAttemptID, verdict, at),
       executors := Released(w.executors, w.attempts[e.currentAttemptID].instanceID, e.currentAttemptID))
  }

  // The guards under which the engine takes a step.
  ghost predicate Enabled(cfg: Config, w: World, e: Event) {
    match e
    case PutJob(job) => KeyResolves(w.jobs, w.jobKeys, job.scope)
    case DropJob(jobID) => jobID in w.jobs
    case CountSkipped(jobID, _) => jobID in w.jobs
    case Create(jobID, scheduledAt, _, _) => jobID in w.jobs && OccurrenceOf(jobID, scheduledAt) !in w.occurrences
    case Move(id, to, _, _) =>
      && id in w.executions
      && !w.executions[id].state.Leased() && !to.Leased()
      && (CanTransition(w.executions[id].state, to) || w.executions[id].state == to == Ready)
    case Dispatch(id, instanceID, lease, at) =>
      && id in w.executions
      && CanTransition(w.executions[id].state, Dispatching)
      && lease <= at + cfg.lease
      && w.executions[id].jobID in w.jobs
      && var job := w.jobs[w.executions[id].jobID];
      && job.enabled
      && (ResolveOverlap(job.overlap) == OVERLAP_POLICY_SKIP ==> !HasActive(w.executions, job.id, id))
      && Eligible(w.executors, job, instanceID)
    case Accept(id, lease, at) =>
      id in w.executions && w.executions[id].state == Dispatching && lease == at + cfg.lease
    case Close(id, verdict, to, next, _) =>
      && id in w.executions
      && CloseAllowed(w, w.executions[id], verdict, to)
    case Renew(id, lease, at) =>
      && id in w.executions && w.executions[id].state.Leased()
      && w.executions[id].currentAttemptID in w.attempts
      && lease == at + cfg.lease
      && Sub(at, w.attempts[w.executions[id].currentAttemptID].createdAt) < cfg.maxExecution
    case Purge(id, at) =>
      && id in w.executions && w.executions[id].state.Terminal()
      && w.executions[id].updatedAt < at - cfg.executionRetention
    case Join(instanceID, executor) => executor.inFlight == {}
    case Leave(instanceID) => true
    case Relabel(instanceID, _) => instanceID in w.executors
  }

  // How an attempt may end: refused or never sent, lost, succeeded, or failed with or without a retry left.
  ghost predicate CloseAllowed(w: World, e: Execution, verdict: AttemptState, to: ExecutionState) {
    match verdict
    case InfraFailed => e.state == Dispatching && (to == Ready || to == WaitingCompatible)
    case Lost => e.state.Leased() && to == Ready
    case AttemptSucceeded => e.state == Running && to == Succeeded
    case FunctionFailed =>
      && e.state == Running
      && (to == Failed
          || (to == RetryWait && e.jobID in w.jobs
              && e.functionAttempts < MaxFunctionAttempts(w.jobs[e.jobID].retry)))
    case _ => false
  }

  ghost function Step(w: World, e: Event): World {
    match e
    case PutJob(job) =>
      var stored := StoredJob(w.jobs, w.jobKeys, job);
      w.(jobs := w.jobs[stored.id := stored], jobKeys := w.jobKeys[job.scope := stored.id])
    case DropJob(jobID) =>
      if jobID in w.jobs then w.(jobs := w.jobs - {jobID}, jobKeys := w.jobKeys - {w.jobs[jobID].scope}) else w
    case CountSkipped(jobID, count) =>
      if jobID in w.jobs then w.(jobs := WithSkipped(w.jobs, jobID, count)) else w
    case Create(jobID, scheduledAt, backfilled, at) => WithCreate(w, jobID, scheduledAt, backfilled, at)
    case Move(id, to, next, at) =>
      if id in w.executions then
        w.(executions := w.executions[id :=
             Updated(w.executions[id], NO_UPDATE.(state := Some(to), nextAttemptAt := next), at)])
      else w
    case Dispatch(id, instanceID, lease, at) =>
      if id in w.executions then WithDispatch(w, id, instanceID, lease, at) else w
    case Accept(id, lease, at) =>
      if id in w.executions && w.executions[id].currentAttemptID in w.attempts then WithAccept(w, id, lease, at) else w
    case Close(id, verdict, to, next, at) =>
      if id in w.executions && w.executions[id].currentAttemptID in w.attempts
      then WithClose(w, id, verdict, to, next, at) else w
    case Renew(id, lease, at) =>
      if id in w.executions then
        w.(executions := w.executions[id := Updated(w.executions[id], NO_UPDATE.(leaseExpiresAt := Some(lease)), at)])
      else w
    case Purge(id, _) =>
      if id in w.executions then
        w.(executions := w.executions - {id},
           occurrences := w.occurrences - {OccurrenceOf(w.executions[id].jobID, w.executions[id].scheduledAt)},
           attempts := w.attempts - AttemptsOf(w.attempts, id))
      else w
    case Join(instanceID, executor) => w.(executors := w.executors[instanceID := executor])
    case Leave(instanceID) => w.(executors := w.executors - {instanceID})
    case Relabel(instanceID, labels) =>
      if instanceID in w.executors then
        w.(executors := w.executors[instanceID := w.executors[instanceID].(labels := labels)])
      else w
  }
}

/**
 * What the queries, handlers and passes of the engine come to, field by field and with every constant written out. None
 * of it is used to do the work: the store and the engine are proved to do exactly this.
 */
module RecordMeanings {
  import opened Wrappers
  import opened ProtocolTypes
  import opened Schedules
  import opened Materialization
  import opened Registries
  import opened StoreRecords
  import opened EngineWorlds

  ghost predicate Finished(e: Execution) {
    e.state == Succeeded || e.state == Failed || e.state == Cancelled || e.state == Skipped
  }

  ghost predicate WithExecutor(e: Execution) {
    e.state == Dispatching || e.state == Running
  }

  ghost predicate Parked(e: Execution) {
    e.state == WaitingExecutor || e.state == WaitingCompatible || e.state == WaitingLabel
  }

  ghost predicate Undecided(a: Attempt) {
    a.state == AttemptState.Dispatched || a.state == AttemptState.Accepted
  }

  // The execution after a move, without and with an instant at which it is due again.
  ghost function NowIn(e: Execution, state: ExecutionState, now: Instant): Execution {
    e.(state := state, version := e.version + 1, updatedAt := now)
  }

  ghost function NowInUntil(e: Execution, state: ExecutionState, due: Instant, now: Instant): Execution {
    e.(state := state, nextAttemptAt := due, version := e.version + 1, updatedAt := now)
  }

  ghost function RequeuedAt(now: Instant): Execution -> Execution {
    (e: Execution) => NowInUntil(e, Ready, now, now)
  }

  ghost function CancelledAt(now: Instant): Execution -> Execution {
    (e: Execution) => NowIn(e, Cancelled, now)
  }

  // Every execution, attempt or executor but one is as it was.
  ghost function WithExecution(w: World, e: Execution): World {
    w.(executions := w.executions[e.id := e])
  }

  ghost function WithAttemptIn(w: World, a: AttemptID, state: AttemptState, now: Instant): World
    requires a in w.attempts
  {
    w.(attempts := w.attempts[a := w.attempts[a].(state := state, updatedAt := now)])
  }

  ghost function WithoutSlot(w: World, x: InstanceID, a: AttemptID): World {
    if x in w.executors then
      w.(executors := w.executors[x := w.executors[x].(inFlight := w.executors[x].inFlight - {a})])
    else w
  }

  // --- Moves

  // The moves an execution may make, by where they lead.
  ghost predicate MayMove(from: ExecutionState, to: ExecutionState) {
    && from != Succeeded && from != Failed && from != Cancelled && from != Skipped
    && match to
       case Scheduled => false
       case Ready => from != Ready
       case WaitingExecutor => from != Running && from != WaitingExecutor
       case WaitingCompatible => from != Running && from != WaitingCompatible
       case WaitingLabel => from != Running && from != WaitingLabel
       case Dispatching => from != Dispatching && from != Running
       case Running => from == Dispatching
       case RetryWait => from == Running
       case Succeeded => from == Running
       case Failed => from == Running
       case Cancelled => true
       case Skipped => from != Dispatching && from != Running && from != RetryWait
  }

  lemma TableIs(from: ExecutionState, to: ExecutionState)
    ensures CanTransition(from, to) <==> MayMove(from, to)
  {
  }

  ghost function WithFields(e: Execution, u: ExecutionUpdate, now: Instant): Execution {
    e.(state := if u.state.Some? then u.state.value else e.state,
       functionAttempts := if u.functionAttempts.Some? then u.functionAttempts.value else e.functionAttempts,
       currentAttemptID := if u.currentAttemptID.Some? then u.currentAttemptID.value else e.currentAttemptID,
       nextAttemptAt := if u.nextAttemptAt.Some? then u.nextAttemptAt.value else e.nextAttemptAt,
       leaseExpiresAt := if u.leaseExpiresAt.Some? then u.leaseExpiresAt else e.leaseExpiresAt,
       version := e.version + 1, updatedAt := now)
  }

  // What a partial update comes to: a change of state is one the table has, and nothing is written under an old
  // version.
  ghost predicate AfterUpdate(e: Execution, expectedVersion: nat, u: ExecutionUpdate, now: Instant,
                              r: Result<Execution, StoreError>)
  {
    var moves := u.state.Some? && u.state.value != e.state;
    r == if e.version != expectedVersion then Err(VersionConflict)
         else if moves && Finished(e) then Err(TerminalState)
         else if moves && !MayMove(e.state, u.state.value) then Err(IllegalTransition)
         else Ok(WithFields(e, u, now))
  }

  // --- Queries

  // An occurrence whose instant has come, or an execution that is ready or waits for a retry and whose delay is over.
  ghost predicate ComesDue(e: Execution, now: Instant) {
    || (e.state == Scheduled && e.scheduledAt <= now)
    || (e.state == Ready && e.nextAttemptAt <= now)
    || (e.state == RetryWait && e.nextAttemptAt <= now)
  }

  ghost predicate ScheduledFirst(a: Execution, b: Execution) {
    a.scheduledAt < b.scheduledAt || (a.scheduledAt == b.scheduledAt && a.id < b.id)
  }

  ghost predicate SettledFirst(a: Execution, b: Execution) {
    a.updatedAt < b.updatedAt || (a.updatedAt == b.updatedAt && a.id < b.id)
  }

  // Exactly what is due, in the order of the instants it is scheduled for, or as much of that as a positive limit.
  ghost predicate DueBatch(executions: map<ExecutionID, Execution>, now: Instant, limit: nat, batch: seq<Execution>) {
    && (forall e | e in batch :: e.id in executions && executions[e.id] == e && ComesDue(e, now))
    && (forall i, j | 0 <= i < j < |batch| :: ScheduledFirst(batch[i], batch[j]))
    && (limit > 0 ==> |batch| <= limit)
    && (forall id | id in executions && ComesDue(executions[id], now) && executions[id] !in batch ::
          limit > 0 && |batch| == limit && forall e | e in batch :: ScheduledFirst(e, executions[id]))
  }

  // Exactly what settled before an instant, in the order in which it did, or as much of that as a positive limit.
  ghost predicate SettledBatch(executions: map<ExecutionID, Execution>, before: Instant, limit: nat,
                               batch: seq<Execution>)
  {
    && (forall e | e in batch :: e.id in executions && executions[e.id] == e && Finished(e) && e.updatedAt < before)
    && (forall i, j | 0 <= i < j < |batch| :: SettledFirst(batch[i], batch[j]))
    && (limit > 0 ==> |batch| <= limit)
    && (forall id | id in executions && Finished(executions[id]) && executions[id].updatedAt < before
                    && executions[id] !in batch ::
          limit > 0 && |batch| == limit && forall e | e in batch :: SettledFirst(e, executions[id]))
  }

  // --- Answers and results of executors

  // Who speaks is the instance that the current attempt of the execution was sent to.
  ghost predicate Heard(w: World, instanceID: InstanceID, executionID: ExecutionID, attemptID: AttemptID) {
    && executionID in w.executions && w.executions[executionID].currentAttemptID == attemptID
    && attemptID in w.attempts && w.attempts[attemptID].instanceID == instanceID
  }

  // An accepted request runs under a new lease and has consumed one attempt more, in 32 bits. A refused one fails by no
  // fault of the function, and its execution waits for a compatible executor if the function is unknown (code 6) or
  // incompatible (code 7) there; otherwise it is due again after a delay.
  ghost predicate AfterAnswer(cfg: Config, w: World, w': World, instanceID: InstanceID, executionID: ExecutionID,
                              attemptID: AttemptID, accepted: bool, error: Option<WireError>, now: Instant)
  {
    if !Heard(w, instanceID, executionID, attemptID) then w' == w
    else
      var e := w.executions[executionID];
      if accepted then
        if e.state != Dispatching then w' == w
        else
          w' == WithAttemptIn(
            WithExecution(w, e.(state := Running, leaseExpiresAt := Some(now + cfg.lease),
                                functionAttempts := (e.functionAttempts + 1) % 0x1_0000_0000,
                                version := e.version + 1, updatedAt := now)),
            attemptID, AttemptState.Accepted, now)
      else if w.attempts[attemptID].state != AttemptState.Dispatched then w' == w
      else
        var unsuitable := error.Some? && (error.value.code == 6 || error.value.code == 7);
        w' == WithoutSlot(
          WithAttemptIn(
            WithExecution(w, if unsuitable then NowIn(e, WaitingCompatible, now)
                             else NowInUntil(e, Ready, now + cfg.redispatchDelay, now)),
            attemptID, InfraFailed, now),
          instanceID, attemptID)
  }

  // How many attempts a job may consume: one, or one more than its retries in 32 bits, or four.
  ghost function Allowed(retry: RetrySpec): uint32 {
    if retry.policy == 1 then 1
    else if retry.policy == 2 || retry.policy == 3 || retry.policy == 4 then (retry.maxRetries + 1) % 0x1_0000_0000
    else 4
  }

  // A failure is tried again if its error says that it may be, its job is still there, and an attempt is left.
  ghost predicate TriedAgain(w: World, e: Execution, error: Option<WireError>) {
    && error.Some? && error.value.retryable
    && e.jobID in w.jobs && e.functionAttempts < Allowed(w.jobs[e.jobID].retry)
  }

  ghost predicate ResultCounts(w: World, instanceID: InstanceID, executionID: ExecutionID, attemptID: AttemptID) {
    Heard(w, instanceID, executionID, attemptID) && w.executions[executionID].state == Running
  }

  // A result ends the attempt and gives its slot back. The execution succeeds, waits for a retry, or fails for good.
  ghost predicate AfterResult(w: World, w': World, instanceID: InstanceID, executionID: ExecutionID,
                              attemptID: AttemptID, success: bool, error: Option<WireError>, delay: Duration,
                              now: Instant)
  {
    if !ResultCounts(w, instanceID, executionID, attemptID) then w' == w
    else
      var e := w.executions[executionID];
      w' == WithoutSlot(
        WithAttemptIn(
          WithExecution(w, if success then NowIn(e, Succeeded, now)
                           else if TriedAgain(w, e, error) then NowInUntil(e, RetryWait, now + delay, now)
                           else NowIn(e, Failed, now)),
          attemptID, if success then AttemptSucceeded else FunctionFailed, now),
        instanceID, attemptID)
  }

  // The job is there and asks for outcomes to be delivered.
  ghost predicate WantsOutcome(w: World, e: Execution) {
    e.jobID in w.jobs && w.jobs[e.jobID].resultMode == 1
  }

  // --- Leases

  // The lease has elapsed or was never set.
  ghost predicate LeaseOver(e: Execution, now: Instant) {
    WithExecutor(e) && (e.leaseExpiresAt == None || e.leaseExpiresAt.value <= now)
  }

  ghost function LeasesOver(executions: map<ExecutionID, Execution>, now: Instant): set<ExecutionID> {
    set id | id in executions && LeaseOver(executions[id], now)
  }

  // The attempt is open at the instance.
  ghost predicate OpenAt(w: World, a: AttemptID, instanceID: InstanceID) {
    a in w.attempts && w.attempts[a].instanceID == instanceID && Undecided(w.attempts[a])
  }

  // The executions whose attempts are open at the instance.
  ghost function HeldBy(w: World, instanceID: InstanceID): set<ExecutionID> {
    set a | a in w.attempts && OpenAt(w, a, instanceID) :: w.attempts[a].executionID
  }

  // The executions given up are due again at once, and their current attempts are lost and give their slots back.
  ghost predicate AfterLosing(w: World, w': World, lost: set<ExecutionID>, now: Instant) {
    && w' == w.(executions := w'.executions, attempts := w'.attempts, executors := w'.executors)
    && w'.executions.Keys == w.executions.Keys && w'.attempts.Keys == w.attempts.Keys
    && (forall id | id in w.executions ::
          w'.executions[id] == if id in lost then NowInUntil(w.executions[id], Ready, now, now) else w.executions[id])
    && (forall a | a in w.attempts ::
          w'.attempts[a] == if CurrentOf(w, a, lost) then w.attempts[a].(state := Lost, updatedAt := now)
                            else w.attempts[a])
    && w'.executors.Keys == w.executors.Keys
    && (forall x | x in w.executors :: w'.executors[x] == WithoutSlots(w, w.executors[x], lost))
  }

  ghost function WithoutSlots(w: World, x: Executor, lost: set<ExecutionID>): Executor {
    x.(inFlight := set a | a in x.inFlight && !CurrentOf(w, a, lost))
  }

  ghost predicate CurrentOf(w: World, a: AttemptID, ids: set<ExecutionID>) {
    exists id :: id in ids && id in w.executions && w.executions[id].currentAttemptID == a
  }

  // A heartbeat renews the lease behind every open attempt of the instance that is within the execution limit.
  ghost predicate AfterHeartbeat(cfg: Config, w: World, w': World, instanceID: InstanceID, now: Instant) {
    && w' == w.(executions := w'.executions) && w'.executions.Keys == w.executions.Keys
    && (forall id | id in w.executions ::
          w'.executions[id] ==
          if RenewalDue(cfg, w, id, instanceID, now) then
            w.executions[id].(leaseExpiresAt := Some(now + cfg.lease), version := w.executions[id].version + 1,
                              updatedAt := now)
          else w.executions[id])
  }

  ghost predicate RenewalDue(cfg: Config, w: World, id: ExecutionID, instanceID: InstanceID, now: Instant) {
    exists a :: OpenAt(w, a, instanceID) && w.attempts[a].executionID == id &&
                now - w.attempts[a].createdAt < cfg.maxExecution
  }

  // --- Dispatching

  // An executor that can be handed work of the job now: one that announces its label if it is pinned, or any if it is
  // not or if its pin is a preference (policy 1) that nobody who announces the label can meet.
  ghost predicate CanGet(executors: map<InstanceID, Executor>, job: Job, x: InstanceID) {
    && x in executors && Serves(executors[x], job.scope.executorType, job.function_)
    && (job.pin.pinned.name == [] || job.pin.pinned in executors[x].labels
        || (job.pin.policy == 1
            && forall y | y in executors && job.pin.pinned in executors[y].labels ::
                 !Serves(executors[y], job.scope.executorType, job.function_)))
  }

  // The guard of a dispatch says the same.
  lemma EligibleIffCanGet(executors: map<InstanceID, Executor>, job: Job)
    ensures forall x :: Eligible(executors, job, x) <==> CanGet(executors, job, x)
  {
    var t, spec := job.scope.executorType, job.function_;
    forall y | y in executors ensures executors[y].Takes(t, spec) <==> Serves(executors[y], t, spec) {
      TakesIffServes(executors[y], t, spec);
    }
    hide Serves, Executor.Takes;
    assert job.pin.pinned == NO_LABEL <==> job.pin.pinned.name == [];
  }

  // Where an execution goes that nobody can take: a strict pin whose label no live executor announces waits for that; a
  // job without a live executor of its type for one; if one of those runs the function it is tried again after a delay;
  // else it waits for one that does.
  ghost function AsParked(cfg: Config, executors: map<InstanceID, Executor>, job: Job, e: Execution, now: Instant)
    : Execution
  {
    if job.pin.pinned.name != [] && job.pin.policy != 1
       && !exists x :: x in executors && !executors[x].closed && job.pin.pinned in executors[x].labels
    then NowIn(e, WaitingLabel, now)
    else if !exists x :: x in executors && !executors[x].closed && executors[x].executorType == job.scope.executorType
    then NowIn(e, WaitingExecutor, now)
    else if exists x :: && x in executors && !executors[x].closed
                        && executors[x].executorType == job.scope.executorType && Runs(executors[x], job.function_)
    then NowInUntil(e, Ready, now + cfg.redispatchDelay, now)
    else NowIn(e, WaitingCompatible, now)
  }

  // Another execution of the job is with an executor.
  ghost predicate Overlaps(executions: map<ExecutionID, Execution>, e: Execution) {
    exists id :: id in executions && id != e.id && executions[id].jobID == e.jobID && WithExecutor(executions[id])
  }

  // The occurrence after an instant is stored, and is new unless it was stored already.
  ghost predicate NextAdded(w: World, w': World, job: Job, after: Instant, now: Instant) {
    match NextOccurrence(job.schedule, after)
    case None => w' == w
    case Some(t) =>
      var key := OccurrenceKey(job.id, WrapInt64(t));
      var id := w.lastExecutionID + 1;
      w' == if key in w.occurrences then w
            else
              var e := Execution(id, job.id, t, Scheduled, 0, 0, t, None, false, 1, now, now);
              w.(executions := w.executions[id := e], occurrences := w.occurrences[key := id], lastExecutionID := id)
  }

  // The next attempt of the execution is numbered in 32 bits that do not wrap.
  ghost function NumberAfter(w: World, id: ExecutionID): uint32 {
    var prior := |set a | a in w.attempts && w.attempts[a].executionID == id|;
    if prior < 0xFFFF_FFFF then prior + 1 else 0xFFFF_FFFF
  }

  // The execution is with an executor, under a lease, by a new attempt.
  ghost function Delivered(w: World, e: Execution, x: InstanceID, lease: Instant, now: Instant): World
    requires x in w.executors
  {
    var a := w.lastAttemptID + 1;
    w.(executions := w.executions[e.id := e.(state := Dispatching, leaseExpiresAt := Some(lease), currentAttemptID := a,
                                             version := e.version + 2, updatedAt := now)],
       attempts := w.attempts[a := Attempt(a, e.id, NumberAfter(w, e.id), x, AttemptState.Dispatched, now, now)],
       lastAttemptID := a,
       executors := w.executors[x := w.executors[x].(inFlight := w.executors[x].inFlight + {a})])
  }

  // What dispatching one due execution does.
  ghost predicate AfterDispatch(cfg: Config, w: World, w': World, e: Execution, started: Instant, now: Instant,
                                full: bool)
  {
    if e.jobID !in w.jobs || !w.jobs[e.jobID].enabled then w' == WithExecution(w, NowIn(e, Cancelled, now))
    else
      var job := w.jobs[e.jobID];
      if job.overlap == 2 && Overlaps(w.executions, e) then
        NextAdded(if e.state == RetryWait then w else WithExecution(w, NowIn(e, Skipped, now)), w', job, e.scheduledAt,
                  now)
      else if forall x :: !CanGet(w.executors, job, x) then
        w' == WithExecution(w, AsParked(cfg, w.executors, job, e, now))
      else
        exists x :: CanGet(w.executors, job, x) && AfterDelivery(cfg, w, w', job, e, x, started, now, full)
  }

  // The request is queued and the next occurrence stored; or it cannot be queued, and the attempt is withdrawn.
  ghost predicate AfterDelivery(cfg: Config, w: World, w': World, job: Job, e: Execution, x: InstanceID,
                                started: Instant, now: Instant, full: bool)
    requires x in w.executors
  {
    var mid := Delivered(w, e, x, started + cfg.lease, now);
    if full then
      w' == WithoutSlot(
        WithAttemptIn(WithExecution(mid, NowInUntil(mid.executions[e.id], Ready, now + cfg.redispatchDelay, now)),
                      mid.lastAttemptID, InfraFailed, now),
        x, mid.lastAttemptID)
    else NextAdded(mid, w', job, e.scheduledAt, now)
  }

  // A retry that waits because another execution of its job is with an executor.
  ghost predicate HeldBack(jobs: map<JobUUID, Job>, executions: map<ExecutionID, Execution>, e: Execution) {
    e.state == RetryWait && e.jobID in jobs && jobs[e.jobID].overlap == 2 && Overlaps(executions, e)
  }

  // --- Waiting

  // The job of a parked execution has the type, and its label is among these if the execution waits for one.
  ghost predicate Awaits(jobs: map<JobUUID, Job>, e: Execution, executorType: ExecutorType, labels: set<Label>) {
    && Parked(e) && e.jobID in jobs && jobs[e.jobID].scope.executorType == executorType
    && (e.state == WaitingLabel ==> jobs[e.jobID].pin.pinned in labels)
  }

  ghost predicate AwaitsAny(jobs: map<JobUUID, Job>, executors: map<InstanceID, Executor>, e: Execution) {
    && Parked(e) && e.jobID in jobs
    && exists x :: && x in executors && !executors[x].closed
                   && executors[x].executorType == jobs[e.jobID].scope.executorType
  }

  // --- Job definitions

  ghost predicate Unassigned(e: Execution) {
    !Finished(e) && !WithExecutor(e)
  }

  // The definition is enabled and names the instant, no further from its start than a duration reaches.
  ghost predicate StillNamed(job: Job, t: Instant) {
    job.enabled && Schedules.Scheduled(job.schedule, t) && t - job.schedule.startUnixNano <= 0x7FFF_FFFF_FFFF_FFFF
  }

  // What is wrong with a definition, in the order in which it is looked for.
  ghost predicate Malformed(job: Job) {
    || (forall i | 0 <= i < 16 :: job.id.raw[i] == 0)
    || job.scope.key == [] || job.scope.executorType.name == [] || job.function_.name == []
    || (job.schedule.kind != 1 && job.schedule.kind != 2)
    || (job.schedule.kind == 2 &&
        (job.schedule.intervalMillis == 0 || job.schedule.intervalMillis > 9_223_372_036_854))
  }

  // A definition is stored under the identity its scope has already, with its skip count and a later version, or else
  // as a new job. Of a job that was there, exactly the unassigned occurrences that the definition does not name are
  // cancelled; no other execution that existed changes.
  ghost predicate AfterUpsert(w: World, w': World, job: Job, now: Instant) {
    var known := job.scope in w.jobKeys && w.jobKeys[job.scope] in w.jobs;
    var id := if known then w.jobKeys[job.scope] else job.id;
    && w'.jobKeys == w.jobKeys[job.scope := id]
    && id in w'.jobs && w'.jobs == w.jobs[id := w'.jobs[id]]
    && w'.jobs[id] == job.(id := id, skippedOccurrences := w'.jobs[id].skippedOccurrences,
                           version := w'.jobs[id].version)
    && (known ==> w'.jobs[id].version > w.jobs[id].version)
    && (!job.enabled ==>
          w'.jobs[id].skippedOccurrences == if known then w.jobs[id].skippedOccurrences else job.skippedOccurrences)
    && (forall x | x in w.executions ::
          && x in w'.executions
          && var e := w.executions[x];
             w'.executions[x] ==
             if known && e.jobID == id && Unassigned(e) && !StillNamed(job, e.scheduledAt) then NowIn(e, Cancelled, now)
             else e)
    && (!job.enabled ==> w'.executions.Keys == w.executions.Keys)
    && w'.attempts == w.attempts && w'.executors == w.executors
  }

  // The job goes with its key, and exactly its unassigned occurrences are cancelled.
  ghost predicate AfterDelete(w: World, w': World, id: JobUUID, now: Instant)
    requires id in w.jobs
  {
    && w' == w.(jobs := w.jobs - {id}, jobKeys := w.jobKeys - {w.jobs[id].scope}, executions := w'.executions)
    && w'.executions.Keys == w.executions.Keys
    && (forall x | x in w.executions ::
          var e := w.executions[x];
          w'.executions[x] == if e.jobID == id && Unassigned(e) then NowIn(e, Cancelled, now) else e)
  }
}

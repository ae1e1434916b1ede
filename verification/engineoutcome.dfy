/**
 * What each handler and pass of the engine does, as steps: which steps, what they make of the records, and what a pass
 * over many executions adds up to.
 */
module EngineOutcomes {
  import opened Wrappers
  import opened ProtocolTypes
  import opened Schedules
  import opened Materialization
  import opened Registries
  import opened StoreRecords
  import opened EngineWorlds
  import opened EngineInvariants
  import opened EngineRuns
  import opened JobKeys
  import opened MemStores
  import opened RecordMeanings

  // An executor's answer to a request, and its later report.
  datatype ExecAccept = ExecAccept(
    executionID: ExecutionID, attemptID: AttemptID, accepted: bool, error: Option<WireError>)

  datatype ExecResult = ExecResult(
    executionID: ExecutionID, attemptID: AttemptID, success: bool, error: Option<WireError>)

  type Occurrences = map<OccurrenceKey, ExecutionID>

  // The attempt an executor speaks about is current and was delivered to it.
  predicate Speaks(w: World, instanceID: InstanceID, executionID: ExecutionID, attemptID: AttemptID) {
    && executionID in w.executions
    && w.executions[executionID].currentAttemptID == attemptID
    && attemptID in w.attempts
    && w.attempts[attemptID].instanceID == instanceID
  }

  predicate Incompatible(accept: ExecAccept) {
    && accept.error.Some?
    && (accept.error.value.code == ERROR_CODE_UNKNOWN_FUNCTION
        || accept.error.value.code == ERROR_CODE_INCOMPATIBLE_FUNCTION)
  }

  // An answer counts only from the owner of the current attempt, and only before another answer.
  function AcceptEvents(cfg: Config, w: World, instanceID: InstanceID, accept: ExecAccept, now: Instant): seq<Event> {
    if !Speaks(w, instanceID, accept.executionID, accept.attemptID) then []
    else if accept.accepted then
      if w.executions[accept.executionID].state == Dispatching then
        [Event.Accept(accept.executionID, now + cfg.lease, now)]
      else []
    else if !w.attempts[accept.attemptID].state.Dispatched? then []
    else [Rejection(cfg, accept.executionID, accept, now)]
  }

  // A refusal for an unsuitable function waits for a compatible executor, any other is tried again after a delay.
  function Rejection(cfg: Config, id: ExecutionID, accept: ExecAccept, now: Instant): (e: Event)
    ensures e.Close?
  {
    if Incompatible(accept) then Close(id, InfraFailed, WaitingCompatible, None, now)
    else Close(id, InfraFailed, Ready, Some(now + cfg.redispatchDelay), now)
  }

  predicate RetriesLeft(w: World, result: ExecResult, e: Execution) {
    && result.error.Some? && result.error.value.retryable
    && e.jobID in w.jobs
    && e.functionAttempts < MaxFunctionAttempts(w.jobs[e.jobID].retry)
  }

  // A report counts only from the owner of the current attempt of a running execution.
  function ResultEvents(w: World, instanceID: InstanceID, result: ExecResult, delay: Duration, now: Instant): seq<Event>
  {
    if !Speaks(w, instanceID, result.executionID, result.attemptID) then []
    else
      var e := w.executions[result.executionID];
      if e.state != Running then []
      else if result.success then [Close(e.id, AttemptSucceeded, Succeeded, None, now)]
      else if RetriesLeft(w, result, e) then [Close(e.id, FunctionFailed, RetryWait, Some(now + delay), now)]
      else [Close(e.id, FunctionFailed, Failed, None, now)]
  }

  // What the end of an attempt and the acceptance of one come to.
  lemma CloseComesTo(w: World, id: ExecutionID, verdict: AttemptState, to: ExecutionState, next: Option<Instant>,
                     now: Instant)
    requires id in w.executions && w.executions[id].id == id && w.executions[id].currentAttemptID in w.attempts
    ensures var e := w.executions[id];
            Step(w, Close(id, verdict, to, next, now)) ==
            WithoutSlot(
              WithAttemptIn(WithExecution(w, if next.Some? then NowInUntil(e, to, next.value, now)
                                             else NowIn(e, to, now)),
                            e.currentAttemptID, verdict, now),
              w.attempts[e.currentAttemptID].instanceID, e.currentAttemptID)
  {
  }

  lemma AcceptComesTo(w: World, id: ExecutionID, lease: Instant, now: Instant)
    requires id in w.executions && w.executions[id].id == id && w.executions[id].currentAttemptID in w.attempts
    ensures var e := w.executions[id];
            Step(w, Event.Accept(id, lease, now)) ==
            WithAttemptIn(
              WithExecution(w, e.(state := Running, leaseExpiresAt := Some(lease),
                                  functionAttempts := (e.functionAttempts + 1) % 0x1_0000_0000,
                                  version := e.version + 1, updatedAt := now)),
              e.currentAttemptID, AttemptState.Accepted, now)
  {
  }

  // An answer comes to this.
  lemma AnswerMeans(cfg: Config, w: World, instanceID: InstanceID, accept: ExecAccept, now: Instant)
    requires Inv(cfg, w)
    ensures forall w' | Did(cfg, w, AcceptEvents(cfg, w, instanceID, accept, now), w') ::
              AfterAnswer(cfg, w, w', instanceID, accept.executionID, accept.attemptID, accept.accepted, accept.error,
                          now)
  {
    hide Did, AfterAnswer, AcceptEvents, AfterFrom;
    forall w' | Did(cfg, w, AcceptEvents(cfg, w, instanceID, accept, now), w')
      ensures AfterAnswer(cfg, w, w', instanceID, accept.executionID, accept.attemptID, accept.accepted, accept.error,
                          now)
    {
      DidIs(cfg, w, AcceptEvents(cfg, w, instanceID, accept, now), w');
      AnswerComesTo(cfg, w, instanceID, accept, now);
    }
  }

  lemma AnswerComesTo(cfg: Config, w: World, instanceID: InstanceID, accept: ExecAccept, now: Instant)
    requires Inv(cfg, w)
    ensures AfterAnswer(cfg, w, AfterFrom(w, AcceptEvents(cfg, w, instanceID, accept, now)), instanceID,
                        accept.executionID, accept.attemptID, accept.accepted, accept.error, now)
  {
    hide AfterFrom, Inv, Step, WithAttemptIn, WithExecution, WithoutSlot, NowIn, NowInUntil;
    if Heard(w, instanceID, accept.executionID, accept.attemptID) {
      Identified(cfg, w, accept.executionID);
      AcceptComesTo(w, accept.executionID, now + cfg.lease, now);
      var refused := Rejection(cfg, accept.executionID, accept, now);
      CloseComesTo(w, accept.executionID, InfraFailed, refused.to, refused.next, now);
    }
    var events := AcceptEvents(cfg, w, instanceID, accept, now);
    AfterTwo(w, if events == [] then Leave(instanceID) else events[0], Leave(instanceID));
    assert events == [] || events == [events[0]];
  }

  // A result comes to this, and is counted and captured by what it comes to.
  lemma ResultMeans(cfg: Config, w: World, instanceID: InstanceID, result: ExecResult, delay: Duration, now: Instant)
    requires Inv(cfg, w)
    ensures forall w' | Did(cfg, w, ResultEvents(w, instanceID, result, delay, now), w') ::
              AfterResult(w, w', instanceID, result.executionID, result.attemptID, result.success, result.error, delay,
                          now)
    ensures var events := ResultEvents(w, instanceID, result, delay, now);
            var counts := ResultCounts(w, instanceID, result.executionID, result.attemptID);
            && (Outcomes(events, Succeeded) == if counts && result.success then 1 else 0)
            && (Outcomes(events, RetryWait) ==
                if counts && !result.success && TriedAgain(w, w.executions[result.executionID], result.error) then 1
                else 0)
            && (Outcomes(events, Failed) ==
                if counts && !result.success && !TriedAgain(w, w.executions[result.executionID], result.error) then 1
                else 0)
            && (events != [] && Delivers(w, events[0]) <==>
                && counts && (result.success || !TriedAgain(w, w.executions[result.executionID], result.error))
                && WantsOutcome(w, w.executions[result.executionID]))
  {
    RetriesLeftIff(w, result);
    hide Did, AfterResult, AfterFrom, Inv, RetriesLeft, TriedAgain;
    if Heard(w, instanceID, result.executionID, result.attemptID) {
      Identified(cfg, w, result.executionID);
    }
    forall w' | Did(cfg, w, ResultEvents(w, instanceID, result, delay, now), w')
      ensures AfterResult(w, w', instanceID, result.executionID, result.attemptID, result.success, result.error, delay,
                          now)
    {
      DidIs(cfg, w, ResultEvents(w, instanceID, result, delay, now), w');
      ResultComesTo(cfg, w, instanceID, result, delay, now);
    }
  }

  lemma RetriesLeftIff(w: World, result: ExecResult)
    ensures forall e :: RetriesLeft(w, result, e) <==> TriedAgain(w, e, result.error)
  {
    forall retry ensures MaxFunctionAttempts(retry) == Allowed(retry) {
    }
    hide MaxFunctionAttempts, Allowed;
  }

  lemma ResultComesTo(cfg: Config, w: World, instanceID: InstanceID, result: ExecResult, delay: Duration, now: Instant)
    requires Inv(cfg, w)
    ensures AfterResult(w, AfterFrom(w, ResultEvents(w, instanceID, result, delay, now)), instanceID,
                        result.executionID, result.attemptID, result.success, result.error, delay, now)
  {
    RetriesLeftIff(w, result);
    hide AfterFrom, Inv, RetriesLeft, TriedAgain, Step, WithAttemptIn, WithExecution, WithoutSlot, NowIn, NowInUntil;
    if Heard(w, instanceID, result.executionID, result.attemptID) {
      Identified(cfg, w, result.executionID);
      CloseComesTo(w, result.executionID, AttemptSucceeded, Succeeded, None, now);
      CloseComesTo(w, result.executionID, FunctionFailed, RetryWait, Some(now + delay), now);
      CloseComesTo(w, result.executionID, FunctionFailed, Failed, None, now);
    }
    var events := ResultEvents(w, instanceID, result, delay, now);
    AfterTwo(w, if events == [] then Leave(instanceID) else events[0], Leave(instanceID));
    assert events == [] || events == [events[0]];
  }

  // A lost attempt, with its execution due again at once.
  function Loss(id: ExecutionID, now: Instant): Event {
    Close(id, Lost, Ready, Some(now), now)
  }

  ghost predicate RenewalOn(cfg: Config, attempts: map<AttemptID, Attempt>, instanceID: InstanceID, e: Event,
                            now: Instant)
  {
    exists a :: a in OpenOn(attempts, instanceID) && now - attempts[a].createdAt < cfg.maxExecution &&
                e == Renew(attempts[a].executionID, now + cfg.lease, now)
  }

  lemma RenewalIsOn(cfg: Config, attempts: map<AttemptID, Attempt>, instanceID: InstanceID, open: seq<Attempt>,
                    a: Attempt, now: Instant)
    requires OpenList(attempts, instanceID, open) && a in open
    ensures now - a.createdAt < cfg.maxExecution ==>
        RenewalOn(cfg, attempts, instanceID, Renew(a.executionID, now + cfg.lease, now), now)
  {
    OpenListFacts(attempts, instanceID, open, a);
  }

  // The saturating distance says the same as the exact one about a limit that is a duration.
  lemma WithinLimit(cfg: Config, createdAt: Instant, now: Instant)
    requires cfg.Normal()
    ensures Sub(now, createdAt) < cfg.maxExecution <==> now - createdAt < cfg.maxExecution
  {
  }

  ghost function WithLease(e: Execution, lease: Instant, now: Instant): Execution {
    e.(leaseExpiresAt := Some(lease), version := e.version + 1, updatedAt := now)
  }

  // These executions have their leases renewed, and nothing else changed.
  ghost predicate Renewed(first: World, w: World, ids: set<ExecutionID>, lease: Instant, now: Instant) {
    && w == first.(executions := w.executions) && w.executions.Keys == first.executions.Keys
    && (forall id | id in first.executions ::
          w.executions[id] == if id in ids then WithLease(first.executions[id], lease, now) else first.executions[id])
  }

  lemma NoneRenewed(w: World, lease: Instant, now: Instant)
    ensures Renewed(w, w, {}, lease, now)
  {
    assert w == w.(executions := w.executions);
  }

  lemma NoRenewedIds(cfg: Config, open: seq<Attempt>, now: Instant)
    ensures RenewedIds(cfg, open, 0, now) == {}
  {
  }

  lemma OneRenewed(first: World, w: World, ids: set<ExecutionID>, id: ExecutionID, lease: Instant, now: Instant)
    requires Renewed(first, w, ids, lease, now) && id in w.executions && id !in ids
    ensures Renewed(first, Step(w, Renew(id, lease, now)), ids + {id}, lease, now)
  {
    var w' := Step(w, Renew(id, lease, now));
    assert w' == first.(executions := w'.executions);
  }

  // The executions behind the first n of the open attempts that are within the execution limit.
  ghost function RenewedIds(cfg: Config, open: seq<Attempt>, n: nat, now: Instant): set<ExecutionID>
    requires n <= |open|
  {
    set k | 0 <= k < n && now - open[k].createdAt < cfg.maxExecution :: open[k].executionID
  }

  lemma RenewedIdsNext(cfg: Config, open: seq<Attempt>, n: nat, now: Instant)
    requires n < |open|
    ensures RenewedIds(cfg, open, n + 1, now) ==
            if now - open[n].createdAt < cfg.maxExecution then RenewedIds(cfg, open, n, now) + {open[n].executionID}
            else RenewedIds(cfg, open, n, now)
  {
  }

  // Every open attempt belongs to an execution of its own.
  lemma OpenApart(cfg: Config, w: World, instanceID: InstanceID, open: seq<Attempt>, n: nat, now: Instant)
    requires Inv(cfg, w) && OpenList(w.attempts, instanceID, open) && n < |open|
    ensures open[n].executionID !in RenewedIds(cfg, open, n, now)
  {
    hide Inv;
    forall k | 0 <= k < n ensures open[k].executionID != open[n].executionID {
      OpenListFacts(w.attempts, instanceID, open, open[k]);
      OpenListFacts(w.attempts, instanceID, open, open[n]);
      OpenIsCurrentNow(cfg, w, open[k].id);
      OpenIsCurrentNow(cfg, w, open[n].id);
      assert open[k].id < open[n].id;
    }
  }

  // All of them are those whose renewal is due.
  lemma RenewalsAre(cfg: Config, w: World, w': World, instanceID: InstanceID, open: seq<Attempt>, now: Instant)
    requires OpenList(w.attempts, instanceID, open)
    requires Renewed(w, w', RenewedIds(cfg, open, |open|, now), now + cfg.lease, now)
    ensures AfterHeartbeat(cfg, w, w', instanceID, now)
  {
    forall id ensures id in RenewedIds(cfg, open, |open|, now) <==> RenewalDue(cfg, w, id, instanceID, now) {
      if id in RenewedIds(cfg, open, |open|, now) {
        var k :| 0 <= k < |open| && now - open[k].createdAt < cfg.maxExecution && open[k].executionID == id;
        OpenListFacts(w.attempts, instanceID, open, open[k]);
        assert OpenAt(w, open[k].id, instanceID);
      }
      if RenewalDue(cfg, w, id, instanceID, now) {
        var a :| OpenAt(w, a, instanceID) && w.attempts[a].executionID == id &&
                 now - w.attempts[a].createdAt < cfg.maxExecution;
        assert a in OpenOn(w.attempts, instanceID);
        var k := ListedAt(w.attempts, instanceID, open, a);
      }
    }
    hide RenewalDue, RenewedIds;
  }

  lemma ListedAt(attempts: map<AttemptID, Attempt>, instanceID: InstanceID, open: seq<Attempt>, a: AttemptID)
    returns (k: nat)
    requires OpenList(attempts, instanceID, open) && a in OpenOn(attempts, instanceID)
    ensures k < |open| && open[k].id == a && a in attempts && open[k] == attempts[a]
  {
    var attempt :| attempt in open && attempt.id == a;
    k :| 0 <= k < |open| && open[k] == attempt;
  }

  datatype UpsertRefusal =
    ZeroUUID | EmptyKey | EmptyType | EmptyName | ZeroInterval | WideInterval | UnknownKind

  function ValidateUpsert(job: Job): Option<UpsertRefusal> {
    if job.id.IsZero() then Some(ZeroUUID)
    else if job.scope.key == [] then Some(EmptyKey)
    else if job.scope.executorType.name == [] then Some(EmptyType)
    else if job.function_.name == [] then Some(EmptyName)
    else if job.schedule.kind == SCHEDULE_KIND_ONE_SHOT then None
    else if job.schedule.kind == SCHEDULE_KIND_FIXED_INTERVAL then
      if job.schedule.intervalMillis == 0 then Some(ZeroInterval)
      else if job.schedule.intervalMillis > MAX_INTERVAL_MILLIS then Some(WideInterval)
      else None
    else Some(UnknownKind)
  }

  ghost predicate HasUUID(job: Job) {
    exists i | 0 <= i < 16 :: job.id.raw[i] != 0
  }

  // The first thing that is wrong with a definition.
  ghost predicate RefusedFor(job: Job, refusal: UpsertRefusal) {
    match refusal
    case ZeroUUID => forall i | 0 <= i < 16 :: job.id.raw[i] == 0
    case EmptyKey => HasUUID(job) && job.scope.key == []
    case EmptyType => HasUUID(job) && job.scope.key != [] && job.scope.executorType.name == []
    case EmptyName => Named(job) && job.function_.name == []
    case ZeroInterval =>
      Named(job) && job.function_.name != [] && job.schedule.kind == 2 && job.schedule.intervalMillis == 0
    case WideInterval =>
      && Named(job) && job.function_.name != [] && job.schedule.kind == 2
      && job.schedule.intervalMillis > 9_223_372_036_854
    case UnknownKind =>
      Named(job) && job.function_.name != [] && job.schedule.kind != 1 && job.schedule.kind != 2
  }

  ghost predicate Named(job: Job) {
    HasUUID(job) && job.scope.key != [] && job.scope.executorType.name != []
  }

  // A definition is accepted unless something is wrong with it, and refused for the first thing that is.
  lemma RefusalIs(job: Job)
    ensures ValidateUpsert(job).Some? <==> Malformed(job)
    ensures ValidateUpsert(job).Some? ==> RefusedFor(job, ValidateUpsert(job).value)
    ensures ValidateUpsert(job).None? ==> !job.id.IsZero()
  {
  }

  function ValidateDelete(scope: JobScope): Option<UpsertRefusal> {
    if scope.key == [] then Some(EmptyKey)
    else if scope.executorType.name == [] then Some(EmptyType)
    else None
  }

  // The job is stored, its stale pending occurrences are cancelled, everything else that existed is unchanged, and the
  // job has caught up if it is enabled.
  ghost predicate Upserted(cfg: Config, before: World, after: World, stored: Job, now: Instant) {
    && stored.id in after.jobs
    && after.jobs == before.jobs[stored.id := after.jobs[stored.id]]
    && after.jobKeys == before.jobKeys[stored.scope := stored.id]
    && after.attempts == before.attempts && after.executors == before.executors
    && (forall id | id in before.executions ::
          && id in after.executions
          && var e := before.executions[id];
             if stored.version > 1 && e.jobID == stored.id && Pending(e) && !Names(stored, e)
             then after.executions[id] == NowIn(e, Cancelled, now) else after.executions[id] == e)
    && if stored.enabled then CaughtUp(cfg, stored, before.executions.Keys, after, now)
       else after.jobs[stored.id] == stored && after.executions.Keys == before.executions.Keys
  }

  // The occurrences a job plans exist and those it gave up are counted; of the executions that are new, each is one of
  // them, marked as backfilled exactly when it was missed.
  ghost predicate CaughtUp(cfg: Config, job: Job, known: set<ExecutionID>, after: World, now: Instant) {
    exists plan ::
      && PlanIs(cfg, job.schedule, job.backfill, now, plan)
      && Counted(job, plan.skipped, after.jobs)
      && (forall t | Adds(plan, t) :: OccurrenceOf(job.id, t) in after.occurrences)
      && (forall id | id in after.executions && id !in known ::
            NewlyAdded(after.executions[id], job.id, Added(plan), Late(plan), now))
  }

  // The occurrences a job plans exist, and those it gave up are counted.
  ghost predicate Provisioned(cfg: Config, job: Job, jobs: map<JobUUID, Job>, occurrences: Occurrences, now: Instant) {
    exists plan ::
      && PlanIs(cfg, job.schedule, job.backfill, now, plan)
      && Counted(job, plan.skipped, jobs)
      && (forall t | Adds(plan, t) :: OccurrenceOf(job.id, t) in occurrences)
  }

  lemma ProvisionedNow(cfg: Config, job: Job, before: map<JobUUID, Job>, jobs: map<JobUUID, Job>,
                       occurrences: Occurrences, plan: Plan, now: Instant)
    requires job.id in before && before[job.id] == job && jobs == WithSkipped(before, job.id, plan.skipped)
    requires PlanIs(cfg, job.schedule, job.backfill, now, plan)
    requires forall t | Adds(plan, t) :: OccurrenceOf(job.id, t) in occurrences
    ensures Provisioned(cfg, job, jobs, occurrences, now)
    ensures forall id | id in before && id != job.id :: id in jobs && jobs[id] == before[id]
  {
    hide PlanIs, OccurrenceOf, Adds;
    assert Counted(job, plan.skipped, jobs);
  }

  lemma ProvisionedStays(cfg: Config, job: Job, jobs: map<JobUUID, Job>, occurrences: Occurrences,
                         jobs': map<JobUUID, Job>, occurrences': Occurrences, now: Instant)
    requires Provisioned(cfg, job, jobs, occurrences, now)
    requires job.id in jobs && job.id in jobs' && jobs'[job.id] == jobs[job.id]
    requires forall key | key in occurrences :: key in occurrences'
    ensures Provisioned(cfg, job, jobs', occurrences', now)
  {
    hide PlanIs, OccurrenceOf, Adds;
    var plan :|
      && PlanIs(cfg, job.schedule, job.backfill, now, plan)
      && Counted(job, plan.skipped, jobs)
      && (forall t | Adds(plan, t) :: OccurrenceOf(job.id, t) in occurrences);
    assert Counted(job, plan.skipped, jobs');
  }

  // An occurrence the job plans, marked as backfilled exactly when it was missed.
  ghost predicate PlannedBy(cfg: Config, job: Job, e: Execution, now: Instant) {
    exists plan ::
      && PlanIs(cfg, job.schedule, job.backfill, now, plan)
      && NewlyAdded(e, job.id, Added(plan), Late(plan), now)
  }

  // Every execution that is new was planned by an enabled job.
  ghost predicate NewArePlanned(cfg: Config, jobs: map<JobUUID, Job>, before: map<ExecutionID, Execution>,
                                after: map<ExecutionID, Execution>, now: Instant)
  {
    forall id | id in after && id !in before ::
      && after[id].jobID in jobs && jobs[after[id].jobID].enabled
      && PlannedBy(cfg, jobs[after[id].jobID], after[id], now)
  }

  lemma PlannedNext(cfg: Config, jobs: map<JobUUID, Job>, first: map<ExecutionID, Execution>, before: World,
                    after: World, job: Job, plan: Plan, now: Instant)
    requires NewArePlanned(cfg, jobs, first, before.executions, now)
    requires job.id in jobs && jobs[job.id] == job && job.enabled
    requires PlanIs(cfg, job.schedule, job.backfill, now, plan)
    requires Materialized(before, after, job.id, Added(plan), Late(plan), now)
    ensures NewArePlanned(cfg, jobs, first, after.executions, now)
  {
    hide PlanIs;
    forall id | id in after.executions && id !in first
      ensures after.executions[id].jobID in jobs && jobs[after.executions[id].jobID].enabled
      ensures PlannedBy(cfg, jobs[after.executions[id].jobID], after.executions[id], now)
    {
      if id in before.executions {
        assert after.executions[id] == before.executions[id];
      } else {
        assert NewlyAdded(after.executions[id], job.id, Added(plan), Late(plan), now);
      }
    }
  }

  // Giving up what is leased changes nothing that is new.
  lemma PlannedKept(cfg: Config, jobs: map<JobUUID, Job>, first: map<ExecutionID, Execution>,
                    before: map<ExecutionID, Execution>, after: map<ExecutionID, Execution>, now: Instant)
    requires NewArePlanned(cfg, jobs, first, before, now) && after.Keys == before.Keys
    requires forall id | id in before && !before[id].state.Leased() :: after[id] == before[id]
    ensures NewArePlanned(cfg, jobs, first, after, now)
  {
    hide PlanIs;
    forall id | id in after && id !in first ensures after[id] == before[id] {
      assert PlannedBy(cfg, jobs[before[id].jobID], before[id], now);
    }
  }

  ghost predicate AllSettled(executions: map<ExecutionID, Execution>, jobID: JobUUID) {
    forall id | id in executions && executions[id].jobID == jobID :: executions[id].state.Terminal()
  }

  // Every execution that is new is the next occurrence of an enabled job that had nothing unsettled.
  ghost predicate NewAreOwed(jobs: map<JobUUID, Job>, before: map<ExecutionID, Execution>,
                             after: map<ExecutionID, Execution>, now: Instant)
  {
    forall id | id in after && id !in before ::
      var e := after[id];
      && e.jobID in jobs && jobs[e.jobID].enabled && AllSettled(before, e.jobID)
      && NextOccurrence(jobs[e.jobID].schedule, now) == Some(e.scheduledAt)
      && e == Execution(e.id, e.jobID, e.scheduledAt, Scheduled, 0, 0, e.scheduledAt, None, false, 1, now, now)
  }

  lemma OwedNext(jobs: map<JobUUID, Job>, first: map<ExecutionID, Execution>, before: World, after: World, job: Job,
                 now: Instant)
    requires NewAreOwed(jobs, first, before.executions, now)
    requires forall id | id in first :: id in before.executions && before.executions[id] == first[id]
    requires job.id in jobs && jobs[job.id] == job && job.enabled
    requires Materialized(before, after, job.id, Instants(NextOccurrence(job.schedule, now)), {}, now)
    requires !AllSettled(before.executions, job.id) ==> after == before
    ensures NewAreOwed(jobs, first, after.executions, now)
  {
    hide NextOccurrence;
    if AllSettled(before.executions, job.id) {
      forall id | id in first && first[id].jobID == job.id ensures first[id].state.Terminal() {
        assert before.executions[id] == first[id];
      }
      forall id | id in after.executions && id !in before.executions
        ensures NewlyAdded(after.executions[id], job.id, Instants(NextOccurrence(job.schedule, now)), {}, now)
      {
      }
    }
  }

  // None of the first n listed jobs has this identifier.
  ghost predicate Unlisted(list: seq<Job>, n: nat, id: JobUUID)
    requires n <= |list|
  {
    forall k | 0 <= k < n :: list[k].id != id
  }

  lemma UnlistedNext(list: seq<Job>, n: nat)
    requires n < |list|
    ensures forall id :: Unlisted(list, n + 1, id) ==> Unlisted(list, n, id) && id != list[n].id
  {
    forall id | Unlisted(list, n + 1, id) ensures Unlisted(list, n, id) && id != list[n].id {
    }
  }

  // The first n of the listed jobs are provisioned, and no other job changed.
  ghost predicate ProvisionedUpTo(cfg: Config, list: seq<Job>, n: nat, before: map<JobUUID, Job>,
                                  jobs: map<JobUUID, Job>, occurrences: Occurrences, now: Instant)
    requires n <= |list|
  {
    && jobs.Keys == before.Keys
    && (forall k | 0 <= k < n :: Provisioned(cfg, list[k], jobs, occurrences, now))
    && (forall id | id in before && Unlisted(list, n, id) :: jobs[id] == before[id])
  }

  lemma ProvisionedNext(cfg: Config, list: seq<Job>, n: nat, before: map<JobUUID, Job>, mid: map<JobUUID, Job>,
                        jobs: map<JobUUID, Job>, occurrences: Occurrences, occurrences': Occurrences, plan: Plan,
                        now: Instant)
    requires n < |list| && ProvisionedUpTo(cfg, list, n, before, mid, occurrences, now)
    requires forall k | 0 <= k < |list| :: list[k].id in before && before[list[k].id] == list[k]
    requires forall i, j | 0 <= i < j < |list| :: list[i] != list[j]
    requires jobs.Keys == mid.Keys && jobs == WithSkipped(mid, list[n].id, plan.skipped)
    requires forall key | key in occurrences :: key in occurrences'
    requires PlanIs(cfg, list[n].schedule, list[n].backfill, now, plan)
    requires forall t | Adds(plan, t) :: OccurrenceOf(list[n].id, t) in occurrences'
    ensures ProvisionedUpTo(cfg, list, n + 1, before, jobs, occurrences', now)
  {
    assert Unlisted(list, n, list[n].id);
    hide PlanIs, OccurrenceOf, Adds, Provisioned, WithSkipped, Unlisted;
    ProvisionedNow(cfg, list[n], mid, jobs, occurrences', plan, now);
    forall k | 0 <= k < n ensures Provisioned(cfg, list[k], jobs, occurrences', now) {
      assert list[k] != list[n];
      ProvisionedStays(cfg, list[k], mid, occurrences, jobs, occurrences', now);
    }
    UnlistedNext(list, n);
  }

  // What a pass over all enabled jobs did to each one.
  lemma ProvisionedAll(cfg: Config, list: seq<Job>, before: map<JobUUID, Job>, jobs: map<JobUUID, Job>,
                       occurrences: Occurrences, now: Instant)
    requires ProvisionedUpTo(cfg, list, |list|, before, jobs, occurrences, now)
    requires forall id | id in before :: before[id].id == id
    requires forall job :: job in list <==> job.enabled && exists id :: id in before && before[id] == job
    ensures forall id | id in before ::
              if before[id].enabled then Provisioned(cfg, before[id], jobs, occurrences, now)
              else jobs[id] == before[id]
  {
    hide Provisioned;
    forall id | id in before
      ensures if before[id].enabled then Provisioned(cfg, before[id], jobs, occurrences, now)
              else jobs[id] == before[id]
    {
      if before[id].enabled {
        assert before[id] in list;
        var k :| 0 <= k < |list| && list[k] == before[id];
      } else {
        forall k | 0 <= k < |list| ensures list[k].id != id {
          assert list[k] in list;
        }
        assert Unlisted(list, |list|, id);
      }
    }
  }

  // The stored job differs from what it was by the occurrences given up.
  ghost predicate Counted(job: Job, skipped: nat, jobs: map<JobUUID, Job>) {
    && job.id in jobs
    && jobs[job.id] == job.(skippedOccurrences := (job.skippedOccurrences + skipped) % TWO_TO_64)
  }

  // A scheduled execution of the job at one of the instants.
  ghost predicate NewlyAdded(e: Execution, jobID: JobUUID, adds: set<Instant>, late: set<Instant>, now: Instant) {
    && e.scheduledAt in adds
    && e == Execution(e.id, jobID, e.scheduledAt, Scheduled, 0, 0, e.scheduledAt, None, e.scheduledAt in late, 1, now,
                      now)
  }

  function Late(plan: Plan): set<Instant> {
    set t | t in plan.missed
  }

  // The job and its key are gone, its pending occurrences are cancelled, and everything else is unchanged. The key is
  // the one the job was stored under last, which is the given one while keys and jobs are one to one.
  ghost predicate Deleted(before: World, after: World, scope: JobScope, now: Instant)
    requires scope in before.jobKeys && before.jobKeys[scope] in before.jobs
  {
    var jobID := before.jobKeys[scope];
    && after.jobs == before.jobs - {jobID} && after.jobKeys == before.jobKeys - {before.jobs[jobID].scope}
    && (KeysExact(before.jobs, before.jobKeys) ==> after.jobKeys == before.jobKeys - {scope})
    && after == before.(jobs := after.jobs, jobKeys := after.jobKeys, executions := after.executions)
    && after.executions.Keys == before.executions.Keys
    && (forall id | id in before.executions ::
          var e := before.executions[id];
          after.executions[id] == if e.jobID == jobID && Pending(e) then NowIn(e, Cancelled, now) else e)
  }

  function CreateEvents(w: World, jobID: JobUUID, at: Instant, backfilled: bool, now: Instant): seq<Event> {
    if jobID in w.jobs && OccurrenceOf(jobID, at) !in w.occurrences then [Create(jobID, at, backfilled, now)] else []
  }

  function NextEvents(w: World, job: Job, afterOccurrence: Instant, now: Instant): seq<Event> {
    var occurrence := NextOccurrence(job.schedule, afterOccurrence);
    if occurrence.Some? then CreateEvents(w, job.id, occurrence.value, false, now) else []
  }

  // Unlike a plan, the occurrence that follows an old one may be a purged one: then it is created again.
  lemma NextBringsBack(w: World, id: ExecutionID, at: Instant, job: Job, afterOccurrence: Instant, now: Instant)
    requires id in w.executions && w.executions[id].jobID == job.id && job.id in w.jobs
    requires NextOccurrence(job.schedule, afterOccurrence) == Some(w.executions[id].scheduledAt)
    ensures NextEvents(Step(w, Purge(id, at)), job, afterOccurrence, now) ==
            [Create(job.id, w.executions[id].scheduledAt, false, now)]
  {
    hide NextOccurrence, OccurrenceOf;
    var purged := Step(w, Purge(id, at));
    assert OccurrenceOf(job.id, w.executions[id].scheduledAt) !in purged.occurrences;
  }

  // The states in which an execution comes due.
  predicate Dispatchable(state: ExecutionState) {
    state == Scheduled || state == Ready || state == RetryWait
  }

  predicate LabelAlive(executors: map<InstanceID, Executor>, tag: Label) {
    exists x | x in executors :: tag in executors[x].labels && !executors[x].closed
  }

  predicate PoolSupports(executors: map<InstanceID, Executor>, executorType: ExecutorType, spec: FunctionSpec) {
    exists x | x in executors ::
      executors[x].executorType == executorType && !executors[x].closed && SupportsSpec(executors[x].functions, spec)
  }

  // A strict pin without an executor waits for its label, a job without a pool for an executor, one without capacity
  // is tried again soon, and any other waits for a compatible executor.
  function ParkEvent(cfg: Config, executors: map<InstanceID, Executor>, job: Job, id: ExecutionID, now: Instant)
    : (parked: Event)
    ensures parked.Move? && parked.id == id
  {
    if job.pin.pinned != NO_LABEL && job.pin.policy != PIN_POLICY_PREFERRED && !LabelAlive(executors, job.pin.pinned)
    then Move(id, WaitingLabel, None, now)
    else if !PoolAlive(executors, job.scope.executorType) then Move(id, WaitingExecutor, None, now)
    else if PoolSupports(executors, job.scope.executorType, job.function_)
    then Move(id, Ready, Some(now + cfg.redispatchDelay), now)
    else Move(id, WaitingCompatible, None, now)
  }

  function ClaimUpdate(lease: Instant): ExecutionUpdate {
    NO_UPDATE.(state := Some(Dispatching), leaseExpiresAt := Some(lease))
  }

  function FenceUpdate(attemptID: AttemptID): ExecutionUpdate {
    NO_UPDATE.(currentAttemptID := Some(attemptID))
  }

  lemma DispatchMoves(cfg: Config, w: World, d: Event)
    requires d.Dispatch? && Enabled(cfg, w, d)
    ensures d.id in w.executions && CanTransition(w.executions[d.id].state, Dispatching)
    ensures Step(w, d) == WithDispatch(w, d.id, d.instanceID, d.lease, d.at)
  {
  }

  // A dispatch is a claim, a new attempt, a fence and a slot.
  lemma DispatchIs(w: World, e: Execution, instanceID: InstanceID, lease: Instant, now: Instant, claimed: Execution,
                   attempt: Attempt)
    requires e.id in w.executions && w.executions[e.id] == e && claimed == Updated(e, ClaimUpdate(lease), now)
    requires attempt == Attempt(w.lastAttemptID + 1, e.id, NextAttemptNumber(|AttemptsOf(w.attempts, e.id)|),
                                instanceID, AttemptState.Dispatched, now, now)
    ensures claimed.id == e.id
    ensures WithDispatch(w, e.id, instanceID, lease, now) ==
            w.(executions := w.executions[e.id := claimed][e.id := Updated(claimed, FenceUpdate(attempt.id), now)],
               attempts := w.attempts[attempt.id := attempt], lastAttemptID := attempt.id,
               executors := Occupied(w.executors, instanceID, attempt.id))
  {
    hide Occupied, AttemptsOf, NextAttemptNumber;
    Overwrite(w.executions, e.id, claimed, Updated(claimed, FenceUpdate(attempt.id), now));
  }

  lemma DispatchSpeaks(w: World, id: ExecutionID, instanceID: InstanceID, lease: Instant, now: Instant)
    requires id in w.executions
    ensures var w' := WithDispatch(w, id, instanceID, lease, now);
            && Speaks(w', instanceID, id, w'.lastAttemptID)
            && w'.attempts[w'.lastAttemptID].state.Dispatched?
  {
  }

  lemma DispatchIsEnabled(cfg: Config, w: World, e: Execution, instanceID: InstanceID, lease: Instant, now: Instant)
    requires e.id in w.executions && w.executions[e.id] == e && Dispatchable(e.state) && lease <= now + cfg.lease
    requires e.jobID in w.jobs && w.jobs[e.jobID].enabled && Eligible(w.executors, w.jobs[e.jobID], instanceID)
    requires ResolveOverlap(w.jobs[e.jobID].overlap) == OVERLAP_POLICY_SKIP ==>
               !HasActive(w.executions, w.jobs[e.jobID].id, e.id)
    ensures Enabled(cfg, w, Event.Dispatch(e.id, instanceID, lease, now))
  {
  }

  ghost predicate Outlived(cfg: Config, e: Execution, now: Instant) {
    Finished(e) && e.updatedAt < now - cfg.executionRetention
  }

  // Every other execution that existed is unchanged.
  ghost predicate OthersKept(before: Executions, after: Executions, id: ExecutionID) {
    && id in after
    && forall other | other in before && other != id :: other in after && after[other] == before[other]
  }

  lemma MoveKeepsOthers(w: World, e: Event)
    requires e.Move? && e.id in w.executions
    ensures OthersKept(w.executions, Step(w, e).executions, e.id)
  {
  }

  // What dispatching a due execution does: a gone or disabled job cancels it; under the skip policy an active sibling
  // skips it, except a retry, which stays; otherwise some eligible executor gets it if there is one, and it is parked
  // if there is none.
  ghost predicate DispatchOutcome(cfg: Config, w: World, execution: Execution, started: Instant, now: Instant,
                                  full: bool, events: seq<Event>)
  {
    if execution.jobID !in w.jobs || !w.jobs[execution.jobID].enabled then
      events == [Move(execution.id, Cancelled, None, now)]
    else
      var job := w.jobs[execution.jobID];
      if ResolveOverlap(job.overlap) == OVERLAP_POLICY_SKIP && HasActive(w.executions, job.id, execution.id) then
        events == (if execution.state == RetryWait then [] else [Move(execution.id, Skipped, None, now)]) +
                  NextEvents(w, job, execution.scheduledAt, now)
      else if forall x :: !Eligible(w.executors, job, x) then
        events == [ParkEvent(cfg, w.executors, job, execution.id, now)]
      else
        exists x ::
          && Eligible(w.executors, job, x)
          && events == [Event.Dispatch(execution.id, x, started + cfg.lease, now)] +
                       if full then [Close(execution.id, InfraFailed, Ready, Some(now + cfg.redispatchDelay), now)]
                       else NextEvents(w, job, execution.scheduledAt, now)
  }

  lemma ActiveIffOverlaps(executions: Executions, e: Execution)
    ensures HasActive(executions, e.jobID, e.id) <==> Overlaps(executions, e)
  {
    if HasActive(executions, e.jobID, e.id) {
      var id :| id in executions && id != e.id && executions[id].jobID == e.jobID && executions[id].state.Leased();
      assert WithExecutor(executions[id]);
    }
    if Overlaps(executions, e) {
      var id :| id in executions && id != e.id && executions[id].jobID == e.jobID && WithExecutor(executions[id]);
      assert executions[id].state.Leased();
    }
  }

  lemma ParkComesTo(cfg: Config, w: World, job: Job, e: Execution, now: Instant)
    requires e.id in w.executions && w.executions[e.id] == e
    ensures Step(w, ParkEvent(cfg, w.executors, job, e.id, now)) ==
            WithExecution(w, AsParked(cfg, w.executors, job, e, now))
  {
    ParkIs(cfg, w.executors, job, e, now);
    hide ParkEvent, AsParked;
  }

  lemma ParkIs(cfg: Config, executors: map<InstanceID, Executor>, job: Job, e: Execution, now: Instant)
    ensures var parked := ParkEvent(cfg, executors, job, e.id, now);
            && parked.at == now
            && AsParked(cfg, executors, job, e, now) ==
               if parked.next.Some? then NowInUntil(e, parked.to, parked.next.value, now) else NowIn(e, parked.to, now)
  {
    var t := job.scope.executorType;
    assert job.pin.pinned == NO_LABEL <==> job.pin.pinned.name == [];
    assert LabelAlive(executors, job.pin.pinned) <==>
           exists x :: x in executors && !executors[x].closed && job.pin.pinned in executors[x].labels;
    assert PoolAlive(executors, t) <==>
           exists x :: x in executors && !executors[x].closed && executors[x].executorType == t;
    forall x | x in executors
      ensures SupportsSpec(executors[x].functions, job.function_) <==> Runs(executors[x], job.function_)
    {
      TakesIffServes(executors[x], t, job.function_);
    }
    hide SupportsSpec, Runs;
    assert PoolSupports(executors, t, job.function_) <==>
           exists x :: && x in executors && !executors[x].closed && executors[x].executorType == t
                       && Runs(executors[x], job.function_);
    hide LabelAlive, PoolAlive, PoolSupports;
  }

  lemma DeliveryComesTo(w: World, e: Execution, x: InstanceID, lease: Instant, now: Instant)
    requires e.id in w.executions && w.executions[e.id] == e && x in w.executors
    ensures Step(w, Event.Dispatch(e.id, x, lease, now)) == Delivered(w, e, x, lease, now)
  {
    NumberIs(w, e.id);
    hide NextAttemptNumber, NumberAfter, AttemptsOf;
    var claimed := Updated(w.executions[e.id], ClaimUpdate(lease), now);
    assert Updated(claimed, FenceUpdate(w.lastAttemptID + 1), now) ==
           e.(state := Dispatching, leaseExpiresAt := Some(lease), currentAttemptID := w.lastAttemptID + 1,
              version := e.version + 2, updatedAt := now);
  }

  lemma NumberIs(w: World, id: ExecutionID)
    ensures NextAttemptNumber(|AttemptsOf(w.attempts, id)|) == NumberAfter(w, id)
  {
    assert AttemptsOf(w.attempts, id) == set a | a in w.attempts && w.attempts[a].executionID == id;
  }

  lemma NextComesTo(w: World, job: Job, after: Instant, now: Instant)
    requires job.id in w.jobs
    ensures NextAdded(w, AfterFrom(w, NextEvents(w, job, after, now)), job, after, now)
  {
    hide NextOccurrence, AfterFrom;
    var events := NextEvents(w, job, after, now);
    NextIsCreate(w, job, after, now);
    AfterTwo(w, if events == [] then PutJob(job) else events[0], PutJob(job));
    hide WrapInt64;
  }

  // Dispatching one execution comes to this.
  lemma DispatchMeans(cfg: Config, w: World, e: Execution, started: Instant, now: Instant, full: bool,
                      events: seq<Event>)
    requires Inv(cfg, w) && e.id in w.executions && w.executions[e.id] == e
    requires DispatchOutcome(cfg, w, e, started, now, full, events)
    ensures AfterDispatch(cfg, w, AfterFrom(w, events), e, started, now, full)
  {
    hide Inv, AfterFrom, Step, Eligible, CanGet, HasActive, Overlaps, NextEvents, NextAdded, ParkEvent, AsParked,
         AfterDelivery, WithExecution, NowIn;
    AfterTwo(w, Move(e.id, Cancelled, None, now), Leave(InstanceID([])));
    MoveComesTo(w, e, Cancelled, now);
    if e.jobID in w.jobs && w.jobs[e.jobID].enabled {
      var job := w.jobs[e.jobID];
      AllIdentifiedJobs(cfg, w);
      ActiveIffOverlaps(w.executions, e);
      EligibleIffCanGet(w.executors, job);
      if ResolveOverlap(job.overlap) == OVERLAP_POLICY_SKIP && HasActive(w.executions, job.id, e.id) {
        SkipComesTo(w, job, e, now);
      } else if forall x :: !Eligible(w.executors, job, x) {
        AfterTwo(w, ParkEvent(cfg, w.executors, job, e.id, now), Leave(InstanceID([])));
        ParkComesTo(cfg, w, job, e, now);
      } else {
        var x :| && Eligible(w.executors, job, x)
                 && events == [Event.Dispatch(e.id, x, started + cfg.lease, now)] +
                              if full then [Close(e.id, InfraFailed, Ready, Some(now + cfg.redispatchDelay), now)]
                              else NextEvents(w, job, e.scheduledAt, now);
        assert x in w.executors by { EligibleIsThere(w.executors, job, x); }
        DeliversTo(cfg, w, job, e, x, started, now, full);
      }
    }
  }

  lemma EligibleIsThere(executors: map<InstanceID, Executor>, job: Job, x: InstanceID)
    requires Eligible(executors, job, x)
    ensures x in executors
  {
  }

  lemma MoveComesTo(w: World, e: Execution, to: ExecutionState, now: Instant)
    requires e.id in w.executions && w.executions[e.id] == e
    ensures Step(w, Move(e.id, to, None, now)) == WithExecution(w, NowIn(e, to, now))
  {
  }

  lemma SkipComesTo(w: World, job: Job, e: Execution, now: Instant)
    requires e.id in w.executions && w.executions[e.id] == e && job.id in w.jobs
    ensures var events := (if e.state == RetryWait then [] else [Move(e.id, Skipped, None, now)]) +
                          NextEvents(w, job, e.scheduledAt, now);
            NextAdded(if e.state == RetryWait then w else WithExecution(w, NowIn(e, Skipped, now)),
                      AfterFrom(w, events), job, e.scheduledAt, now)
  {
    hide AfterFrom, Step, NextAdded, NowIn;
    var mid := if e.state == RetryWait then w else WithExecution(w, NowIn(e, Skipped, now));
    MoveComesTo(w, e, Skipped, now);
    var first := if e.state == RetryWait then [] else [Move(e.id, Skipped, None, now)];
    AfterTwo(w, Move(e.id, Skipped, None, now), Leave(InstanceID([])));
    assert AfterFrom(w, first) == mid;
    ThenNext(w, first, mid, job, e.scheduledAt, now);
  }

  lemma ThenNext(w: World, first: seq<Event>, mid: World, job: Job, after: Instant, now: Instant)
    requires AfterFrom(w, first) == mid && mid.jobs == w.jobs && mid.occurrences == w.occurrences && job.id in w.jobs
    ensures NextAdded(mid, AfterFrom(w, first + NextEvents(w, job, after, now)), job, after, now)
  {
    hide AfterFrom, NextAdded, NextOccurrence, OccurrenceOf;
    assert NextEvents(mid, job, after, now) == NextEvents(w, job, after, now);
    AfterConcat(w, first, NextEvents(w, job, after, now));
    NextComesTo(mid, job, after, now);
  }

  lemma DeliveredFacts(w: World, e: Execution, x: InstanceID, lease: Instant, now: Instant)
    requires x in w.executors
    ensures var mid := Delivered(w, e, x, lease, now);
            && e.id in mid.executions && mid.executions[e.id].id == e.id
            && mid.executions[e.id].currentAttemptID == mid.lastAttemptID && mid.lastAttemptID in mid.attempts
            && mid.attempts[mid.lastAttemptID].instanceID == x
            && mid.jobs == w.jobs && mid.occurrences == w.occurrences
  {
    hide NumberAfter;
  }

  lemma DeliversTo(cfg: Config, w: World, job: Job, e: Execution, x: InstanceID, started: Instant, now: Instant,
                   full: bool)
    requires e.id in w.executions && w.executions[e.id] == e && x in w.executors && job.id in w.jobs
    ensures var d := Event.Dispatch(e.id, x, started + cfg.lease, now);
            var rest := if full then [Close(e.id, InfraFailed, Ready, Some(now + cfg.redispatchDelay), now)]
                        else NextEvents(w, job, e.scheduledAt, now);
            AfterDelivery(cfg, w, AfterFrom(w, [d] + rest), job, e, x, started, now, full)
  {
    hide AfterFrom, Step, NextAdded, NextEvents, Delivered, WithoutSlot, WithAttemptIn, WithExecution, NowInUntil;
    var d := Event.Dispatch(e.id, x, started + cfg.lease, now);
    var c := Close(e.id, InfraFailed, Ready, Some(now + cfg.redispatchDelay), now);
    var mid := Delivered(w, e, x, started + cfg.lease, now);
    DeliveredFacts(w, e, x, started + cfg.lease, now);
    DeliveryComesTo(w, e, x, started + cfg.lease, now);
    AfterTwo(w, d, c);
    if full {
      CloseComesTo(mid, e.id, InfraFailed, Ready, Some(now + cfg.redispatchDelay), now);
      assert [d] + [c] == [d, c];
    } else {
      ThenNext(w, [d], mid, job, e.scheduledAt, now);
    }
  }

  lemma {:induction false} AfterConcat(w: World, a: seq<Event>, b: seq<Event>)
    ensures AfterFrom(w, a + b) == AfterFrom(AfterFrom(w, a), b)
  {
    hide Step;
    if b == [] {
      assert a + b == a;
    } else {
      assert (a + b)[..|a + b| - 1] == a + b[..|b| - 1];
      AfterConcat(w, a, b[..|b| - 1]);
    }
  }

  // The steps of a pass are those of dispatching one execution after the other, each in the world the last one left.
  ghost predicate DispatchedInTurn(cfg: Config, w: World, batch: seq<Execution>, started: Instant, now: Instant,
                                   full: ExecutionID -> bool, events: seq<Event>)
    decreases |batch|
  {
    if batch == [] then events == []
    else
      var before, e := batch[..|batch| - 1], batch[|batch| - 1];
      exists n | 0 <= n <= |events| ::
        && DispatchedInTurn(cfg, w, before, started, now, full, events[..n])
        && DispatchOutcome(cfg, AfterFrom(w, events[..n]), e, started, now, full(e.id), events[n..])
  }

  lemma NextInTurn(cfg: Config, w: World, batch: seq<Execution>, e: Execution, started: Instant, now: Instant,
                   full: ExecutionID -> bool, events: seq<Event>, step: seq<Event>)
    requires DispatchedInTurn(cfg, w, batch, started, now, full, events)
    requires DispatchOutcome(cfg, AfterFrom(w, events), e, started, now, full(e.id), step)
    ensures DispatchedInTurn(cfg, w, batch + [e], started, now, full, events + step)
  {
    hide DispatchOutcome, AfterFrom;
    assert (batch + [e])[..|batch|] == batch;
    assert (events + step)[..|events|] == events && (events + step)[|events|..] == step;
  }

  // A pass leaves no execution due that it took up, except a retry that an overlap holds back.
  ghost predicate Handled(jobs: map<JobUUID, Job>, after: Executions, e: Execution, started: Instant) {
    e.id in after && (ComesDue(after[e.id], started) ==> after[e.id] == e && HeldBack(jobs, after, e))
  }

  lemma AfterTwo(w: World, a: Event, b: Event)
    ensures AfterFrom(w, []) == w && AfterFrom(w, [a]) == Step(w, a) && AfterFrom(w, [a, b]) == Step(Step(w, a), b)
  {
    hide Step;
    assert [a, b][..1] == [a] && [a][..0] == [];
  }

  lemma NextIsCreate(w: World, job: Job, afterOccurrence: Instant, now: Instant)
    ensures var next := NextEvents(w, job, afterOccurrence, now);
            next == [] || (next == [next[0]] && next[0].Create?)
  {
    hide NextOccurrence, OccurrenceOf;
  }

  // A new occurrence leaves every stored execution as it is.
  lemma CreateKeeps(w: World, e: Event, id: ExecutionID)
    requires e.Create? && id in w.executions && id <= w.lastExecutionID
    ensures id in Step(w, e).executions && Step(w, e).executions[id] == w.executions[id]
  {
  }

  // The states a first step leaves an execution in.
  lemma StepTakes(w: World, e: Event)
    requires (e.Move? || e.Dispatch?) && e.id in w.executions
    ensures Step(w, e).lastExecutionID == w.lastExecutionID && e.id in Step(w, e).executions
    ensures var after := Step(w, e).executions[e.id];
            if e.Dispatch? then after.state == Dispatching
            else after.state == e.to && after.nextAttemptAt == OrKeep(e.next, w.executions[e.id].nextAttemptAt)
  {
  }

  lemma WithdrawalTakes(w: World, d: Event, c: Event)
    requires d.Dispatch? && c.Close? && d.id == c.id && d.id in w.executions
    ensures d.id in Step(Step(w, d), c).executions
    ensures var after := Step(Step(w, d), c).executions[d.id];
            after.state == c.to && (c.next.Some? ==> after.nextAttemptAt == c.next.value)
  {
  }

  // The steps of a dispatch by their kinds: the taken-up execution leaves the due states, or waits out a delay, or is
  // a retry held back by an overlap.
  ghost predicate OutcomeShape(w: World, e: Execution, until: Instant, events: seq<Event>) {
    && |events| <= 2
    && (events == [] || events[0].Create? ==>
          && |events| <= 1 && HeldBack(w.jobs, w.executions, e))
    && (events != [] && !events[0].Create? ==>
          && (events[0].Move? || events[0].Dispatch?) && events[0].id == e.id
          && (events[0].Move? ==> Deferred(events[0], until))
          && (|events| == 2 ==>
                events[1].Create? ||
                (events[1].Close? && events[1].id == e.id && events[0].Dispatch? && Deferred(events[1], until))))
  }

  predicate Deferred(e: Event, until: Instant)
    requires e.Move? || e.Close?
  {
    !Dispatchable(e.to) || (e.to == Ready && e.next == Some(until))
  }

  lemma OutcomeIsShaped(cfg: Config, w: World, e: Execution, started: Instant, now: Instant, full: bool,
                        events: seq<Event>)
    requires Inv(cfg, w) && Dispatchable(e.state) && DispatchOutcome(cfg, w, e, started, now, full, events)
    ensures OutcomeShape(w, e, now + cfg.redispatchDelay, events)
  {
    hide Inv, HasActive, Overlaps, Eligible, NextEvents;
    AllIdentifiedJobs(cfg, w);
    ActiveIffOverlaps(w.executions, e);
    if e.jobID in w.jobs {
      NextIsCreate(w, w.jobs[e.jobID], e.scheduledAt, now);
    }
  }

  lemma OutcomeHandles(cfg: Config, w: World, e: Execution, started: Instant, until: Instant, events: seq<Event>)
    requires Inv(cfg, w) && e.id in w.executions && w.executions[e.id] == e
    requires started < until && OutcomeShape(w, e, until, events)
    ensures Handled(w.jobs, AfterFrom(w, events).executions, e, started)
  {
    hide AfterFrom, Step, HeldBack;
    IdWithin(cfg, w, e.id);
    if events != [] && events[0].Create? {
      AfterTwo(w, events[0], events[0]);
      StaysHeldBack(cfg, w, events[0], e);
    }
    hide Inv;
    if events == [] {
      AfterTwo(w, Leave(InstanceID([])), Leave(InstanceID([])));
    } else {
      OutcomeTakes(w, e, events);
      AfterTwo(w, events[0], events[|events| - 1]);
      assert events == if |events| == 1 then [events[0]] else [events[0], events[1]];
    }
  }

  // A new occurrence leaves a retry held back.
  lemma StaysHeldBack(cfg: Config, w: World, c: Event, e: Execution)
    requires Inv(cfg, w) && c.Create? && HeldBack(w.jobs, w.executions, e)
    ensures HeldBack(w.jobs, Step(w, c).executions, e)
  {
    hide Inv, Step;
    var id :| id in w.executions && id != e.id && w.executions[id].jobID == e.jobID && WithExecutor(w.executions[id]);
    IdWithin(cfg, w, id);
    CreateKeeps(w, c, id);
  }

  lemma OutcomeTakes(w: World, e: Execution, events: seq<Event>)
    requires e.id in w.executions && e.id <= w.lastExecutionID && 1 <= |events| <= 2
    requires events[0].Create? || ((events[0].Move? || events[0].Dispatch?) && events[0].id == e.id)
    requires |events| == 2 ==>
               (events[1].Create? && !events[0].Create?) ||
               (events[1].Close? && events[1].id == e.id && events[0].Dispatch?)
    ensures var first := Step(w, events[0]);
            && e.id in first.executions
            && (if events[0].Create? then first.executions[e.id] == w.executions[e.id]
                else if events[0].Dispatch? then first.executions[e.id].state == Dispatching
                else first.executions[e.id].state == events[0].to &&
                     first.executions[e.id].nextAttemptAt == OrKeep(events[0].next, w.executions[e.id].nextAttemptAt))
            && (|events| == 2 ==>
                  var second := Step(first, events[1]);
                  && e.id in second.executions
                  && if events[1].Create? then second.executions[e.id] == first.executions[e.id]
                     else second.executions[e.id].state == events[1].to &&
                          (events[1].next.Some? ==> second.executions[e.id].nextAttemptAt == events[1].next.value))
  {
    hide Step;
    if events[0].Create? {
      CreateKeeps(w, events[0], e.id);
    } else {
      StepTakes(w, events[0]);
      if |events| == 2 {
        if events[1].Create? {
          CreateKeeps(Step(w, events[0]), events[1], e.id);
        } else {
          WithdrawalTakes(w, events[0], events[1]);
        }
      }
    }
  }

  lemma IdWithin(cfg: Config, w: World, id: ExecutionID)
    requires Inv(cfg, w) && id in w.executions
    ensures id <= w.lastExecutionID
  {
  }

  // None of the first n of a batch has this identifier.
  ghost predicate Untaken(batch: seq<Execution>, n: nat, id: ExecutionID)
    requires n <= |batch|
  {
    forall k | 0 <= k < n :: batch[k].id != id
  }

  lemma UntakenNext(batch: seq<Execution>, n: nat)
    requires n < |batch|
    ensures forall id :: Untaken(batch, n + 1, id) ==> Untaken(batch, n, id) && id != batch[n].id
  {
    forall id | Untaken(batch, n + 1, id) ensures Untaken(batch, n, id) && id != batch[n].id {
    }
  }

  // The first n of a batch are handled, and nothing else changed.
  ghost predicate Taken(before: Executions, after: Executions, jobs: map<JobUUID, Job>, batch: seq<Execution>, n: nat,
                        started: Instant)
    requires n <= |batch|
  {
    && (forall k | 0 <= k < n :: Handled(jobs, after, batch[k], started))
    && (forall id | id in before && Untaken(batch, n, id) :: id in after && after[id] == before[id])
  }

  lemma NoneTaken(executions: Executions, jobs: map<JobUUID, Job>, batch: seq<Execution>, started: Instant)
    ensures Taken(executions, executions, jobs, batch, 0, started)
  {
  }

  lemma TakesUp(before: Executions, mid: Executions, jobs: map<JobUUID, Job>, batch: seq<Execution>, n: nat,
                started: Instant)
    requires Stored(before, batch) && n < |batch| && Taken(before, mid, jobs, batch, n, started)
    ensures batch[n].id in mid && mid[batch[n].id] == batch[n]
  {
    assert batch[n] in batch;
    assert Untaken(batch, n, batch[n].id);
  }

  lemma TakenNext(before: Executions, mid: Executions, after: Executions, jobs: map<JobUUID, Job>,
                  batch: seq<Execution>, n: nat, started: Instant)
    requires Stored(before, batch) && n < |batch| && Taken(before, mid, jobs, batch, n, started)
    requires batch[n].id in mid && !WithExecutor(mid[batch[n].id])
    requires OthersKept(mid, after, batch[n].id) && Handled(jobs, after, batch[n], started)
    ensures Taken(before, after, jobs, batch, n + 1, started)
  {
    hide Handled, Untaken;
    UntakenNext(batch, n);
    forall k | 0 <= k < n ensures Handled(jobs, after, batch[k], started) {
      assert batch[k].id != batch[n].id;
      HandledStays(jobs, mid, after, batch[k], batch[n].id, started);
    }
  }

  // What was handled stays so when another execution, with no executor, is dispatched.
  lemma HandledStays(jobs: map<JobUUID, Job>, mid: Executions, after: Executions, e: Execution, other: ExecutionID,
                     started: Instant)
    requires Handled(jobs, mid, e, started) && OthersKept(mid, after, other) && other != e.id
    requires other in mid && !WithExecutor(mid[other])
    ensures Handled(jobs, after, e, started)
  {
    hide ComesDue;
    if ComesDue(after[e.id], started) {
      var id :| id in mid && id != e.id && mid[id].jobID == e.jobID && WithExecutor(mid[id]);
      assert id in after && after[id] == mid[id];
    }
  }

  // What a pass did to each execution.
  lemma TakenAll(before: Executions, after: Executions, jobs: map<JobUUID, Job>, batch: seq<Execution>,
                 started: Instant)
    requires Stored(before, batch) && Taken(before, after, jobs, batch, |batch|, started)
    ensures forall e | e in batch :: Handled(jobs, after, e, started)
    ensures forall id | id in before && before[id] !in batch :: id in after && after[id] == before[id]
  {
    hide Handled;
    forall id | id in before && before[id] !in batch ensures Untaken(batch, |batch|, id) {
      assert forall k | 0 <= k < |batch| :: batch[k] in batch;
    }
  }

  // After a pass that was not cut short nothing that existed is due but retries that are held back.
  lemma NothingLeft(before: Executions, after: Executions, jobs: map<JobUUID, Job>, batch: seq<Execution>,
                    started: Instant, limit: nat)
    requires DueBatch(before, started, limit, batch) && |batch| < limit
    requires forall e | e in batch :: Handled(jobs, after, e, started)
    requires forall id | id in before && before[id] !in batch :: id in after && after[id] == before[id]
    requires forall id | id in before :: before[id].id == id
    ensures forall id | id in before ::
              && id in after
              && (ComesDue(after[id], started) ==> after[id] == before[id] && HeldBack(jobs, after, before[id]))
  {
    hide ComesDue, HeldBack;
    forall id | id in before
      ensures id in after
      ensures ComesDue(after[id], started) ==> after[id] == before[id] && HeldBack(jobs, after, before[id])
    {
      if before[id] in batch {
        assert Handled(jobs, after, before[id], started);
      }
    }
  }

  lemma DueIsDispatchable(e: Execution, now: Instant)
    requires Due(e, now)
    ensures Dispatchable(e.state)
  {
  }

  lemma DidIs(cfg: Config, w: World, events: seq<Event>, w': World)
    requires Did(cfg, w, events, w')
    ensures w' == AfterFrom(w, events)
  {
  }

  // The job has an unsettled occurrence, or its next one is already materialized, or it has no next one.
  ghost predicate Provided(w: World, job: Job, now: Instant) {
    || (exists id :: id in w.executions && w.executions[id].jobID == job.id && !w.executions[id].state.Terminal())
    || (NextOccurrence(job.schedule, now).Some? ==>
          OccurrenceOf(job.id, NextOccurrence(job.schedule, now).value) in w.occurrences)
  }

  lemma ProvidedStays(before: World, after: World, job: Job, now: Instant, jobID: JobUUID, adds: set<Instant>)
    requires Provided(before, job, now) && Materialized(before, after, jobID, adds, {}, now)
    ensures Provided(after, job, now)
  {
    hide NextOccurrence, OccurrenceOf;
  }

  lemma KeptByMaterializing(before: World, after: World, jobID: JobUUID, adds: set<Instant>, late: set<Instant>,
                            now: Instant)
    requires Materialized(before, after, jobID, adds, late, now)
    ensures after.jobs.Keys == before.jobs.Keys
    ensures forall id | id in before.executions ::
              id in after.executions && after.executions[id] == before.executions[id]
    ensures forall id | id in after.executions && id !in before.executions :: after.executions[id].state == Scheduled
    ensures forall key | key in before.occurrences :: key in after.occurrences
  {
  }

  lemma NextIsStored(before: World, after: World, job: Job, now: Instant, events: seq<Event>)
    requires job.id in before.jobs && events == NextEvents(before, job, now, now)
    requires after == if events == [] then before else Step(before, events[0])
    ensures Provided(after, job, now)
  {
  }

  function Instants(occurrence: Option<Instant>): set<Instant> {
    if occurrence.Some? then {occurrence.value} else {}
  }

  // Only scheduled executions of one job were added, at some of the given instants, and marked as backfilled at the
  // late ones.
  ghost predicate Materialized(before: World, after: World, jobID: JobUUID, adds: set<Instant>, late: set<Instant>,
                               now: Instant)
  {
    && after.jobs.Keys == before.jobs.Keys && after.jobKeys == before.jobKeys
    && after.attempts == before.attempts && after.executors == before.executors
    && (forall id | id in before.executions :: id in after.executions && after.executions[id] == before.executions[id])
    && (forall id | id in after.executions && id !in before.executions ::
          NewlyAdded(after.executions[id], jobID, adds, late, now))
    && (forall key | key in before.occurrences :: key in after.occurrences)
  }

  lemma NothingMaterialized(before: World, after: World, jobID: JobUUID, adds: set<Instant>, late: set<Instant>,
                            now: Instant)
    requires after == before.(jobs := after.jobs) && after.jobs.Keys == before.jobs.Keys
    ensures Materialized(before, after, jobID, adds, late, now)
  {
  }

  lemma CreateMaterializes(w: World, jobID: JobUUID, at: Instant, backfilled: bool, now: Instant)
    requires w.lastExecutionID + 1 !in w.executions
    ensures Materialized(w, Step(w, Create(jobID, at, backfilled, now)), jobID, {at}, if backfilled then {at} else {},
                         now)
  {
    hide OccurrenceOf;
  }

  lemma MaterializedThen(before: World, mid: World, after: World, jobID: JobUUID, adds: set<Instant>,
                         late: set<Instant>, at: Instant, now: Instant)
    requires Materialized(before, mid, jobID, adds, late, now) && at in adds
    requires Materialized(mid, after, jobID, {at}, {at} * late, now)
    ensures Materialized(before, after, jobID, adds, late, now)
    ensures forall key | key in mid.occurrences :: key in after.occurrences
  {
    forall id | id in after.executions && id !in before.executions
      ensures NewlyAdded(after.executions[id], jobID, adds, late, now)
    {
      assert id in mid.executions ==> after.executions[id] == mid.executions[id];
    }
  }

  lemma MaterializedCatchesUp(cfg: Config, before: World, after: World, job: Job, plan: Plan, now: Instant)
    requires job.id in before.jobs && before.jobs[job.id] == job
    requires PlanIs(cfg, job.schedule, job.backfill, now, plan)
    requires after.jobs == WithSkipped(before.jobs, job.id, plan.skipped)
    requires Materialized(before, after, job.id, Added(plan), Late(plan), now)
    requires forall t | Adds(plan, t) :: OccurrenceOf(job.id, t) in after.occurrences
    ensures CaughtUp(cfg, job, before.executions.Keys, after, now)
    ensures after.jobs == before.jobs[job.id := after.jobs[job.id]]
    ensures after.jobKeys == before.jobKeys && after.attempts == before.attempts && after.executors == before.executors
  {
    hide PlanIs, OccurrenceOf, Adds;
    assert Counted(job, plan.skipped, after.jobs);
  }

  // Neither settled nor with an executor.
  predicate Pending(e: Execution) {
    !e.state.Terminal() && !e.state.Leased()
  }

  lemma PendingIffUnassigned()
    ensures forall e :: Pending(e) <==> Unassigned(e)
  {
  }

  // The job still schedules the occurrence, as the engine checks it.
  predicate Keeps(job: Job, e: Execution) {
    job.enabled && ScheduleContains(job.schedule, e.scheduledAt)
  }

  // The job names the occurrence, within reach of the start of its schedule.
  ghost predicate Names(job: Job, e: Execution) {
    job.enabled && Schedules.Scheduled(job.schedule, e.scheduledAt) && InReach(job.schedule, e.scheduledAt)
  }

  // An interval that an upsert may state.
  predicate Statable(schedule: ScheduleSpec) {
    schedule.kind == SCHEDULE_KIND_FIXED_INTERVAL ==> schedule.intervalMillis <= MAX_INTERVAL_MILLIS
  }

  lemma KeepsIffNames(job: Job, e: Execution)
    requires Statable(job.schedule)
    ensures Keeps(job, e) <==> Names(job, e)
  {
    ContainsIffNamedInReach(job.schedule, e.scheduledAt);
  }

  lemma ValidIsStatable(jobs: map<JobUUID, Job>, jobKeys: map<JobScope, JobUUID>, job: Job)
    requires ValidateUpsert(job).None?
    ensures Statable(StoredJob(jobs, jobKeys, job).schedule)
  {
  }

  // An upsert comes to this.
  lemma UpsertMeans(cfg: Config, before: World, after: World, job: Job, now: Instant)
    requires Inv(cfg, before) && KeyResolves(before.jobs, before.jobKeys, job.scope)
    requires Upserted(cfg, before, after, StoredJob(before.jobs, before.jobKeys, job), now)
    ensures AfterUpsert(before, after, job, now)
    ensures StoredJob(before.jobs, before.jobKeys, job).id ==
            if job.scope in before.jobKeys then before.jobKeys[job.scope] else job.id
  {
    AllIdentifiedJobs(cfg, before);
    AllVersioned(cfg, before);
    hide Inv;
    var stored := StoredJob(before.jobs, before.jobKeys, job);
    if stored.enabled {
      CaughtUpCounts(cfg, stored, before.executions.Keys, after, now);
    }
    hide CaughtUp, Schedules.Scheduled;
    forall e: Execution ensures Pending(e) && !Names(stored, e) <==> Unassigned(e) && !StillNamed(job, e.scheduledAt) {
    }
    hide Pending, Unassigned, Names, StillNamed;
  }

  lemma CaughtUpCounts(cfg: Config, job: Job, known: set<ExecutionID>, after: World, now: Instant)
    requires CaughtUp(cfg, job, known, after, now)
    ensures job.id in after.jobs
    ensures after.jobs[job.id] == job.(skippedOccurrences := after.jobs[job.id].skippedOccurrences)
  {
    hide PlanIs;
  }

  lemma AllVersioned(cfg: Config, w: World)
    requires Inv(cfg, w)
    ensures forall id | id in w.jobs :: w.jobs[id].version >= 1
  {
  }

  // A deletion comes to this.
  lemma DeleteMeans(before: World, after: World, scope: JobScope, now: Instant)
    requires scope in before.jobKeys && before.jobKeys[scope] in before.jobs && Deleted(before, after, scope, now)
    ensures AfterDelete(before, after, before.jobKeys[scope], now)
  {
    PendingIffUnassigned();
    hide Pending, Unassigned, KeysExact, NowIn;
    assert after == before.(jobs := before.jobs - {before.jobKeys[scope]},
                            jobKeys := before.jobKeys - {before.jobs[before.jobKeys[scope]].scope},
                            executions := after.executions);
  }

  // An upsert cancels a pending occurrence that its new definition still names exactly when the occurrence is out of
  // reach of the start.
  lemma CancelsNamedOutOfReach(cfg: Config, before: World, after: World, stored: Job, now: Instant, id: ExecutionID)
    requires Upserted(cfg, before, after, stored, now) && stored.version > 1 && stored.enabled
    requires id in before.executions && before.executions[id].jobID == stored.id && Pending(before.executions[id])
    requires Schedules.Scheduled(stored.schedule, before.executions[id].scheduledAt)
    ensures id in after.executions
    ensures after.executions[id].state == Cancelled <==> !InReach(stored.schedule, before.executions[id].scheduledAt)
  {
    hide Schedules.Scheduled, CaughtUp, InReach;
  }

  // Every second since 1684: an upsert of that schedule cancels what is pending for the end of 2023.
  lemma CancelsNamed(cfg: Config, before: World, after: World, stored: Job, now: Instant, id: ExecutionID)
    requires Upserted(cfg, before, after, stored, now) && stored.version > 1 && stored.enabled
    requires id in before.executions && before.executions[id].jobID == stored.id && Pending(before.executions[id])
    requires stored.schedule == SecondsSince1684()
    requires before.executions[id].scheduledAt == 1_700_000_000_000_000_000
    ensures Schedules.Scheduled(stored.schedule, before.executions[id].scheduledAt)
    ensures id in after.executions && after.executions[id].state == Cancelled
  {
    NamedButDenied();
    hide Schedules.Scheduled;
    CancelsNamedOutOfReach(cfg, before, after, stored, now, id);
  }

  // A lease that has elapsed, or was never set.
  predicate Expired(e: Execution, now: Instant) {
    e.state.Leased() && (e.leaseExpiresAt.None? || e.leaseExpiresAt.value <= now)
  }

  predicate Concerns(jobs: map<JobUUID, Job>, e: Execution, executorType: ExecutorType, labels: set<Label>) {
    && e.jobID in jobs
    && jobs[e.jobID].scope.executorType == executorType
    && (e.state == WaitingLabel ==> jobs[e.jobID].pin.pinned in labels)
  }

  predicate HasPool(jobs: map<JobUUID, Job>, executors: map<InstanceID, Executor>, e: Execution) {
    e.jobID in jobs && PoolAlive(executors, jobs[e.jobID].scope.executorType)
  }

  predicate PoolAlive(executors: map<InstanceID, Executor>, executorType: ExecutorType) {
    exists x | x in executors :: executors[x].executorType == executorType && !executors[x].closed
  }

  lemma AwaitingAre(before: Executions, after: Executions, jobs: map<JobUUID, Job>, executorType: ExecutorType,
                    labels: set<Label>, now: Instant)
    requires after.Keys == before.Keys
    requires forall id | id in before ::
               var e := before[id];
               after[id] ==
               if e.state.Waiting() && Concerns(jobs, e, executorType, labels) then RequeuedAt(now)(e) else e
    ensures forall id | id in before ::
              var e := before[id];
              after[id] == if Awaits(jobs, e, executorType, labels) then NowInUntil(e, Ready, now, now) else e
  {
  }

  lemma AwaitingAnyAre(before: Executions, after: Executions, jobs: map<JobUUID, Job>,
                       executors: map<InstanceID, Executor>, now: Instant)
    requires after.Keys == before.Keys
    requires forall id | id in before ::
               var e := before[id];
               after[id] == if e.state.Waiting() && HasPool(jobs, executors, e) then RequeuedAt(now)(e) else e
    ensures forall id | id in before ::
              var e := before[id];
              after[id] == if AwaitsAny(jobs, executors, e) then NowInUntil(e, Ready, now, now) else e
  {
    forall t ensures PoolAlive(executors, t) <==>
                     exists x :: x in executors && !executors[x].closed && executors[x].executorType == t
    {
    }
  }

  lemma ReadyAgain(cfg: Config, w: World, id: ExecutionID, now: Instant)
    requires cfg.Normal() && Inv(cfg, w) && id in w.executions && w.executions[id].state.Waiting()
    ensures var e := Updated(w.executions[id], NO_UPDATE.(state := Some(Ready), nextAttemptAt := Some(now)), now);
            var w' := w.(executions := w.executions[id := e]);
            && e == RequeuedAt(now)(w.executions[id])
            && Did(cfg, w, [Move(id, Ready, Some(now), now)], w') && Inv(cfg, w')
  {
    hide Inv, Did;
    DidMove(cfg, w, id, Ready, Some(now), now);
  }

  // Of a list of executions, the wanted ones among the first n changed in one way and nothing else did.
  ghost predicate Reached(before: Executions, after: Executions, list: seq<Execution>, n: nat,
                          wanted: Execution -> bool, change: Execution -> Execution)
    requires n <= |list|
  {
    && after.Keys == before.Keys
    && (forall k | 0 <= k < n && wanted(list[k]) :: list[k].id in after && after[list[k].id] == change(list[k]))
    && (forall id | id in before && (forall k | 0 <= k < n && wanted(list[k]) :: list[k].id != id) ::
          after[id] == before[id])
  }

  lemma ReachedNext(before: Executions, after: Executions, list: seq<Execution>, n: nat, wanted: Execution -> bool,
                    change: Execution -> Execution, e: Execution)
    requires n < |list| && Reached(before, after, list, n, wanted, change)
    requires wanted(list[n]) && list[n].id in after && e == change(list[n])
    requires forall k | 0 <= k < n :: list[k].id != list[n].id
    ensures Reached(before, after[list[n].id := e], list, n + 1, wanted, change)
  {
  }

  lemma ReachedSkip(before: Executions, after: Executions, list: seq<Execution>, n: nat, wanted: Execution -> bool,
                    change: Execution -> Execution)
    requires n < |list| && Reached(before, after, list, n, wanted, change) && !wanted(list[n])
    ensures Reached(before, after, list, n + 1, wanted, change)
  {
  }

  // The listed executions as they are stored, each once.
  ghost predicate Stored(executions: Executions, list: seq<Execution>) {
    && (forall e | e in list :: e.id in executions && executions[e.id] == e)
    && (forall i, j | 0 <= i < j < |list| :: list[i].id != list[j].id)
  }

  lemma StillStored(before: Executions, after: Executions, list: seq<Execution>, n: nat, wanted: Execution -> bool,
                    change: Execution -> Execution)
    requires Stored(before, list) && n < |list| && Reached(before, after, list, n, wanted, change)
    ensures list[n].id in after && after[list[n].id] == list[n]
    ensures forall k | 0 <= k < n :: list[k].id != list[n].id
  {
    assert list[n] in list;
  }

  ghost function IdsOf(list: seq<Execution>, n: nat): set<ExecutionID>
    requires n <= |list|
  {
    set k | 0 <= k < n :: list[k].id
  }

  lemma NoIds(list: seq<Execution>)
    ensures IdsOf(list, 0) == {}
  {
  }

  lemma NextId(executions: Executions, list: seq<Execution>, n: nat)
    requires Stored(executions, list) && n < |list|
    ensures list[n].id in executions && executions[list[n].id] == list[n] && list[n].id !in IdsOf(list, n)
    ensures IdsOf(list, n + 1) == IdsOf(list, n) + {list[n].id}
  {
    assert list[n] in list;
  }

  lemma SettledAreStored(cfg: Config, executions: Executions, batch: seq<Execution>, now: Instant)
    requires cfg.Normal() && SettledBatch(executions, now - cfg.executionRetention, cfg.dispatchBatch, batch)
    ensures Stored(executions, batch) && forall e | e in batch :: Outlived(cfg, e, now)
  {
    forall i, j | 0 <= i < j < |batch| ensures batch[i].id != batch[j].id {
      assert SettledFirst(batch[i], batch[j]);
      assert batch[i] in batch && batch[j] in batch;
    }
  }

  // A sweep takes only executions that outlived their retention, and all of those unless it is cut short.
  lemma SweptAre(cfg: Config, executions: Executions, batch: seq<Execution>, now: Instant)
    requires cfg.Normal() && forall id | id in executions :: executions[id].id == id
    requires SettledBatch(executions, now - cfg.executionRetention, cfg.dispatchBatch, batch)
    ensures forall id | id in IdsOf(batch, |batch|) :: id in executions && Outlived(cfg, executions[id], now)
    ensures |batch| < cfg.dispatchBatch ==>
              forall id | id in executions && Outlived(cfg, executions[id], now) :: id in IdsOf(batch, |batch|)
  {
    hide SettledFirst;
    forall id | id in IdsOf(batch, |batch|) ensures id in executions && Outlived(cfg, executions[id], now) {
      var k :| 0 <= k < |batch| && batch[k].id == id;
      assert batch[k] in batch;
    }
    if |batch| < cfg.dispatchBatch {
      forall id | id in executions && Outlived(cfg, executions[id], now) ensures id in IdsOf(batch, |batch|) {
        assert executions[id] in batch;
        var k :| 0 <= k < |batch| && batch[k] == executions[id];
        assert batch[k].id in IdsOf(batch, |batch|);
      }
    }
  }

  lemma NoneReached(executions: Executions, list: seq<Execution>, wanted: Execution -> bool,
                    change: Execution -> Execution)
    ensures Reached(executions, executions, list, 0, wanted, change)
  {
  }

  // What a pass over all the stored executions that a query keeps did to each one.
  lemma ReachedAll(before: Executions, after: Executions, list: seq<Execution>, keep: Execution -> bool,
                   wanted: Execution -> bool, change: Execution -> Execution)
    requires Reached(before, after, list, |list|, wanted, change)
    requires forall e :: e in list <==> e.id in before && before[e.id] == e && keep(e)
    requires forall id | id in before :: before[id].id == id
    ensures after.Keys == before.Keys
    ensures forall id | id in before ::
              after[id] == if keep(before[id]) && wanted(before[id]) then change(before[id]) else before[id]
  {
    forall id | id in before
      ensures after[id] == if keep(before[id]) && wanted(before[id]) then change(before[id]) else before[id]
    {
      if keep(before[id]) && wanted(before[id]) {
        assert before[id] in list;
        var k :| 0 <= k < |list| && list[k] == before[id];
      } else {
        forall k | 0 <= k < |list| && wanted(list[k]) ensures list[k].id != id {
          assert list[k] in list;
        }
      }
    }
  }

  lemma NoneLost(w: World, now: Instant)
    ensures AfterLosing(w, w, {}, now)
  {
    assert w == w.(executions := w.executions, attempts := w.attempts, executors := w.executors);
    forall x | x in w.executors ensures w.executors[x] == WithoutSlots(w, w.executors[x], {}) {
      assert WithoutSlots(w, w.executors[x], {}).inFlight == w.executors[x].inFlight;
    }
  }

  // One more execution is given up.
  lemma LosesOne(cfg: Config, first: World, w: World, ids: set<ExecutionID>, id: ExecutionID, now: Instant)
    requires Inv(cfg, w) && AfterLosing(first, w, ids, now) && id in w.executions && w.executions[id].state.Leased()
    ensures id !in ids && w.executions[id].currentAttemptID in w.attempts
    ensures AfterLosing(first, WithClose(w, id, Lost, Ready, Some(now), now), ids + {id}, now)
  {
    hide Inv, CurrentOf;
    CurrentIsOpen(cfg, w, id);
    assert id !in ids && w.executions[id] == first.executions[id];
    var a := w.executions[id].currentAttemptID;
    assert !CurrentOf(first, a, ids) && w.attempts[a] == first.attempts[a];
    CurrentOfMore(first, ids, id);
    LossIs(w, id, now);
    hide WithClose;
    var w' := WithClose(w, id, Lost, Ready, Some(now), now);
    LossFrees(cfg, w, id, now);
    forall x | x in first.executors ensures w'.executors[x] == WithoutSlots(first, first.executors[x], ids + {id}) {
      assert w'.executors[x].inFlight == WithoutSlots(first, first.executors[x], ids + {id}).inFlight;
    }
    hide WithoutSlots;
    assert w' == first.(executions := w'.executions, attempts := w'.attempts, executors := w'.executors);
  }

  // The slot of a lost attempt is free again wherever it was, and no other slot is.
  lemma LossFrees(cfg: Config, w: World, id: ExecutionID, now: Instant)
    requires Inv(cfg, w) && id in w.executions && w.executions[id].currentAttemptID in w.attempts
    ensures var w', a := WithClose(w, id, Lost, Ready, Some(now), now), w.executions[id].currentAttemptID;
            && w'.executors.Keys == w.executors.Keys
            && (forall x | x in w.executors ::
                  w'.executors[x] == w.executors[x].(inFlight := w.executors[x].inFlight - {a}))
  {
    SlotsAreOwn(cfg, w);
    hide Inv;
    var a := w.executions[id].currentAttemptID;
    forall x | x in w.executors && x != w.attempts[a].instanceID
      ensures w.executors[x].inFlight - {a} == w.executors[x].inFlight
    {
      assert a !in w.executors[x].inFlight;
    }
  }

  lemma SlotsAreOwn(cfg: Config, w: World)
    requires Inv(cfg, w)
    ensures forall x | x in w.executors ::
              forall a | a in w.executors[x].inFlight :: a in w.attempts && w.attempts[a].instanceID == x
  {
  }

  lemma CurrentOfMore(w: World, ids: set<ExecutionID>, id: ExecutionID)
    requires id in w.executions
    ensures forall b :: CurrentOf(w, b, ids + {id}) <==>
                        CurrentOf(w, b, ids) || b == w.executions[id].currentAttemptID
  {
    forall b ensures CurrentOf(w, b, ids + {id}) <==> CurrentOf(w, b, ids) || b == w.executions[id].currentAttemptID {
      assert id in ids + {id};
    }
  }

  lemma LossIs(w: World, id: ExecutionID, now: Instant)
    requires id in w.executions && w.executions[id].currentAttemptID in w.attempts
    ensures var w' := WithClose(w, id, Lost, Ready, Some(now), now);
            var a := w.executions[id].currentAttemptID;
            && w'.executions == w.executions[id := NowInUntil(w.executions[id], Ready, now, now)]
            && w'.attempts == w.attempts[a := w.attempts[a].(state := Lost, updatedAt := now)]
            && w' == w.(executions := w'.executions, attempts := w'.attempts, executors := w'.executors)
  {
  }

  // The executions of a list that are given up, when the list is a query.
  lemma IdsAre(executions: Executions, list: seq<Execution>, keep: Execution -> bool)
    requires forall e :: e in list <==> e.id in executions && executions[e.id] == e && keep(e)
    requires forall id | id in executions :: executions[id].id == id
    ensures IdsOf(list, |list|) == set id | id in executions && keep(executions[id])
  {
    forall id | id in executions && keep(executions[id]) ensures id in IdsOf(list, |list|) {
      assert executions[id] in list;
      var k :| 0 <= k < |list| && list[k] == executions[id];
    }
    forall id | id in IdsOf(list, |list|) ensures id in executions && keep(executions[id]) {
      var k :| 0 <= k < |list| && list[k].id == id;
      assert list[k] in list;
    }
  }

  // Whoever is not given up yet is as it was.
  lemma NotYetLost(first: World, w: World, ids: set<ExecutionID>, id: ExecutionID, now: Instant)
    requires AfterLosing(first, w, ids, now) && id in first.executions && id !in ids
    ensures id in w.executions && w.executions[id] == first.executions[id]
  {
  }

  // When everything with an executor is given up, every open attempt is lost.
  lemma AllInterrupted(cfg: Config, w: World, w': World, ids: set<ExecutionID>, now: Instant)
    requires Inv(cfg, w) && AfterLosing(w, w', ids, now)
    requires ids == set id | id in w.executions && w.executions[id].state.Leased()
    ensures w'.executions.Keys == w.executions.Keys && w'.attempts.Keys == w.attempts.Keys
    ensures forall id | id in w.executions ::
              var e := w.executions[id];
              w'.executions[id] == if WithExecutor(e) then NowInUntil(e, Ready, now, now) else e
    ensures forall a | a in w.attempts ::
              var attempt := w.attempts[a];
              w'.attempts[a] == if Undecided(attempt) then attempt.(state := Lost, updatedAt := now) else attempt
  {
    hide Inv, AfterLosing;
    forall a | a in w.attempts ensures CurrentOf(w, a, ids) <==> Undecided(w.attempts[a]) {
      if Undecided(w.attempts[a]) {
        OpenIsCurrentNow(cfg, w, a);
        assert w.attempts[a].executionID in ids;
      }
      if CurrentOf(w, a, ids) {
        var id :| id in ids && id in w.executions && w.executions[id].currentAttemptID == a;
        CurrentIsOpen(cfg, w, id);
      }
    }
    InterruptedAre(w, w', ids, now);
  }

  lemma InterruptedAre(w: World, w': World, ids: set<ExecutionID>, now: Instant)
    requires AfterLosing(w, w', ids, now)
    requires ids == set id | id in w.executions && w.executions[id].state.Leased()
    requires forall a | a in w.attempts :: CurrentOf(w, a, ids) <==> Undecided(w.attempts[a])
    ensures w'.executions.Keys == w.executions.Keys && w'.attempts.Keys == w.attempts.Keys
    ensures forall id | id in w.executions ::
              var e := w.executions[id];
              w'.executions[id] == if WithExecutor(e) then NowInUntil(e, Ready, now, now) else e
    ensures forall a | a in w.attempts ::
              var attempt := w.attempts[a];
              w'.attempts[a] == if Undecided(attempt) then attempt.(state := Lost, updatedAt := now) else attempt
  {
    hide CurrentOf;
  }

  lemma ExpiredAreLeased(now: Instant)
    ensures forall e | Expired(e, now) :: e.state.Leased()
  {
  }

  lemma ExpiredIffOver(now: Instant)
    ensures forall e :: Expired(e, now) <==> LeaseOver(e, now)
  {
  }

  // The loss of an attempt that was open on an instance.
  ghost predicate LossOn(attempts: map<AttemptID, Attempt>, instanceID: InstanceID, e: Event, now: Instant) {
    exists a :: a in OpenOn(attempts, instanceID) && e == Loss(attempts[a].executionID, now)
  }

  lemma LossIsOn(attempts: map<AttemptID, Attempt>, instanceID: InstanceID, open: seq<Attempt>, a: Attempt,
                 now: Instant)
    requires OpenList(attempts, instanceID, open) && a in open
    ensures LossOn(attempts, instanceID, Loss(a.executionID, now), now)
  {
    OpenListFacts(attempts, instanceID, open, a);
  }

  // The executions behind the first n of the open attempts.
  ghost function HeldIds(open: seq<Attempt>, n: nat): set<ExecutionID>
    requires n <= |open|
  {
    set k | 0 <= k < n :: open[k].executionID
  }

  lemma HeldIdsNext(open: seq<Attempt>, n: nat)
    requires n < |open|
    ensures HeldIds(open, n + 1) == HeldIds(open, n) + {open[n].executionID}
  {
  }

  lemma HeldAre(w: World, instanceID: InstanceID, open: seq<Attempt>)
    requires OpenList(w.attempts, instanceID, open)
    ensures HeldIds(open, 0) == {} && HeldIds(open, |open|) == HeldBy(w, instanceID)
  {
    forall id ensures id in HeldIds(open, |open|) <==> id in HeldBy(w, instanceID) {
      if id in HeldIds(open, |open|) {
        var k :| 0 <= k < |open| && open[k].executionID == id;
        OpenListFacts(w.attempts, instanceID, open, open[k]);
        assert OpenAt(w, open[k].id, instanceID);
      }
      if id in HeldBy(w, instanceID) {
        var a :| a in w.attempts && OpenAt(w, a, instanceID) && w.attempts[a].executionID == id;
        assert a in OpenOn(w.attempts, instanceID);
        var k := ListedAt(w.attempts, instanceID, open, a);
      }
    }
  }

  lemma NoneListed(attempts: map<AttemptID, Attempt>, instanceID: InstanceID)
    requires OpenList(attempts, instanceID, [])
    ensures OpenOn(attempts, instanceID) == {}
  {
  }

  // The attempt of an execution failed and gave its slot back, and the execution has yet to move on.
  ghost predicate Failing(w: World, view: World, e: Execution, now: Instant)
    requires e.currentAttemptID in w.attempts
  {
    view == w.(attempts := WithState(w.attempts, e.currentAttemptID, FunctionFailed, now),
               executors := Released(w.executors, w.attempts[e.currentAttemptID].instanceID, e.currentAttemptID))
  }

  // One when the single step, if any, leads there.
  function Outcomes(events: seq<Event>, to: ExecutionState): nat {
    if events != [] && events[0].Close? && events[0].to == to then 1 else 0
  }

  // The step settles an execution whose job asks for the outcome.
  predicate Delivers(w: World, e: Event) {
    && e.Close? && e.to.Terminal()
    && e.id in w.executions && w.executions[e.id].jobID in w.jobs
    && w.jobs[w.executions[e.id].jobID].resultMode == RESULT_MODE_DELIVER
  }

  lemma CurrentIsNumbered(cfg: Config, w: World, a: AttemptID)
    requires Inv(cfg, w) && a in w.attempts
    ensures a != NO_ATTEMPT
  {
  }

  lemma Identified(cfg: Config, w: World, id: ExecutionID)
    requires Inv(cfg, w) && id in w.executions
    ensures w.executions[id].id == id
  {
  }

  lemma AllIdentifiedJobs(cfg: Config, w: World)
    requires Inv(cfg, w)
    ensures forall id | id in w.jobs :: w.jobs[id].id == id
  {
  }

  lemma JobKnown(cfg: Config, w: World, job: Job)
    requires Inv(cfg, w) && exists id :: id in w.jobs && w.jobs[id] == job
    ensures job.id in w.jobs && w.jobs[job.id] == job
  {
  }

  lemma AllKeyed(cfg: Config, w: World, list: seq<Job>)
    requires Inv(cfg, w) && forall job | job in list :: exists id :: id in w.jobs && w.jobs[id] == job
    ensures forall id | id in w.jobs :: w.jobs[id].id == id
    ensures forall k | 0 <= k < |list| :: list[k].id in w.jobs && w.jobs[list[k].id] == list[k]
  {
    forall k | 0 <= k < |list| ensures list[k].id in w.jobs && w.jobs[list[k].id] == list[k] {
      assert list[k] in list;
    }
  }

  lemma NoneProvisioned(cfg: Config, list: seq<Job>, jobs: map<JobUUID, Job>, occurrences: Occurrences, now: Instant)
    ensures ProvisionedUpTo(cfg, list, 0, jobs, jobs, occurrences, now)
  {
  }

  lemma NoneNew(cfg: Config, jobs: map<JobUUID, Job>, executions: map<ExecutionID, Execution>, now: Instant)
    ensures NewArePlanned(cfg, jobs, executions, executions, now) && NewAreOwed(jobs, executions, executions, now)
  {
  }

  lemma OwnOccurrence(cfg: Config, w: World, id: ExecutionID)
    requires Inv(cfg, w) && id in w.executions
    ensures SoleOccurrence(w.executions, w.occurrences, id)
  {
    hide OccurrenceOf;
  }

  lemma FreshExecution(cfg: Config, w: World)
    requires Inv(cfg, w)
    ensures w.lastExecutionID + 1 !in w.executions
  {
  }

  lemma AllIdentified(cfg: Config, w: World)
    requires Inv(cfg, w)
    ensures forall id | id in w.executions :: w.executions[id].id == id
  {
  }

  // An open attempt is the current one of a leased execution.
  lemma OpenIsCurrentNow(cfg: Config, w: World, a: AttemptID)
    requires Inv(cfg, w) && a in w.attempts && w.attempts[a].Open()
    ensures w.attempts[a].id == a
    ensures w.attempts[a].executionID in w.executions
    ensures var e := w.executions[w.attempts[a].executionID];
            e.id == w.attempts[a].executionID && e.currentAttemptID == a && e.state.Leased()
  {
  }

  // An open attempt that is current belongs to a leased execution.
  lemma OpenIsLeased(cfg: Config, w: World, id: ExecutionID, a: AttemptID)
    requires Inv(cfg, w) && id in w.executions && w.executions[id].currentAttemptID == a && a in w.attempts
    requires w.attempts[a].Open()
    ensures w.executions[id].state == if w.attempts[a].state.Dispatched? then Dispatching else Running
  {
  }

  // A permitted move under the current version goes through.
  lemma ReviseApplies(e: Execution, update: ExecutionUpdate, now: Instant)
    requires update.state.None? || CanTransition(e.state, update.state.value)
    ensures Revise(e, e.version, update, now) == Ok(Updated(e, update, now))
  {
  }

  // A single step from a sound world, and the sound world it leads to.
  lemma DidMove(cfg: Config, w: World, id: ExecutionID, to: ExecutionState, next: Option<Instant>, now: Instant)
    requires cfg.Normal() && Inv(cfg, w) && id in w.executions && !w.executions[id].state.Leased() && !to.Leased()
    requires CanTransition(w.executions[id].state, to) || w.executions[id].state == to == Ready
    ensures var w' := w.(executions := w.executions[id :=
                        Updated(w.executions[id], NO_UPDATE.(state := Some(to), nextAttemptAt := next), now)]);
            Did(cfg, w, [Move(id, to, next, now)], w') && Inv(cfg, w')
  {
    hide Inv, Did, Updated, CanTransition;
    DidOne(cfg, w, Move(id, to, next, now));
    DidKeepsInv(cfg, w, [Move(id, to, next, now)], Step(w, Move(id, to, next, now)));
  }

  lemma DidAccept(cfg: Config, w: World, id: ExecutionID, now: Instant)
    requires cfg.Normal() && Inv(cfg, w) && id in w.executions && w.executions[id].state == Dispatching
    ensures w.executions[id].currentAttemptID in w.attempts
    ensures var w' := WithAccept(w, id, now + cfg.lease, now);
            Did(cfg, w, [Event.Accept(id, now + cfg.lease, now)], w') && Inv(cfg, w')
  {
    hide Inv, Did, WithAccept;
    PairedCurrent(cfg, w, id);
    var e := Event.Accept(id, now + cfg.lease, now);
    DidOne(cfg, w, e);
    DidKeepsInv(cfg, w, [e], Step(w, e));
  }

  lemma DidClose(cfg: Config, w: World, id: ExecutionID, verdict: AttemptState, to: ExecutionState,
                 next: Option<Instant>, now: Instant)
    requires cfg.Normal() && Inv(cfg, w) && id in w.executions && w.executions[id].state.Leased()
    requires CloseAllowed(w, w.executions[id], verdict, to)
    ensures w.executions[id].currentAttemptID in w.attempts
    ensures var w' := WithClose(w, id, verdict, to, next, now);
            Did(cfg, w, [Close(id, verdict, to, next, now)], w') && Inv(cfg, w')
  {
    hide Inv, Did, WithClose, CloseAllowed;
    PairedCurrent(cfg, w, id);
    var e := Close(id, verdict, to, next, now);
    DidOne(cfg, w, e);
    DidKeepsInv(cfg, w, [e], Step(w, e));
  }
}

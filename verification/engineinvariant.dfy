/**
 * The invariant that ties execution states, current attempts, attempt states and executor slots together, and the
 * proof that every step keeps it.
 */
module EngineInvariants {
  import opened Wrappers
  import opened ProtocolTypes
  import opened Schedules
  import opened Materialization
  import opened Registries
  import opened StoreRecords
  import opened EngineWorlds

  type Executions = map<ExecutionID, Execution>

  type Attempts = map<AttemptID, Attempt>

  // Identifiers are the keys, count up from one, and are never handed out twice.
  ghost predicate Numbered(w: World) {
    && (forall id | id in w.executions ::
          && w.executions[id].id == id && 1 <= id <= w.lastExecutionID
          && w.executions[id].currentAttemptID <= w.lastAttemptID)
    && (forall a | a in w.attempts :: w.attempts[a].id == a && 1 <= a <= w.lastAttemptID)
  }

  // No attempt outlives its execution.
  ghost predicate Parented(executions: Executions, attempts: Attempts) {
    forall a | a in attempts :: attempts[a].executionID in executions
  }

  // An open attempt is the current attempt of an execution that is dispatching until it is accepted, then running.
  ghost predicate OpenIsCurrent(executions: Executions, attempts: Attempts) {
    forall a | a in attempts && attempts[a].Open() && attempts[a].executionID in executions ::
      var e := executions[attempts[a].executionID];
      e.currentAttemptID == a && e.state == if attempts[a].state.Dispatched? then Dispatching else Running
  }

  // The current attempt of an execution, while it is stored, is one of its own.
  ghost predicate CurrentIsOwn(executions: Executions, attempts: Attempts) {
    forall id | id in executions && executions[id].currentAttemptID in attempts ::
      attempts[executions[id].currentAttemptID].executionID == id
  }

  // A leased execution has an open current attempt.
  ghost predicate LeasedIsOpen(executions: Executions, attempts: Attempts) {
    forall id | id in executions && executions[id].state.Leased() ::
      var a := executions[id].currentAttemptID;
      a in attempts && attempts[a].Open()
  }

  // Every occupied slot is an open attempt on that instance, and no executor with a capacity exceeds it.
  ghost predicate SlotsOpen(attempts: Attempts, executors: map<InstanceID, Executor>) {
    forall x | x in executors ::
      && (forall a | a in executors[x].inFlight ::
            a in attempts && attempts[a].Open() && attempts[a].instanceID == x)
      && (executors[x].capacity > 0 ==> |executors[x].inFlight| <= executors[x].capacity)
  }

  // The latest a lease may run: one lease past acceptance, or past the last heartbeat that may renew it.
  ghost function LeaseBound(cfg: Config, a: Attempt): Instant {
    var lastRenewal := a.createdAt + cfg.maxExecution;
    (if a.state.Accepted? && a.updatedAt > lastRenewal then a.updatedAt else lastRenewal) + cfg.lease
  }

  ghost predicate LeasesBounded(cfg: Config, executions: Executions, attempts: Attempts) {
    forall id | id in executions && executions[id].state.Leased() && executions[id].currentAttemptID in attempts ::
      && executions[id].leaseExpiresAt.Some?
      && executions[id].leaseExpiresAt.value <= LeaseBound(cfg, attempts[executions[id].currentAttemptID])
  }

  // Executions and their attempts belong together.
  ghost predicate Paired(cfg: Config, executions: Executions, attempts: Attempts) {
    && Parented(executions, attempts)
    && CurrentIsOwn(executions, attempts)
    && OpenIsCurrent(executions, attempts)
    && LeasedIsOpen(executions, attempts)
    && LeasesBounded(cfg, executions, attempts)
  }

  // `occurrences` is the exact inverse of the occurrences of the stored executions.
  ghost predicate OccurrencesExact(executions: Executions, occurrences: map<OccurrenceKey, ExecutionID>) {
    && (forall id | id in executions ::
          var key := OccurrenceOf(executions[id].jobID, executions[id].scheduledAt);
          key in occurrences && occurrences[key] == id)
    && (forall key | key in occurrences ::
          && occurrences[key] in executions
          && OccurrenceOf(executions[occurrences[key]].jobID, executions[occurrences[key]].scheduledAt) == key)
  }

  ghost predicate JobsIdentified(jobs: map<JobUUID, Job>) {
    forall id | id in jobs :: jobs[id].id == id
  }

  // A job has been stored at least once.
  ghost predicate JobsVersioned(jobs: map<JobUUID, Job>) {
    forall id | id in jobs :: jobs[id].version >= 1
  }

  ghost predicate Inv(cfg: Config, w: World) {
    && Numbered(w)
    && Paired(cfg, w.executions, w.attempts)
    && SlotsOpen(w.attempts, w.executors)
    && OccurrencesExact(w.executions, w.occurrences)
    && JobsIdentified(w.jobs)
    && JobsVersioned(w.jobs)
  }

  lemma EmptyInv(cfg: Config)
    ensures Inv(cfg, EMPTY_WORLD)
  {
  }

  lemma JobsKeepInv(cfg: Config, w: World, e: Event)
    requires Inv(cfg, w) && Enabled(cfg, w, e) && (e.PutJob? || e.DropJob? || e.CountSkipped?)
    ensures Inv(cfg, Step(w, e))
  {
    hide Numbered, Paired, SlotsOpen, OccurrencesExact;
    SameNumbers(w, Step(w, e));
  }

  lemma SameNumbers(w: World, w': World)
    requires Numbered(w)
    requires w'.executions == w.executions && w'.lastExecutionID == w.lastExecutionID
    requires w'.attempts == w.attempts && w'.lastAttemptID == w.lastAttemptID
    ensures Numbered(w')
  {
  }

  lemma CreateKeepsInv(cfg: Config, w: World, jobID: JobUUID, scheduledAt: Instant, backfilled: bool, at: Instant)
    requires Inv(cfg, w) && OccurrenceOf(jobID, scheduledAt) !in w.occurrences
    ensures Inv(cfg, WithCreate(w, jobID, scheduledAt, backfilled, at))
  {
    var w' := WithCreate(w, jobID, scheduledAt, backfilled, at);
    assert w'.lastExecutionID !in w.executions;
    CreateKeepsPaired(cfg, w.executions, w.attempts, w'.executions[w'.lastExecutionID]);
    CreateKeepsOccurrences(w.executions, w.occurrences, w'.executions[w'.lastExecutionID]);
    hide JobsIdentified, SlotsOpen, Paired, OccurrencesExact, OccurrenceOf;
  }

  lemma CreateKeepsPaired(cfg: Config, executions: Executions, attempts: Attempts, e: Execution)
    requires Paired(cfg, executions, attempts) && e.id !in executions && !e.state.Leased()
    requires e.currentAttemptID !in attempts
    ensures Paired(cfg, executions[e.id := e], attempts)
  {
  }

  lemma CreateKeepsOccurrences(executions: Executions, occurrences: map<OccurrenceKey, ExecutionID>, e: Execution)
    requires OccurrencesExact(executions, occurrences)
    requires e.id !in executions && OccurrenceOf(e.jobID, e.scheduledAt) !in occurrences
    ensures OccurrencesExact(executions[e.id := e], occurrences[OccurrenceOf(e.jobID, e.scheduledAt) := e.id])
  {
    hide OccurrenceOf;
  }

  // Changing one execution leaves the occurrences alone as long as its job and instant stay.
  lemma ReviseKeepsOccurrences(executions: Executions, occurrences: map<OccurrenceKey, ExecutionID>, id: ExecutionID,
                               e: Execution)
    requires OccurrencesExact(executions, occurrences) && id in executions
    requires e.jobID == executions[id].jobID && e.scheduledAt == executions[id].scheduledAt
    ensures OccurrencesExact(executions[id := e], occurrences)
  {
  }

  lemma MoveKeepsInv(cfg: Config, w: World, id: ExecutionID, e: Execution)
    requires Inv(cfg, w) && id in w.executions
    requires !w.executions[id].state.Leased() && !e.state.Leased()
    requires e.id == id && e.jobID == w.executions[id].jobID && e.scheduledAt == w.executions[id].scheduledAt
    requires e.currentAttemptID == w.executions[id].currentAttemptID
    ensures Inv(cfg, w.(executions := w.executions[id := e]))
  {
    ReviseKeepsOccurrences(w.executions, w.occurrences, id, e);
    hide JobsIdentified, SlotsOpen, OccurrencesExact, LeaseBound;
  }

  lemma OccupyKeepsSlots(attempts: Attempts, executors: map<InstanceID, Executor>, x: InstanceID, a: Attempt)
    requires SlotsOpen(attempts, executors)
    requires a.id !in attempts && a.Open() && a.instanceID == x
    requires x in executors ==> executors[x].HasCapacity()
    ensures SlotsOpen(attempts[a.id := a], Occupied(executors, x, a.id))
  {
    var attempts', executors' := attempts[a.id := a], Occupied(executors, x, a.id);
    if x in executors {
      assert a.id !in executors[x].inFlight;
      assert |executors[x].inFlight + {a.id}| == |executors[x].inFlight| + 1;
    }
  }

  // An open attempt that matches its execution's new state, or a closed one that frees it, keeps the pairing as long
  // as the execution has no other open attempt.
  lemma ReviseKeepsPaired(cfg: Config, executions: Executions, attempts: Attempts, e: Execution, a: Attempt)
    requires Paired(cfg, executions, attempts)
    requires e.id in executions && a.executionID == e.id && e.currentAttemptID == a.id
    requires a.id in attempts ==> attempts[a.id].executionID == e.id
    requires forall id | id in executions && executions[id].currentAttemptID == a.id :: id == e.id
    requires forall b | b in attempts && attempts[b].executionID == e.id && attempts[b].Open() :: b == a.id
    requires if a.Open() then
               && e.state == (if a.state.Dispatched? then Dispatching else Running)
               && e.leaseExpiresAt.Some? && e.leaseExpiresAt.value <= LeaseBound(cfg, a)
             else !e.state.Leased()
    ensures Paired(cfg, executions[e.id := e], attempts[a.id := a])
  {
    hide LeaseBound;
    var executions', attempts' := executions[e.id := e], attempts[a.id := a];
    assert Parented(executions', attempts');
    assert OpenIsCurrent(executions', attempts');
    forall id | id in executions' && executions'[id].state.Leased()
      ensures var b := executions'[id].currentAttemptID;
              b in attempts' && attempts'[b].Open()
      ensures executions'[id].leaseExpiresAt.Some?
      ensures executions'[id].leaseExpiresAt.value <= LeaseBound(cfg, attempts'[executions'[id].currentAttemptID])
    {
    }
  }

  lemma DispatchKeepsInv(cfg: Config, w: World, id: ExecutionID, x: InstanceID, lease: Instant, at: Instant)
    requires Inv(cfg, w) && cfg.Normal() && id in w.executions && !w.executions[id].state.Leased()
    requires lease <= at + cfg.lease && (x in w.executors ==> w.executors[x].HasCapacity())
    ensures Inv(cfg, WithDispatch(w, id, x, lease, at))
  {
    hide JobsIdentified, SlotsOpen, OccurrencesExact, Paired, Occupied, AttemptsOf, NextAttemptNumber;
    NoneOpen(cfg, w, id);
    var w' := WithDispatch(w, id, x, lease, at);
    var a := w'.attempts[w'.lastAttemptID];
    assert a.id !in w.attempts;
    OccupyKeepsSlots(w.attempts, w.executors, x, a);
    ReviseKeepsOccurrences(w.executions, w.occurrences, id, w'.executions[id]);
    ReviseKeepsPaired(cfg, w.executions, w.attempts, w'.executions[id], a);
  }

  lemma NoneOpen(cfg: Config, w: World, id: ExecutionID)
    requires Inv(cfg, w) && id in w.executions && !w.executions[id].state.Leased()
    ensures w.executions[id].id == id
    ensures forall b | b in w.attempts && w.attempts[b].executionID == id :: !w.attempts[b].Open()
  {
  }

  lemma CurrentIsOpen(cfg: Config, w: World, id: ExecutionID)
    requires Inv(cfg, w) && id in w.executions && w.executions[id].state.Leased()
    ensures w.executions[id].id == id
    ensures w.executions[id].currentAttemptID in w.attempts
    ensures var a := w.attempts[w.executions[id].currentAttemptID];
            && a.id == w.executions[id].currentAttemptID && a.executionID == id && a.Open()
            && w.executions[id].state == if a.state.Dispatched? then Dispatching else Running
    ensures forall b | b in w.attempts && w.attempts[b].executionID == id && w.attempts[b].Open() ::
              b == w.executions[id].currentAttemptID
    ensures forall other | other in w.executions &&
        w.executions[other].currentAttemptID == w.executions[id].currentAttemptID ::
              other == id
  {
  }

  // An attempt that changes state but stays open leaves the slots alone.
  lemma AcceptKeepsSlots(attempts: Attempts, executors: map<InstanceID, Executor>, a: AttemptID, at: Instant)
    requires SlotsOpen(attempts, executors) && a in attempts
    ensures SlotsOpen(WithState(attempts, a, AttemptState.Accepted, at), executors)
  {
  }

  lemma AcceptKeepsInv(cfg: Config, w: World, id: ExecutionID, lease: Instant, at: Instant)
    requires Inv(cfg, w) && id in w.executions && w.executions[id].state == Dispatching && lease == at + cfg.lease
    ensures w.executions[id].currentAttemptID in w.attempts
    ensures Inv(cfg, WithAccept(w, id, lease, at))
  {
    hide Consumed, JobsIdentified, SlotsOpen, OccurrencesExact, Paired;
    CurrentIsOpen(cfg, w, id);
    var w', a := WithAccept(w, id, lease, at), w.executions[id].currentAttemptID;
    AcceptKeepsSlots(w.attempts, w.executors, a, at);
    ReviseKeepsOccurrences(w.executions, w.occurrences, id, w'.executions[id]);
    ReviseKeepsPaired(cfg, w.executions, w.attempts, w'.executions[id], w'.attempts[a]);
  }

  lemma ReleaseKeepsSlots(attempts: Attempts, executors: map<InstanceID, Executor>, a: AttemptID,
                          verdict: AttemptState, at: Instant)
    requires SlotsOpen(attempts, executors) && a in attempts
    ensures SlotsOpen(WithState(attempts, a, verdict, at), Released(executors, attempts[a].instanceID, a))
  {
    var x := attempts[a].instanceID;
    if x in executors {
      Shrinks(executors[x].inFlight, a);
    }
  }

  lemma Shrinks<T>(s: set<T>, x: T)
    ensures |s - {x}| <= |s|
  {
    if x !in s { assert s - {x} == s; }
  }

  lemma CloseKeepsInv(cfg: Config, w: World, id: ExecutionID, verdict: AttemptState, to: ExecutionState,
                      next: Option<Instant>, at: Instant)
    requires Inv(cfg, w) && id in w.executions && w.executions[id].state.Leased()
    requires verdict.Terminal() && !to.Leased()
    ensures w.executions[id].currentAttemptID in w.attempts
    ensures Inv(cfg, WithClose(w, id, verdict, to, next, at))
  {
    hide JobsIdentified, SlotsOpen, OccurrencesExact, Paired, Released;
    CurrentIsOpen(cfg, w, id);
    var w' := WithClose(w, id, verdict, to, next, at);
    ReleaseKeepsSlots(w.attempts, w.executors, w.executions[id].currentAttemptID, verdict, at);
    ReviseKeepsOccurrences(w.executions, w.occurrences, id, w'.executions[id]);
    ReviseKeepsPaired(cfg, w.executions, w.attempts, w'.executions[id],
        w'.attempts[w'.executions[id].currentAttemptID]);
  }

  lemma RenewKeepsPaired(cfg: Config, executions: Executions, attempts: Attempts, e: Execution)
    requires Paired(cfg, executions, attempts)
    requires e.id in executions && executions[e.id].state.Leased() && e.currentAttemptID in attempts
    requires e.state == executions[e.id].state && e.currentAttemptID == executions[e.id].currentAttemptID
    requires e.leaseExpiresAt.Some? && e.leaseExpiresAt.value <= LeaseBound(cfg, attempts[e.currentAttemptID])
    ensures Paired(cfg, executions[e.id := e], attempts)
  {
    hide LeaseBound;
  }

  lemma RenewKeepsInv(cfg: Config, w: World, id: ExecutionID, lease: Instant, at: Instant)
    requires Inv(cfg, w) && cfg.Normal() && id in w.executions && w.executions[id].state.Leased()
    requires w.executions[id].currentAttemptID in w.attempts
    requires Sub(at, w.attempts[w.executions[id].currentAttemptID].createdAt) < cfg.maxExecution
    requires lease == at + cfg.lease
    ensures Inv(cfg, w.(executions := w.executions[id :=
              Updated(w.executions[id], NO_UPDATE.(leaseExpiresAt := Some(lease)), at)]))
  {
    hide JobsIdentified, SlotsOpen, OccurrencesExact, Paired;
    var e := Updated(w.executions[id], NO_UPDATE.(leaseExpiresAt := Some(lease)), at);
    CurrentIsOpen(cfg, w, id);
    ReviseKeepsOccurrences(w.executions, w.occurrences, id, e);
    RenewKeepsPaired(cfg, w.executions, w.attempts, e);
  }

  lemma PurgeKeepsOccurrences(executions: Executions, occurrences: map<OccurrenceKey, ExecutionID>, id: ExecutionID)
    requires OccurrencesExact(executions, occurrences) && id in executions
    ensures OccurrencesExact(executions - {id},
                             occurrences - {OccurrenceOf(executions[id].jobID, executions[id].scheduledAt)})
  {
  }

  lemma PurgeKeepsPaired(cfg: Config, executions: Executions, attempts: Attempts, id: ExecutionID)
    requires Paired(cfg, executions, attempts)
    ensures Paired(cfg, executions - {id}, attempts - AttemptsOf(attempts, id))
  {
  }

  lemma PurgeKeepsSlots(attempts: Attempts, executors: map<InstanceID, Executor>, id: ExecutionID)
    requires SlotsOpen(attempts, executors)
    requires forall b | b in attempts && attempts[b].executionID == id :: !attempts[b].Open()
    ensures SlotsOpen(attempts - AttemptsOf(attempts, id), executors)
  {
  }

  lemma PurgeKeepsInv(cfg: Config, w: World, id: ExecutionID, at: Instant)
    requires Inv(cfg, w) && id in w.executions && w.executions[id].state.Terminal()
    ensures Inv(cfg, Step(w, Purge(id, at)))
  {
    NoneOpen(cfg, w, id);
    hide JobsIdentified, OccurrencesExact, SlotsOpen, Paired, OccurrenceOf, AttemptsOf;
    PurgeKeepsOccurrences(w.executions, w.occurrences, id);
    PurgeKeepsPaired(cfg, w.executions, w.attempts, id);
    PurgeKeepsSlots(w.attempts, w.executors, id);
  }

  lemma ExecutorsKeepInv(cfg: Config, w: World, e: Event)
    requires Inv(cfg, w) && Enabled(cfg, w, e) && (e.Join? || e.Leave? || e.Relabel?)
    ensures Inv(cfg, Step(w, e))
  {
    hide Numbered, Paired, OccurrencesExact, JobsIdentified;
    assert Numbered(Step(w, e)) by { SameNumbers(w, Step(w, e)); }
  }

  // Every step the engine takes keeps the invariant.
  lemma StepKeepsInv(cfg: Config, w: World, e: Event)
    requires Inv(cfg, w) && cfg.Normal() && Enabled(cfg, w, e)
    ensures Inv(cfg, Step(w, e))
  {
    hide Inv, WithDispatch, WithAccept, WithClose, WithCreate;
    match e
    case Create(jobID, scheduledAt, backfilled, at) => CreateKeepsInv(cfg, w, jobID, scheduledAt, backfilled, at);
    case Move(id, to, next, at) =>
      MoveIsRevision(cfg, w, id, to, next, at);
      MoveKeepsInv(cfg, w, id, Updated(w.executions[id], NO_UPDATE.(state := Some(to), nextAttemptAt := next), at));
    case Dispatch(id, x, lease, at) =>
      TransitionShape(w.executions[id].state, Dispatching);
      DispatchKeepsInv(cfg, w, id, x, lease, at);
    case Accept(id, lease, at) => AcceptKeepsInv(cfg, w, id, lease, at);
    case Close(id, verdict, to, next, at) => CloseKeepsInv(cfg, w, id, verdict, to, next, at);
    case Renew(id, lease, at) => RenewKeepsInv(cfg, w, id, lease, at);
    case Purge(id, at) => PurgeKeepsInv(cfg, w, id, at);
    case _ =>
      if e.PutJob? || e.DropJob? || e.CountSkipped? {
        JobsKeepInv(cfg, w, e);
      } else {
        ExecutorsKeepInv(cfg, w, e);
      }
  }

  lemma MoveIsRevision(cfg: Config, w: World, id: ExecutionID, to: ExecutionState, next: Option<Instant>, at: Instant)
    requires Inv(cfg, w) && id in w.executions
    ensures w.executions[id].id == id
  {
  }
}

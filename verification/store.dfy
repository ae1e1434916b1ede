/**
 * The in-memory store: jobs, executions and attempts, with the lists and occurrence keys that index them.
 *
 * The maps are the truth. `Valid` says that every list holds exactly the identifiers a plain filter would, in
 * creation order. Stored records are values, so every read is a copy.
 */
module MemStores {
  import opened Wrappers
  import opened Sequences
  import opened ProtocolTypes
  import opened Schedules
  import opened StoreRecords
  import opened EngineWorlds
  import opened RecordMeanings

  type Attempts = map<AttemptID, Attempt>

  datatype JobError = ZeroJobUUID

  // The open attempts delivered to an instance.
  ghost function OpenOn(attempts: Attempts, instanceID: InstanceID): set<AttemptID> {
    set a | a in attempts && attempts[a].instanceID == instanceID && attempts[a].Open()
  }

  // The open attempts on an instance in creation order, as they are stored.
  ghost predicate OpenList(attempts: Attempts, instanceID: InstanceID, open: seq<Attempt>) {
    && OpenOn(attempts, instanceID) == (set a | a in open :: a.id)
    && (forall a | a in open :: a.id in attempts && attempts[a.id] == a)
    && (forall i, j | 0 <= i < j < |open| :: open[i].id < open[j].id)
  }

  lemma OpenListFacts(attempts: Attempts, instanceID: InstanceID, open: seq<Attempt>, a: Attempt)
    requires OpenList(attempts, instanceID, open) && a in open
    ensures a.id in attempts && attempts[a.id] == a && a.Open() && a.id in OpenOn(attempts, instanceID)
  {
    assert a.id in OpenOn(attempts, instanceID);
  }

  // Ending the first of them leaves the rest.
  lemma OpenListNext(attempts: Attempts, instanceID: InstanceID, open: seq<Attempt>, verdict: AttemptState,
                     now: Instant)
    requires OpenList(attempts, instanceID, open) && open != [] && verdict.Terminal()
    requires open[0].id in attempts
    ensures OpenList(WithState(attempts, open[0].id, verdict, now), instanceID, open[1..])
  {
    var first, rest := open[0], open[1..];
    OpenListFacts(attempts, instanceID, open, first);
    OpenOnState(attempts, first.id, verdict, now, instanceID);
    StateOfOthers(attempts, first.id, verdict, now);
    TailIds(open);
    hide OpenOn, WithState;
    assert forall a | a in rest :: a in open;
  }

  lemma TailIds(open: seq<Attempt>)
    requires open != [] && forall i, j | 0 <= i < j < |open| :: open[i].id < open[j].id
    ensures (set a | a in open[1..] :: a.id) == (set a | a in open :: a.id) - {open[0].id}
    ensures forall a | a in open[1..] :: a.id != open[0].id
  {
    forall a | a in open ensures a == open[0] || a in open[1..] {
      var i :| 0 <= i < |open| && open[i] == a;
      assert i > 0 ==> open[1..][i - 1] == a;
    }
    forall a | a in open[1..] ensures a.id != open[0].id && a in open {
      var i :| 0 <= i < |open| - 1 && open[1..][i] == a;
      assert open[i + 1] == a;
    }
  }

  lemma StateOfOthers(attempts: Attempts, id: AttemptID, state: AttemptState, now: Instant)
    requires id in attempts
    ensures WithState(attempts, id, state, now).Keys == attempts.Keys
    ensures forall a | a in attempts && a != id :: WithState(attempts, id, state, now)[a] == attempts[a]
  {
  }

  ghost predicate ByExecution(index: map<ExecutionID, seq<AttemptID>>, attempts: Attempts) {
    NoEmptyBucket(index) && forall id :: Lists(Bucket(index, id), AttemptsOf(attempts, id))
  }

  ghost predicate ByHost(index: map<InstanceID, seq<AttemptID>>, attempts: Attempts) {
    NoEmptyBucket(index) && forall x :: Lists(Bucket(index, x), OpenOn(attempts, x))
  }

  // What a partial update does to a record, or why it is refused.
  function Revise(e: Execution, expectedVersion: nat, update: ExecutionUpdate, now: Instant)
    : Result<Execution, StoreError>
  {
    if e.version != expectedVersion then Err(VersionConflict)
    else if update.state.None? || update.state.value == e.state then Ok(Updated(e, update, now))
    else if e.state.Terminal() then Err(TerminalState)
    else if !CanTransition(e.state, update.state.value) then Err(IllegalTransition)
    else Ok(Updated(e, update, now))
  }

  lemma RevisionIs(e: Execution, expectedVersion: nat, update: ExecutionUpdate, now: Instant)
    ensures AfterUpdate(e, expectedVersion, update, now, Revise(e, expectedVersion, update, now))
  {
    if update.state.Some? {
      TableIs(e.state, update.state.value);
    }
    hide CanTransition, MayMove;
  }

  lemma AttemptsOfAdd(attempts: Attempts, a: Attempt, id: ExecutionID)
    requires a.id !in attempts
    ensures AttemptsOf(attempts[a.id := a], id) ==
            if a.executionID == id then AttemptsOf(attempts, id) + {a.id} else AttemptsOf(attempts, id)
  {
  }

  lemma OpenOnAdd(attempts: Attempts, a: Attempt, x: InstanceID)
    requires a.id !in attempts && a.Open()
    ensures OpenOn(attempts[a.id := a], x) ==
            if a.instanceID == x then OpenOn(attempts, x) + {a.id} else OpenOn(attempts, x)
  {
  }

  lemma AttemptsOfState(attempts: Attempts, a: AttemptID, state: AttemptState, now: Instant, id: ExecutionID)
    requires a in attempts
    ensures AttemptsOf(WithState(attempts, a, state, now), id) == AttemptsOf(attempts, id)
  {
  }

  lemma OpenOnState(attempts: Attempts, a: AttemptID, state: AttemptState, now: Instant, x: InstanceID)
    requires a in attempts && (attempts[a].Open() || state.Terminal())
    ensures OpenOn(WithState(attempts, a, state, now), x) ==
            if state.Terminal() && attempts[a].instanceID == x then OpenOn(attempts, x) - {a} else OpenOn(attempts, x)
  {
  }

  lemma AttemptsOfDrop(attempts: Attempts, a: AttemptID, id: ExecutionID)
    requires a in attempts
    ensures AttemptsOf(attempts - {a}, id) ==
            if attempts[a].executionID == id then AttemptsOf(attempts, id) - {a} else AttemptsOf(attempts, id)
  {
  }

  lemma OpenOnDrop(attempts: Attempts, a: AttemptID, x: InstanceID)
    requires a in attempts
    ensures OpenOn(attempts - {a}, x) ==
            if attempts[a].instanceID == x then OpenOn(attempts, x) - {a} else OpenOn(attempts, x)
  {
  }

  ghost predicate AllStored(executions: map<ExecutionID, Execution>, occurrences: map<OccurrenceKey, ExecutionID>) {
    forall key | key in occurrences :: occurrences[key] in executions
  }

  // No occurrence but its own leads to an execution.
  ghost predicate SoleOccurrence(executions: map<ExecutionID, Execution>, occurrences: map<OccurrenceKey, ExecutionID>,
                                 id: ExecutionID)
  {
    id in executions ==>
      forall key | key in occurrences && occurrences[key] == id ::
        key == OccurrenceOf(executions[id].jobID, executions[id].scheduledAt)
  }

  lemma OccurrenceDropped(executions: map<ExecutionID, Execution>, occurrences: map<OccurrenceKey, ExecutionID>,
                          id: ExecutionID)
    requires AllStored(executions, occurrences) && SoleOccurrence(executions, occurrences, id) && id in executions
    ensures AllStored(executions - {id},
                      occurrences - {OccurrenceOf(executions[id].jobID, executions[id].scheduledAt)})
  {
    hide OccurrenceOf;
  }

  predicate Due(e: Execution, now: Instant) {
    if e.state == Scheduled then e.scheduledAt <= now
    else (e.state == Ready || e.state == RetryWait) && e.nextAttemptAt <= now
  }

  predicate SettledBefore(e: Execution, before: Instant) {
    e.state.Terminal() && e.updatedAt < before
  }

  function DueAt(now: Instant): Execution -> bool {
    (e: Execution) => Due(e, now)
  }

  function ExpiredAt(before: Instant): Execution -> bool {
    (e: Execution) => SettledBefore(e, before)
  }

  function BySchedule(): Execution -> Instant {
    (e: Execution) => e.scheduledAt
  }

  function BySettling(): Execution -> Instant {
    (e: Execution) => e.updatedAt
  }

  // The order of a query: by a key, then by identifier.
  predicate Precedes(key: Execution -> Instant, a: Execution, b: Execution) {
    key(a) < key(b) || (key(a) == key(b) && a.id < b.id)
  }

  ghost predicate Ordered(key: Execution -> Instant, list: seq<Execution>) {
    forall i, j | 0 <= i < j < |list| :: Precedes(key, list[i], list[j])
  }

  // The first of the stored executions that a query keeps, in its order: all of them, or as many as a positive limit.
  ghost predicate FirstOf(executions: map<ExecutionID, Execution>, keep: Execution -> bool, key: Execution -> Instant,
                          limit: nat, list: seq<Execution>)
  {
    && (forall e | e in list :: e.id in executions && executions[e.id] == e && keep(e))
    && Ordered(key, list)
    && (limit > 0 ==> |list| <= limit)
    && (forall id | id in executions && keep(executions[id]) && executions[id] !in list ::
          limit > 0 && |list| == limit && forall e | e in list :: Precedes(key, e, executions[id]))
  }

  lemma DueIsComing(e: Execution, now: Instant)
    ensures Due(e, now) <==> ComesDue(e, now)
  {
  }

  // The query for what is due comes to this.
  lemma FirstAreDue(executions: map<ExecutionID, Execution>, now: Instant, limit: nat, list: seq<Execution>)
    requires FirstOf(executions, DueAt(now), BySchedule(), limit, list)
    ensures DueBatch(executions, now, limit, list)
  {
    forall e ensures DueAt(now)(e) <==> ComesDue(e, now) {
      DueIsComing(e, now);
    }
    forall a, b ensures Precedes(BySchedule(), a, b) <==> ScheduledFirst(a, b) {
    }
    hide Precedes, DueAt, BySchedule, ComesDue, ScheduledFirst;
  }

  lemma FirstAreSettled(executions: map<ExecutionID, Execution>, before: Instant, limit: nat, list: seq<Execution>)
    requires FirstOf(executions, ExpiredAt(before), BySettling(), limit, list)
    ensures SettledBatch(executions, before, limit, list)
  {
    forall e ensures ExpiredAt(before)(e) <==> Finished(e) && e.updatedAt < before {
    }
    forall a, b ensures Precedes(BySettling(), a, b) <==> SettledFirst(a, b) {
    }
    hide Precedes, ExpiredAt, BySettling, Finished, SettledFirst;
  }

  // Stands for the library's sort.
  method Sorted(list: seq<Execution>, key: Execution -> Instant) returns (sorted: seq<Execution>)
    requires forall i, j | 0 <= i < j < |list| :: list[i].id != list[j].id
    ensures |sorted| == |list| && (forall e :: e in sorted <==> e in list) && Ordered(key, sorted)
  {
    sorted := [];
    for n := 0 to |list|
      invariant |sorted| == n && (forall e :: e in sorted <==> e in list[..n]) && Ordered(key, sorted)
    {
      hide Ordered, Precedes;
      assert list[..n + 1] == list[..n] + [list[n]];
      assert forall e | e in sorted :: e.id != list[n].id;
      var p := InsertionPoint(sorted, list[n], key);
      InsertedOrdered(key, sorted[..p], list[n], sorted[p..]);
      assert sorted == sorted[..p] + sorted[p..];
      sorted := sorted[..p] + [list[n]] + sorted[p..];
    }
    assert list[..|list|] == list;
  }

  method InsertionPoint(sorted: seq<Execution>, e: Execution, key: Execution -> Instant) returns (p: nat)
    requires Ordered(key, sorted) && forall s | s in sorted :: s.id != e.id
    ensures p <= |sorted|
    ensures forall s | s in sorted[..p] :: Precedes(key, s, e)
    ensures forall s | s in sorted[p..] :: Precedes(key, e, s)
  {
    p := |sorted|;
    while p > 0 && Precedes(key, e, sorted[p - 1])
      invariant p <= |sorted|
      invariant forall s | s in sorted[p..] :: Precedes(key, e, s)
    {
      p := p - 1;
    }
    forall s | s in sorted[..p] ensures Precedes(key, s, e) {
      var i :| 0 <= i < p && sorted[i] == s;
      assert sorted[p - 1] in sorted;
      if i < p - 1 {
        assert Precedes(key, s, sorted[p - 1]);
      }
    }
  }

  lemma InsertedOrdered(key: Execution -> Instant, a: seq<Execution>, e: Execution, b: seq<Execution>)
    requires Ordered(key, a + b)
    requires (forall s | s in a :: Precedes(key, s, e)) && (forall s | s in b :: Precedes(key, e, s))
    ensures Ordered(key, a + [e] + b)
  {
    hide Precedes;
    var all, was := a + [e] + b, a + b;
    forall i, j | 0 <= i < j < |all| ensures Precedes(key, all[i], all[j]) {
      if i == |a| {
        assert all[j] == b[j - |a| - 1] && b[j - |a| - 1] in b;
      } else if j == |a| {
        assert all[i] == a[i] && a[i] in a;
      } else {
        assert all[i] == was[if i < |a| then i else i - 1] && all[j] == was[if j < |a| then j else j - 1];
      }
    }
  }

  method FirstBy(list: seq<Execution>, key: Execution -> Instant, limit: nat) returns (first: seq<Execution>)
    requires forall i, j | 0 <= i < j < |list| :: list[i].id != list[j].id
    ensures Ordered(key, first) && (forall e | e in first :: e in list)
    ensures |first| == if 0 < limit < |list| then limit else |list|
    ensures forall e | e in list && e !in first ::
              0 < limit == |first| && forall f | f in first :: Precedes(key, f, e)
  {
    hide Precedes;
    var sorted := Sorted(list, key);
    first := if 0 < limit < |sorted| then sorted[..limit] else sorted;
    forall e, f | e in list && e !in first && f in first ensures Precedes(key, f, e) {
      assert e in sorted;
      var j :| 0 <= j < |sorted| && sorted[j] == e;
      var i :| 0 <= i < |first| && first[i] == f;
      assert j >= limit > i;
    }
  }

  lemma FirstIsFirst(executions: map<ExecutionID, Execution>, keep: Execution -> bool, key: Execution -> Instant,
                     limit: nat, matching: seq<Execution>, first: seq<Execution>)
    requires forall e :: e in matching <==> e.id in executions && executions[e.id] == e && keep(e)
    requires forall id | id in executions :: executions[id].id == id
    requires Ordered(key, first) && (forall e | e in first :: e in matching)
    requires |first| == if 0 < limit < |matching| then limit else |matching|
    requires forall e | e in matching && e !in first ::
               0 < limit == |first| && forall f | f in first :: Precedes(key, f, e)
    ensures FirstOf(executions, keep, key, limit, first)
  {
    hide Ordered, Precedes;
  }

  // A query's list has every execution once.
  lemma FirstAreDistinct(executions: map<ExecutionID, Execution>, keep: Execution -> bool, key: Execution -> Instant,
                         limit: nat, list: seq<Execution>)
    requires FirstOf(executions, keep, key, limit, list)
    ensures forall i, j | 0 <= i < j < |list| :: list[i].id != list[j].id
  {
    forall i, j | 0 <= i < j < |list| ensures list[i].id != list[j].id {
      assert Precedes(key, list[i], list[j]);
      assert list[i] in list && list[j] in list;
    }
  }

  class Store {
    var jobs: map<JobUUID, Job>
    var jobKeys: map<JobScope, JobUUID>
    var executions: map<ExecutionID, Execution>
    var occurrences: map<OccurrenceKey, ExecutionID>
    var nextExecutionID: ExecutionID
    var executionsOrdered: seq<ExecutionID>
    var attempts: map<AttemptID, Attempt>
    var attemptsByExec: map<ExecutionID, seq<AttemptID>>
    var attemptsByHost: map<InstanceID, seq<AttemptID>>
    var nextAttemptID: AttemptID

    ghost predicate ExecutionsListed()
      reads this`executions, this`executionsOrdered, this`nextExecutionID
    {
      && Lists(executionsOrdered, executions.Keys)
      && (forall id | id in executions :: executions[id].id == id && id <= nextExecutionID)
    }

    ghost predicate AttemptsListed()
      reads this`attempts, this`attemptsByExec, this`attemptsByHost, this`nextAttemptID
    {
      && ByExecution(attemptsByExec, attempts)
      && ByHost(attemptsByHost, attempts)
      && (forall a | a in attempts :: attempts[a].id == a && a <= nextAttemptID)
    }

    ghost predicate OccurrencesStored()
      reads this`executions, this`occurrences
    {
      AllStored(executions, occurrences)
    }

    ghost predicate Valid()
      reads this`executions, this`executionsOrdered, this`nextExecutionID, this`occurrences
      reads this`attempts, this`attemptsByExec, this`attemptsByHost, this`nextAttemptID
    {
      ExecutionsListed() && AttemptsListed() && OccurrencesStored()
    }

    constructor ()
      ensures Valid() && jobs == map[] && jobKeys == map[]
      ensures executions == map[] && occurrences == map[] && nextExecutionID == 0
      ensures attempts == map[] && nextAttemptID == 0
    {
      jobs, jobKeys := map[], map[];
      executions, occurrences, nextExecutionID, executionsOrdered := map[], map[], 0, [];
      attempts, attemptsByExec, attemptsByHost, nextAttemptID := map[], map[], map[], 0;
    }

    // Keeps the identity and the skip count of the job already stored under the same scope.
    method UpsertJob(job: Job) returns (stored: Result<Job, JobError>)
      requires job.scope in jobKeys ==> jobKeys[job.scope] in jobs && jobs[jobKeys[job.scope]].id == jobKeys[job.scope]
      modifies this`jobs, this`jobKeys
      ensures stored.Err? <==> job.scope !in old(jobKeys) && job.id.IsZero()
      ensures stored.Err? ==> jobs == old(jobs) && jobKeys == old(jobKeys)
      ensures stored.Ok? ==>
                && stored.value == StoredJob(old(jobs), old(jobKeys), job)
                && jobs == old(jobs)[stored.value.id := stored.value]
                && jobKeys == old(jobKeys)[job.scope := stored.value.id]
      ensures job.scope in old(jobKeys) ==>
                var existing := old(jobs)[old(jobKeys)[job.scope]];
                stored == Ok(job.(id := old(jobKeys)[job.scope], skippedOccurrences := existing.skippedOccurrences,
                                  version := existing.version + 1))
      ensures job.scope !in old(jobKeys) && stored.Ok? ==> stored.value == job.(version := 1)
    {
      if job.scope in jobKeys {
        var existing := jobs[jobKeys[job.scope]];
        var updated := job.(id := existing.id, skippedOccurrences := existing.skippedOccurrences,
                            version := existing.version + 1);
        jobs := jobs[existing.id := updated];
        assert jobKeys == jobKeys[job.scope := existing.id];
        return Ok(updated);
      }
      if job.id.IsZero() {
        return Err(ZeroJobUUID);
      }
      var created := job.(version := 1);
      jobs := jobs[created.id := created];
      jobKeys := jobKeys[job.scope := created.id];
      return Ok(created);
    }

    function GetJob(id: JobUUID): Option<Job>
      reads this`jobs
    {
      if id in jobs then Some(jobs[id]) else None
    }

    method GetJobByKey(scope: JobScope) returns (job: Option<Job>)
      requires scope in jobKeys ==> jobKeys[scope] in jobs
      ensures job == if scope in jobKeys then Some(jobs[jobKeys[scope]]) else None
    {
      return if scope in jobKeys then Some(jobs[jobKeys[scope]]) else None;
    }

    method DeleteJob(id: JobUUID) returns (deleted: bool)
      modifies this`jobs, this`jobKeys
      ensures deleted <==> id in old(jobs)
      ensures jobs == old(jobs) - {id}
      ensures jobKeys == if deleted then old(jobKeys) - {old(jobs)[id].scope} else old(jobKeys)
    {
      if id !in jobs {
        assert jobs == jobs - {id};
        return false;
      }
      jobKeys := jobKeys - {jobs[id].scope};
      jobs := jobs - {id};
      return true;
    }

    method AddSkippedOccurrences(id: JobUUID, count: nat) returns (found: bool)
      modifies this`jobs
      ensures found <==> id in old(jobs)
      ensures jobs == if found then WithSkipped(old(jobs), id, count) else old(jobs)
      ensures found ==>
                var job := old(jobs)[id];
                jobs[id] == job.(skippedOccurrences := (job.skippedOccurrences + count) % 0x1_0000_0000_0000_0000)
    {
      if id !in jobs {
        return false;
      }
      jobs := jobs[id := jobs[id].(skippedOccurrences := (jobs[id].skippedOccurrences + count) % TWO_TO_64)];
      return true;
    }

    method ListEnabledJobs() returns (enabled: seq<Job>)
      ensures forall i, j | 0 <= i < j < |enabled| :: enabled[i] != enabled[j]
      ensures forall job :: job in enabled <==> job.enabled && exists id :: id in jobs && jobs[id] == job
    {
      enabled := [];
      var rest := jobs.Values;
      while rest != {}
        invariant rest <= jobs.Values
        invariant forall job :: job in enabled <==> job in jobs.Values - rest && job.enabled
        invariant forall i, j | 0 <= i < j < |enabled| :: enabled[i] != enabled[j]
      {
        var job :| job in rest;
        if job.enabled {
          enabled := enabled + [job];
        }
        rest := rest - {job};
      }
    }

    // A repeat of a stored occurrence returns the stored execution.
    method CreateExecution(jobID: JobUUID, scheduledAt: Instant, backfilled: bool, now: Instant)
      returns (created: Option<(Execution, bool)>)
      requires Valid()
      modifies this`executions, this`occurrences, this`nextExecutionID, this`executionsOrdered
      ensures Valid()
      ensures created.None? <==> jobID !in jobs
      ensures var key := OccurrenceOf(jobID, scheduledAt);
              if created.None? || key in old(occurrences) then
                && executions == old(executions) && occurrences == old(occurrences)
                && nextExecutionID == old(nextExecutionID)
                && (created.Some? ==> created.value == (executions[occurrences[key]], false))
              else
                && nextExecutionID == old(nextExecutionID) + 1
                && created.value == (Execution(nextExecutionID, jobID, scheduledAt, Scheduled, 0, 0, scheduledAt, None,
                                               backfilled, 1, now, now), true)
                && executions == old(executions)[nextExecutionID := created.value.0]
                && occurrences == old(occurrences)[key := nextExecutionID]
    {
      hide Lists, OccurrenceOf, Store.AttemptsListed;
      if jobID !in jobs {
        return None;
      }
      var key := OccurrenceOf(jobID, scheduledAt);
      if key in occurrences {
        return Some((executions[occurrences[key]], false));
      }
      ListsAppend(executionsOrdered, executions.Keys, nextExecutionID + 1);
      nextExecutionID := nextExecutionID + 1;
      var execution := NewExecution(nextExecutionID, jobID, scheduledAt, backfilled, now);
      executions := executions[execution.id := execution];
      occurrences := occurrences[key := execution.id];
      executionsOrdered := executionsOrdered + [execution.id];
      assert executions.Keys == old(executions.Keys) + {execution.id};
      return Some((execution, true));
    }

    function GetExecution(id: ExecutionID): Option<Execution>
      reads this`executions
    {
      if id in executions then Some(executions[id]) else None
    }

    // Refuses a stale version, a move out of a settled state, and a move the table does not have.
    method UpdateExecution(id: ExecutionID, expectedVersion: nat, update: ExecutionUpdate, now: Instant)
      returns (updated: Result<Execution, StoreError>)
      requires Valid()
      modifies this`executions
      ensures Valid()
      ensures updated == if id in old(executions) then Revise(old(executions)[id], expectedVersion, update, now)
                         else Err(ExecutionNotFound)
      ensures executions == if updated.Ok? then old(executions)[id := updated.value] else old(executions)
      ensures id in old(executions) ==> AfterUpdate(old(executions)[id], expectedVersion, update, now, updated)
    {
      if id !in executions {
        return Err(ExecutionNotFound);
      }
      RevisionIs(executions[id], expectedVersion, update, now);
      hide AfterUpdate;
      var execution := executions[id];
      if execution.version != expectedVersion {
        return Err(VersionConflict);
      }
      if update.state.Some? && update.state.value != execution.state {
        if execution.state.Terminal() {
          return Err(TerminalState);
        }
        if !CanTransition(execution.state, update.state.value) {
          return Err(IllegalTransition);
        }
      }
      execution := Updated(execution, update, now);
      executions := executions[id := execution];
      assert executions.Keys == old(executions.Keys);
      return Ok(execution);
    }

    // The stored executions that a query keeps, in creation order.
    method Matching(keep: Execution -> bool) returns (matching: seq<Execution>)
      requires Valid()
      ensures forall e :: e in matching <==> e.id in executions && executions[e.id] == e && keep(e)
      ensures forall i, j | 0 <= i < j < |matching| :: matching[i].id < matching[j].id
    {
      matching := [];
      for i := 0 to |executionsOrdered|
        invariant forall e :: e in matching <==>
                    e.id in executionsOrdered[..i] && e.id in executions && executions[e.id] == e && keep(e)
        invariant forall j, k | 0 <= j < k < |matching| :: matching[j].id < matching[k].id
      {
        var id := executionsOrdered[i];
        assert id in executions;
        assert executionsOrdered[..i + 1] == executionsOrdered[..i] + [id];
        if keep(executions[id]) {
          forall j | 0 <= j < |matching| ensures matching[j].id < id {
            assert matching[j] in matching;
          }
          matching := matching + [executions[id]];
        }
      }
      assert executionsOrdered[..|executionsOrdered|] == executionsOrdered;
    }

    // The due executions by the instant they are scheduled for, then by identifier, capped by a positive limit.
    method DueExecutions(now: Instant, limit: nat) returns (due: seq<Execution>)
      requires Valid()
      ensures FirstOf(executions, DueAt(now), BySchedule(), limit, due)
      ensures DueBatch(executions, now, limit, due)
    {
      var matching := Matching(DueAt(now));
      due := FirstBy(matching, BySchedule(), limit);
      FirstIsFirst(executions, DueAt(now), BySchedule(), limit, matching, due);
      hide FirstOf, DueBatch;
      FirstAreDue(executions, now, limit, due);
    }

    // The executions that settled before an instant, by the time they settled, then by identifier, capped by a positive
    // limit.
    method ExpiredExecutions(before: Instant, limit: nat) returns (expired: seq<Execution>)
      requires Valid()
      ensures FirstOf(executions, ExpiredAt(before), BySettling(), limit, expired)
      ensures SettledBatch(executions, before, limit, expired)
    {
      var matching := Matching(ExpiredAt(before));
      expired := FirstBy(matching, BySettling(), limit);
      FirstIsFirst(executions, ExpiredAt(before), BySettling(), limit, matching, expired);
      hide FirstOf, SettledBatch;
      FirstAreSettled(executions, before, limit, expired);
    }

    method HasActiveExecution(jobID: JobUUID, exclude: ExecutionID) returns (active: bool)
      requires Valid()
      ensures active == HasActive(executions, jobID, exclude)
    {
      var active_ := Matching((e: Execution) => e.jobID == jobID && e.id != exclude && e.state.Leased());
      if |active_| > 0 {
        assert active_[0] in active_;
      } else {
        forall id | id in executions
          ensures !(id != exclude && executions[id].jobID == jobID && executions[id].state.Leased())
        {
          assert executions[id] !in active_;
        }
      }
      return |active_| > 0;
    }

    method HasPendingOccurrence(jobID: JobUUID) returns (pending: bool)
      requires Valid()
      ensures pending <==> exists id ::
          id in executions && executions[id].jobID == jobID && !executions[id].state.Terminal()
    {
      var unsettled := Matching((e: Execution) => e.jobID == jobID && !e.state.Terminal());
      if |unsettled| > 0 {
        assert unsettled[0] in unsettled;
      } else {
        forall id | id in executions ensures !(executions[id].jobID == jobID && !executions[id].state.Terminal()) {
          assert executions[id] !in unsettled;
        }
      }
      return |unsettled| > 0;
    }

    // The attempts of the execution are the caller's to delete.
    method DeleteExecution(id: ExecutionID) returns (deleted: bool)
      requires Valid()
      requires SoleOccurrence(executions, occurrences, id)
      modifies this`executions, this`occurrences, this`executionsOrdered
      ensures Valid()
      ensures deleted <==> id in old(executions)
      ensures executions == old(executions) - {id}
      ensures occurrences == if deleted then
                old(occurrences) - {OccurrenceOf(old(executions)[id].jobID, old(executions)[id].scheduledAt)}
              else old(occurrences)
    {
      hide Lists, OccurrenceOf, Store.AttemptsListed, RemoveFirst, AllStored, SoleOccurrence;
      if id !in executions {
        assert executions == executions - {id};
        return false;
      }
      var execution := executions[id];
      ListsRemove(executionsOrdered, executions.Keys, id);
      OccurrenceDropped(executions, occurrences, id);
      executions := executions - {id};
      occurrences := occurrences - {OccurrenceOf(execution.jobID, execution.scheduledAt)};
      executionsOrdered := Remove(executionsOrdered, id);
      assert executions.Keys == old(executions.Keys) - {id};
      return true;
    }

    method CreateAttempt(executionID: ExecutionID, number: uint32, instanceID: InstanceID, now: Instant)
      returns (created: Option<Attempt>)
      requires Valid()
      modifies this`attempts, this`attemptsByExec, this`attemptsByHost, this`nextAttemptID
      ensures Valid()
      ensures created.None? <==> executionID !in executions
      ensures created.None? ==> attempts == old(attempts) && nextAttemptID == old(nextAttemptID)
      ensures created.Some? ==>
                && nextAttemptID == old(nextAttemptID) + 1
                && created.value ==
                   Attempt(nextAttemptID, executionID, number, instanceID, AttemptState.Dispatched, now, now)
                && attempts == old(attempts)[nextAttemptID := created.value]
    {
      if executionID !in executions {
        return None;
      }
      nextAttemptID := nextAttemptID + 1;
      var attempt := Attempt(nextAttemptID, executionID, number, instanceID, AttemptState.Dispatched, now, now);
      AddListed(attemptsByExec, attemptsByHost, attempts, attempt);
      attempts := attempts[attempt.id := attempt];
      attemptsByExec := attemptsByExec[executionID := Bucket(attemptsByExec, executionID) + [attempt.id]];
      attemptsByHost := attemptsByHost[instanceID := Bucket(attemptsByHost, instanceID) + [attempt.id]];
      return Some(attempt);
    }

    function GetAttempt(id: AttemptID): Option<Attempt>
      reads this`attempts
    {
      if id in attempts then Some(attempts[id]) else None
    }

    // A compare-and-set from the given states, or from any state when none is given. A settled attempt leaves the list
    // of its host; one that is opened again does not return to it.
    method UpdateAttemptState(id: AttemptID, from: set<AttemptState>, to: AttemptState, now: Instant)
      returns (updated: Option<bool>)
      requires Valid()
      modifies this`attempts, this`attemptsByHost
      ensures updated == if id in old(attempts) then Some(from == {} || old(attempts)[id].state in from) else None
      ensures attempts == if updated == Some(true) then WithState(old(attempts), id, to, now) else old(attempts)
      ensures Valid() <==> !(updated == Some(true) && old(attempts)[id].state.Terminal() && !to.Terminal())
    {
      if id !in attempts {
        return None;
      }
      var attempt := attempts[id];
      if |from| > 0 && attempt.state !in from {
        return Some(false);
      }
      StateListed(attemptsByExec, attemptsByHost, attempts, id, to, now);
      attempts := attempts[id := attempt.(state := to, updatedAt := now)];
      if to.Terminal() {
        attemptsByHost := Detach(attemptsByHost, attempt.instanceID, id);
      }
      return Some(true);
    }

    // The attempts of an execution, in creation order.
    method AttemptsForExecution(executionID: ExecutionID) returns (ids: seq<AttemptID>)
      requires Valid()
      ensures Lists(ids, AttemptsOf(attempts, executionID))
    {
      return Bucket(attemptsByExec, executionID);
    }

    // The open attempts on an instance, in creation order.
    method OpenAttemptsOnInstance(instanceID: InstanceID) returns (open: seq<Attempt>)
      requires Valid()
      ensures OpenList(attempts, instanceID, open)
    {
      var ids := Bucket(attemptsByHost, instanceID);
      open := [];
      for i := 0 to |ids|
        invariant forall a :: a in open <==>
                    a.id in ids[..i] && a.id in OpenOn(attempts, instanceID) && attempts[a.id] == a
        invariant forall j, k | 0 <= j < k < |open| :: open[j].id < open[k].id
      {
        assert ids[i] in OpenOn(attempts, instanceID);
        assert ids[..i + 1] == ids[..i] + [ids[i]];
        forall j | 0 <= j < |open| ensures open[j].id < ids[i] {
          assert open[j] in open;
        }
        open := open + [attempts[ids[i]]];
      }
      assert ids[..|ids|] == ids;
      forall a | a in OpenOn(attempts, instanceID) ensures a in set b | b in open :: b.id {
        assert attempts[a] in open;
      }
    }

    method DeleteAttempt(id: AttemptID) returns (deleted: bool)
      requires Valid()
      modifies this`attempts, this`attemptsByExec, this`attemptsByHost
      ensures Valid()
      ensures deleted <==> id in old(attempts)
      ensures attempts == old(attempts) - {id}
    {
      if id !in attempts {
        assert attempts == attempts - {id};
        return false;
      }
      var attempt := attempts[id];
      DropListed(attemptsByExec, attemptsByHost, attempts, id);
      attempts := attempts - {id};
      attemptsByExec := Detach(attemptsByExec, attempt.executionID, id);
      attemptsByHost := Detach(attemptsByHost, attempt.instanceID, id);
      return true;
    }
  }

  function Appended<K>(index: map<K, seq<AttemptID>>, key: K, id: AttemptID): map<K, seq<AttemptID>> {
    index[key := Bucket(index, key) + [id]]
  }

  // An index without one identifier, keeping no empty list.
  function Detached<K>(index: map<K, seq<AttemptID>>, key: K, id: AttemptID): map<K, seq<AttemptID>> {
    var rest := RemoveFirst(Bucket(index, key), id);
    if rest == [] then index - {key} else index[key := rest]
  }

  method Detach<K(==)>(index: map<K, seq<AttemptID>>, key: K, id: AttemptID) returns (detached: map<K, seq<AttemptID>>)
    ensures detached == Detached(index, key, id)
  {
    var rest := Remove(Bucket(index, key), id);
    if |rest| == 0 {
      return index - {key};
    }
    return index[key := rest];
  }

  lemma DetachedBucket<K>(index: map<K, seq<AttemptID>>, key: K, id: AttemptID, k: K)
    ensures Bucket(Detached(index, key, id), k) ==
            if k == key then RemoveFirst(Bucket(index, k), id) else Bucket(index, k)
    ensures NoEmptyBucket(index) ==> NoEmptyBucket(Detached(index, key, id))
  {
  }

  lemma AddListed(byExec: map<ExecutionID, seq<AttemptID>>, byHost: map<InstanceID, seq<AttemptID>>, attempts: Attempts,
                  a: Attempt)
    requires ByExecution(byExec, attempts) && ByHost(byHost, attempts) && a.Open()
    requires forall b | b in attempts :: b < a.id
    ensures ByExecution(Appended(byExec, a.executionID, a.id), attempts[a.id := a])
    ensures ByHost(Appended(byHost, a.instanceID, a.id), attempts[a.id := a])
  {
    hide Lists;
    forall id ensures Lists(Bucket(Appended(byExec, a.executionID, a.id), id),
                            AttemptsOf(attempts[a.id := a], id)) {
      AttemptsOfAdd(attempts, a, id);
      ListsAppend(Bucket(byExec, a.executionID), AttemptsOf(attempts, a.executionID), a.id);
    }
    forall x ensures Lists(Bucket(Appended(byHost, a.instanceID, a.id), x),
                           OpenOn(attempts[a.id := a], x)) {
      OpenOnAdd(attempts, a, x);
      ListsAppend(Bucket(byHost, a.instanceID), OpenOn(attempts, a.instanceID), a.id);
    }
  }

  // A change of state keeps the lists unless it opens a settled attempt again.
  lemma StateListed(byExec: map<ExecutionID, seq<AttemptID>>, byHost: map<InstanceID, seq<AttemptID>>,
                    attempts: Attempts, a: AttemptID, state: AttemptState, now: Instant)
    requires ByExecution(byExec, attempts) && ByHost(byHost, attempts) && a in attempts
    ensures ByExecution(byExec, WithState(attempts, a, state, now))
    ensures attempts[a].Open() || state.Terminal() <==>
            ByHost(if state.Terminal() then Detached(byHost, attempts[a].instanceID, a) else byHost,
                   WithState(attempts, a, state, now))
  {
    hide Lists, Detached, WithState;
    var host := attempts[a].instanceID;
    var byHost' := if state.Terminal() then Detached(byHost, host, a) else byHost;
    forall id ensures Lists(Bucket(byExec, id), AttemptsOf(WithState(attempts, a, state, now), id)) {
      AttemptsOfState(attempts, a, state, now, id);
    }
    if attempts[a].Open() || state.Terminal() {
      forall x ensures Lists(Bucket(byHost', x), OpenOn(WithState(attempts, a, state, now), x)) {
        OpenOnState(attempts, a, state, now, x);
        DetachedBucket(byHost, host, a, x);
        ListsRemove(Bucket(byHost, x), OpenOn(attempts, x), a);
      }
      DetachedBucket(byHost, host, a, host);
    } else {
      ReopenedUnlisted(Bucket(byHost, host), attempts, a, state, now);
    }
  }

  lemma ReopenedUnlisted(ids: seq<AttemptID>, attempts: Attempts, a: AttemptID, state: AttemptState, now: Instant)
    requires a in attempts && !attempts[a].Open() && !state.Terminal()
    requires Lists(ids, OpenOn(attempts, attempts[a].instanceID))
    ensures !Lists(ids, OpenOn(WithState(attempts, a, state, now), attempts[a].instanceID))
  {
    assert a in OpenOn(WithState(attempts, a, state, now), attempts[a].instanceID);
    assert a !in OpenOn(attempts, attempts[a].instanceID);
  }

  lemma DropListed(byExec: map<ExecutionID, seq<AttemptID>>, byHost: map<InstanceID, seq<AttemptID>>,
                   attempts: Attempts, a: AttemptID)
    requires ByExecution(byExec, attempts) && ByHost(byHost, attempts) && a in attempts
    ensures ByExecution(Detached(byExec, attempts[a].executionID, a), attempts - {a})
    ensures ByHost(Detached(byHost, attempts[a].instanceID, a), attempts - {a})
  {
    hide Lists, Detached;
    var parent, host := attempts[a].executionID, attempts[a].instanceID;
    forall id ensures Lists(Bucket(Detached(byExec, parent, a), id), AttemptsOf(attempts - {a}, id)) {
      AttemptsOfDrop(attempts, a, id);
      DetachedBucket(byExec, parent, a, id);
      ListsRemove(Bucket(byExec, id), AttemptsOf(attempts, id), a);
    }
    forall x ensures Lists(Bucket(Detached(byHost, host, a), x), OpenOn(attempts - {a}, x)) {
      OpenOnDrop(attempts, a, x);
      DetachedBucket(byHost, host, a, x);
      ListsRemove(Bucket(byHost, x), OpenOn(attempts, x), a);
    }
    DetachedBucket(byExec, parent, a, parent);
    DetachedBucket(byHost, host, a, host);
  }
}

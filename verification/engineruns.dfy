/**
 * What holds over every run of the engine: any sequence of enabled steps from an empty store.
 */
module EngineRuns {
  import opened ProtocolTypes
  import opened Materialization
  import opened StoreRecords
  import opened EngineWorlds
  import opened EngineInvariants

  ghost function AfterFrom(w: World, events: seq<Event>): World {
    if events == [] then w else Step(AfterFrom(w, events[..|events| - 1]), events[|events| - 1])
  }

  ghost predicate RunFrom(cfg: Config, w: World, events: seq<Event>) {
    events != [] ==>
      && RunFrom(cfg, w, events[..|events| - 1])
      && Enabled(cfg, AfterFrom(w, events[..|events| - 1]), events[|events| - 1])
  }

  lemma {:induction false} RunConcat(cfg: Config, w: World, a: seq<Event>, b: seq<Event>)
    requires RunFrom(cfg, w, a) && RunFrom(cfg, AfterFrom(w, a), b)
    ensures RunFrom(cfg, w, a + b) && AfterFrom(w, a + b) == AfterFrom(AfterFrom(w, a), b)
  {
    hide Enabled, Step;
    if b == [] {
      assert a + b == a;
    } else {
      assert (a + b)[..|a + b| - 1] == a + b[..|b| - 1];
      RunConcat(cfg, w, a, b[..|b| - 1]);
    }
  }

  lemma RunOne(cfg: Config, w: World, e: Event)
    requires Enabled(cfg, w, e)
    ensures RunFrom(cfg, w, [e]) && AfterFrom(w, [e]) == Step(w, e)
  {
    hide Enabled, Step;
    assert [e][..0] == [];
  }

  lemma {:induction false} RunKeepsInv(cfg: Config, w: World, events: seq<Event>)
    requires cfg.Normal() && Inv(cfg, w) && RunFrom(cfg, w, events)
    ensures Inv(cfg, AfterFrom(w, events))
  {
    hide Enabled, Step, Inv;
    if events != [] {
      RunKeepsInv(cfg, w, events[..|events| - 1]);
      StepKeepsInv(cfg, AfterFrom(w, events[..|events| - 1]), events[|events| - 1]);
    }
  }

  // One world leads to another through these steps.
  ghost predicate Did(cfg: Config, w: World, events: seq<Event>, w': World) {
    RunFrom(cfg, w, events) && w' == AfterFrom(w, events)
  }

  lemma DidNothing(cfg: Config, w: World)
    ensures Did(cfg, w, [], w)
  {
  }

  lemma DidOne(cfg: Config, w: World, e: Event)
    requires Enabled(cfg, w, e)
    ensures Did(cfg, w, [e], Step(w, e))
  {
    RunOne(cfg, w, e);
  }

  lemma DidThen(cfg: Config, w: World, a: seq<Event>, w': World, b: seq<Event>, w'': World)
    requires Did(cfg, w, a, w') && Did(cfg, w', b, w'')
    ensures Did(cfg, w, a + b, w'')
  {
    RunConcat(cfg, w, a, b);
  }

  lemma DidKeepsInv(cfg: Config, w: World, events: seq<Event>, w': World)
    requires cfg.Normal() && Inv(cfg, w) && Did(cfg, w, events, w')
    ensures Inv(cfg, w')
  {
    RunKeepsInv(cfg, w, events);
  }

  ghost predicate Run(cfg: Config, events: seq<Event>) {
    RunFrom(cfg, EMPTY_WORLD, events)
  }

  ghost function After(events: seq<Event>): World {
    AfterFrom(EMPTY_WORLD, events)
  }

  lemma RunInv(cfg: Config, events: seq<Event>)
    requires cfg.Normal() && Run(cfg, events)
    ensures Inv(cfg, After(events))
  {
    EmptyInv(cfg);
    RunKeepsInv(cfg, EMPTY_WORLD, events);
  }

  lemma {:induction false} RunPrefix(cfg: Config, w: World, events: seq<Event>, n: nat)
    requires RunFrom(cfg, w, events) && n <= |events|
    ensures RunFrom(cfg, w, events[..n])
  {
    hide Enabled, Step;
    if n == |events| {
      assert events[..n] == events;
    } else {
      assert events[..|events| - 1][..n] == events[..n];
      RunPrefix(cfg, w, events[..|events| - 1], n);
    }
  }

  ghost function OpenAttempts(w: World, id: ExecutionID): set<AttemptID> {
    set a | a in w.attempts && w.attempts[a].executionID == id && w.attempts[a].Open()
  }

  // An execution has an open attempt exactly while it is leased, and then only its current one: dispatched while it is
  // dispatching and accepted while it is running.
  lemma OneOpenAttempt(cfg: Config, events: seq<Event>, id: ExecutionID)
    requires cfg.Normal() && Run(cfg, events) && id in After(events).executions
    ensures var w := After(events);
            var e := w.executions[id];
            && OpenAttempts(w, id) == (if e.state.Leased() then {e.currentAttemptID} else {})
            && (e.state.Leased() ==>
                  && e.currentAttemptID in w.attempts
                  && w.attempts[e.currentAttemptID].state ==
                     if e.state == Dispatching then AttemptState.Dispatched else AttemptState.Accepted)
  {
    RunInv(cfg, events);
    hide Run, After;
    var w := After(events);
    if w.executions[id].state.Leased() {
      CurrentIsOpen(cfg, w, id);
    } else {
      NoneOpen(cfg, w, id);
    }
  }

  // No executor runs more than its capacity, and one without open attempts has all of it.
  lemma SlotsFollowAttempts(cfg: Config, events: seq<Event>, x: InstanceID)
    requires cfg.Normal() && Run(cfg, events) && x in After(events).executors
    ensures var w := After(events);
            var executor := w.executors[x];
            && (executor.capacity > 0 ==> |executor.inFlight| <= executor.capacity)
            && (forall a | a in executor.inFlight ::
                  a in w.attempts && w.attempts[a].Open() && w.attempts[a].instanceID == x)
            && ((forall a | a in w.attempts && w.attempts[a].instanceID == x :: !w.attempts[a].Open()) ==>
                  executor.inFlight == {})
  {
    RunInv(cfg, events);
    hide Run, After;
    var w := After(events);
    assert SlotsOpen(w.attempts, w.executors);
  }

  // A leased execution always carries a lease, bounded from the acceptance and creation of its current attempt, so
  // it can be reaped from then on.
  lemma LeaseAlwaysEnds(cfg: Config, events: seq<Event>, id: ExecutionID)
    requires cfg.Normal() && Run(cfg, events)
    requires id in After(events).executions && After(events).executions[id].state.Leased()
    ensures var w := After(events);
            var e := w.executions[id];
            && e.leaseExpiresAt.Some? && e.currentAttemptID in w.attempts
            && var a := w.attempts[e.currentAttemptID];
               e.leaseExpiresAt.value <= a.createdAt + cfg.maxExecution + cfg.lease ||
               (e.state == Running && e.leaseExpiresAt.value <= a.updatedAt + cfg.lease)
  {
    RunInv(cfg, events);
    hide Run, After;
    CurrentIsOpen(cfg, After(events), id);
  }

  // One execution per occurrence.
  lemma OccurrencesAreUnique(cfg: Config, events: seq<Event>, i: ExecutionID, j: ExecutionID)
    requires cfg.Normal() && Run(cfg, events)
    requires i in After(events).executions && j in After(events).executions
    requires After(events).executions[i].jobID == After(events).executions[j].jobID
    requires After(events).executions[i].scheduledAt == After(events).executions[j].scheduledAt
    ensures i == j
  {
    RunInv(cfg, events);
    hide Run, After;
    assert OccurrencesExact(After(events).executions, After(events).occurrences);
  }

  ghost predicate Settles(e: Event, id: ExecutionID) {
    (e.Move? || e.Close?) && e.id == id && e.to.Terminal()
  }

  // An execution that has settled, whether or not it was purged since.
  ghost predicate Settled(w: World, id: ExecutionID) {
    1 <= id <= w.lastExecutionID && (id in w.executions ==> w.executions[id].state.Terminal())
  }

  // A settled execution never settles again, and while it is stored it keeps its state.
  lemma StepKeepsSettled(cfg: Config, w: World, e: Event, id: ExecutionID)
    requires Enabled(cfg, w, e) && Settled(w, id)
    ensures Settled(Step(w, e), id) && !Settles(e, id)
    ensures id in Step(w, e).executions ==>
        id in w.executions && Step(w, e).executions[id].state == w.executions[id].state
  {
    if e.Move? || e.Dispatch? {
      if e.id in w.executions {
        if e.Move? && CanTransition(w.executions[e.id].state, e.to) {
          TransitionShape(w.executions[e.id].state, e.to);
        }
      }
    }
  }

  lemma StepSettles(cfg: Config, w: World, e: Event, id: ExecutionID)
    requires Inv(cfg, w) && Enabled(cfg, w, e) && Settles(e, id)
    ensures Settled(Step(w, e), id)
  {
  }

  lemma {:induction false} SettledStays(cfg: Config, events: seq<Event>, i: nat, id: ExecutionID)
    requires cfg.Normal() && Run(cfg, events) && i < |events| && Settles(events[i], id)
    ensures Settled(After(events), id)
    ensures forall j | i < j < |events| :: !Settles(events[j], id)
  {
    hide Enabled, Step, Settled, Settles;
    var n := |events| - 1;
    var before := events[..n];
    RunInv(cfg, before);
    if i == n {
      StepSettles(cfg, After(before), events[n], id);
    } else {
      SettledStays(cfg, before, i, id);
      StepKeepsSettled(cfg, After(before), events[n], id);
      forall j | i < j < n ensures !Settles(events[j], id) {
        assert before[j] == events[j];
      }
    }
  }

  // Over a whole run each execution settles at most once, so its outcome is counted and delivered at most once.
  lemma SettlesOnce(cfg: Config, events: seq<Event>, i: nat, j: nat, id: ExecutionID)
    requires cfg.Normal() && Run(cfg, events) && i < |events| && j < |events|
    requires Settles(events[i], id) && Settles(events[j], id)
    ensures i == j
  {
    hide Run, Settles;
    if i < j {
      SettledStays(cfg, events, i, id);
    } else if j < i {
      SettledStays(cfg, events, j, id);
    }
  }

  ghost function Count(events: seq<Event>, counts: Event -> bool): nat {
    if events == [] then 0
    else Count(events[..|events| - 1], counts) + if counts(events[|events| - 1]) then 1 else 0
  }

  ghost function IsAccept(id: ExecutionID): Event -> bool {
    (e: Event) => e.Accept? && e.id == id
  }

  ghost function IsRetry(id: ExecutionID): Event -> bool {
    (e: Event) => e.Close? && e.id == id && e.to == RetryWait
  }

  ghost function IsResult(id: ExecutionID): Event -> bool {
    (e: Event) => e.Close? && e.id == id && (e.verdict == AttemptSucceeded || e.verdict == FunctionFailed)
  }

  // The retry budget an execution's job states never exceeds `budget`.
  ghost predicate BudgetWithin(events: seq<Event>, id: ExecutionID, budget: nat) {
    forall n | 0 <= n <= |events| :: Within(After(events[..n]), id, budget)
  }

  ghost predicate Within(w: World, id: ExecutionID, budget: nat) {
    id in w.executions && w.executions[id].jobID in w.jobs ==>
      MaxFunctionAttempts(w.jobs[w.executions[id].jobID].retry) <= budget
  }

  // A count as 32 bits tell it.
  function Wrapped(n: nat): uint32 {
    n % TWO_TO_32
  }

  lemma WrappedNext(n: nat)
    ensures Wrapped(n + 1) == Increment32(Wrapped(n))
    ensures n < TWO_TO_32 ==> Wrapped(n) == n
  {
  }

  // After how many of so many acceptances the budget, compared with the wrapped count, would allow a retry.
  ghost function Granted(accepts: nat, budget: nat): nat {
    if accepts == 0 then 0
    else Granted(accepts - 1, budget) + if Wrapped(accepts) < budget then 1 else 0
  }

  // Until the count wraps, that is one time fewer than the budget.
  lemma {:induction false} GrantedBeforeWrap(accepts: nat, budget: nat)
    requires accepts < TWO_TO_32 && budget > 0
    ensures Granted(accepts, budget) == if accepts < budget then accepts else budget - 1
  {
    if accepts > 0 {
      GrantedBeforeWrap(accepts - 1, budget);
      WrappedNext(accepts);
    }
  }

  // When it wraps, there is one more.
  lemma GrantedAtWrap(budget: nat)
    requires 0 < budget <= TWO_TO_32
    ensures Granted(TWO_TO_32, budget) == budget
  {
    hide Granted;
    GrantedBeforeWrap(TWO_TO_32 - 1, budget);
    GrantedNext(TWO_TO_32 - 1, budget);
  }

  lemma GrantedNext(accepts: nat, budget: nat)
    ensures Granted(accepts + 1, budget) == Granted(accepts, budget) + if Wrapped(accepts + 1) < budget then 1 else 0
  {
  }

  // The consumed count tells the acceptances in 32 bits, and retries stay within what those allow.
  ghost predicate RetriesPaid(w: World, id: ExecutionID, accepts: nat, retries: nat, budget: nat) {
    && (id > w.lastExecutionID ==> accepts == 0 && retries == 0)
    && retries <= Granted(accepts, budget)
    && (id in w.executions ==>
          && w.executions[id].functionAttempts == Wrapped(accepts)
          && (w.executions[id].state == Running ==> accepts > 0 && retries <= Granted(accepts - 1, budget)))
  }

  // What a step does to the consumed count of an execution: an acceptance adds one and sets it running, and a retry is
  // granted to a running one within its budget.
  lemma StepConsumes(cfg: Config, w: World, e: Event, id: ExecutionID)
    requires Inv(cfg, w) && Enabled(cfg, w, e)
    ensures id > Step(w, e).lastExecutionID ==> id > w.lastExecutionID && !IsAccept(id)(e) && !IsRetry(id)(e)
    ensures IsAccept(id)(e) ==>
              && id in w.executions && id in Step(w, e).executions
              && Step(w, e).executions[id].functionAttempts == Increment32(w.executions[id].functionAttempts)
    ensures IsRetry(id)(e) ==>
              && id in w.executions && w.executions[id].state == Running && w.executions[id].jobID in w.jobs
              && w.executions[id].functionAttempts < MaxFunctionAttempts(w.jobs[w.executions[id].jobID].retry)
              && id in Step(w, e).executions && Step(w, e).executions[id].state == RetryWait
    ensures !IsAccept(id)(e) && id in Step(w, e).executions ==>
              var after := Step(w, e).executions[id];
              if id in w.executions then
                && after.functionAttempts == w.executions[id].functionAttempts
                && (after.state == Running ==> w.executions[id].state == Running)
              else id > w.lastExecutionID && after.functionAttempts == 0 && after.state != Running
  {
    hide Paired, SlotsOpen, OccurrencesExact, JobsIdentified, MaxFunctionAttempts, Increment32;
    if (e.Accept? || e.Close?) && e.id == id {
      PairedCurrent(cfg, w, id);
    }
    if e.Move? && e.id == id && CanTransition(w.executions[id].state, e.to) {
      TransitionShape(w.executions[id].state, e.to);
    }
  }

  lemma StepPaysRetries(cfg: Config, w: World, e: Event, id: ExecutionID, accepts: nat, retries: nat, budget: nat)
    requires Inv(cfg, w) && Enabled(cfg, w, e) && RetriesPaid(w, id, accepts, retries, budget) && Within(w, id, budget)
    ensures RetriesPaid(Step(w, e), id, accepts + (if IsAccept(id)(e) then 1 else 0),
                        retries + (if IsRetry(id)(e) then 1 else 0), budget)
  {
    hide Inv, Enabled, Step, Granted, Wrapped;
    StepConsumes(cfg, w, e, id);
    WrappedNext(accepts);
    WrappedNext(0);
    GrantedNext(accepts, budget);
    if accepts > 0 {
      GrantedNext(accepts - 1, budget);
    }
  }

  lemma PairedCurrent(cfg: Config, w: World, id: ExecutionID)
    requires Inv(cfg, w)
    ensures id in w.executions && w.executions[id].state.Leased() ==> w.executions[id].currentAttemptID in w.attempts
  {
  }

  // However often deliveries are lost and redispatched, an execution waits for a retry at most as often as its budget
  // allows after its acceptances: one time fewer than the budget, as long as 32 bits tell the acceptances apart.
  lemma {:induction false} RetriesWithinBudget(cfg: Config, events: seq<Event>, id: ExecutionID, budget: nat)
    requires cfg.Normal() && Run(cfg, events) && BudgetWithin(events, id, budget)
    ensures RetriesPaid(After(events), id, Count(events, IsAccept(id)), Count(events, IsRetry(id)), budget)
    ensures Count(events, IsRetry(id)) <= Granted(Count(events, IsAccept(id)), budget)
    ensures Count(events, IsAccept(id)) < TWO_TO_32 && Count(events, IsRetry(id)) > 0 ==>
              Count(events, IsRetry(id)) + 1 <= budget
  {
    hide Enabled, Step, Within, Granted, Wrapped;
    if events == [] {
      hide RetriesPaid;
      NothingPaid(id, budget);
    } else {
      var n := |events| - 1;
      var before := events[..n];
      assert Within(After(before), id, budget);
      forall k | 0 <= k <= n ensures Within(After(before[..k]), id, budget) {
        assert before[..k] == events[..k];
      }
      hide RetriesPaid;
      RetriesWithinBudget(cfg, before, id, budget);
      RunInv(cfg, before);
      StepPaysRetries(cfg, After(before), events[n], id, Count(before, IsAccept(id)), Count(before, IsRetry(id)),
                      budget);
    }
    PaidIsGranted(After(events), id, Count(events, IsAccept(id)), Count(events, IsRetry(id)), budget);
  }

  lemma PaidIsGranted(w: World, id: ExecutionID, accepts: nat, retries: nat, budget: nat)
    requires RetriesPaid(w, id, accepts, retries, budget)
    ensures retries <= Granted(accepts, budget)
    ensures accepts < TWO_TO_32 && retries > 0 ==> retries + 1 <= budget
  {
    hide Granted;
    if accepts < TWO_TO_32 {
      if budget > 0 {
        GrantedBeforeWrap(accepts, budget);
      } else {
        NoBudget(accepts);
      }
    }
  }

  lemma {:induction false} NoBudget(accepts: nat)
    ensures Granted(accepts, 0) == 0
  {
    if accepts > 0 {
      NoBudget(accepts - 1);
    }
  }

  lemma NothingPaid(id: ExecutionID, budget: nat)
    ensures RetriesPaid(EMPTY_WORLD, id, 0, 0, budget)
  {
  }

  // Every result either retries or settles, so an execution takes at most as many results as its budget.
  lemma {:induction false} ResultsAreRetriesOrSettle(cfg: Config, events: seq<Event>, id: ExecutionID)
    requires cfg.Normal() && Run(cfg, events)
    ensures Count(events, IsResult(id)) <= Count(events, IsRetry(id)) + 1
    ensures Count(events, IsResult(id)) > Count(events, IsRetry(id)) ==> Settled(After(events), id)
  {
    hide Enabled, Step, Settled, Settles;
    if events != [] {
      var n := |events| - 1;
      var before := events[..n];
      ResultsAreRetriesOrSettle(cfg, before, id);
      RunInv(cfg, before);
      ResultRetriesOrSettles(cfg, After(before), events[n], id);
    }
  }

  lemma ResultRetriesOrSettles(cfg: Config, w: World, e: Event, id: ExecutionID)
    requires Inv(cfg, w) && Enabled(cfg, w, e)
    ensures IsRetry(id)(e) ==> IsResult(id)(e)
    ensures IsResult(id)(e) && !IsRetry(id)(e) ==> Settled(Step(w, e), id)
    ensures Settled(w, id) ==> Settled(Step(w, e), id) && !IsResult(id)(e)
  {
    hide Paired, SlotsOpen, OccurrencesExact, JobsIdentified;
    if IsResult(id)(e) && !IsRetry(id)(e) {
      assert Settles(e, id);
      StepSettles(cfg, w, e, id);
    }
    if Settled(w, id) {
      StepKeepsSettled(cfg, w, e, id);
    }
  }

  lemma ResultsWithinBudget(cfg: Config, events: seq<Event>, id: ExecutionID, budget: nat)
    requires cfg.Normal() && Run(cfg, events) && BudgetWithin(events, id, budget)
    ensures Count(events, IsResult(id)) <= Granted(Count(events, IsAccept(id)), budget) + 1
    ensures Count(events, IsResult(id)) > Granted(Count(events, IsAccept(id)), budget) ==> Settled(After(events), id)
    ensures Count(events, IsAccept(id)) < TWO_TO_32 && 1 <= budget ==>
              && Count(events, IsResult(id)) <= budget
              && (Count(events, IsResult(id)) == budget ==> Settled(After(events), id))
  {
    hide Run, After, Settled, BudgetWithin, Granted;
    RetriesWithinBudget(cfg, events, id, budget);
    ResultsAreRetriesOrSettle(cfg, events, id);
  }

  // The stated number of retries plus the first attempt, except for the one count that wraps to no attempt at all.
  lemma RetryBudget(retry: RetrySpec)
    requires retry.policy in {RETRY_POLICY_IMMEDIATE, RETRY_POLICY_FIXED, RETRY_POLICY_EXPONENTIAL}
    ensures MaxFunctionAttempts(retry) == retry.maxRetries + 1 <==> retry.maxRetries != TWO_TO_32 - 1
    ensures retry.maxRetries == TWO_TO_32 - 1 ==> MaxFunctionAttempts(retry) == 0
  {
  }

  ghost predicate SkipsOverlap(w: World, jobID: JobUUID) {
    jobID in w.jobs ==> ResolveOverlap(w.jobs[jobID].overlap) == OVERLAP_POLICY_SKIP
  }

  ghost predicate OneActive(executions: Executions, jobID: JobUUID) {
    forall i, j | i in executions && j in executions && executions[i].state.Leased() && executions[j].state.Leased() ::
      executions[i].jobID == jobID && executions[j].jobID == jobID ==> i == j
  }

  // Executions that are not dispatched keep their job, and none becomes leased.
  lemma OnlyDispatchLeases(cfg: Config, w: World, e: Event)
    requires Inv(cfg, w) && Enabled(cfg, w, e) && !e.Dispatch?
    ensures forall id | id in Step(w, e).executions && Step(w, e).executions[id].state.Leased() ::
              id in w.executions && w.executions[id].state.Leased() &&
              w.executions[id].jobID == Step(w, e).executions[id].jobID
  {
    hide Paired, SlotsOpen, OccurrencesExact, JobsIdentified;
    if e.Close? && e.id in w.executions {
      PairedCurrent(cfg, w, e.id);
    }
    if e.Accept? && e.id in w.executions {
      PairedCurrent(cfg, w, e.id);
    }
  }

  lemma StepKeepsOneActive(cfg: Config, w: World, e: Event, jobID: JobUUID)
    requires Inv(cfg, w) && Enabled(cfg, w, e) && SkipsOverlap(w, jobID) && OneActive(w.executions, jobID)
    ensures OneActive(Step(w, e).executions, jobID)
  {
    hide Paired, SlotsOpen, OccurrencesExact;
    if e.Dispatch? {
      hide Eligible, Occupied, AttemptsOf;
      assert forall id | id in w.executions && id != e.id :: Step(w, e).executions[id] == w.executions[id];
    } else {
      hide Inv, Enabled, Step;
      OnlyDispatchLeases(cfg, w, e);
    }
  }

  // A job that has always skipped overlaps never has two executions dispatching or running.
  lemma {:induction false} SkipNeverOverlaps(cfg: Config, events: seq<Event>, jobID: JobUUID)
    requires cfg.Normal() && Run(cfg, events)
    requires forall n | 0 <= n <= |events| :: SkipsOverlap(After(events[..n]), jobID)
    ensures OneActive(After(events).executions, jobID)
  {
    hide Enabled, Step, SkipsOverlap;
    if events != [] {
      var n := |events| - 1;
      var before := events[..n];
      forall k | 0 <= k <= n ensures SkipsOverlap(After(before[..k]), jobID) {
        assert before[..k] == events[..k];
      }
      assert SkipsOverlap(After(before), jobID);
      SkipNeverOverlaps(cfg, before, jobID);
      RunInv(cfg, before);
      StepKeepsOneActive(cfg, After(before), events[n], jobID);
    }
  }
}

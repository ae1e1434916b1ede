/**
 * The scheduling engine: handlers and passes that update the store and the executors' slots step by step.
 *
 * Every method reports, as a ghost result, the steps it took. The contract says which steps those are, and that they
 * lead from the old world to the new one, so whatever holds over every run of steps holds for the engine.
 */
module Engines {
  import opened Wrappers
  import opened Sequences
  import opened ProtocolTypes
  import opened Schedules
  import opened Materialization
  import opened Registries
  import opened StoreRecords
  import opened EngineWorlds
  import opened EngineInvariants
  import opened EngineRuns
  import opened MemStores
  import opened RecordMeanings
  import opened EngineOutcomes

  class Engine {
    const cfg: Config
    const store: Store
    var executors: map<InstanceID, Executor>
    var functionSuccesses: nat
    var functionRetries: nat
    var functionFailures: nat

    ghost function View(): World
      reads this`executors, store`jobs, store`jobKeys, store`executions, store`occurrences, store`nextExecutionID
      reads store`attempts, store`nextAttemptID
    {
      World(store.jobs, store.jobKeys, store.executions, store.occurrences, store.nextExecutionID,
            store.attempts, store.nextAttemptID, executors)
    }

    ghost predicate Valid()
      reads this`executors, store
    {
      cfg.Normal() && store.Valid() && Inv(cfg, View())
    }

    constructor (cfg: Config)
      requires cfg.Normal()
      ensures Valid() && View() == EMPTY_WORLD
      ensures functionSuccesses == functionRetries == functionFailures == 0
    {
      this.cfg := cfg;
      store := new Store();
      executors := map[];
      functionSuccesses, functionRetries, functionFailures := 0, 0, 0;
      new;
      EmptyInv(cfg);
    }

    // Moves an execution on if its state allows it. A refused move changes nothing.
    method Transition(execution: Execution, to: ExecutionState, now: Instant) returns (ghost events: seq<Event>)
      requires Valid() && execution.id in store.executions && store.executions[execution.id] == execution
      requires !execution.state.Leased() && !to.Leased() && to != execution.state
      modifies store`executions
      ensures Valid() && Did(cfg, old(View()), events, View())
      ensures events == if CanTransition(execution.state, to) then [Move(execution.id, to, None, now)] else []
      ensures if CanTransition(execution.state, to) then
                && store.executions == old(store.executions)[execution.id := store.executions[execution.id]]
                && store.executions[execution.id] == NowIn(execution, to, now)
              else store.executions == old(store.executions)
    {
      hide Inv, Did, Store.Valid;
      ghost var w := View();
      var _ := store.UpdateExecution(execution.id, execution.version, NO_UPDATE.(state := Some(to)), now);
      if CanTransition(execution.state, to) {
        TransitionShape(execution.state, to);
        events := [Move(execution.id, to, None, now)];
        DidMove(cfg, w, execution.id, to, None, now);
      } else {
        events := [];
        DidNothing(cfg, w);
      }
    }

    // Makes an unfinished execution due again, whatever its state.
    method RequeueReady(id: ExecutionID, delay: Duration, now: Instant) returns (requeued: bool)
      requires store.Valid()
      modifies store`executions
      ensures store.Valid()
      ensures requeued <==> id in old(store.executions) && !old(store.executions)[id].state.Terminal()
      ensures store.executions ==
              if requeued then
                old(store.executions)[id := Updated(old(store.executions)[id],
                                                    NO_UPDATE.(state := Some(Ready),
                                                               nextAttemptAt := Some(now + delay)), now)]
              else old(store.executions)
    {
      hide Store.Valid;
      var execution := store.GetExecution(id);
      if execution.None? || execution.value.state.Terminal() {
        return false;
      }
      TransitionsReach(execution.value.state);
      var updated := store.UpdateExecution(id, execution.value.version,
                                           NO_UPDATE.(state := Some(Ready), nextAttemptAt := Some(now + delay)), now);
      return updated.Ok?;
    }

    method ReleaseAttemptSlot(attemptID: AttemptID)
      modifies this`executors
      ensures executors == if attemptID in store.attempts
                           then Released(old(executors), store.attempts[attemptID].instanceID, attemptID)
                           else old(executors)
    {
      var attempt := store.GetAttempt(attemptID);
      if attempt.Some? {
        ReleaseInFlight(attempt.value.instanceID, attemptID);
      }
    }

    method ReleaseInFlight(instanceID: InstanceID, attemptID: AttemptID)
      modifies this`executors
      ensures executors == Released(old(executors), instanceID, attemptID)
    {
      if instanceID in executors {
        var entry := executors[instanceID];
        executors := executors[instanceID := entry.(inFlight := entry.inFlight - {attemptID})];
      }
    }

    // The current attempt is lost: its slot is returned and the execution is due again at once.
    method AbandonAttempt(execution: Execution, now: Instant) returns (ghost events: seq<Event>)
      requires Valid() && execution.id in store.executions && store.executions[execution.id] == execution
      requires execution.state.Leased()
      modifies this`executors, store`executions, store`attempts, store`attemptsByHost
      ensures Valid() && Did(cfg, old(View()), events, View())
      ensures events == [Loss(execution.id, now)]
      ensures execution.currentAttemptID in old(store.attempts)
      ensures View() == WithClose(old(View()), execution.id, Lost, Ready, Some(now), now)
    {
      hide Inv, Did, Store.Valid, Released, Updated, Revise, WithState;
      ghost var w := View();
      CurrentIsOpen(cfg, w, execution.id);
      CurrentIsNumbered(cfg, w, execution.currentAttemptID);
      if execution.currentAttemptID != NO_ATTEMPT {
        LoseAttempt(execution.currentAttemptID, now);
      }
      var _ := RequeueReady(execution.id, 0, now);
      events := [Loss(execution.id, now)];
      DidClose(cfg, w, execution.id, Lost, Ready, Some(now), now);
    }

    method LoseAttempt(id: AttemptID, now: Instant)
      requires store.Valid() && id in store.attempts && store.attempts[id].Open()
      modifies this`executors, store`attempts, store`attemptsByHost
      ensures store.Valid() && store.attempts == WithState(old(store.attempts), id, Lost, now)
      ensures executors == Released(old(executors), old(store.attempts)[id].instanceID, id)
    {
      hide Store.Valid, Released;
      var _ := store.UpdateAttemptState(id, {AttemptState.Dispatched, AttemptState.Accepted}, Lost, now);
      ReleaseAttemptSlot(id);
    }

    method AbandonEach(lost: seq<Execution>, now: Instant) returns (ghost events: seq<Event>)
      requires Valid() && Stored(store.executions, lost) && forall e | e in lost :: e.state.Leased()
      modifies this`executors, store`executions, store`attempts, store`attemptsByHost
      ensures Valid() && Did(cfg, old(View()), events, View())
      ensures |events| == |lost| && forall i | 0 <= i < |lost| :: events[i] == Loss(lost[i].id, now)
      ensures AfterLosing(old(View()), View(), IdsOf(lost, |lost|), now)
    {
      hide Inv, Did, Store.Valid, Released, Updated, WithState, WithClose, AfterLosing, Stored, IdsOf;
      events := [];
      DidNothing(cfg, View());
      NoIds(lost);
      NoneLost(View(), now);
      for i := 0 to |lost|
        invariant Valid() && Did(cfg, old(View()), events, View())
        invariant |events| == i && forall k | 0 <= k < i :: events[k] == Loss(lost[k].id, now)
        invariant AfterLosing(old(View()), View(), IdsOf(lost, i), now)
      {
        ghost var before := View();
        assert lost[i] in lost;
        NextId(old(store.executions), lost, i);
        NotYetLost(old(View()), before, IdsOf(lost, i), lost[i].id, now);
        LosesOne(cfg, old(View()), before, IdsOf(lost, i), lost[i].id, now);
        ghost var step := AbandonAttempt(lost[i], now);
        DidThen(cfg, old(View()), events, before, step, View());
        events := events + step;
      }
    }

    method HandleExecAccept(instanceID: InstanceID, accept: ExecAccept, now: Instant) returns (ghost events: seq<Event>)
      requires Valid()
      modifies this`executors, store`executions, store`attempts, store`attemptsByHost
      ensures Valid() && Did(cfg, old(View()), events, View())
      ensures events == AcceptEvents(cfg, old(View()), instanceID, accept, now)
      ensures AfterAnswer(cfg, old(View()), View(), instanceID, accept.executionID, accept.attemptID, accept.accepted,
                          accept.error, now)
    {
      hide Inv, Did, Store.Valid, Updated, AfterAnswer;
      AnswerMeans(cfg, View(), instanceID, accept, now);
      events := [];
      DidNothing(cfg, View());
      var found := store.GetExecution(accept.executionID);
      if found.None? || found.value.currentAttemptID != accept.attemptID {
        return;
      }
      if !AttemptOwnedBy(accept.attemptID, instanceID) {
        return;
      }
      Identified(cfg, View(), accept.executionID);
      if !accept.accepted {
        events := SettleRejectedAttempt(instanceID, found.value, accept, now);
        return;
      }
      if found.value.state != Dispatching {
        return;
      }
      events := AcceptAttempt(found.value, now);
    }

    function AttemptOwnedBy(attemptID: AttemptID, instanceID: InstanceID): bool
      reads store`attempts
    {
      attemptID in store.attempts && store.attempts[attemptID].instanceID == instanceID
    }

    method AcceptAttempt(execution: Execution, now: Instant) returns (ghost events: seq<Event>)
      requires Valid() && execution.id in store.executions && store.executions[execution.id] == execution
      requires execution.state == Dispatching
      modifies store`executions, store`attempts, store`attemptsByHost
      ensures Valid() && Did(cfg, old(View()), events, View())
      ensures events == [Event.Accept(execution.id, now + cfg.lease, now)]
    {
      hide Inv, Did, Store.Valid, Consumed, Updated;
      ghost var w := View();
      CurrentIsOpen(cfg, w, execution.id);
      var lease := now + cfg.lease;
      var consumed := Consumed(execution);
      var _ := store.UpdateExecution(
        execution.id, execution.version,
        NO_UPDATE.(state := Some(Running), leaseExpiresAt := Some(lease), functionAttempts := Some(consumed)), now);
      var _ := store.UpdateAttemptState(execution.currentAttemptID, {AttemptState.Dispatched}, AttemptState.Accepted,
                                        now);
      events := [Event.Accept(execution.id, lease, now)];
      DidAccept(cfg, w, execution.id, now);
    }

    method SettleRejectedAttempt(instanceID: InstanceID, execution: Execution, accept: ExecAccept, now: Instant)
      returns (ghost events: seq<Event>)
      requires Valid() && execution.id in store.executions && store.executions[execution.id] == execution
      requires execution.id == accept.executionID && !accept.accepted
      requires Speaks(View(), instanceID, accept.executionID, accept.attemptID)
      modifies this`executors, store`executions, store`attempts, store`attemptsByHost
      ensures Valid() && Did(cfg, old(View()), events, View())
      ensures events == AcceptEvents(cfg, old(View()), instanceID, accept, now)
    {
      hide Inv, Did, Store.Valid, Released, Updated, WithState, Revise, Incompatible;
      ghost var w := View();
      events := AcceptEvents(cfg, w, instanceID, accept, now);
      var rejected := store.UpdateAttemptState(accept.attemptID, {AttemptState.Dispatched}, InfraFailed, now);
      if rejected != Some(true) {
        DidNothing(cfg, w);
        return;
      }
      OpenIsLeased(cfg, w, execution.id, accept.attemptID);
      ReleaseInFlight(instanceID, accept.attemptID);
      RedirectRejected(execution, accept, now, w);
    }

    // Once a refused attempt is closed, its execution waits for a compatible executor or is due again after a delay.
    method RedirectRejected(execution: Execution, accept: ExecAccept, now: Instant, ghost w: World)
      requires store.Valid() && cfg.Normal() && Inv(cfg, w)
      requires execution.id in w.executions && w.executions[execution.id] == execution && execution.state == Dispatching
      requires execution.currentAttemptID in w.attempts
      requires View() == w.(attempts := WithState(w.attempts, execution.currentAttemptID, InfraFailed, now),
                            executors := Released(w.executors, w.attempts[execution.currentAttemptID].instanceID,
                                                  execution.currentAttemptID))
      modifies store`executions
      ensures Valid()
      ensures Did(cfg, w, [Rejection(cfg, execution.id, accept, now)], View())
    {
      hide Inv, Did, Store.Valid, Released, Updated, WithState, Revise, Incompatible;
      ghost var step := Rejection(cfg, execution.id, accept, now);
      if Incompatible(accept) {
        ReviseApplies(execution, NO_UPDATE.(state := Some(WaitingCompatible)), now);
        var _ := store.UpdateExecution(execution.id, execution.version,
                                       NO_UPDATE.(state := Some(WaitingCompatible)), now);
      } else {
        var _ := RequeueReady(execution.id, cfg.redispatchDelay, now);
      }
      DidClose(cfg, w, execution.id, InfraFailed, step.to, step.next, now);
    }

    // `delay` is the retry delay the job's policy computes. `captured` says whether the outcome goes to the submitter.
    method HandleExecResult(instanceID: InstanceID, result: ExecResult, delay: Duration, now: Instant)
      returns (captured: bool, ghost events: seq<Event>)
      requires Valid()
      modifies this`executors, this`functionSuccesses, this`functionRetries, this`functionFailures
      modifies store`executions, store`attempts, store`attemptsByHost
      ensures Valid() && Did(cfg, old(View()), events, View())
      ensures events == ResultEvents(old(View()), instanceID, result, delay, now)
      ensures functionSuccesses == old(functionSuccesses) + Outcomes(events, Succeeded)
      ensures functionRetries == old(functionRetries) + Outcomes(events, RetryWait)
      ensures functionFailures == old(functionFailures) + Outcomes(events, Failed)
      ensures captured <==> events != [] && Delivers(old(View()), events[0])
      ensures AfterResult(old(View()), View(), instanceID, result.executionID, result.attemptID, result.success,
                          result.error, delay, now)
      ensures var counts := ResultCounts(old(View()), instanceID, result.executionID, result.attemptID);
              var again := counts && TriedAgain(old(View()), old(store.executions)[result.executionID], result.error);
              && functionSuccesses == old(functionSuccesses) + (if counts && result.success then 1 else 0)
              && functionRetries == old(functionRetries) + (if again && !result.success then 1 else 0)
              && functionFailures == old(functionFailures) + (if counts && !again && !result.success then 1 else 0)
              && (captured <==> counts && (result.success || !again)
                                && WantsOutcome(old(View()), old(store.executions)[result.executionID]))
    {
      hide Inv, Did, Store.Valid, RetriesLeft, TriedAgain, AfterResult, WantsOutcome, Delivers, Outcomes;
      ResultMeans(cfg, View(), instanceID, result, delay, now);
      captured, events := false, [];
      DidNothing(cfg, View());
      var found := store.GetExecution(result.executionID);
      if found.None? || found.value.currentAttemptID != result.attemptID || found.value.state != Running {
        return;
      }
      if !AttemptOwnedBy(result.attemptID, instanceID) {
        return;
      }
      Identified(cfg, View(), result.executionID);
      captured, events := Settle(found.value, instanceID, result, delay, now);
    }

    method Settle(execution: Execution, instanceID: InstanceID, result: ExecResult, delay: Duration, now: Instant)
      returns (captured: bool, ghost events: seq<Event>)
      requires Valid() && execution.id in store.executions && store.executions[execution.id] == execution
      requires Speaks(View(), instanceID, execution.id, execution.currentAttemptID) && execution.state == Running
      modifies this`executors, this`functionSuccesses, this`functionRetries, this`functionFailures
      modifies store`executions, store`attempts, store`attemptsByHost
      ensures Valid() && Did(cfg, old(View()), events, View())
      ensures events == [if result.success then Close(execution.id, AttemptSucceeded, Succeeded, None, now)
                         else if RetriesLeft(old(View()), result, execution)
                         then Close(execution.id, FunctionFailed, RetryWait, Some(now + delay), now)
                         else Close(execution.id, FunctionFailed, Failed, None, now)]
      ensures functionSuccesses == old(functionSuccesses) + Outcomes(events, Succeeded)
      ensures functionRetries == old(functionRetries) + Outcomes(events, RetryWait)
      ensures functionFailures == old(functionFailures) + Outcomes(events, Failed)
      ensures captured <==> Delivers(old(View()), events[0])
    {
      hide Inv, Did, Store.Valid, Released, RetriesLeft, TriedAgain;
      ghost var w := View();
      RetriesLeftIff(w, result);
      CurrentIsOpen(cfg, w, execution.id);
      ReleaseInFlight(instanceID, execution.currentAttemptID);
      if result.success {
        captured, events := SettleSuccess(execution, now, w);
      } else {
        captured, events := SettleFailure(execution, result, delay, now, w);
      }
    }

    method SettleSuccess(execution: Execution, now: Instant, ghost w: World)
      returns (captured: bool, ghost events: seq<Event>)
      requires store.Valid() && cfg.Normal() && Inv(cfg, w) && w == View().(executors := w.executors)
      requires execution.id in w.executions && w.executions[execution.id] == execution && execution.state == Running
      requires execution.currentAttemptID in w.attempts
      requires executors == Released(w.executors, w.attempts[execution.currentAttemptID].instanceID,
                                     execution.currentAttemptID)
      modifies this`functionSuccesses, store`executions, store`attempts, store`attemptsByHost
      ensures Valid() && Did(cfg, w, events, View())
      ensures events == [Close(execution.id, AttemptSucceeded, Succeeded, None, now)]
      ensures functionSuccesses == old(functionSuccesses) + 1
      ensures captured <==>
                execution.jobID in store.jobs && store.jobs[execution.jobID].resultMode == RESULT_MODE_DELIVER
    {
      hide Inv, Did, Store.Valid, Released, Updated, Revise, WithState;
      CurrentIsOpen(cfg, w, execution.id);
      ReviseApplies(execution, NO_UPDATE.(state := Some(Succeeded)), now);
      var _ := store.UpdateExecution(execution.id, execution.version, NO_UPDATE.(state := Some(Succeeded)), now);
      var _ := store.UpdateAttemptState(execution.currentAttemptID, {AttemptState.Accepted}, AttemptSucceeded, now);
      functionSuccesses := functionSuccesses + 1;
      events := [Close(execution.id, AttemptSucceeded, Succeeded, None, now)];
      DidClose(cfg, w, execution.id, AttemptSucceeded, Succeeded, None, now);
      captured := Captures(execution.jobID);
    }

    function Captures(jobID: JobUUID): bool
      reads store`jobs
    {
      jobID in store.jobs && store.jobs[jobID].resultMode == RESULT_MODE_DELIVER
    }

    method SettleFailure(execution: Execution, result: ExecResult, delay: Duration, now: Instant, ghost w: World)
      returns (captured: bool, ghost events: seq<Event>)
      requires store.Valid() && cfg.Normal() && Inv(cfg, w) && w == View().(executors := w.executors)
      requires execution.id in w.executions && w.executions[execution.id] == execution && execution.state == Running
      requires execution.currentAttemptID in w.attempts
      requires executors == Released(w.executors, w.attempts[execution.currentAttemptID].instanceID,
                                     execution.currentAttemptID)
      modifies this`functionRetries, this`functionFailures, store`executions, store`attempts, store`attemptsByHost
      ensures Valid() && Did(cfg, w, events, View())
      ensures events == if TriedAgain(w, execution, result.error)
                        then [Close(execution.id, FunctionFailed, RetryWait, Some(now + delay), now)]
                        else [Close(execution.id, FunctionFailed, Failed, None, now)]
      ensures functionRetries == old(functionRetries) + if TriedAgain(w, execution, result.error) then 1 else 0
      ensures functionFailures == old(functionFailures) + if TriedAgain(w, execution, result.error) then 0 else 1
      ensures captured <==> !TriedAgain(w, execution, result.error) && WantsOutcome(w, execution)
    {
      RetriesLeftIff(w, result);
      hide Inv, Did, Store.Valid, Released, MaxFunctionAttempts, Updated, WithState, Failing, TriedAgain;
      var retryable := result.error.Some? && result.error.value.retryable;
      FailAttempt(execution, now, w);
      var job := store.GetJob(execution.jobID);
      if job.Some? && retryable && execution.functionAttempts < MaxFunctionAttempts(job.value.retry) {
        events := FinishFailed(execution, RetryWait, Some(now + delay), now, w);
        functionRetries := functionRetries + 1;
        captured := false;
      } else {
        events := FinishFailed(execution, Failed, None, now, w);
        functionFailures := functionFailures + 1;
        captured := Captures(execution.jobID);
      }
    }

    method FailAttempt(execution: Execution, now: Instant, ghost w: World)
      requires store.Valid() && Inv(cfg, w) && w == View().(executors := w.executors)
      requires execution.id in w.executions && w.executions[execution.id] == execution && execution.state == Running
      requires execution.currentAttemptID in w.attempts
      requires executors == Released(w.executors, w.attempts[execution.currentAttemptID].instanceID,
                                     execution.currentAttemptID)
      modifies store`attempts, store`attemptsByHost
      ensures store.Valid() && Failing(w, View(), execution, now)
    {
      hide Inv, Store.Valid, Released, WithState;
      CurrentIsOpen(cfg, w, execution.id);
      var _ := store.UpdateAttemptState(execution.currentAttemptID, {AttemptState.Accepted}, FunctionFailed, now);
    }

    // Records where a failed execution goes, once its attempt is closed.
    method FinishFailed(execution: Execution, to: ExecutionState, next: Option<Instant>, now: Instant, ghost w: World)
      returns (ghost events: seq<Event>)
      requires store.Valid() && cfg.Normal() && Inv(cfg, w) && execution.currentAttemptID in w.attempts
      requires execution.id in w.executions && w.executions[execution.id] == execution && execution.state == Running
      requires Failing(w, View(), execution, now)
      requires CloseAllowed(w, execution, FunctionFailed, to)
      modifies store`executions
      ensures Valid() && Did(cfg, w, events, View())
      ensures events == [Close(execution.id, FunctionFailed, to, next, now)]
    {
      hide Inv, Did, Store.Valid, Released, Updated, Revise, WithState, MaxFunctionAttempts;
      ReviseApplies(execution, NO_UPDATE.(state := Some(to), nextAttemptAt := next), now);
      var _ := store.UpdateExecution(execution.id, execution.version,
                                     NO_UPDATE.(state := Some(to), nextAttemptAt := next), now);
      events := [Close(execution.id, FunctionFailed, to, next, now)];
      DidClose(cfg, w, execution.id, FunctionFailed, to, next, now);
    }

    // What a closed session leaves open is lost, one attempt after another.
    method HandleDisconnect(instanceID: InstanceID, now: Instant) returns (ghost events: seq<Event>)
      requires Valid()
      modifies this`executors, store`executions, store`attempts, store`attemptsByHost
      ensures Valid() && Did(cfg, old(View()), events, View())
      ensures OpenOn(store.attempts, instanceID) == {}
      ensures forall e | e in events :: LossOn(old(store.attempts), instanceID, e, now)
      ensures AfterLosing(old(View()), View(), HeldBy(old(View()), instanceID), now)
    {
      hide Inv, Did, Store.Valid, OpenList, OpenOn, LossOn, WithState, WithClose, AfterLosing, HeldIds, HeldBy;
      var open := store.OpenAttemptsOnInstance(instanceID);
      ghost var first := store.attempts;
      events := [];
      DidNothing(cfg, View());
      HeldAre(View(), instanceID, open);
      NoneLost(View(), now);
      assert open[0..] == open;
      for i := 0 to |open|
        invariant Valid() && Did(cfg, old(View()), events, View())
        invariant OpenList(first, instanceID, open) && OpenList(store.attempts, instanceID, open[i..])
        invariant forall e | e in events :: LossOn(old(store.attempts), instanceID, e, now)
        invariant AfterLosing(old(View()), View(), HeldIds(open, i), now)
      {
        ghost var before := View();
        LossIsOn(first, instanceID, open, open[i], now);
        OpenListFacts(store.attempts, instanceID, open[i..], open[i]);
        OpenListNext(store.attempts, instanceID, open[i..], Lost, now);
        OpenIsCurrentNow(cfg, before, open[i].id);
        LosesOne(cfg, old(View()), before, HeldIds(open, i), open[i].executionID, now);
        HeldIdsNext(open, i);
        assert open[i..][1..] == open[i + 1..];
        ghost var step := AbandonCurrent(open[i], now);
        DidThen(cfg, old(View()), events, before, step, View());
        events := events + step;
      }
      assert open[|open|..] == [];
      NoneListed(store.attempts, instanceID);
    }

    // Abandons an attempt that is still the current one of a leased execution, as every open attempt is.
    method AbandonCurrent(attempt: Attempt, now: Instant) returns (ghost events: seq<Event>)
      requires Valid() && attempt.id in store.attempts && store.attempts[attempt.id] == attempt && attempt.Open()
      modifies this`executors, store`executions, store`attempts, store`attemptsByHost
      ensures Valid() && Did(cfg, old(View()), events, View())
      ensures events == [Loss(attempt.executionID, now)]
      ensures attempt.id in old(store.attempts) && attempt.executionID in old(store.executions)
      ensures old(store.executions)[attempt.executionID].currentAttemptID in old(store.attempts)
      ensures View() == WithClose(old(View()), attempt.executionID, Lost, Ready, Some(now), now)
      ensures store.attempts == WithState(old(store.attempts), attempt.id, Lost, now)
    {
      hide Inv, Did, Store.Valid, Released, Updated, WithState;
      events := [];
      OpenIsCurrentNow(cfg, View(), attempt.id);
      var execution := store.GetExecution(attempt.executionID);
      if execution.Some? && execution.value.currentAttemptID == attempt.id && execution.value.state.Leased() {
        events := AbandonAttempt(execution.value, now);
      }
    }

    // Renews the lease behind every open attempt of a live executor that has not outlived its limit.
    method HandleHeartbeat(instanceID: InstanceID, now: Instant) returns (ghost events: seq<Event>)
      requires Valid()
      modifies store`executions
      ensures Valid() && Did(cfg, old(View()), events, View())
      ensures forall e | e in events :: RenewalOn(cfg, store.attempts, instanceID, e, now)
      ensures AfterHeartbeat(cfg, old(View()), View(), instanceID, now)
    {
      hide Inv, Did, Store.Valid, OpenList, OpenOn, RenewalOn, Renewed, RenewedIds, AfterHeartbeat, Step;
      var open := store.OpenAttemptsOnInstance(instanceID);
      events := [];
      DidNothing(cfg, View());
      NoneRenewed(View(), now + cfg.lease, now);
      assert RenewedIds(cfg, open, 0, now) == {} by { NoRenewedIds(cfg, open, now); }
      for i := 0 to |open|
        invariant Valid() && Did(cfg, old(View()), events, View())
        invariant store.executions.Keys == old(store.executions.Keys)
        invariant Renewed(old(View()), View(), RenewedIds(cfg, open, i, now), now + cfg.lease, now)
        invariant forall e | e in events :: RenewalOn(cfg, store.attempts, instanceID, e, now)
      {
        ghost var before := View();
        RenewalIsOn(cfg, store.attempts, instanceID, open, open[i], now);
        OpenListFacts(store.attempts, instanceID, open, open[i]);
        OpenApart(cfg, before, instanceID, open, i, now);
        RenewedIdsNext(cfg, open, i, now);
        OpenIsCurrentNow(cfg, before, open[i].id);
        OneRenewed(old(View()), before, RenewedIds(cfg, open, i, now), open[i].executionID, now + cfg.lease, now);
        ghost var step := RenewLease(open[i], now);
        DidThen(cfg, old(View()), events, before, step, View());
        events := events + step;
      }
      RenewalsAre(cfg, old(View()), View(), instanceID, open, now);
    }

    method RenewLease(attempt: Attempt, now: Instant) returns (ghost events: seq<Event>)
      requires Valid() && attempt.id in store.attempts && store.attempts[attempt.id] == attempt && attempt.Open()
      modifies store`executions
      ensures Valid() && Did(cfg, old(View()), events, View())
      ensures events == if now - attempt.createdAt < cfg.maxExecution
                        then [Renew(attempt.executionID, now + cfg.lease, now)] else []
      ensures View() == if events != [] then Step(old(View()), events[0]) else old(View())
      ensures store.executions.Keys == old(store.executions.Keys)
    {
      hide Inv, Did, Store.Valid;
      events := [];
      ghost var w := View();
      DidNothing(cfg, w);
      OpenIsCurrentNow(cfg, w, attempt.id);
      WithinLimit(cfg, attempt.createdAt, now);
      if Sub(now, attempt.createdAt) >= cfg.maxExecution {
        return;
      }
      var execution := store.GetExecution(attempt.executionID);
      if execution.None? || execution.value.currentAttemptID != attempt.id || !execution.value.state.Leased() {
        return;
      }
      var lease := now + cfg.lease;
      var _ := store.UpdateExecution(execution.value.id, execution.value.version,
                                     NO_UPDATE.(leaseExpiresAt := Some(lease)), now);
      events := [Renew(attempt.executionID, lease, now)];
      DidOne(cfg, w, events[0]);
      DidKeepsInv(cfg, w, events, View());
    }

    // Abandons every execution whose lease has elapsed: afterwards none is left.
    method ReapExpiredLeases(now: Instant) returns (ghost events: seq<Event>)
      requires Valid()
      modifies this`executors, store`executions, store`attempts, store`attemptsByHost
      ensures Valid() && Did(cfg, old(View()), events, View())
      ensures AfterLosing(old(View()), View(), LeasesOver(old(store.executions), now), now)
    {
      hide Inv, Did, Store.Valid, AfterLosing, IdsOf;
      AllIdentified(cfg, View());
      ExpiredIffOver(now);
      var keep := (e: Execution) => Expired(e, now);
      var expired := store.Matching(keep);
      IdsAre(store.executions, expired, keep);
      hide Expired, LeaseOver;
      assert IdsOf(expired, |expired|) == LeasesOver(store.executions, now);
      assert forall e | e in expired :: e.state.Leased() by { ExpiredAreLeased(now); }
      events := AbandonEach(expired, now);
    }

    // Gives every waiting execution that is wanted another try.
    method RequeueEach(waiting: seq<Execution>, wanted: Execution -> bool, now: Instant)
      returns (ghost events: seq<Event>)
      requires Valid() && Stored(store.executions, waiting) && forall e | e in waiting :: e.state.Waiting()
      modifies store`executions
      ensures Valid() && Did(cfg, old(View()), events, View())
      ensures Reached(old(store.executions), store.executions, waiting, |waiting|, wanted, RequeuedAt(now))
    {
      hide Inv, Did, Store.Valid, Updated, Reached, Stored;
      events := [];
      DidNothing(cfg, View());
      NoneReached(store.executions, waiting, wanted, RequeuedAt(now));
      for i := 0 to |waiting|
        invariant Valid() && Did(cfg, old(View()), events, View())
        invariant Reached(old(store.executions), store.executions, waiting, i, wanted, RequeuedAt(now))
      {
        assert waiting[i] in waiting;
        ghost var before := View();
        if wanted(waiting[i]) {
          StillStored(old(store.executions), store.executions, waiting, i, wanted, RequeuedAt(now));
          var _ := RequeueReady(waiting[i].id, 0, now);
          ReadyAgain(cfg, before, waiting[i].id, now);
          DidThen(cfg, old(View()), events, before, [Move(waiting[i].id, Ready, Some(now), now)], View());
          ReachedNext(old(store.executions), before.executions, waiting, i, wanted, RequeuedAt(now),
                      store.executions[waiting[i].id]);
          events := events + [Move(waiting[i].id, Ready, Some(now), now)];
        } else {
          ReachedSkip(old(store.executions), store.executions, waiting, i, wanted, RequeuedAt(now));
        }
      }
    }

    // An executor joined or announced labels: what waits for its type is tried again, and what waits for a label only
    // if it is among the announced ones.
    method ReconsiderWaiting(executorType: ExecutorType, labels: set<Label>, now: Instant)
      returns (ghost events: seq<Event>)
      requires Valid()
      modifies store`executions
      ensures Valid() && Did(cfg, old(View()), events, View())
      ensures store.executions.Keys == old(store.executions.Keys)
      ensures forall id | id in store.executions ::
                var e := old(store.executions)[id];
                store.executions[id] ==
                if Awaits(store.jobs, e, executorType, labels) then NowInUntil(e, Ready, now, now) else e
    {
      hide Inv, Did, Store.Valid, Reached, Awaits, Concerns, NowInUntil, RequeuedAt;
      AllIdentified(cfg, View());
      var keep := (e: Execution) => e.state.Waiting();
      var jobs := store.jobs;
      var wanted := (e: Execution) => Concerns(jobs, e, executorType, labels);
      var waiting := store.Matching(keep);
      events := RequeueEach(waiting, wanted, now);
      ReachedAll(old(store.executions), store.executions, waiting, keep, wanted, RequeuedAt(now));
      AwaitingAre(old(store.executions), store.executions, jobs, executorType, labels, now);
    }

    // The periodic safety net: whatever waits is tried again once any executor of its type is connected.
    method RequeueWaitingWithPools(now: Instant) returns (ghost events: seq<Event>)
      requires Valid()
      modifies store`executions
      ensures Valid() && Did(cfg, old(View()), events, View())
      ensures store.executions.Keys == old(store.executions.Keys)
      ensures forall id | id in store.executions ::
                var e := old(store.executions)[id];
                store.executions[id] ==
                if AwaitsAny(store.jobs, executors, e) then NowInUntil(e, Ready, now, now) else e
    {
      hide Inv, Did, Store.Valid, Reached, AwaitsAny, HasPool, NowInUntil, RequeuedAt;
      AllIdentified(cfg, View());
      var keep := (e: Execution) => e.state.Waiting();
      var jobs, connected := store.jobs, executors;
      var wanted := (e: Execution) => HasPool(jobs, connected, e);
      var waiting := store.Matching(keep);
      events := RequeueEach(waiting, wanted, now);
      ReachedAll(old(store.executions), store.executions, waiting, keep, wanted, RequeuedAt(now));
      AwaitingAnyAre(old(store.executions), store.executions, jobs, connected, now);
    }

    // Cancels every wanted execution of a job. Leased and settled ones are left alone.
    method CancelEach(existing: seq<Execution>, wanted: Execution -> bool, now: Instant)
      returns (ghost events: seq<Event>)
      requires Valid() && Stored(store.executions, existing)
      modifies store`executions
      ensures Valid() && Did(cfg, old(View()), events, View())
      ensures Reached(old(store.executions), store.executions, existing, |existing|,
                      (e: Execution) => Pending(e) && wanted(e), CancelledAt(now))
    {
      hide Inv, Did, Store.Valid, Reached, Stored;
      ghost var cancels := (e: Execution) => Pending(e) && wanted(e);
      events := [];
      DidNothing(cfg, View());
      NoneReached(store.executions, existing, cancels, CancelledAt(now));
      for i := 0 to |existing|
        invariant Valid() && Did(cfg, old(View()), events, View())
        invariant Reached(old(store.executions), store.executions, existing, i, cancels, CancelledAt(now))
      {
        ghost var before := View();
        if existing[i].state.Terminal() || existing[i].state.Leased() || !wanted(existing[i]) {
          ReachedSkip(old(store.executions), store.executions, existing, i, cancels, CancelledAt(now));
          continue;
        }
        StillStored(old(store.executions), store.executions, existing, i, cancels, CancelledAt(now));
        TransitionsReach(existing[i].state);
        ghost var step := Transition(existing[i], Cancelled, now);
        DidThen(cfg, old(View()), events, before, step, View());
        ReachedNext(old(store.executions), before.executions, existing, i, cancels, CancelledAt(now),
                    store.executions[existing[i].id]);
        events := events + step;
      }
    }

    // The pending occurrences of a deleted job are cancelled; what is dispatching or running finishes on its own.
    method CancelDeletedExecutions(jobID: JobUUID, now: Instant) returns (ghost events: seq<Event>)
      requires Valid()
      modifies store`executions
      ensures Valid() && Did(cfg, old(View()), events, View())
      ensures store.executions.Keys == old(store.executions.Keys)
      ensures forall id | id in store.executions ::
                var e := old(store.executions)[id];
                store.executions[id] == if e.jobID == jobID && Unassigned(e) then NowIn(e, Cancelled, now) else e
    {
      PendingIffUnassigned();
      hide Inv, Did, Store.Valid, Reached, Pending, Unassigned, NowIn;
      AllIdentified(cfg, View());
      var keep := (e: Execution) => e.jobID == jobID;
      var existing := store.Matching(keep);
      events := CancelEach(existing, (e: Execution) => true, now);
      ReachedAll(old(store.executions), store.executions, existing, keep,
                 (e: Execution) => Pending(e) && ((e: Execution) => true)(e), CancelledAt(now));
    }

    // A replaced definition keeps the pending occurrences it still schedules and cancels the others.
    method CancelReplacedExecutions(job: Job, now: Instant) returns (ghost events: seq<Event>)
      requires Valid()
      modifies store`executions
      ensures Valid() && Did(cfg, old(View()), events, View())
      ensures store.executions.Keys == old(store.executions.Keys)
      ensures forall id | id in store.executions ::
                var e := old(store.executions)[id];
                store.executions[id] ==
                if job.version > 1 && e.jobID == job.id && Pending(e) && !Keeps(job, e) then NowIn(e, Cancelled, now)
                else e
      ensures Statable(job.schedule) ==> forall id | id in store.executions ::
                var e := old(store.executions)[id];
                store.executions[id] ==
                if job.version > 1 && e.jobID == job.id && Pending(e) && !Names(job, e) then NowIn(e, Cancelled, now)
                else e
    {
      hide Inv, Did, Store.Valid, Reached, Keeps, Names, Statable;
      if Statable(job.schedule) {
        forall e ensures Keeps(job, e) <==> Names(job, e) {
          KeepsIffNames(job, e);
        }
      }
      if job.version <= 1 {
        events := [];
        DidNothing(cfg, View());
        return;
      }
      AllIdentified(cfg, View());
      var keep := (e: Execution) => e.jobID == job.id;
      var wanted := (e: Execution) => !Keeps(job, e);
      var existing := store.Matching(keep);
      events := CancelEach(existing, wanted, now);
      ReachedAll(old(store.executions), store.executions, existing, keep,
                 (e: Execution) => Pending(e) && wanted(e), CancelledAt(now));
    }

    // Materializes one occurrence of a stored job, unless it already is.
    method CreateOccurrence(jobID: JobUUID, at: Instant, backfilled: bool, now: Instant)
      returns (ghost events: seq<Event>)
      requires Valid()
      modifies store`executions, store`occurrences, store`nextExecutionID, store`executionsOrdered
      ensures Valid() && Did(cfg, old(View()), events, View())
      ensures events == CreateEvents(old(View()), jobID, at, backfilled, now)
      ensures View() == if events == [] then old(View()) else Step(old(View()), events[0])
      ensures Materialized(old(View()), View(), jobID, {at}, if backfilled then {at} else {}, now)
      ensures jobID in store.jobs ==> OccurrenceOf(jobID, at) in store.occurrences
    {
      hide Inv, Did, Store.Valid, OccurrenceOf, Materialized;
      ghost var w := View();
      events := CreateEvents(w, jobID, at, backfilled, now);
      FreshExecution(cfg, w);
      var _ := store.CreateExecution(jobID, at, backfilled, now);
      if events == [] {
        DidNothing(cfg, w);
        NothingMaterialized(w, View(), jobID, {at}, if backfilled then {at} else {}, now);
      } else {
        CreateMaterializes(w, jobID, at, backfilled, now);
        DidOne(cfg, w, events[0]);
        DidKeepsInv(cfg, w, events, View());
      }
    }

    // Materializes the missed occurrences a job may still run and the next one, and counts the ones given up.
    method MaterializeJob(job: Job, now: Instant) returns (ghost plan: Plan, ghost events: seq<Event>)
      requires Valid() && job.id in store.jobs
      modifies store`jobs, store`executions, store`occurrences, store`nextExecutionID, store`executionsOrdered
      ensures Valid() && Did(cfg, old(View()), events, View())
      ensures PlanIs(cfg, job.schedule, job.backfill, now, plan)
      ensures store.jobs == WithSkipped(old(store.jobs), job.id, plan.skipped)
      ensures Materialized(old(View()), View(), job.id, Added(plan), Late(plan), now)
      ensures forall t | Adds(plan, t) :: OccurrenceOf(job.id, t) in store.occurrences
    {
      hide Inv, Did, Store.Valid, OccurrenceOf, PlanIs, Materialized, NextOccurrence, WithSkipped;
      var computed := PlanJob(cfg, job.schedule, job.backfill, now);
      plan := computed;
      events := AddSkipped(job.id, computed.skipped);
      NothingMaterialized(old(View()), View(), job.id, Added(plan), Late(plan), now);
      for i := 0 to |computed.missed|
        invariant Valid() && Did(cfg, old(View()), events, View())
        invariant store.jobs == WithSkipped(old(store.jobs), job.id, plan.skipped) && job.id in store.jobs
        invariant Materialized(old(View()), View(), job.id, Added(plan), Late(plan), now)
        invariant forall k | 0 <= k < i :: OccurrenceOf(job.id, computed.missed[k]) in store.occurrences
      {
        ghost var before := View();
        var at := computed.missed[i];
        assert at in computed.missed;
        assert {at} * Late(plan) == {at};
        ghost var step := CreateOccurrence(job.id, at, true, now);
        DidThen(cfg, old(View()), events, before, step, View());
        MaterializedThen(old(View()), before, View(), job.id, Added(plan), Late(plan), at, now);
        events := events + step;
      }
      if computed.next.Some? {
        ghost var before := View();
        var at := computed.next.value;
        ghost var step := CreateOccurrence(job.id, at, false, now);
        DidThen(cfg, old(View()), events, before, step, View());
        if at in computed.missed {
          assert step == [];
        } else {
          assert {at} * Late(plan) == {};
          MaterializedThen(old(View()), before, View(), job.id, Added(plan), Late(plan), at, now);
        }
        events := events + step;
      }
    }

    method AddSkipped(jobID: JobUUID, count: nat) returns (ghost events: seq<Event>)
      requires Valid() && jobID in store.jobs
      modifies store`jobs
      ensures Valid() && Did(cfg, old(View()), events, View())
      ensures events == if count > 0 then [CountSkipped(jobID, count)] else []
      ensures store.jobs == WithSkipped(old(store.jobs), jobID, count) && store.jobs.Keys == old(store.jobs.Keys)
    {
      hide Inv, Did, Store.Valid;
      ghost var w := View();
      events := [];
      DidNothing(cfg, w);
      if count > 0 {
        var _ := store.AddSkippedOccurrences(jobID, count);
        events := [CountSkipped(jobID, count)];
        DidOne(cfg, w, events[0]);
        DidKeepsInv(cfg, w, events, View());
      } else {
        assert store.jobs == WithSkipped(store.jobs, jobID, 0);
      }
    }

    // Materializes the occurrence that follows another one.
    method MaterializeNext(job: Job, afterOccurrence: Instant, now: Instant) returns (ghost events: seq<Event>)
      requires Valid()
      modifies store`executions, store`occurrences, store`nextExecutionID, store`executionsOrdered
      ensures Valid() && Did(cfg, old(View()), events, View())
      ensures events == NextEvents(old(View()), job, afterOccurrence, now)
      ensures View() == if events == [] then old(View()) else Step(old(View()), events[0])
      ensures Materialized(old(View()), View(), job.id, Instants(NextOccurrence(job.schedule, afterOccurrence)), {},
                           now)
    {
      hide Inv, Did, Store.Valid, OccurrenceOf, NextOccurrence;
      events := [];
      DidNothing(cfg, View());
      var occurrence := NextOccurrence(job.schedule, afterOccurrence);
      if occurrence.Some? {
        events := CreateOccurrence(job.id, occurrence.value, false, now);
      }
    }

    // Stores a job definition, cancels the pending occurrences it no longer schedules, and materializes the others.
    method HandleJobUpsert(job: Job, now: Instant)
      returns (ack: Result<JobUUID, UpsertRefusal>, ghost events: seq<Event>)
      requires Valid() && (ValidateUpsert(job).None? ==> KeyResolves(store.jobs, store.jobKeys, job.scope))
      modifies store`jobs, store`jobKeys
      modifies store`executions, store`occurrences, store`nextExecutionID, store`executionsOrdered
      ensures Valid() && Did(cfg, old(View()), events, View())
      ensures ack.Err? <==> ValidateUpsert(job).Some?
      ensures ack.Err? ==> Some(ack.error) == ValidateUpsert(job) && View() == old(View())
      ensures ack.Ok? ==> Upserted(cfg, old(View()), View(), StoredJob(old(store.jobs), old(store.jobKeys), job), now)
      ensures ack.Err? <==> Malformed(job)
      ensures ack.Err? ==> RefusedFor(job, ack.error)
      ensures ack.Ok? ==> AfterUpsert(old(View()), View(), job, now)
      ensures ack.Ok? ==> ack.value == if job.scope in old(store.jobKeys) then old(store.jobKeys)[job.scope] else job.id
    {
      RefusalIs(job);
      hide Inv, Did, Store.Valid, StoredJob, Keeps, Names, PlanIs, OccurrenceOf, CaughtUp, Materialized, WithSkipped,
           Statable, RefusedFor, Malformed, AfterUpsert, ValidateUpsert;
      events := [];
      DidNothing(cfg, View());
      var refusal := ValidateUpsert(job);
      if refusal.Some? {
        return Err(refusal.value), events;
      }
      ValidIsStatable(store.jobs, store.jobKeys, job);
      var stored;
      stored, events := PutStored(job);
      ghost var put := View();
      ghost var cancelled := CancelReplacedExecutions(stored, now);
      ghost var swept := View();
      DidThen(cfg, old(View()), events, put, cancelled, swept);
      events := events + cancelled;
      if stored.enabled {
        ghost var plan, added := MaterializeJob(stored, now);
        DidThen(cfg, old(View()), events, swept, added, View());
        events := events + added;
        MaterializedCatchesUp(cfg, swept, View(), stored, plan, now);
        KeptByMaterializing(swept, View(), stored.id, Added(plan), Late(plan), now);
      }
      UpsertMeans(cfg, old(View()), View(), job, now);
      return Ok(stored.id), events;
    }

    method PutStored(job: Job) returns (stored: Job, ghost events: seq<Event>)
      requires Valid() && !job.id.IsZero() && KeyResolves(store.jobs, store.jobKeys, job.scope)
      modifies store`jobs, store`jobKeys
      ensures Valid() && Did(cfg, old(View()), events, View())
      ensures stored == StoredJob(old(store.jobs), old(store.jobKeys), job)
      ensures store.jobs == old(store.jobs)[stored.id := stored]
      ensures store.jobKeys == old(store.jobKeys)[stored.scope := stored.id]
    {
      hide Inv, Did, Store.Valid;
      ghost var w := View();
      AllIdentifiedJobs(cfg, w);
      var result := store.UpsertJob(job);
      stored := result.value;
      events := [PutJob(job)];
      DidOne(cfg, w, events[0]);
      DidKeepsInv(cfg, w, events, View());
    }

    // Removes a job by its scope and cancels its pending occurrences.
    method HandleJobDelete(scope: JobScope, now: Instant)
      returns (ack: Result<bool, UpsertRefusal>, ghost events: seq<Event>)
      requires Valid() && (ValidateDelete(scope).None? ==> KeyResolves(store.jobs, store.jobKeys, scope))
      modifies store`jobs, store`jobKeys, store`executions
      ensures Valid() && Did(cfg, old(View()), events, View())
      ensures ack == match ValidateDelete(scope)
                     case Some(refusal) => Err(refusal)
                     case None => Ok(scope in old(store.jobKeys))
      ensures ack != Ok(true) ==> View() == old(View())
      ensures ack == Ok(true) ==> Deleted(old(View()), View(), scope, now)
      ensures ack == if scope.key == [] then Err(EmptyKey)
                     else if scope.executorType.name == [] then Err(EmptyType)
                     else Ok(scope in old(store.jobKeys))
      ensures ack == Ok(true) ==> AfterDelete(old(View()), View(), old(store.jobKeys)[scope], now)
    {
      hide Inv, Did, Store.Valid, AfterDelete;
      events := [];
      DidNothing(cfg, View());
      var refusal := ValidateDelete(scope);
      if refusal.Some? {
        return Err(refusal.value), events;
      }
      AllIdentifiedJobs(cfg, View());
      var job := store.GetJobByKey(scope);
      if job.None? {
        return Ok(false), events;
      }
      events := CancelDeletedExecutions(job.value.id, now);
      ghost var cancelled := View();
      var deleted := DropStored(job.value.id);
      DidThen(cfg, old(View()), events, cancelled, [DropJob(job.value.id)], View());
      events := events + [DropJob(job.value.id)];
      DeleteMeans(old(View()), View(), scope, now);
      return Ok(deleted), events;
    }

    method DropStored(id: JobUUID) returns (deleted: bool)
      requires Valid() && id in store.jobs
      modifies store`jobs, store`jobKeys
      ensures Valid() && Did(cfg, old(View()), [DropJob(id)], View()) && deleted
      ensures store.jobs == old(store.jobs) - {id} && store.jobKeys == old(store.jobKeys) - {old(store.jobs)[id].scope}
    {
      hide Inv, Did, Store.Valid;
      DidOne(cfg, View(), DropJob(id));
      DidKeepsInv(cfg, View(), [DropJob(id)], Step(View(), DropJob(id)));
      deleted := store.DeleteJob(id);
    }

    // Takes an executor of the type that runs the function and has capacity, when there is one.
    method Select(executorType: ExecutorType, spec: FunctionSpec) returns (found: Option<InstanceID>)
      ensures found.Some? ==> found.value in executors && executors[found.value].Takes(executorType, spec)
      ensures found.None? ==> forall x | x in executors :: !executors[x].Takes(executorType, spec)
    {
      if x :| x in executors && executors[x].Takes(executorType, spec) {
        return Some(x);
      }
      return None;
    }

    method SelectLabeled(executorType: ExecutorType, spec: FunctionSpec, tag: Label) returns (found: Option<InstanceID>)
      ensures found.Some? ==>
                && found.value in executors && tag in executors[found.value].labels
                && executors[found.value].Takes(executorType, spec)
      ensures found.None? ==> forall x | x in executors && tag in executors[x].labels ::
          !executors[x].Takes(executorType, spec)
    {
      if x :| x in executors && tag in executors[x].labels && executors[x].Takes(executorType, spec) {
        return Some(x);
      }
      return None;
    }

    // The label of a pin is tried before anything else; the whole pool is for jobs without one and as a fallback.
    method SelectExecutor(job: Job) returns (found: Option<InstanceID>)
      ensures found.Some? ==> Eligible(executors, job, found.value)
      ensures found.None? ==> forall x :: !Eligible(executors, job, x)
      ensures found.Some? ==> CanGet(executors, job, found.value)
      ensures found.None? ==> forall x :: !CanGet(executors, job, x)
    {
      EligibleIffCanGet(executors, job);
      hide CanGet;
      if job.pin.pinned == NO_LABEL {
        found := Select(job.scope.executorType, job.function_);
        return;
      }
      found := SelectLabeled(job.scope.executorType, job.function_, job.pin.pinned);
      if found.Some? {
        return;
      }
      if job.pin.policy == PIN_POLICY_PREFERRED {
        found := Select(job.scope.executorType, job.function_);
      }
    }

    // Where an execution goes that no executor can take now.
    method ParkUndispatchable(job: Job, execution: Execution, now: Instant) returns (ghost events: seq<Event>)
      requires Valid() && execution.id in store.executions && store.executions[execution.id] == execution
      requires Dispatchable(execution.state)
      modifies store`executions
      ensures Valid() && Did(cfg, old(View()), events, View())
      ensures events == [ParkEvent(cfg, executors, job, execution.id, now)]
      ensures View() == Step(old(View()), events[0])
      ensures View() == WithExecution(old(View()), AsParked(cfg, executors, job, execution, now))
    {
      hide Inv, Did, Store.Valid, Updated, AsParked;
      ghost var w := View();
      ParkComesTo(cfg, w, job, execution, now);
      events := [ParkEvent(cfg, executors, job, execution.id, now)];
      if job.pin.pinned != NO_LABEL && job.pin.policy != PIN_POLICY_PREFERRED && !LabelAlive(executors, job.pin.pinned)
      {
        Park(execution, WaitingLabel, now);
      } else if !PoolAlive(executors, job.scope.executorType) {
        Park(execution, WaitingExecutor, now);
      } else if PoolSupports(executors, job.scope.executorType, job.function_) {
        var _ := RequeueReady(execution.id, cfg.redispatchDelay, now);
        TransitionsReach(execution.state);
        DidMove(cfg, w, execution.id, Ready, Some(now + cfg.redispatchDelay), now);
      } else {
        Park(execution, WaitingCompatible, now);
      }
    }

    method Park(execution: Execution, to: ExecutionState, now: Instant)
      requires Valid() && execution.id in store.executions && store.executions[execution.id] == execution
      requires Dispatchable(execution.state) && to.Waiting()
      modifies store`executions
      ensures Valid() && Did(cfg, old(View()), [Move(execution.id, to, None, now)], View())
      ensures View() == Step(old(View()), Move(execution.id, to, None, now))
    {
      hide Inv, Did, Store.Valid;
      ghost var w := View();
      DidMove(cfg, w, execution.id, to, None, now);
      var _ := store.UpdateExecution(execution.id, execution.version, NO_UPDATE.(state := Some(to)), now);
    }

    // Claims the execution, records the new attempt, makes it current and takes a slot of the executor.
    method Claim(execution: Execution, job: Job, instanceID: InstanceID, lease: Instant, now: Instant)
      returns (attemptID: AttemptID, ghost events: seq<Event>)
      requires Valid() && execution.id in store.executions && store.executions[execution.id] == execution
      requires Enabled(cfg, View(), Event.Dispatch(execution.id, instanceID, lease, now))
      modifies this`executors, store`executions
      modifies store`attempts, store`attemptsByExec, store`attemptsByHost, store`nextAttemptID
      ensures Valid() && Did(cfg, old(View()), events, View())
      ensures events == [Event.Dispatch(execution.id, instanceID, lease, now)]
      ensures View() == WithDispatch(old(View()), execution.id, instanceID, lease, now)
      ensures attemptID == store.nextAttemptID
    {
      hide Inv, Did, Store.Valid, Updated, Enabled, CanTransition, AttemptsOf, Eligible, NextAttemptNumber, Occupied,
           Revise, WithDispatch, Step;
      ghost var w := View();
      ghost var d := Event.Dispatch(execution.id, instanceID, lease, now);
      DispatchMoves(cfg, w, d);
      var claimed := ClaimExecution(execution, lease, now);
      var attempt := RecordAttempt(execution.id, instanceID, now);
      Fence(claimed, attempt.id, now);
      AddInFlight(instanceID, attempt.id);
      attemptID := attempt.id;
      events := [d];
      DispatchIs(w, execution, instanceID, lease, now, claimed, attempt);
      DidOne(cfg, w, d);
      DidKeepsInv(cfg, w, events, Step(w, d));
    }

    // Takes the execution for this pass: whoever read the same version cannot.
    method ClaimExecution(execution: Execution, lease: Instant, now: Instant) returns (claimed: Execution)
      requires store.Valid() && execution.id in store.executions && store.executions[execution.id] == execution
      requires CanTransition(execution.state, Dispatching)
      modifies store`executions
      ensures store.Valid() && claimed == Updated(execution, ClaimUpdate(lease), now) && claimed.id == execution.id
      ensures store.executions == old(store.executions)[execution.id := claimed]
    {
      hide Store.Valid, Revise;
      ReviseApplies(execution, ClaimUpdate(lease), now);
      var updated := store.UpdateExecution(execution.id, execution.version, ClaimUpdate(lease), now);
      return updated.value;
    }

    // The next attempt of the execution, numbered by those before it.
    method RecordAttempt(executionID: ExecutionID, instanceID: InstanceID, now: Instant) returns (attempt: Attempt)
      requires store.Valid() && executionID in store.executions
      modifies store`attempts, store`attemptsByExec, store`attemptsByHost, store`nextAttemptID
      ensures store.Valid() && store.nextAttemptID == old(store.nextAttemptID) + 1
      ensures attempt == Attempt(store.nextAttemptID, executionID,
                                 NextAttemptNumber(|AttemptsOf(old(store.attempts), executionID)|), instanceID,
                                 AttemptState.Dispatched, now, now)
      ensures store.attempts == old(store.attempts)[store.nextAttemptID := attempt]
    {
      hide Store.Valid, AttemptsOf, Lists, NextAttemptNumber;
      var prior := store.AttemptsForExecution(executionID);
      ListsCount(prior, AttemptsOf(store.attempts, executionID));
      var created := store.CreateAttempt(executionID, NextAttemptNumber(|prior|), instanceID, now);
      return created.value;
    }

    // Makes an attempt the current one, so that no other is heard from then on.
    method Fence(claimed: Execution, attemptID: AttemptID, now: Instant)
      requires store.Valid() && claimed.id in store.executions && store.executions[claimed.id] == claimed
      modifies store`executions
      ensures store.Valid()
      ensures store.executions ==
              old(store.executions)[claimed.id := Updated(claimed, FenceUpdate(attemptID), now)]
    {
      hide Store.Valid, Updated, Revise;
      ReviseApplies(claimed, FenceUpdate(attemptID), now);
      var _ := store.UpdateExecution(claimed.id, claimed.version, FenceUpdate(attemptID), now);
    }

    method AddInFlight(instanceID: InstanceID, attemptID: AttemptID)
      modifies this`executors
      ensures executors == Occupied(old(executors), instanceID, attemptID)
    {
      if instanceID in executors {
        var entry := executors[instanceID];
        executors := executors[instanceID := entry.(inFlight := entry.inFlight + {attemptID})];
      }
    }

    // The request could not be queued: the slot is returned, the attempt fails, and the execution is tried again soon.
    method WithdrawAttempt(id: ExecutionID, instanceID: InstanceID, attemptID: AttemptID, now: Instant)
      returns (ghost events: seq<Event>)
      requires Valid() && Speaks(View(), instanceID, id, attemptID) && store.attempts[attemptID].state.Dispatched?
      modifies this`executors, store`executions, store`attempts, store`attemptsByHost
      ensures Valid() && Did(cfg, old(View()), events, View())
      ensures events == [Close(id, InfraFailed, Ready, Some(now + cfg.redispatchDelay), now)]
      ensures View() == Step(old(View()), events[0])
    {
      hide Inv, Did, Store.Valid, Released, Updated, WithState;
      ghost var w := View();
      OpenIsLeased(cfg, w, id, attemptID);
      ReleaseInFlight(instanceID, attemptID);
      var _ := store.UpdateAttemptState(attemptID, {AttemptState.Dispatched}, InfraFailed, now);
      var _ := RequeueReady(id, cfg.redispatchDelay, now);
      events := [Close(id, InfraFailed, Ready, Some(now + cfg.redispatchDelay), now)];
      DidClose(cfg, w, id, InfraFailed, Ready, Some(now + cfg.redispatchDelay), now);
    }

    // One due execution: `started` is when the pass began, `full` says that the executor's queue refuses the request.
    method DispatchExecution(execution: Execution, started: Instant, now: Instant, full: bool)
      returns (ghost events: seq<Event>)
      requires Valid() && execution.id in store.executions && store.executions[execution.id] == execution
      requires Dispatchable(execution.state) && started <= now
      modifies this`executors, store`executions, store`occurrences, store`nextExecutionID, store`executionsOrdered
      modifies store`attempts, store`attemptsByExec, store`attemptsByHost, store`nextAttemptID
      ensures Valid() && Did(cfg, old(View()), events, View())
      ensures DispatchOutcome(cfg, old(View()), execution, started, now, full, events)
      ensures AfterDispatch(cfg, old(View()), View(), execution, started, now, full)
      ensures OthersKept(old(store.executions), store.executions, execution.id)
      ensures Handled(store.jobs, store.executions, execution, started)
    {
      hide Inv, Did, Store.Valid, Eligible, HasActive, NextEvents, ParkEvent, OutcomeShape, Handled, AfterDispatch;
      var job := store.GetJob(execution.jobID);
      if job.None? || !job.value.enabled {
        TransitionsReach(execution.state);
        events := Transition(execution, Cancelled, now);
      } else {
        events := DispatchJob(job.value, execution, started, now, full);
      }
      hide DispatchOutcome;
      DidIs(cfg, old(View()), events, View());
      DispatchMeans(cfg, old(View()), execution, started, now, full, events);
      OutcomeIsShaped(cfg, old(View()), execution, started, now, full, events);
      OutcomeHandles(cfg, old(View()), execution, started, now + cfg.redispatchDelay, events);
    }

    method DispatchJob(job: Job, execution: Execution, started: Instant, now: Instant, full: bool)
      returns (ghost events: seq<Event>)
      requires Valid() && execution.id in store.executions && store.executions[execution.id] == execution
      requires Dispatchable(execution.state) && started <= now
      requires execution.jobID in store.jobs && store.jobs[execution.jobID] == job && job.enabled
      modifies this`executors, store`executions, store`occurrences, store`nextExecutionID, store`executionsOrdered
      modifies store`attempts, store`attemptsByExec, store`attemptsByHost, store`nextAttemptID
      ensures Valid() && Did(cfg, old(View()), events, View())
      ensures DispatchOutcome(cfg, old(View()), execution, started, now, full, events)
      ensures OthersKept(old(store.executions), store.executions, execution.id)
    {
      hide Inv, Did, Store.Valid, Eligible, HasActive, NextEvents, ParkEvent, Enabled, Step;
      ghost var w := View();
      if ResolveOverlap(job.overlap) == OVERLAP_POLICY_SKIP {
        var active := store.HasActiveExecution(job.id, execution.id);
        if active {
          events := SkipOverlap(job, execution, now);
          return;
        }
      }
      var found := SelectExecutor(job);
      if found.None? {
        events := ParkUndispatchable(job, execution, now);
        MoveKeepsOthers(w, events[0]);
        return;
      }
      DispatchIsEnabled(cfg, w, execution, found.value, started + cfg.lease, now);
      events := Deliver(job, execution, found.value, started + cfg.lease, now, full);
    }

    // An overlapping occurrence is skipped if its state allows it, and the next one is materialized either way.
    method SkipOverlap(job: Job, execution: Execution, now: Instant) returns (ghost events: seq<Event>)
      requires Valid() && execution.id in store.executions && store.executions[execution.id] == execution
      requires Dispatchable(execution.state)
      modifies store`executions, store`occurrences, store`nextExecutionID, store`executionsOrdered
      ensures Valid() && Did(cfg, old(View()), events, View())
      ensures events == (if execution.state == RetryWait then [] else [Move(execution.id, Skipped, None, now)]) +
                        NextEvents(old(View()), job, execution.scheduledAt, now)
      ensures OthersKept(old(store.executions), store.executions, execution.id)
    {
      hide Inv, Did, Store.Valid, NextOccurrence, OccurrenceOf;
      var skipped := Transition(execution, Skipped, now);
      ghost var mid := View();
      ghost var next := MaterializeNext(job, execution.scheduledAt, now);
      DidThen(cfg, old(View()), skipped, mid, next, View());
      events := skipped + next;
    }

    method Deliver(job: Job, execution: Execution, instanceID: InstanceID, lease: Instant, now: Instant, full: bool)
      returns (ghost events: seq<Event>)
      requires Valid() && execution.id in store.executions && store.executions[execution.id] == execution
      requires Enabled(cfg, View(), Event.Dispatch(execution.id, instanceID, lease, now))
      modifies this`executors, store`executions, store`occurrences, store`nextExecutionID, store`executionsOrdered
      modifies store`attempts, store`attemptsByExec, store`attemptsByHost, store`nextAttemptID
      ensures Valid() && Did(cfg, old(View()), events, View())
      ensures events == [Event.Dispatch(execution.id, instanceID, lease, now)] +
                        if full then [Close(execution.id, InfraFailed, Ready, Some(now + cfg.redispatchDelay), now)]
                        else NextEvents(old(View()), job, execution.scheduledAt, now)
      ensures OthersKept(old(store.executions), store.executions, execution.id)
    {
      hide Inv, Did, Store.Valid, Updated, Enabled, NextOccurrence, OccurrenceOf, Occupied, AttemptsOf, Released,
           WithState;
      ghost var claim;
      var attemptID;
      attemptID, claim := Claim(execution, job, instanceID, lease, now);
      ghost var mid := View();
      ghost var rest;
      DispatchSpeaks(old(View()), execution.id, instanceID, lease, now);
      if full {
        rest := WithdrawAttempt(execution.id, instanceID, attemptID, now);
      } else {
        rest := MaterializeNext(job, execution.scheduledAt, now);
      }
      DidThen(cfg, old(View()), claim, mid, rest, View());
      events := claim + rest;
    }

    // A pass over the due executions. `full` tells which requests their executor's queue refuses; `batch` is what the
    // pass took up, in this order: everything due, or the part scheduled first.
    method ProcessDue(started: Instant, now: Instant, full: ExecutionID -> bool)
      returns (ghost batch: seq<Execution>, ghost events: seq<Event>)
      requires Valid() && started <= now
      modifies this`executors, store`executions, store`occurrences, store`nextExecutionID, store`executionsOrdered
      modifies store`attempts, store`attemptsByExec, store`attemptsByHost, store`nextAttemptID
      ensures Valid() && Did(cfg, old(View()), events, View())
      ensures DueBatch(old(store.executions), started, cfg.dispatchBatch, batch)
      ensures DispatchedInTurn(cfg, old(View()), batch, started, now, full, events)
      ensures forall e | e in batch :: Handled(store.jobs, store.executions, e, started)
      ensures |batch| < cfg.dispatchBatch ==>
                forall id | id in old(store.executions) ::
                  && id in store.executions
                  && (ComesDue(store.executions[id], started) ==>
                        && store.executions[id] == old(store.executions)[id]
                        && HeldBack(store.jobs, store.executions, store.executions[id]))
      ensures forall id | id in old(store.executions) && old(store.executions)[id] !in batch ::
                id in store.executions && store.executions[id] == old(store.executions)[id]
    {
      hide Inv, Did, Store.Valid, Handled, Taken, DispatchedInTurn, Precedes, Ordered, DueBatch, ComesDue, HeldBack;
      AllIdentified(cfg, View());
      var due := store.DueExecutions(started, cfg.dispatchBatch);
      batch := due;
      FirstAreDistinct(store.executions, DueAt(started), BySchedule(), cfg.dispatchBatch, due);
      forall e | e in due ensures Dispatchable(e.state) {
        DueIsDispatchable(e, started);
      }
      events := DispatchEach(due, started, now, full);
      TakenAll(old(store.executions), store.executions, store.jobs, due, started);
      if |batch| < cfg.dispatchBatch {
        NothingLeft(old(store.executions), store.executions, store.jobs, batch, started, cfg.dispatchBatch);
      }
    }

    method DispatchEach(due: seq<Execution>, started: Instant, now: Instant, full: ExecutionID -> bool)
      returns (ghost events: seq<Event>)
      requires Valid() && started <= now
      requires Stored(store.executions, due) && forall e | e in due :: Dispatchable(e.state)
      modifies this`executors, store`executions, store`occurrences, store`nextExecutionID, store`executionsOrdered
      modifies store`attempts, store`attemptsByExec, store`attemptsByHost, store`nextAttemptID
      ensures Valid() && Did(cfg, old(View()), events, View())
      ensures Taken(old(store.executions), store.executions, store.jobs, due, |due|, started)
      ensures DispatchedInTurn(cfg, old(View()), due, started, now, full, events)
    {
      hide Inv, Did, Store.Valid, DispatchOutcome, Handled, Taken, OthersKept, Stored;
      events := [];
      DidNothing(cfg, View());
      assert due[..0] == [] && due[..|due|] == due;
      NoneTaken(store.executions, store.jobs, due, started);
      for i := 0 to |due|
        invariant Valid() && Did(cfg, old(View()), events, View())
        invariant Taken(old(store.executions), store.executions, store.jobs, due, i, started)
        invariant DispatchedInTurn(cfg, old(View()), due[..i], started, now, full, events)
      {
        hide DispatchedInTurn;
        assert due[i] in due;
        ghost var before := View();
        TakesUp(old(store.executions), store.executions, store.jobs, due, i, started);
        ghost var step := DispatchExecution(due[i], started, now, full(due[i].id));
        DidThen(cfg, old(View()), events, before, step, View());
        TakenNext(old(store.executions), before.executions, store.executions, store.jobs, due, i, started);
        DidIs(cfg, old(View()), events, before);
        assert due[..i + 1] == due[..i] + [due[i]];
        NextInTurn(cfg, old(View()), due[..i], due[i], started, now, full, events, step);
        events := events + step;
      }
    }

    // Every enabled job without a pending occurrence gets its next one, and nothing else is added.
    method EnsurePendingOccurrences(now: Instant) returns (ghost events: seq<Event>)
      requires Valid()
      modifies store`executions, store`occurrences, store`nextExecutionID, store`executionsOrdered
      ensures Valid() && Did(cfg, old(View()), events, View())
      ensures forall id | id in store.jobs && store.jobs[id].enabled :: Provided(View(), store.jobs[id], now)
      ensures forall id | id in old(store.executions) ::
                id in store.executions && store.executions[id] == old(store.executions)[id]
      ensures NewAreOwed(store.jobs, old(store.executions), store.executions, now)
    {
      hide Inv, Did, Store.Valid, NextOccurrence, OccurrenceOf, Provided, Materialized, NewAreOwed, AllSettled;
      var jobs := store.ListEnabledJobs();
      events := [];
      DidNothing(cfg, View());
      NoneNew(cfg, store.jobs, store.executions, now);
      for i := 0 to |jobs|
        invariant Valid() && Did(cfg, old(View()), events, View())
        invariant forall k | 0 <= k < i :: Provided(View(), jobs[k], now)
        invariant forall id | id in old(store.executions) ::
                    id in store.executions && store.executions[id] == old(store.executions)[id]
        invariant NewAreOwed(store.jobs, old(store.executions), store.executions, now)
      {
        ghost var before := View();
        assert jobs[i] in jobs;
        JobKnown(cfg, before, jobs[i]);
        ghost var step := ProvideOccurrence(jobs[i], now);
        DidThen(cfg, old(View()), events, before, step, View());
        forall k | 0 <= k < i ensures Provided(View(), jobs[k], now) {
          ProvidedStays(before, View(), jobs[k], now, jobs[i].id, Instants(NextOccurrence(jobs[i].schedule, now)));
        }
        OwedNext(store.jobs, old(store.executions), before, View(), jobs[i], now);
        KeptByMaterializing(before, View(), jobs[i].id, Instants(NextOccurrence(jobs[i].schedule, now)), {}, now);
        events := events + step;
      }
    }

    method ProvideOccurrence(job: Job, now: Instant) returns (ghost events: seq<Event>)
      requires Valid() && job.id in store.jobs
      modifies store`executions, store`occurrences, store`nextExecutionID, store`executionsOrdered
      ensures Valid() && Did(cfg, old(View()), events, View())
      ensures Provided(View(), job, now)
      ensures Materialized(old(View()), View(), job.id, Instants(NextOccurrence(job.schedule, now)), {}, now)
      ensures !AllSettled(old(store.executions), job.id) ==> View() == old(View())
    {
      hide Inv, Did, Store.Valid, NextOccurrence, OccurrenceOf;
      events := [];
      DidNothing(cfg, View());
      var pending := store.HasPendingOccurrence(job.id);
      if pending {
        return;
      }
      events := MaterializeNext(job, now, now);
      NextIsStored(old(View()), View(), job, now, events);
    }

    // Purges settled executions whose retention ran out, each with all its attempts: all of them, or the part that
    // settled first.
    method SweepExecutions(now: Instant) returns (ghost batch: seq<Execution>, ghost events: seq<Event>)
      requires Valid()
      modifies store`executions, store`occurrences, store`executionsOrdered
      modifies store`attempts, store`attemptsByExec, store`attemptsByHost
      ensures Valid() && Did(cfg, old(View()), events, View())
      ensures SettledBatch(old(store.executions), now - cfg.executionRetention, cfg.dispatchBatch, batch)
      ensures |events| == |batch| && forall i | 0 <= i < |events| :: events[i] == Purge(batch[i].id, now)
      ensures store.executions == old(store.executions) - IdsOf(batch, |batch|)
      ensures forall id | id in old(store.executions) && id !in store.executions ::
                Outlived(cfg, old(store.executions)[id], now)
      ensures |batch| < cfg.dispatchBatch ==>
                forall id | id in store.executions :: !Outlived(cfg, store.executions[id], now)
    {
      hide Inv, Did, Store.Valid, Precedes, Ordered, IdsOf, SettledBatch, Outlived, Stored, FirstOf;
      AllIdentified(cfg, View());
      var expired := store.ExpiredExecutions(now - cfg.executionRetention, cfg.dispatchBatch);
      batch := expired;
      SettledAreStored(cfg, store.executions, expired, now);
      events := PurgeEach(expired, now);
      SweptAre(cfg, old(store.executions), expired, now);
    }

    method PurgeEach(expired: seq<Execution>, now: Instant) returns (ghost events: seq<Event>)
      requires Valid() && Stored(store.executions, expired) && forall e | e in expired :: Outlived(cfg, e, now)
      modifies store`executions, store`occurrences, store`executionsOrdered
      modifies store`attempts, store`attemptsByExec, store`attemptsByHost
      ensures Valid() && Did(cfg, old(View()), events, View())
      ensures |events| == |expired| && forall i | 0 <= i < |events| :: events[i] == Purge(expired[i].id, now)
      ensures store.executions == old(store.executions) - IdsOf(expired, |expired|)
    {
      hide Inv, Did, Store.Valid, Outlived, IdsOf, Stored;
      events := [];
      DidNothing(cfg, View());
      NoIds(expired);
      for i := 0 to |expired|
        invariant Valid() && Did(cfg, old(View()), events, View())
        invariant |events| == i && forall k | 0 <= k < i :: events[k] == Purge(expired[k].id, now)
        invariant store.executions == old(store.executions) - IdsOf(expired, i)
      {
        assert expired[i] in expired;
        NextId(old(store.executions), expired, i);
        ghost var before := View();
        ghost var step := PurgeExecution(expired[i], now);
        DidThen(cfg, old(View()), events, before, step, View());
        events := events + step;
      }
    }

    // Attempts go first, so none outlives its execution.
    method PurgeExecution(execution: Execution, now: Instant) returns (ghost events: seq<Event>)
      requires Valid() && execution.id in store.executions && store.executions[execution.id] == execution
      requires Outlived(cfg, execution, now)
      modifies store`executions, store`occurrences, store`executionsOrdered
      modifies store`attempts, store`attemptsByExec, store`attemptsByHost
      ensures Valid() && Did(cfg, old(View()), events, View())
      ensures events == [Purge(execution.id, now)]
      ensures store.executions == old(store.executions) - {execution.id}
      ensures store.occurrences ==
              old(store.occurrences) - {OccurrenceKey(execution.jobID, WrapInt64(execution.scheduledAt))}
      ensures store.attempts ==
              map a | a in old(store.attempts) && old(store.attempts)[a].executionID != execution.id ::
                old(store.attempts)[a]
    {
      hide Inv, Did, Store.Valid, WrapInt64, SoleOccurrence;
      ghost var w := View();
      OwnOccurrence(cfg, w, execution.id);
      DeleteAttempts(execution.id);
      var _ := store.DeleteExecution(execution.id);
      events := [Purge(execution.id, now)];
      DidOne(cfg, w, events[0]);
      DidKeepsInv(cfg, w, events, View());
    }

    method DeleteAttempts(id: ExecutionID)
      requires store.Valid()
      modifies store`attempts, store`attemptsByExec, store`attemptsByHost
      ensures store.Valid()
      ensures store.attempts == old(store.attempts) - AttemptsOf(old(store.attempts), id)
    {
      hide Store.Valid, AttemptsOf;
      var ids := store.AttemptsForExecution(id);
      for i := 0 to |ids|
        invariant store.Valid()
        invariant store.attempts == old(store.attempts) - set a | a in ids[..i]
      {
        assert ids[..i + 1] == ids[..i] + [ids[i]];
        var _ := store.DeleteAttempt(ids[i]);
      }
      assert ids[..|ids|] == ids;
      assert (set a | a in ids) == AttemptsOf(old(store.attempts), id);
    }

    // After a restart every enabled job is materialized and whatever was with an executor is given up and due again.
    method RecoverOnStartup(now: Instant) returns (ghost events: seq<Event>)
      requires Valid()
      modifies this`executors, store`jobs, store`executions, store`occurrences, store`nextExecutionID
      modifies store`executionsOrdered, store`attempts, store`attemptsByHost
      ensures Valid() && Did(cfg, old(View()), events, View())
      ensures store.jobs.Keys == old(store.jobs.Keys)
      ensures forall id | id in old(store.jobs) ::
                if old(store.jobs)[id].enabled
                then Provisioned(cfg, old(store.jobs)[id], store.jobs, store.occurrences, now)
                else store.jobs[id] == old(store.jobs)[id]
      ensures forall id | id in store.executions :: !store.executions[id].state.Leased()
      ensures forall id | id in old(store.executions) :: id in store.executions &&
                var e := old(store.executions)[id];
                store.executions[id] == if WithExecutor(e) then NowInUntil(e, Ready, now, now) else e
      ensures forall a | a in old(store.attempts) :: a in store.attempts &&
                var attempt := old(store.attempts)[a];
                store.attempts[a] == if Undecided(attempt) then attempt.(state := Lost, updatedAt := now) else attempt
      ensures NewArePlanned(cfg, old(store.jobs), old(store.executions), store.executions, now)
    {
      hide Inv, Did, Store.Valid, Provisioned, NewArePlanned, AfterLosing, IdsOf;
      events := MaterializeEnabled(now);
      ghost var materialized := View();
      AllIdentified(cfg, materialized);
      var keep := (e: Execution) => e.state.Leased();
      var interrupted := store.Matching(keep);
      IdsAre(store.executions, interrupted, keep);
      ghost var lost := AbandonEach(interrupted, now);
      AllInterrupted(cfg, materialized, View(), IdsOf(interrupted, |interrupted|), now);
      PlannedKept(cfg, old(store.jobs), old(store.executions), materialized.executions, store.executions, now);
      DidThen(cfg, old(View()), events, materialized, lost, View());
      events := events + lost;
    }

    method MaterializeEnabled(now: Instant) returns (ghost events: seq<Event>)
      requires Valid()
      modifies store`jobs, store`executions, store`occurrences, store`nextExecutionID, store`executionsOrdered
      ensures Valid() && Did(cfg, old(View()), events, View())
      ensures store.jobs.Keys == old(store.jobs.Keys)
      ensures forall id | id in old(store.jobs) ::
                if old(store.jobs)[id].enabled
                then Provisioned(cfg, old(store.jobs)[id], store.jobs, store.occurrences, now)
                else store.jobs[id] == old(store.jobs)[id]
      ensures forall id | id in old(store.executions) ::
                id in store.executions && store.executions[id] == old(store.executions)[id]
      ensures NewArePlanned(cfg, old(store.jobs), old(store.executions), store.executions, now)
    {
      hide Inv, Did, Store.Valid, PlanIs, OccurrenceOf, Materialized, WithSkipped, Adds, ProvisionedUpTo, Provisioned;
      hide NewArePlanned;
      var jobs := store.ListEnabledJobs();
      events := [];
      DidNothing(cfg, View());
      AllKeyed(cfg, View(), jobs);
      NoneProvisioned(cfg, jobs, store.jobs, store.occurrences, now);
      NoneNew(cfg, store.jobs, store.executions, now);
      for i := 0 to |jobs|
        invariant Valid() && Did(cfg, old(View()), events, View())
        invariant store.jobs.Keys == old(store.jobs.Keys)
        invariant ProvisionedUpTo(cfg, jobs, i, old(store.jobs), store.jobs, store.occurrences, now)
        invariant forall id | id in old(store.executions) ::
                    id in store.executions && store.executions[id] == old(store.executions)[id]
        invariant NewArePlanned(cfg, old(store.jobs), old(store.executions), store.executions, now)
      {
        ghost var before := View();
        ghost var plan, step := MaterializeJob(jobs[i], now);
        DidThen(cfg, old(View()), events, before, step, View());
        KeptByMaterializing(before, View(), jobs[i].id, Added(plan), Late(plan), now);
        assert jobs[i] in jobs;
        PlannedNext(cfg, old(store.jobs), old(store.executions), before, View(), jobs[i], plan, now);
        ProvisionedNext(cfg, jobs, i, old(store.jobs), before.jobs, store.jobs, before.occurrences, store.occurrences,
                        plan, now);
        events := events + step;
      }
      ProvisionedAll(cfg, jobs, old(store.jobs), store.jobs, store.occurrences, now);
    }

    // What the registry reports to the engine: an executor joined, left, or revised its labels.
    method ExecutorJoined(instanceID: InstanceID, executor: Executor) returns (ghost events: seq<Event>)
      requires Valid() && executor.inFlight == {}
      modifies this`executors
      ensures Valid() && Did(cfg, old(View()), events, View()) && events == [Join(instanceID, executor)]
    {
      hide Inv, Did, Store.Valid;
      ghost var w := View();
      executors := executors[instanceID := executor];
      events := [Join(instanceID, executor)];
      DidOne(cfg, w, events[0]);
      DidKeepsInv(cfg, w, events, View());
    }

    method ExecutorLeft(instanceID: InstanceID, generation: nat) returns (removed: bool, ghost events: seq<Event>)
      requires Valid()
      modifies this`executors
      ensures Valid() && Did(cfg, old(View()), events, View())
      ensures removed <==> instanceID in old(executors) && old(executors)[instanceID].generation == generation
      ensures events == if removed then [Leave(instanceID)] else []
    {
      hide Inv, Did, Store.Valid;
      ghost var w := View();
      DidNothing(cfg, w);
      if instanceID !in executors || executors[instanceID].generation != generation {
        return false, [];
      }
      executors := executors - {instanceID};
      DidOne(cfg, w, Leave(instanceID));
      DidKeepsInv(cfg, w, [Leave(instanceID)], View());
      return true, [Leave(instanceID)];
    }

    method LabelsRevised(instanceID: InstanceID, labels: set<Label>) returns (ghost events: seq<Event>)
      requires Valid() && instanceID in executors
      modifies this`executors
      ensures Valid() && Did(cfg, old(View()), events, View()) && events == [Event.Relabel(instanceID, labels)]
    {
      hide Inv, Did, Store.Valid;
      ghost var w := View();
      executors := executors[instanceID := executors[instanceID].(labels := labels)];
      events := [Event.Relabel(instanceID, labels)];
      DidOne(cfg, w, events[0]);
      DidKeepsInv(cfg, w, events, View());
    }
  }
}

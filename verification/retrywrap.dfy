/**
 * The bound on retries is attained: for every number of acceptances there is a run with as many retries as the wrapping
 * 32-bit count allows.
 */
module RetryWraps {
  import opened Wrappers
  import opened ProtocolTypes
  import opened Materialization
  import opened Registries
  import opened StoreRecords
  import opened EngineWorlds
  import opened EngineRuns

  // A job, and an executor that can always take it.
  datatype Setting = Setting(cfg: Config, job: Job, x: InstanceID, executor: Executor) {
    predicate Suits() {
      && cfg.Normal()
      && job.enabled && ResolveOverlap(job.overlap) != OVERLAP_POLICY_SKIP && job.pin.pinned == NO_LABEL
      && executor.inFlight == {} && executor.Takes(job.scope.executorType, job.function_)
    }

    function Prepared(): seq<Event> {
      [PutJob(job), Join(x, executor), Create(job.id, 0, false, 0)]
    }

    // One delivery that is accepted and then comes to some end.
    function Delivery(end: Event): seq<Event> {
      [Event.Dispatch(1, x, 0, 0), Event.Accept(1, cfg.lease, 0), end]
    }

    const LOSS := Close(1, Lost, Ready, Some(0), 0)
    const RETRY := Close(1, FunctionFailed, RetryWait, Some(0), 0)

    function Budget(): uint32 {
      MaxFunctionAttempts(job.retry)
    }

    // How the n-th delivery ends: by a retry while the count allows one, else by the loss of its attempt.
    function End(n: nat): Event {
      if Wrapped(n) < Budget() then RETRY else LOSS
    }

    // So many deliveries.
    function Deliveries(n: nat): seq<Event> {
      if n == 0 then Prepared() else Deliveries(n - 1) + Delivery(End(n))
    }
  }

  // The execution can be delivered again, after so many deliveries.
  ghost predicate Deliverable(s: Setting, w: World, n: nat) {
    && 1 in w.executions && w.executions[1].functionAttempts == Wrapped(n)
    && w.executions[1].state in {Scheduled, Ready, RetryWait}
    && w.executions[1].jobID == s.job.id
    && s.job.id in w.jobs && w.jobs[s.job.id] == s.job.(version := 1)
    && s.x in w.executors && w.executors[s.x] == s.executor
  }

  lemma PreparedIsDeliverable(s: Setting)
    requires s.Suits()
    ensures Did(s.cfg, EMPTY_WORLD, s.Prepared(), After(s.Prepared())) && Deliverable(s, After(s.Prepared()), 0)
  {
    var put := Step(EMPTY_WORLD, PutJob(s.job));
    var joined := Step(put, Join(s.x, s.executor));
    var e := Create(s.job.id, 0, false, 0);
    DidOne(s.cfg, EMPTY_WORLD, PutJob(s.job));
    DidOne(s.cfg, put, Join(s.x, s.executor));
    DidOne(s.cfg, joined, e);
    DidThen(s.cfg, EMPTY_WORLD, [PutJob(s.job)], put, [Join(s.x, s.executor)], joined);
    DidThen(s.cfg, EMPTY_WORLD, [PutJob(s.job)] + [Join(s.x, s.executor)], joined, [e], Step(joined, e));
    assert s.Prepared() == [PutJob(s.job)] + [Join(s.x, s.executor)] + [e];
    WrappedNext(0);
  }

  lemma Dispatches(s: Setting, w: World, n: nat)
    requires s.Suits() && Deliverable(s, w, n)
    ensures Enabled(s.cfg, w, s.Delivery(s.LOSS)[0])
  {
  }

  lemma Accepts(s: Setting, w: World, n: nat)
    requires s.Suits() && Deliverable(s, w, n)
    ensures Enabled(s.cfg, Step(w, Event.Dispatch(1, s.x, 0, 0)), Event.Accept(1, s.cfg.lease, 0))
  {
  }

  // A delivery runs, and its acceptance consumes an attempt.
  lemma Delivered(s: Setting, w: World, n: nat, end: Event)
    requires s.Suits() && Deliverable(s, w, n)
    requires end == s.End(n + 1)
    ensures var w' := AfterFrom(w, s.Delivery(end));
            && Did(s.cfg, w, s.Delivery(end), w')
            && Deliverable(s, w', n + 1)
  {
    hide Did, AfterFrom, Wrapped, Enabled, Step, Deliverable;
    var d, a := Event.Dispatch(1, s.x, 0, 0), Event.Accept(1, s.cfg.lease, 0);
    var sent, taken := Step(w, d), Step(Step(w, d), a);
    Dispatches(s, w, n);
    DidOne(s.cfg, w, d);
    Accepts(s, w, n);
    DidOne(s.cfg, sent, a);
    Ends(s, w, n, end);
    DidOne(s.cfg, taken, end);
    DidThen(s.cfg, w, [d], sent, [a], taken);
    DidThen(s.cfg, w, [d] + [a], taken, [end], Step(taken, end));
    assert s.Delivery(end) == [d] + [a] + [end];
    DidIsAfter(s.cfg, w, s.Delivery(end), Step(taken, end));
  }

  lemma DidIsAfter(cfg: Config, w: World, events: seq<Event>, w': World)
    requires Did(cfg, w, events, w')
    ensures w' == AfterFrom(w, events)
  {
  }

  // The execution runs on the executor, as the only attempt there.
  ghost predicate Held(s: Setting, w: World, n: nat) {
    && 1 in w.executions && w.executions[1].functionAttempts == Wrapped(n) && w.executions[1].state == Running
    && w.executions[1].jobID == s.job.id
    && s.job.id in w.jobs && w.jobs[s.job.id] == s.job.(version := 1)
    && var a := w.executions[1].currentAttemptID;
       && a in w.attempts && w.attempts[a].instanceID == s.x
       && s.x in w.executors && w.executors[s.x] == s.executor.(inFlight := {a})
  }

  lemma IsHeld(s: Setting, w: World, n: nat)
    requires s.Suits() && Deliverable(s, w, n)
    ensures Held(s, Step(Step(w, Event.Dispatch(1, s.x, 0, 0)), Event.Accept(1, s.cfg.lease, 0)), n + 1)
  {
    hide Wrapped;
    WrappedNext(n);
  }

  lemma EndsHeld(s: Setting, taken: World, n: nat, end: Event)
    requires s.Suits() && Held(s, taken, n)
    requires end == s.End(n)
    ensures Enabled(s.cfg, taken, end)
    ensures Deliverable(s, Step(taken, end), n)
  {
    hide Wrapped;
    var a := taken.executions[1].currentAttemptID;
    assert {a} - {a} == {};
  }

  lemma Ends(s: Setting, w: World, n: nat, end: Event)
    requires s.Suits() && Deliverable(s, w, n)
    requires end == s.End(n + 1)
    ensures var taken := Step(Step(w, Event.Dispatch(1, s.x, 0, 0)), Event.Accept(1, s.cfg.lease, 0));
            && Enabled(s.cfg, taken, end)
            && Deliverable(s, Step(taken, end), n + 1)
  {
    hide Wrapped, Step, Enabled, Deliverable, Held;
    IsHeld(s, w, n);
    EndsHeld(s, Step(Step(w, Event.Dispatch(1, s.x, 0, 0)), Event.Accept(1, s.cfg.lease, 0)), n + 1, end);
  }

  lemma {:induction false} CountConcat(a: seq<Event>, b: seq<Event>, counts: Event -> bool)
    ensures Count(a + b, counts) == Count(a, counts) + Count(b, counts)
  {
    if b == [] {
      assert a + b == a;
    } else {
      assert (a + b)[..|a + b| - 1] == a + b[..|b| - 1];
      CountConcat(a, b[..|b| - 1], counts);
    }
  }

  lemma CountOne(e: Event, counts: Event -> bool)
    ensures Count([e], counts) == if counts(e) then 1 else 0
  {
    assert [e][..0] == [];
  }

  lemma CountThree(a: Event, b: Event, c: Event, counts: Event -> bool)
    ensures Count([a, b, c], counts) ==
            (if counts(a) then 1 else 0) + (if counts(b) then 1 else 0) + (if counts(c) then 1 else 0)
  {
    CountConcat([a, b], [c], counts);
    CountConcat([a], [b], counts);
    CountOne(a, counts);
    CountOne(b, counts);
    CountOne(c, counts);
    assert [a] + [b] == [a, b] && [a, b] + [c] == [a, b, c];
  }

  // The only definition put is the job's.
  ghost predicate PutsOnly(job: Job, events: seq<Event>) {
    forall e | e in events && e.PutJob? :: e.job == job
  }

  lemma {:induction false} DeliveriesRun(s: Setting, n: nat)
    requires s.Suits()
    ensures Did(s.cfg, EMPTY_WORLD, s.Deliveries(n), After(s.Deliveries(n)))
    ensures Deliverable(s, After(s.Deliveries(n)), n)
    ensures Count(s.Deliveries(n), IsAccept(1)) == n
    ensures Count(s.Deliveries(n), IsRetry(1)) == Granted(n, s.Budget())
    ensures PutsOnly(s.job, s.Deliveries(n))
  {
    hide Did, Deliverable, AfterFrom, Setting.Budget, Wrapped;
    if n == 0 {
      PreparedIsDeliverable(s);
      CountThree(s.Prepared()[0], s.Prepared()[1], s.Prepared()[2], IsAccept(1));
      CountThree(s.Prepared()[0], s.Prepared()[1], s.Prepared()[2], IsRetry(1));
    } else {
      DeliveriesRun(s, n - 1);
      DeliveryAppended(s, n - 1);
    }
  }

  lemma DeliveryAppended(s: Setting, n: nat)
    requires s.Suits() && Did(s.cfg, EMPTY_WORLD, s.Deliveries(n), After(s.Deliveries(n)))
    requires Deliverable(s, After(s.Deliveries(n)), n) && PutsOnly(s.job, s.Deliveries(n))
    ensures var events := s.Deliveries(n) + s.Delivery(s.End(n + 1));
            && Did(s.cfg, EMPTY_WORLD, events, After(events)) && PutsOnly(s.job, events)
            && Deliverable(s, After(events), n + 1)
            && Count(events, IsAccept(1)) == Count(s.Deliveries(n), IsAccept(1)) + 1
            && Count(events, IsRetry(1)) ==
               Count(s.Deliveries(n), IsRetry(1)) + if Wrapped(n + 1) < s.Budget() then 1 else 0
  {
    hide Did, Deliverable, AfterFrom, Count, Wrapped, Setting.Budget, Setting.Deliveries;
    var before, more := s.Deliveries(n), s.Delivery(s.End(n + 1));
    Delivered(s, After(before), n, s.End(n + 1));
    DidThen(s.cfg, EMPTY_WORLD, before, After(before), more, AfterFrom(After(before), more));
    DidIsAfter(s.cfg, EMPTY_WORLD, before + more, AfterFrom(After(before), more));
    CountConcat(before, more, IsAccept(1));
    CountConcat(before, more, IsRetry(1));
    CountThree(more[0], more[1], more[2], IsAccept(1));
    CountThree(more[0], more[1], more[2], IsRetry(1));
  }

  // Every stored job has the retries of the only definition put.
  lemma {:induction false} JobsAreThat(job: Job, events: seq<Event>)
    requires PutsOnly(job, events)
    ensures forall id | id in After(events).jobs :: After(events).jobs[id].retry == job.retry
  {
    if events != [] {
      var n := |events| - 1;
      assert events[n] in events;
      JobsAreThat(job, events[..n]);
      assert After(events) == Step(After(events[..n]), events[n]);
      hide AfterFrom;
      StepKeepsRetries(job, After(events[..n]), events[n]);
    }
  }

  lemma StepKeepsRetries(job: Job, w: World, e: Event)
    requires forall id | id in w.jobs :: w.jobs[id].retry == job.retry
    requires e.PutJob? ==> e.job == job
    ensures forall id | id in Step(w, e).jobs :: Step(w, e).jobs[id].retry == job.retry
  {
  }

  // For every job, every executor that takes it and every number of acceptances there is a run with as many retries as
  // the bound allows.
  lemma RetriesAttained(s: Setting, n: nat) returns (events: seq<Event>)
    requires s.Suits()
    ensures Run(s.cfg, events) && BudgetWithin(events, 1, s.Budget())
    ensures Count(events, IsAccept(1)) == n && Count(events, IsRetry(1)) == Granted(n, s.Budget())
  {
    DeliveriesRun(s, n);
    events := s.Deliveries(n);
    var all := events;
    hide Deliverable, AfterFrom, Count, Setting.Deliveries;
    forall k | 0 <= k <= |all| ensures Within(After(all[..k]), 1, s.Budget()) {
      JobsAreThat(s.job, all[..k]);
    }
  }

  // So many acceptances, and retries beyond what the budget is meant to allow.
  ghost predicate Exceeds(s: Setting, events: seq<Event>, n: nat) {
    && Run(s.cfg, events) && BudgetWithin(events, 1, s.Budget())
    && Count(events, IsAccept(1)) == n && Count(events, IsRetry(1)) >= s.Budget()
  }

  // Every run with so many acceptances has fewer retries than its budget exactly when there is a budget and 32 bits
  // tell the acceptances apart.
  lemma FewerRetriesIffCounted(s: Setting, n: nat)
    requires s.Suits()
    ensures (forall events :: !Exceeds(s, events, n)) <==> 0 < s.Budget() && n < TWO_TO_32
  {
    hide Run, BudgetWithin, Count, Granted, Setting.Budget, Setting.Suits;
    assert s.cfg.Normal() by { SuitsNormal(s); }
    if 0 < s.Budget() && n < TWO_TO_32 {
      forall events ensures !Exceeds(s, events, n) {
        if Run(s.cfg, events) && BudgetWithin(events, 1, s.Budget()) {
          RetriesWithinBudget(s.cfg, events, 1, s.Budget());
        }
      }
    } else {
      var events := RetriesAttained(s, n);
      if 0 < s.Budget() {
        GrantedAtWrap(s.Budget());
        GrantedMore(TWO_TO_32, n, s.Budget());
      }
      assert Exceeds(s, events, n);
    }
  }

  lemma SuitsNormal(s: Setting)
    requires s.Suits()
    ensures s.cfg.Normal()
  {
  }

  lemma {:induction false} GrantedMore(m: nat, n: nat, budget: nat)
    requires m <= n
    ensures Granted(m, budget) <= Granted(n, budget)
  {
    if m < n {
      GrantedMore(m, n - 1, budget);
    }
  }
}

/**
 * Job keys over runs of the engine. The store keys jobs by executor type and key, and does not check that the
 * identifier of a new key is fresh.
 */
module JobKeys {
  import opened ProtocolTypes
  import opened Materialization
  import opened StoreRecords
  import opened EngineWorlds
  import opened EngineInvariants
  import opened EngineRuns

  // Keys and jobs are one to one.
  ghost predicate KeysExact(jobs: map<JobUUID, Job>, jobKeys: map<JobScope, JobUUID>) {
    && (forall id | id in jobs :: jobs[id].id == id && jobs[id].scope in jobKeys && jobKeys[jobs[id].scope] == id)
    && (forall scope | scope in jobKeys :: jobKeys[scope] in jobs && jobs[jobKeys[scope]].scope == scope)
  }

  // A job brings an identifier no other key has.
  predicate Fresh(w: World, job: Job) {
    job.scope in w.jobKeys || job.id !in w.jobs
  }

  // An upsert keeps keys and jobs one to one exactly when a new key comes with a fresh identifier: one that is taken
  // leaves the old key naming a job of another.
  lemma UpsertKeepsKeys(w: World, job: Job)
    requires KeysExact(w.jobs, w.jobKeys)
    ensures KeysExact(Step(w, PutJob(job)).jobs, Step(w, PutJob(job)).jobKeys) <==> Fresh(w, job)
  {
    var stored := StoredJob(w.jobs, w.jobKeys, job);
    assert stored.scope == job.scope;
    if Fresh(w, job) {
      PutKeepsExact(w.jobs, w.jobKeys, stored);
    } else {
      var former := w.jobs[job.id].scope;
      FormerKeyDangles(w.jobs, w.jobKeys, stored, former);
    }
  }

  lemma PutKeepsExact(jobs: map<JobUUID, Job>, jobKeys: map<JobScope, JobUUID>, stored: Job)
    requires KeysExact(jobs, jobKeys)
    requires if stored.scope in jobKeys then jobKeys[stored.scope] == stored.id else stored.id !in jobs
    ensures KeysExact(jobs[stored.id := stored], jobKeys[stored.scope := stored.id])
  {
  }

  lemma FormerKeyDangles(jobs: map<JobUUID, Job>, jobKeys: map<JobScope, JobUUID>, stored: Job, former: JobScope)
    requires former in jobKeys && jobKeys[former] == stored.id && former != stored.scope
    ensures !KeysExact(jobs[stored.id := stored], jobKeys[stored.scope := stored.id])
  {
    var jobs', keys' := jobs[stored.id := stored], jobKeys[stored.scope := stored.id];
    assert former in keys' && keys'[former] == stored.id && jobs'[stored.id].scope != former;
  }

  lemma OthersKeepKeys(w: World, e: Event)
    requires KeysExact(w.jobs, w.jobKeys) && !e.PutJob?
    ensures KeysExact(Step(w, e).jobs, Step(w, e).jobKeys)
  {
  }

  // Every job of a run with a new key comes with a fresh identifier.
  ghost predicate FreshKeys(events: seq<Event>) {
    forall i | 0 <= i < |events| && events[i].PutJob? :: Fresh(After(events[..i]), events[i].job)
  }

  ghost predicate AlwaysExact(events: seq<Event>) {
    forall n | 0 <= n <= |events| :: KeysExact(After(events[..n]).jobs, After(events[..n]).jobKeys)
  }

  lemma AfterNext(events: seq<Event>, n: nat)
    requires n < |events|
    ensures After(events[..n + 1]) == Step(After(events[..n]), events[n])
  {
    hide Step;
    assert events[..n + 1][..n] == events[..n];
  }

  // Keys and jobs stay one to one over a run exactly when its new keys come with fresh identifiers.
  lemma KeysStayExact(events: seq<Event>)
    ensures AlwaysExact(events) <==> FreshKeys(events)
  {
    hide Step, KeysExact, After, Fresh;
    if FreshKeys(events) {
      forall n | 0 <= n <= |events| ensures KeysExact(After(events[..n]).jobs, After(events[..n]).jobKeys) {
        FreshKeepsExact(events, n);
      }
    }
    if AlwaysExact(events) {
      forall i | 0 <= i < |events| && events[i].PutJob? ensures Fresh(After(events[..i]), events[i].job) {
        AfterNext(events, i);
        UpsertKeepsKeys(After(events[..i]), events[i].job);
      }
    }
  }

  lemma {:induction false} FreshKeepsExact(events: seq<Event>, n: nat)
    requires FreshKeys(events) && n <= |events|
    ensures KeysExact(After(events[..n]).jobs, After(events[..n]).jobKeys)
  {
    hide Step, KeysExact, After, Fresh;
    if n == 0 {
      assert events[..0] == [];
      EmptyExact();
    } else {
      FreshKeepsExact(events, n - 1);
      AfterNext(events, n - 1);
      if events[n - 1].PutJob? {
        UpsertKeepsKeys(After(events[..n - 1]), events[n - 1].job);
      } else {
        OthersKeepKeys(After(events[..n - 1]), events[n - 1]);
      }
    }
  }

  lemma EmptyExact()
    ensures KeysExact(After([]).jobs, After([]).jobKeys)
  {
  }

  // Looking any key up comes to a stored job.
  ghost predicate AllResolve(w: World) {
    forall scope :: KeyResolves(w.jobs, w.jobKeys, scope)
  }

  // Dropping a job that a key names other than the one it was stored under last.
  ghost predicate DropsShared(w: World, e: Event) {
    && e.DropJob? && e.jobID in w.jobs
    && exists scope :: scope in w.jobKeys && scope != w.jobs[e.jobID].scope && w.jobKeys[scope] == e.jobID
  }

  // A key comes to name no job exactly when a shared job is dropped: its other keys stay behind.
  lemma StepKeepsResolving(cfg: Config, w: World, e: Event)
    requires JobsIdentified(w.jobs) && AllResolve(w) && Enabled(cfg, w, e)
    ensures AllResolve(Step(w, e)) <==> !DropsShared(w, e)
  {
    var w' := Step(w, e);
    if DropsShared(w, e) {
      var scope :| scope in w.jobKeys && scope != w.jobs[e.jobID].scope && w.jobKeys[scope] == e.jobID;
      assert !KeyResolves(w'.jobs, w'.jobKeys, scope);
    } else {
      forall scope ensures KeyResolves(w'.jobs, w'.jobKeys, scope) {
        assert KeyResolves(w.jobs, w.jobKeys, scope);
      }
    }
  }

  ghost predicate AlwaysResolves(events: seq<Event>) {
    forall n | 0 <= n <= |events| :: AllResolve(After(events[..n]))
  }

  ghost predicate NoSharedDrop(events: seq<Event>) {
    forall n | 0 <= n < |events| :: !DropsShared(After(events[..n]), events[n])
  }

  // Over a run every key can be looked up at every moment exactly when no shared job is ever dropped.
  lemma KeysAlwaysResolve(cfg: Config, events: seq<Event>)
    requires cfg.Normal() && Run(cfg, events)
    ensures AlwaysResolves(events) <==> NoSharedDrop(events)
  {
    hide AllResolve, After, DropsShared, Run;
    if NoSharedDrop(events) {
      forall n | 0 <= n <= |events| ensures AllResolve(After(events[..n])) {
        NoDropResolves(cfg, events, n);
      }
    }
    if AlwaysResolves(events) {
      forall n | 0 <= n < |events| ensures !DropsShared(After(events[..n]), events[n]) {
        assert AllResolve(After(events[..n])) && AllResolve(After(events[..n + 1]));
        StepOfRun(cfg, events, n);
      }
    }
  }

  lemma StepOfRun(cfg: Config, events: seq<Event>, n: nat)
    requires cfg.Normal() && Run(cfg, events) && n < |events| && AllResolve(After(events[..n]))
    ensures AllResolve(After(events[..n + 1])) <==> !DropsShared(After(events[..n]), events[n])
  {
    RunPrefix(cfg, EMPTY_WORLD, events, n);
    RunPrefix(cfg, EMPTY_WORLD, events, n + 1);
    RunInv(cfg, events[..n]);
    assert events[..n + 1][..n] == events[..n] && events[..n + 1][n] == events[n];
    AfterNext(events, n);
    hide AfterFrom, Step, AllResolve, DropsShared;
    assert Enabled(cfg, After(events[..n]), events[n]);
    StepKeepsResolving(cfg, After(events[..n]), events[n]);
  }

  lemma {:induction false} NoDropResolves(cfg: Config, events: seq<Event>, n: nat)
    requires cfg.Normal() && Run(cfg, events) && NoSharedDrop(events) && n <= |events|
    ensures AllResolve(After(events[..n]))
  {
    hide After, DropsShared, Run;
    if n == 0 {
      assert events[..0] == [];
      EmptyResolves();
    } else {
      hide AllResolve;
      NoDropResolves(cfg, events, n - 1);
      StepOfRun(cfg, events, n - 1);
    }
  }

  lemma EmptyResolves()
    ensures AllResolve(After([]))
  {
  }

  lemma SharedJobSteps(cfg: Config, first: Job, second: Job)
    requires first.id == second.id && first.scope != second.scope
    ensures var one := Step(EMPTY_WORLD, PutJob(first));
            var two := Step(one, PutJob(second));
            var three := Step(two, DropJob(first.id));
            && Enabled(cfg, EMPTY_WORLD, PutJob(first)) && Enabled(cfg, one, PutJob(second))
            && Enabled(cfg, two, DropJob(first.id))
            && !Fresh(one, second)
            && !KeyResolves(three.jobs, three.jobKeys, first.scope) && second.scope !in three.jobKeys
  {
  }

  // Two keys given one identifier come to share a job, and dropping it leaves the first key naming no job: looking that
  // key up again, to upsert or to delete it, dereferences a missing job.
  lemma SharedJobDangles(cfg: Config, first: Job, second: Job)
    requires first.id == second.id && first.scope != second.scope
    ensures var events := [PutJob(first), PutJob(second), DropJob(first.id)];
            && Run(cfg, events)
            && !FreshKeys(events)
            && !KeyResolves(After(events).jobs, After(events).jobKeys, first.scope)
            && second.scope !in After(events).jobKeys
  {
    hide Step, Enabled, RunFrom, AfterFrom, KeyResolves, Fresh;
    SharedJobSteps(cfg, first, second);
    var events := [PutJob(first), PutJob(second), DropJob(first.id)];
    var one := Step(EMPTY_WORLD, PutJob(first));
    var two := Step(one, PutJob(second));
    DidOne(cfg, EMPTY_WORLD, events[0]);
    DidOne(cfg, one, events[1]);
    DidOne(cfg, two, events[2]);
    DidThen(cfg, EMPTY_WORLD, [events[0]], one, [events[1]], two);
    DidThen(cfg, EMPTY_WORLD, [events[0]] + [events[1]], two, [events[2]], Step(two, events[2]));
    assert [events[0]] + [events[1]] + [events[2]] == events && events[..1] == [events[0]];
    assert events[1].PutJob? && After(events[..1]) == one;
  }
}

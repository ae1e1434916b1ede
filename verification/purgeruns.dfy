/**
 * Purged occurrences over runs of the engine: when a job's plan may bring one back.
 */
module PurgeRuns {
  import opened Wrappers
  import opened ProtocolTypes
  import opened Schedules
  import opened Materialization
  import opened StoreRecords
  import opened EngineWorlds
  import opened EngineRuns

  // The n-th step purges an occurrence of the job that had settled no earlier than its instant.
  ghost predicate Purges(events: seq<Event>, n: nat, jobID: JobUUID, t: Instant, now: Instant)
    requires n < |events|
  {
    && events[n].Purge? && events[n].at <= now
    && events[n].id in After(events[..n]).executions
    && var e := After(events[..n]).executions[events[n].id];
       e.jobID == jobID && e.scheduledAt == t <= e.updatedAt
  }

  ghost predicate Purged(events: seq<Event>, jobID: JobUUID, t: Instant, now: Instant) {
    exists n | 0 <= n < |events| :: Purges(events, n, jobID, t, now)
  }

  lemma PurgesByNow(cfg: Config, events: seq<Event>, n: nat, jobID: JobUUID, t: Instant, now: Instant)
    requires Run(cfg, events) && n < |events| && Purges(events, n, jobID, t, now)
    ensures PurgedByNow(cfg, t, After(events[..n]).executions[events[n].id].updatedAt, events[n].at, now)
  {
    RunPrefix(cfg, EMPTY_WORLD, events, n + 1);
    assert events[..n + 1][..n] == events[..n] && events[..n + 1][n] == events[n];
    hide AfterFrom;
    assert Enabled(cfg, After(events[..n]), events[n]);
  }

  // Whatever a run has purged, a plan does not add again, exactly when the plan stays within the backfill window: its
  // next occurrence does not wrap around, and no one-shot start saturates under an unlimited age.
  lemma PurgedIsNotPlanned(cfg: Config, job: Job, now: Instant, plan: Plan)
    requires cfg.Normal() && PlanIs(cfg, job.schedule, job.backfill, now, plan)
    ensures (forall events, t | Run(cfg, events) && Purged(events, job.id, t, now) :: !Adds(plan, t)) <==>
            StaysWithinAge(cfg, job.schedule, job.backfill, now)
  {
    hide PlanIs, StaysWithinAge, Run, Purges, Adds;
    if StaysWithinAge(cfg, job.schedule, job.backfill, now) {
      PurgedStaysPurged(cfg, job.schedule, job.backfill, now, plan);
      forall events, t | Run(cfg, events) && Purged(events, job.id, t, now) ensures !Adds(plan, t) {
        var n :| 0 <= n < |events| && Purges(events, n, job.id, t, now);
        PurgesByNow(cfg, events, n, job.id, t, now);
      }
    } else {
      var t := PlanStraysFar(cfg, job.schedule, job.backfill, now, plan);
      PurgeRunIsRun(cfg, job, t, now);
    }
  }

  // A job is put, an occurrence of it created, cancelled at its instant, and purged.
  function PurgeRun(job: Job, t: Instant, now: Instant): seq<Event> {
    [PutJob(job), Create(job.id, t, false, t), Move(1, Cancelled, None, t), Purge(1, now)]
  }

  lemma PurgeRunSteps(cfg: Config, job: Job, t: Instant, now: Instant)
    requires t < now - cfg.executionRetention
    ensures var events := PurgeRun(job, t, now);
            var put := Step(EMPTY_WORLD, events[0]);
            var created := Step(put, events[1]);
            var settled := Step(created, events[2]);
            && Enabled(cfg, EMPTY_WORLD, events[0]) && Enabled(cfg, put, events[1]) && Enabled(cfg, created, events[2])
            && Enabled(cfg, settled, events[3])
            && Enabled(cfg, Step(settled, events[3]), Create(job.id, t, false, now))
            && 1 in settled.executions && settled.executions[1].jobID == job.id
            && settled.executions[1].scheduledAt == t == settled.executions[1].updatedAt
  {
  }

  lemma PurgeRunIsRun(cfg: Config, job: Job, t: Instant, now: Instant)
    requires t < now - cfg.executionRetention
    ensures Run(cfg, PurgeRun(job, t, now)) && Purged(PurgeRun(job, t, now), job.id, t, now)
    ensures Run(cfg, PurgeRun(job, t, now) + [Create(job.id, t, false, now)])
  {
    hide Step, Enabled, RunFrom, AfterFrom;
    PurgeRunSteps(cfg, job, t, now);
    var events := PurgeRun(job, t, now);
    var put := Step(EMPTY_WORLD, events[0]);
    var created := Step(put, events[1]);
    var settled := Step(created, events[2]);
    var again := Create(job.id, t, false, now);
    DidOne(cfg, EMPTY_WORLD, events[0]);
    DidOne(cfg, put, events[1]);
    DidOne(cfg, created, events[2]);
    DidOne(cfg, settled, events[3]);
    DidOne(cfg, Step(settled, events[3]), again);
    DidThen(cfg, EMPTY_WORLD, [events[0]], put, [events[1]], created);
    DidThen(cfg, EMPTY_WORLD, [events[0]] + [events[1]], created, [events[2]], settled);
    assert [events[0]] + [events[1]] + [events[2]] == events[..3];
    DidThen(cfg, EMPTY_WORLD, events[..3], settled, [events[3]], Step(settled, events[3]));
    assert events[..3] + [events[3]] == events;
    DidThen(cfg, EMPTY_WORLD, events, Step(settled, events[3]), [again], Step(Step(settled, events[3]), again));
    assert After(events[..3]) == settled;
    assert Purges(events, 3, job.id, t, now);
  }

  // In 2027 a run brings a purged occurrence of the widest interval from 1732 on back, as every plan then does.
  lemma PurgedComesBack(cfg: Config, job: Job, plan: Plan) returns (t: Instant, events: seq<Event>)
    requires cfg.Normal() && job.schedule == WidestSince1732()
    requires PlanIs(cfg, job.schedule, job.backfill, 1_800_000_000_000_000_000, plan)
    ensures Adds(plan, t) && Run(cfg, events) && Purged(events, job.id, t, 1_800_000_000_000_000_000)
    ensures Run(cfg, events + [Create(job.id, t, false, 1_800_000_000_000_000_000)])
  {
    t := PlanStrays(cfg, job.backfill, plan);
    PurgeRunIsRun(cfg, job, t, 1_800_000_000_000_000_000);
    events := PurgeRun(job, t, 1_800_000_000_000_000_000);
  }
}

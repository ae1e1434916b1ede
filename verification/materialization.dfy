/**
 * Which occurrences a job materializes: the engine's caps on backfill, and why a purged occurrence never returns.
 */
module Materialization {
  import opened Wrappers
  import opened ProtocolTypes
  import opened Schedules

  const SECOND: Duration := 1_000_000_000
  const MINUTE: Duration := 60_000_000_000
  const HOUR: Duration := 3_600_000_000_000
  const DAY: Duration := 86_400_000_000_000

  const DEFAULT_LEASE: Duration := 30_000_000_000
  const DEFAULT_MAX_EXECUTION: Duration := HOUR
  const DEFAULT_RECONCILE_INTERVAL: Duration := 5_000_000_000
  const DEFAULT_DISPATCH_BATCH := 256
  const DEFAULT_REDISPATCH_DELAY: Duration := 250_000_000
  const DEFAULT_RETRY_INITIAL_DELAY: Duration := SECOND
  const DEFAULT_RETRY_MAX_DELAY: Duration := MINUTE
  const DEFAULT_BACKFILL_MAX_COUNT: uint64 := 100
  const DEFAULT_BACKFILL_MAX_AGE: Duration := DAY
  const DEFAULT_EXECUTION_RETENTION: Duration := DAY
  const DEFAULT_RESULT_RETENTION: Duration := 300_000_000_000
  const DEFAULT_MAX_PENDING_RESULTS: uint64 := 1024
  const DEFAULT_MAX_PENDING_RESULTS_PER_INSTANCE: uint64 := 256

  datatype Config = Config(
    lease: Duration, maxExecution: Duration, reconcileInterval: Duration, dispatchBatch: int,
    redispatchDelay: Duration, retryInitialDelay: Duration, retryMaxDelay: Duration, defaultBackfill: uint8,
    backfillMaxCount: uint64, backfillMaxAge: Duration, executionRetention: Duration, resultRetention: Duration,
    maxPendingResults: uint64, maxPendingResultsPerInstance: uint64)
  {
    // Every limit is set, and an execution is kept at least as long as its occurrence could be backfilled.
    predicate Normal() {
      && lease > 0 && maxExecution > 0 && reconcileInterval > 0 && dispatchBatch > 0 && redispatchDelay > 0
      && retryInitialDelay > 0 && retryMaxDelay > 0 && backfillMaxCount > 0 && backfillMaxAge > 0
      && executionRetention >= backfillMaxAge && resultRetention > 0
      && maxPendingResults > 0 && maxPendingResultsPerInstance > 0
    }
  }

  // Fills every unset field, and leaves a configuration that is already normal alone.
  method Normalized(c: Config) returns (normalized: Config)
    ensures normalized.Normal()
    ensures c.Normal() ==> normalized == c
    ensures normalized.lease == if c.lease > 0 then c.lease else 30_000_000_000
    ensures normalized.maxExecution == if c.maxExecution > 0 then c.maxExecution else 3_600_000_000_000
    ensures normalized.reconcileInterval == if c.reconcileInterval > 0 then c.reconcileInterval else 5_000_000_000
    ensures normalized.dispatchBatch == if c.dispatchBatch > 0 then c.dispatchBatch else 256
    ensures normalized.redispatchDelay == if c.redispatchDelay > 0 then c.redispatchDelay else 250_000_000
    ensures normalized.retryInitialDelay == if c.retryInitialDelay > 0 then c.retryInitialDelay else 1_000_000_000
    ensures normalized.retryMaxDelay == if c.retryMaxDelay > 0 then c.retryMaxDelay else 60_000_000_000
    ensures normalized.defaultBackfill == c.defaultBackfill
    ensures normalized.backfillMaxCount == if c.backfillMaxCount > 0 then c.backfillMaxCount else 100
    ensures normalized.backfillMaxAge == if c.backfillMaxAge > 0 then c.backfillMaxAge else 86_400_000_000_000
    ensures var kept := if c.executionRetention > 0 then c.executionRetention else 86_400_000_000_000;
            normalized.executionRetention ==
            if kept < normalized.backfillMaxAge then normalized.backfillMaxAge else kept
    ensures normalized.resultRetention == if c.resultRetention > 0 then c.resultRetention else 300_000_000_000
    ensures normalized.maxPendingResults == if c.maxPendingResults > 0 then c.maxPendingResults else 1_024
    ensures normalized.maxPendingResultsPerInstance ==
            if c.maxPendingResultsPerInstance > 0 then c.maxPendingResultsPerInstance else 256
  {
    var Config(lease, maxExecution, reconcileInterval, dispatchBatch, redispatchDelay, retryInitialDelay, retryMaxDelay,
               defaultBackfill, backfillMaxCount, backfillMaxAge, executionRetention, resultRetention,
               maxPendingResults, maxPendingResultsPerInstance) := c;
    if lease <= 0 {
      lease := DEFAULT_LEASE;
    }
    assert lease == if c.lease > 0 then c.lease else 30_000_000_000;
    if maxExecution <= 0 {
      maxExecution := DEFAULT_MAX_EXECUTION;
    }
    assert maxExecution == if c.maxExecution > 0 then c.maxExecution else 3_600_000_000_000;
    if reconcileInterval <= 0 {
      reconcileInterval := DEFAULT_RECONCILE_INTERVAL;
    }
    assert reconcileInterval == if c.reconcileInterval > 0 then c.reconcileInterval else 5_000_000_000;
    if dispatchBatch <= 0 {
      dispatchBatch := DEFAULT_DISPATCH_BATCH;
    }
    assert dispatchBatch == if c.dispatchBatch > 0 then c.dispatchBatch else 256;
    if redispatchDelay <= 0 {
      redispatchDelay := DEFAULT_REDISPATCH_DELAY;
    }
    assert redispatchDelay == if c.redispatchDelay > 0 then c.redispatchDelay else 250_000_000;
    if retryInitialDelay <= 0 {
      retryInitialDelay := DEFAULT_RETRY_INITIAL_DELAY;
    }
    assert retryInitialDelay == if c.retryInitialDelay > 0 then c.retryInitialDelay else 1_000_000_000;
    if retryMaxDelay <= 0 {
      retryMaxDelay := DEFAULT_RETRY_MAX_DELAY;
    }
    assert retryMaxDelay == if c.retryMaxDelay > 0 then c.retryMaxDelay else 60_000_000_000;
    if backfillMaxCount == 0 {
      backfillMaxCount := DEFAULT_BACKFILL_MAX_COUNT;
    }
    assert backfillMaxCount == if c.backfillMaxCount > 0 then c.backfillMaxCount else 100;
    if backfillMaxAge <= 0 {
      backfillMaxAge := DEFAULT_BACKFILL_MAX_AGE;
    }
    assert backfillMaxAge == if c.backfillMaxAge > 0 then c.backfillMaxAge else 86_400_000_000_000;
    if executionRetention <= 0 {
      executionRetention := DEFAULT_EXECUTION_RETENTION;
    }
    assert executionRetention == if c.executionRetention > 0 then c.executionRetention else 86_400_000_000_000;
    if executionRetention < backfillMaxAge {
      executionRetention := backfillMaxAge;
    }
    if resultRetention <= 0 {
      resultRetention := DEFAULT_RESULT_RETENTION;
    }
    assert resultRetention == if c.resultRetention > 0 then c.resultRetention else 300_000_000_000;
    if maxPendingResults == 0 {
      maxPendingResults := DEFAULT_MAX_PENDING_RESULTS;
    }
    assert maxPendingResults == if c.maxPendingResults > 0 then c.maxPendingResults else 1_024;
    if maxPendingResultsPerInstance == 0 {
      maxPendingResultsPerInstance := DEFAULT_MAX_PENDING_RESULTS_PER_INSTANCE;
    }
    return Config(lease, maxExecution, reconcileInterval, dispatchBatch, redispatchDelay, retryInitialDelay,
                  retryMaxDelay, defaultBackfill, backfillMaxCount, backfillMaxAge, executionRetention, resultRetention,
                  maxPendingResults, maxPendingResultsPerInstance);
  }

  // The job's own mode wins, then the engine's default, then backfill is on.
  function ResolveBackfill(cfg: Config, mode: uint8): uint8 {
    if mode != BACKFILL_MODE_INHERIT then mode
    else if cfg.defaultBackfill != BACKFILL_MODE_INHERIT then cfg.defaultBackfill
    else BACKFILL_MODE_ENABLED
  }

  // The job's own caps, never beyond the engine's.
  function EffectiveCount(cfg: Config, backfill: BackfillSpec): uint64 {
    var capped := cfg.backfillMaxCount;
    if backfill.maxCount == 0 || (capped > 0 && backfill.maxCount > capped) then capped else backfill.maxCount
  }

  function EffectiveAge(cfg: Config, backfill: BackfillSpec): Duration {
    var maxAge, capped := MillisDuration(backfill.maxAgeMillis), cfg.backfillMaxAge;
    if maxAge <= 0 || (capped > 0 && maxAge > capped) then capped else maxAge
  }

  // What materializing a job adds: the missed occurrences to run, the next one, and how many were given up.
  datatype Plan = Plan(missed: seq<Instant>, next: Option<Instant>, skipped: nat)

  method PlanJob(cfg: Config, schedule: ScheduleSpec, backfill: BackfillSpec, now: Instant) returns (plan: Plan)
    ensures PlanIs(cfg, schedule, backfill, now, plan)
    ensures cfg.backfillMaxAge > 0 ==> Planned(cfg, schedule, backfill, now, plan)
  {
    hide MissedAre, NextOccurrence, Planned;
    var mode := ResolveBackfill(cfg, backfill.mode);
    var missed, skipped :=
      MissedOccurrences(schedule, now, EffectiveCount(cfg, backfill), EffectiveAge(cfg, backfill));
    ghost var found, dropped := missed, skipped;
    if mode == BACKFILL_MODE_DISABLED {
      skipped := skipped + |missed|;
      missed := [];
    }
    plan := Plan(missed, NextOccurrence(schedule, now), skipped);
    assert plan == PlanOf(mode, found, dropped, NextOccurrence(schedule, now));
    if cfg.backfillMaxAge > 0 {
      PlanIsPlanned(cfg, schedule, backfill, now, plan);
    }
  }

  // Of two limits the smaller one, where zero is none.
  ghost function Tighter(a: nat, b: nat): nat {
    if a == 0 then b else if b == 0 || a <= b then a else b
  }

  // Milliseconds as a duration, which has its end.
  ghost function InNanos(millis: uint64): Duration {
    if millis * 1_000_000 <= MAX_INT64 then millis * 1_000_000 else MAX_INT64
  }

  // A plan adds the missed occurrences within the tighter of both limits on their number and on their age, and gives up
  // the others; it gives up all of them if backfill is off (mode 2), for the job or, when the job leaves it open (mode
  // 0), for the engine. It adds the next occurrence in any case.
  ghost predicate Planned(cfg: Config, schedule: ScheduleSpec, backfill: BackfillSpec, now: Instant, plan: Plan)
    requires cfg.backfillMaxAge > 0
  {
    PlannedWithin(backfill.mode == 2 || (backfill.mode == 0 && cfg.defaultBackfill == 2),
                  Tighter(backfill.maxCount, cfg.backfillMaxCount),
                  Tighter(InNanos(backfill.maxAgeMillis), cfg.backfillMaxAge), schedule, now, plan)
  }

  ghost predicate PlannedWithin(off: bool, count: uint64, age: Duration, schedule: ScheduleSpec, now: Instant,
                                plan: Plan)
  {
    exists missed: seq<Instant>, skipped: nat ::
      && MissedAre(schedule, now, count, age, missed, skipped)
      && plan.next == NextOccurrence(schedule, now)
      && plan.missed == (if off then [] else missed)
      && plan.skipped == skipped + if off then |missed| else 0
  }

  // Whatever is a plan comes to this.
  lemma PlanIsPlanned(cfg: Config, schedule: ScheduleSpec, backfill: BackfillSpec, now: Instant, plan: Plan)
    requires cfg.backfillMaxAge > 0 && PlanIs(cfg, schedule, backfill, now, plan)
    ensures Planned(cfg, schedule, backfill, now, plan)
  {
    hide EffectiveCount, EffectiveAge, ResolveBackfill, MissedAre, NextOccurrence, PlannedWithin, InNanos;
    PlanIsWithin(cfg, schedule, backfill, now, plan);
    CapsAre(cfg, backfill);
  }

  lemma PlanIsWithin(cfg: Config, schedule: ScheduleSpec, backfill: BackfillSpec, now: Instant, plan: Plan)
    requires PlanIs(cfg, schedule, backfill, now, plan)
    ensures PlannedWithin(ResolveBackfill(cfg, backfill.mode) == BACKFILL_MODE_DISABLED,
                          EffectiveCount(cfg, backfill), EffectiveAge(cfg, backfill), schedule, now, plan)
  {
  }

  lemma CapsAre(cfg: Config, backfill: BackfillSpec)
    requires cfg.backfillMaxAge > 0
    ensures EffectiveCount(cfg, backfill) == Tighter(backfill.maxCount, cfg.backfillMaxCount)
    ensures EffectiveAge(cfg, backfill) == Tighter(InNanos(backfill.maxAgeMillis), cfg.backfillMaxAge)
    ensures ResolveBackfill(cfg, backfill.mode) == BACKFILL_MODE_DISABLED <==>
            backfill.mode == 2 || (backfill.mode == 0 && cfg.defaultBackfill == 2)
  {
  }

  ghost predicate PlanIs(cfg: Config, schedule: ScheduleSpec, backfill: BackfillSpec, now: Instant, plan: Plan) {
    exists missed: seq<Instant>, skipped: nat ::
      && MissedAre(schedule, now, EffectiveCount(cfg, backfill), EffectiveAge(cfg, backfill), missed, skipped)
      && plan == PlanOf(ResolveBackfill(cfg, backfill.mode), missed, skipped, NextOccurrence(schedule, now))
  }

  function PlanOf(mode: uint8, missed: seq<Instant>, skipped: nat, next: Option<Instant>): Plan {
    if mode == BACKFILL_MODE_DISABLED then Plan([], next, skipped + |missed|) else Plan(missed, next, skipped)
  }

  predicate Adds(plan: Plan, t: Instant) {
    t in plan.missed || plan.next == Some(t)
  }

  function Added(plan: Plan): (added: set<Instant>)
    ensures forall t :: t in added <==> Adds(plan, t)
  {
    (set t | t in plan.missed) + (if plan.next.Some? then {plan.next.value} else {})
  }

  // When a plan stays within the backfill window. The two ways out: a one-shot start so long ago that its distance
  // saturates under an unlimited age, and a next occurrence that wraps around.
  ghost predicate StaysWithinAge(cfg: Config, schedule: ScheduleSpec, backfill: BackfillSpec, now: Instant) {
    if schedule.kind == SCHEDULE_KIND_ONE_SHOT then
      || ResolveBackfill(cfg, backfill.mode) == BACKFILL_MODE_DISABLED
      || EffectiveAge(cfg, backfill) < MAX_DURATION
      || now - schedule.startUnixNano <= MAX_INT64
    else ScheduleInterval(schedule).None? || NextFits(schedule, now)
  }

  lemma PlanWithinAge(cfg: Config, schedule: ScheduleSpec, backfill: BackfillSpec, now: Instant, plan: Plan)
    requires cfg.Normal() && PlanIs(cfg, schedule, backfill, now, plan)
    ensures (forall t | Adds(plan, t) :: t >= now - EffectiveAge(cfg, backfill)) <==>
            StaysWithinAge(cfg, schedule, backfill, now)
  {
    var maxAge := EffectiveAge(cfg, backfill);
    var missed: seq<Instant>, skipped: nat :|
      && MissedAre(schedule, now, EffectiveCount(cfg, backfill), maxAge, missed, skipped)
      && plan == PlanOf(ResolveBackfill(cfg, backfill.mode), missed, skipped, NextOccurrence(schedule, now));
    forall t | t in plan.missed ensures Adds(plan, t) {
    }
    if schedule.kind == SCHEDULE_KIND_ONE_SHOT {
      OneShotWithinAge(schedule, now, EffectiveCount(cfg, backfill), maxAge, missed, skipped);
    } else if ScheduleInterval(schedule).Some? {
      MissedWithinAge(schedule, now, EffectiveCount(cfg, backfill), maxAge, missed, skipped);
      NextWithinAge(schedule, now, maxAge);
      assert Adds(plan, plan.next.value);
    } else {
      assert missed == [] && plan.next.None?;
    }
  }

  lemma OneShotWithinAge(schedule: ScheduleSpec, now: Instant, maxCount: uint64, maxAge: Duration,
                         missed: seq<Instant>, skipped: nat)
    requires schedule.kind == SCHEDULE_KIND_ONE_SHOT && maxAge > 0
    requires MissedAre(schedule, now, maxCount, maxAge, missed, skipped)
    ensures (forall t | t in missed :: t >= now - maxAge) <==>
            maxAge < MAX_DURATION || now - schedule.startUnixNano <= MAX_INT64
    ensures NextOccurrence(schedule, now).Some? ==> NextOccurrence(schedule, now).value > now
  {
    if maxAge == MAX_DURATION && now - schedule.startUnixNano > MAX_INT64 {
      assert missed[0] in missed;
    }
  }

  lemma MissedWithinAge(schedule: ScheduleSpec, now: Instant, maxCount: uint64, maxAge: Duration,
                        missed: seq<Instant>, skipped: nat)
    requires schedule.kind != SCHEDULE_KIND_ONE_SHOT && maxAge > 0
    requires MissedAre(schedule, now, maxCount, maxAge, missed, skipped)
    ensures forall t | t in missed :: t >= now - maxAge
  {
    forall i | 0 <= i < |missed| ensures missed[i] >= now - maxAge {
      GridOrder(schedule, PointsSeen(schedule, now) - |missed|, PointsSeen(schedule, now) - |missed| + i);
    }
  }

  lemma NextWithinAge(schedule: ScheduleSpec, now: Instant, maxAge: Duration)
    requires schedule.kind != SCHEDULE_KIND_ONE_SHOT && ScheduleInterval(schedule).Some? && maxAge > 0
    ensures NextOccurrence(schedule, now).Some?
    ensures NextOccurrence(schedule, now).value >= now - maxAge <==> NextFits(schedule, now)
  {
    NextComputes(schedule, now);
    NextIsLeastAfter(schedule, now);
    if !NextFits(schedule, now) {
      NextWrapsFar(schedule, now);
    }
  }

  // An occurrence that settled no earlier than its instant and was purged, by now, once its retention ran out.
  predicate PurgedByNow(cfg: Config, scheduledAt: Instant, settledAt: Instant, purgedAt: Instant, now: Instant) {
    scheduledAt <= settledAt < purgedAt - cfg.executionRetention && purgedAt <= now
  }

  // No such occurrence is planned again exactly when the plan stays within the backfill window.
  lemma PurgedStaysPurged(cfg: Config, schedule: ScheduleSpec, backfill: BackfillSpec, now: Instant, plan: Plan)
    requires cfg.Normal() && PlanIs(cfg, schedule, backfill, now, plan)
    ensures (forall scheduledAt, settledAt, purgedAt | PurgedByNow(cfg, scheduledAt, settledAt, purgedAt, now) ::
               !Adds(plan, scheduledAt)) <==>
            StaysWithinAge(cfg, schedule, backfill, now)
  {
    if StaysWithinAge(cfg, schedule, backfill, now) {
      PlanWithinAge(cfg, schedule, backfill, now, plan);
    } else {
      var t := PlanStraysFar(cfg, schedule, backfill, now, plan);
      assert PurgedByNow(cfg, t, t, now, now);
    }
  }

  // A plan that leaves the backfill window leaves every retention window as well.
  lemma PlanStraysFar(cfg: Config, schedule: ScheduleSpec, backfill: BackfillSpec, now: Instant, plan: Plan)
    returns (t: Instant)
    requires cfg.Normal() && PlanIs(cfg, schedule, backfill, now, plan)
    requires !StaysWithinAge(cfg, schedule, backfill, now)
    ensures Adds(plan, t) && t < now - cfg.executionRetention
  {
    hide NextOccurrence, NextFits;
    if schedule.kind == SCHEDULE_KIND_ONE_SHOT {
      PlanWithinAge(cfg, schedule, backfill, now, plan);
      t :| Adds(plan, t) && t < now - EffectiveAge(cfg, backfill);
    } else {
      NextIsLeastAfter(schedule, now);
      NextWrapsFar(schedule, now);
      t := plan.next.value;
    }
  }

  // In 2027 every plan for the widest interval from 1732 on adds an instant older than any retention, so one that may
  // have been purged.
  lemma PlanStrays(cfg: Config, backfill: BackfillSpec, plan: Plan) returns (t: Instant)
    requires cfg.Normal() && PlanIs(cfg, WidestSince1732(), backfill, 1_800_000_000_000_000_000, plan)
    ensures Adds(plan, t) && PurgedByNow(cfg, t, t, 1_800_000_000_000_000_000, 1_800_000_000_000_000_000)
    ensures t < 1_800_000_000_000_000_000 - EffectiveAge(cfg, backfill)
  {
    NextWraps();
    t := PlanStraysFar(cfg, WidestSince1732(), backfill, 1_800_000_000_000_000_000, plan);
  }
}

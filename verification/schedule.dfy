/**
 * Schedule arithmetic: which instants a job's schedule names, which comes next, and which were missed.
 *
 * An instant is a number of nanoseconds since the Unix epoch, without bound. A duration is an `int64`, so the
 * distance between two instants saturates and a product of durations wraps, as in Go.
 */
module Schedules {
  import opened Wrappers
  import opened ProtocolTypes

  type Instant = int
  type Duration = int64

  const MILLISECOND: Duration := 1_000_000
  const MAX_DURATION: Duration := MAX_INT64
  const MAX_INTERVAL_MILLIS: uint64 := 9_223_372_036_854

  function WrapInt64(x: int): (w: int64)
    ensures MAX_INT64 < x < TWO_TO_64 ==> w == x - TWO_TO_64
    ensures -MAX_INT64 - 1 <= x <= MAX_INT64 ==> w == x
  {
    var low := x % TWO_TO_64;
    if low > MAX_INT64 then low - TWO_TO_64 else low
  }

  // The duration from `b` to `a`.
  function Sub(a: Instant, b: Instant): Duration {
    if a - b > MAX_INT64 then MAX_INT64 else if a - b < -MAX_INT64 - 1 then -MAX_INT64 - 1 else a - b
  }

  // Products and quotients by an interval, used through the linear facts below.
  function Times(k: int, d: int): int {
    k * d
  }

  function Quotient(x: nat, d: nat): (q: nat)
    requires d > 0
  {
    QuotientNatural(x, d);
    x / d
  }

  lemma QuotientNatural(x: nat, d: nat)
    requires d > 0
    ensures x / d >= 0
  {
  }

  lemma TimesMonotone(a: int, b: int, d: nat)
    requires a <= b
    ensures Times(a, d) <= Times(b, d)
    ensures a < b ==> Times(a, d) + d <= Times(b, d)
  {
    hide Times;
    Difference(a, b, d);
    NotNegative(b - a, d);
    if a < b {
      TimesNext(b - a - 1, d);
      NotNegative(b - a - 1, d);
    }
  }

  lemma Difference(a: int, b: int, d: int)
    ensures Times(b, d) == Times(a, d) + Times(b - a, d)
  {
  }

  lemma NotNegative(k: nat, d: nat)
    ensures Times(k, d) >= 0
  {
  }

  lemma TimesNext(k: int, d: int)
    ensures Times(0, d) == 0 && Times(k + 1, d) == Times(k, d) + d
  {
  }

  lemma QuotientBounds(x: nat, d: nat)
    requires d > 0
    ensures Times(Quotient(x, d), d) <= x < Times(Quotient(x, d), d) + d
    ensures x - x % d == Times(Quotient(x, d), d)
  {
    assert x == d * (x / d) + x % d;
  }

  lemma QuotientIs(x: nat, d: nat, k: int)
    requires d > 0 && Times(k, d) <= x < Times(k, d) + d
    ensures Quotient(x, d) == k && x % d == x - Times(k, d)
  {
    hide Times, Quotient;
    QuotientBounds(x, d);
    var q := Quotient(x, d);
    if q < k { TimesMonotone(q, k, d); } else { TimesMonotone(k, q, d); }
  }

  lemma QuotientMonotone(x: nat, y: nat, d: nat)
    requires x <= y && d > 0
    ensures Quotient(x, d) <= Quotient(y, d)
  {
    hide Times, Quotient;
    QuotientBounds(x, d);
    QuotientBounds(y, d);
    if Quotient(y, d) < Quotient(x, d) { TimesMonotone(Quotient(y, d), Quotient(x, d), d); }
  }

  function MillisDuration(millis: uint64): (d: Duration)
    ensures d == if millis * MILLISECOND <= MAX_INT64 then millis * MILLISECOND else MAX_INT64
  {
    if millis > MAX_INTERVAL_MILLIS then MAX_INT64 else millis * MILLISECOND
  }

  function ScheduleInterval(spec: ScheduleSpec): (interval: Option<Duration>)
    ensures interval.Some? ==> MILLISECOND <= interval.value
  {
    if spec.kind != SCHEDULE_KIND_FIXED_INTERVAL || spec.intervalMillis == 0 then None
    else Some(MillisDuration(spec.intervalMillis))
  }

  // The grid of a fixed-interval schedule: its start, and every whole number of intervals after it.
  ghost function GridPoint(spec: ScheduleSpec, k: int): Instant
    requires ScheduleInterval(spec).Some?
  {
    spec.startUnixNano + Times(k, ScheduleInterval(spec).value)
  }

  // Every instant a schedule names.
  ghost predicate Scheduled(spec: ScheduleSpec, t: Instant) {
    if spec.kind == SCHEDULE_KIND_ONE_SHOT then t == spec.startUnixNano
    else ScheduleInterval(spec).Some? && exists k: nat :: t == GridPoint(spec, k)
  }

  function ScheduleContains(spec: ScheduleSpec, t: Instant): bool {
    if spec.kind == SCHEDULE_KIND_ONE_SHOT then t == spec.startUnixNano
    else
      var interval := ScheduleInterval(spec);
      && interval.Some?
      && t >= spec.startUnixNano
      && Sub(t, spec.startUnixNano) % interval.value == 0
  }

  function NextOccurrence(spec: ScheduleSpec, after: Instant): Option<Instant> {
    var start := spec.startUnixNano;
    if spec.kind == SCHEDULE_KIND_ONE_SHOT then
      if start > after then Some(start) else None
    else
      var interval := ScheduleInterval(spec);
      if interval.None? then None
      else if start > after then Some(start)
      else
        var periods := WrapInt64(Quotient(Sub(after, start), interval.value) + 1);
        Some(start + WrapInt64(Times(periods, interval.value)))
  }

  // What a schedule names, written out: its start alone, or whole numbers of milliseconds from the start on, the
  // interval saturating at a duration.
  lemma GridIs(spec: ScheduleSpec, k: int)
    ensures spec.kind == 1 ==> forall t :: Scheduled(spec, t) <==> t == spec.startUnixNano
    ensures ScheduleInterval(spec).Some? <==> spec.kind == 2 && spec.intervalMillis > 0
    ensures ScheduleInterval(spec).Some? ==>
              var interval := if spec.intervalMillis <= 9_223_372_036_854 then spec.intervalMillis * 1_000_000
                              else 0x7FFF_FFFF_FFFF_FFFF;
              GridPoint(spec, k) == spec.startUnixNano + k * interval
  {
  }

  lemma GridOrder(spec: ScheduleSpec, j: int, k: int)
    requires ScheduleInterval(spec).Some?
    ensures j <= k <==> GridPoint(spec, j) <= GridPoint(spec, k)
    ensures j < k ==> GridPoint(spec, j) + ScheduleInterval(spec).value <= GridPoint(spec, k)
    ensures GridPoint(spec, k + 1) == GridPoint(spec, k) + ScheduleInterval(spec).value
    ensures GridPoint(spec, 0) == spec.startUnixNano
  {
    hide Times;
    var interval := ScheduleInterval(spec).value;
    TimesNext(k, interval);
    if j < k { TimesMonotone(j, k, interval); } else { TimesMonotone(k, j, interval); }
  }

  // The distance of an instant from the start is a duration, or is not asked for.
  predicate InReach(spec: ScheduleSpec, t: Instant) {
    spec.kind == SCHEDULE_KIND_ONE_SHOT || t - spec.startUnixNano <= MAX_INT64
  }

  // Within reach, a schedule contains exactly the instants it names.
  lemma ContainsIsScheduled(spec: ScheduleSpec, t: Instant)
    requires InReach(spec, t)
    ensures ScheduleContains(spec, t) <==> Scheduled(spec, t)
  {
    hide Times, Quotient;
    if spec.kind != SCHEDULE_KIND_ONE_SHOT && ScheduleInterval(spec).Some? {
      var interval, distance := ScheduleInterval(spec).value, t - spec.startUnixNano;
      if ScheduleContains(spec, t) {
        QuotientBounds(distance, interval);
        assert t == GridPoint(spec, Quotient(distance, interval));
      }
      if Scheduled(spec, t) {
        var k: nat :| t == GridPoint(spec, k);
        GridOrder(spec, 0, k);
        QuotientIs(distance, interval, k);
      }
    }
  }

  // Beyond that the distance saturates, and the check answers the same for every instant.
  lemma FarContainsIsConstant(spec: ScheduleSpec, t: Instant)
    requires spec.kind != SCHEDULE_KIND_ONE_SHOT && ScheduleInterval(spec).Some?
    requires t - spec.startUnixNano > MAX_INT64
    ensures ScheduleContains(spec, t) <==> MAX_DURATION % ScheduleInterval(spec).value == 0
  {
  }

  lemma MultipleOfWhole(x: nat, millis: nat)
    requires millis > 0
    ensures x % (millis * MILLISECOND) == 0 ==> x % MILLISECOND == 0
  {
    if x % (millis * MILLISECOND) == 0 {
      var q := x / (millis * MILLISECOND);
      assert x == q * (millis * MILLISECOND) == (q * millis) * MILLISECOND;
    }
  }

  // The largest duration is no whole number of milliseconds.
  lemma MaxIsNotWhole(millis: nat)
    requires millis > 0
    ensures MAX_DURATION % (millis * MILLISECOND) != 0
  {
    MultipleOfWhole(MAX_DURATION, millis);
  }

  // What the check answers, for every schedule and instant. An interval too wide to be stated in an upsert saturates,
  // and then the check takes every instant out of reach.
  lemma ContainsExactly(spec: ScheduleSpec, t: Instant)
    ensures ScheduleContains(spec, t) <==>
            if InReach(spec, t) then Scheduled(spec, t)
            else spec.kind == SCHEDULE_KIND_FIXED_INTERVAL && spec.intervalMillis > MAX_INTERVAL_MILLIS
  {
    if InReach(spec, t) {
      ContainsIsScheduled(spec, t);
    } else if ScheduleInterval(spec).Some? {
      FarContainsIsConstant(spec, t);
      if spec.intervalMillis <= MAX_INTERVAL_MILLIS {
        MaxIsNotWhole(spec.intervalMillis);
      }
    }
  }

  // So for every schedule an upsert may state, the check is wrong about exactly the instants that are named out of
  // reach: it denies them.
  lemma ContainsIffNamedInReach(spec: ScheduleSpec, t: Instant)
    requires spec.kind == SCHEDULE_KIND_FIXED_INTERVAL ==> spec.intervalMillis <= MAX_INTERVAL_MILLIS
    ensures ScheduleContains(spec, t) <==> Scheduled(spec, t) && InReach(spec, t)
  {
    ContainsExactly(spec, t);
  }

  // Every second since 1684: the end of 2023 is named and denied.
  lemma NamedButDenied()
    ensures var spec, t := SecondsSince1684(), 1_700_000_000_000_000_000;
            Scheduled(spec, t) && !ScheduleContains(spec, t)
  {
    var spec := SecondsSince1684();
    assert 1_700_000_000_000_000_000 == GridPoint(spec, 10_700_000_000);
    ContainsExactly(spec, 1_700_000_000_000_000_000);
  }

  function SecondsSince1684(): ScheduleSpec {
    ScheduleSpec(SCHEDULE_KIND_FIXED_INTERVAL, -9_000_000_000_000_000_000, 1_000)
  }

  // The number of grid points from the start up to an instant.
  ghost function PointsUpTo(spec: ScheduleSpec, t: Instant): (n: nat)
    requires ScheduleInterval(spec).Some?
  {
    if t < spec.startUnixNano then 0 else Quotient(t - spec.startUnixNano, ScheduleInterval(spec).value) + 1
  }

  lemma PointsUpToCounts(spec: ScheduleSpec, t: Instant, k: nat)
    requires ScheduleInterval(spec).Some?
    ensures GridPoint(spec, k) <= t <==> k < PointsUpTo(spec, t)
  {
    hide Times, Quotient;
    GridOrder(spec, 0, k);
    if t >= spec.startUnixNano {
      var interval := ScheduleInterval(spec).value;
      var q := Quotient(t - spec.startUnixNano, interval);
      QuotientBounds(t - spec.startUnixNano, interval);
      GridOrder(spec, k, q);
      GridOrder(spec, q, k);
    }
  }

  // The next grid point lies within a duration of the start.
  ghost predicate NextFits(spec: ScheduleSpec, after: Instant)
    requires ScheduleInterval(spec).Some?
  {
    GridPoint(spec, PointsUpTo(spec, after)) - spec.startUnixNano <= MAX_INT64
  }

  ghost predicate LeastAfter(spec: ScheduleSpec, after: Instant, t: Instant) {
    && Scheduled(spec, t)
    && t > after
    && (forall other | Scheduled(spec, other) && other > after :: t <= other)
  }

  // A fixed-interval schedule always has a next occurrence, and the computed one is right exactly while it lies
  // within a duration of the start. Otherwise the product wraps and the answer precedes the start.
  lemma NextIsLeastAfter(spec: ScheduleSpec, after: Instant)
    requires spec.kind != SCHEDULE_KIND_ONE_SHOT && ScheduleInterval(spec).Some?
    ensures NextOccurrence(spec, after).Some?
    ensures LeastAfter(spec, after, NextOccurrence(spec, after).value) <==> NextFits(spec, after)
    ensures !NextFits(spec, after) ==> NextOccurrence(spec, after).value < spec.startUnixNano
  {
    NextComputes(spec, after);
    hide NextOccurrence, PointsUpTo, Times;
    var n, next := PointsUpTo(spec, after), NextOccurrence(spec, after).value;
    var least := GridPoint(spec, n);
    PointsUpToCounts(spec, after, n);
    forall other | Scheduled(spec, other) && other > after ensures least <= other {
      var k: nat :| other == GridPoint(spec, k);
      PointsUpToCounts(spec, after, k);
      GridOrder(spec, n, k);
    }
    if NextFits(spec, after) {
      assert Scheduled(spec, least);
    } else if Scheduled(spec, next) {
      var k: nat :| next == GridPoint(spec, k);
      GridOrder(spec, 0, k);
      assert false;
    }
  }

  lemma NextComputes(spec: ScheduleSpec, after: Instant)
    requires spec.kind != SCHEDULE_KIND_ONE_SHOT && ScheduleInterval(spec).Some?
    ensures NextOccurrence(spec, after).Some?
    ensures NextFits(spec, after) ==> NextOccurrence(spec, after).value == GridPoint(spec, PointsUpTo(spec, after))
    ensures !NextFits(spec, after) ==> NextOccurrence(spec, after).value < spec.startUnixNano
  {
    hide Times, Quotient;
    var start, interval := spec.startUnixNano, ScheduleInterval(spec).value;
    TimesNext(0, interval);
    if start <= after {
      var distance, elapsed := after - start, Sub(after, start);
      QuotientBounds(distance, interval);
      QuotientBounds(elapsed, interval);
      QuotientSmall(elapsed, interval);
      TimesNext(Quotient(elapsed, interval), interval);
      TimesNext(Quotient(distance, interval), interval);
      QuotientMonotone(elapsed, distance, interval);
    }
  }

  // An answer that wraps around lies more than a duration before the instant asked about.
  lemma NextWrapsFar(spec: ScheduleSpec, after: Instant)
    requires spec.kind != SCHEDULE_KIND_ONE_SHOT && ScheduleInterval(spec).Some? && !NextFits(spec, after)
    ensures NextOccurrence(spec, after).value < after - MAX_DURATION
  {
    hide Times, Quotient, WrapInt64, MillisDuration;
    var start, interval := spec.startUnixNano, ScheduleInterval(spec).value;
    TimesNext(0, interval);
    assert after >= start;
    var elapsed := Sub(after, start);
    var q := Quotient(elapsed, interval);
    ProductWraps(after - start, interval);
    QuotientSmall(elapsed, interval);
    assert NextOccurrence(spec, after).value == start + WrapInt64(Times(q + 1, interval));
  }

  lemma ProductWraps(distance: nat, interval: Duration)
    requires 1 < interval && Times(Quotient(distance, interval) + 1, interval) > MAX_INT64
    ensures var elapsed := if distance > MAX_INT64 then MAX_INT64 else distance;
            WrapInt64(Times(Quotient(elapsed, interval) + 1, interval)) < elapsed - MAX_INT64
  {
    hide Times, Quotient, WrapInt64;
    var elapsed := if distance > MAX_INT64 then MAX_INT64 else distance;
    QuotientBounds(elapsed, interval);
    TimesNext(Quotient(elapsed, interval), interval);
  }

  lemma QuotientSmall(x: nat, d: nat)
    requires d > 1 && x <= MAX_INT64
    ensures Quotient(x, d) < MAX_INT64
  {
  }

  lemma OneShotNext(spec: ScheduleSpec, after: Instant)
    requires spec.kind == SCHEDULE_KIND_ONE_SHOT
    ensures NextOccurrence(spec, after).None? <==> !exists t :: Scheduled(spec, t) && t > after
    ensures NextOccurrence(spec, after).Some? ==> LeastAfter(spec, after, NextOccurrence(spec, after).value)
  {
    assert Scheduled(spec, spec.startUnixNano);
  }

  // The widest interval an upsert may state, from 1732 on: in 2027 its next occurrence is computed to precede its
  // start.
  lemma NextWraps()
    ensures var spec, now := WidestSince1732(), 1_800_000_000_000_000_000;
            && !NextFits(spec, now)
            && NextOccurrence(spec, now).value < spec.startUnixNano
            && !LeastAfter(spec, now, NextOccurrence(spec, now).value)
  {
    var spec, now := WidestSince1732(), 1_800_000_000_000_000_000;
    QuotientIs(now - spec.startUnixNano, MillisDuration(MAX_INTERVAL_MILLIS), 1);
    NextIsLeastAfter(spec, now);
  }

  function WidestSince1732(): ScheduleSpec {
    ScheduleSpec(SCHEDULE_KIND_FIXED_INTERVAL, -7_500_000_000_000_000_000, MAX_INTERVAL_MILLIS)
  }

  // Asking again after every answer walks the whole grid from its start.
  ghost function Walk(spec: ScheduleSpec, k: nat): Option<Instant> {
    if k == 0 then NextOccurrence(spec, spec.startUnixNano - 1)
    else
      var before := Walk(spec, k - 1);
      if before.None? then None else NextOccurrence(spec, before.value)
  }

  lemma StartFirst(spec: ScheduleSpec)
    requires spec.kind != SCHEDULE_KIND_ONE_SHOT && ScheduleInterval(spec).Some?
    ensures NextOccurrence(spec, spec.startUnixNano - 1) == Some(GridPoint(spec, 0))
  {
    GridOrder(spec, 0, 0);
  }

  lemma {:induction false} WalkEnumerates(spec: ScheduleSpec, k: nat)
    requires spec.kind != SCHEDULE_KIND_ONE_SHOT && ScheduleInterval(spec).Some?
    requires GridPoint(spec, k) - spec.startUnixNano <= MAX_INT64
    ensures Walk(spec, k) == Some(GridPoint(spec, k))
  {
    hide Times, PointsUpTo, NextOccurrence;
    if k == 0 {
      StartFirst(spec);
    } else {
      GridOrder(spec, k - 1, k);
      WalkEnumerates(spec, k - 1);
      var before := GridPoint(spec, k - 1);
      PointsUpToCounts(spec, before, k - 1);
      PointsUpToCounts(spec, before, k);
      NextComputes(spec, before);
    }
  }

  // How many of the newest grid points up to `until` a pass may still materialize: no more than `maxCount` of them,
  // none older than `maxAge`, both limits off when zero.
  ghost predicate Recoverable(spec: ScheduleSpec, until: Instant, maxCount: uint64, maxAge: Duration, n: nat, c: nat)
    requires ScheduleInterval(spec).Some?
  {
    && c <= n
    && (maxCount > 0 ==> c <= maxCount)
    && (maxAge > 0 && c > 0 ==> GridPoint(spec, n - c) >= until - maxAge)
    && (c == n || (maxCount > 0 && c == maxCount) || (maxAge > 0 && GridPoint(spec, n - c - 1) < until - maxAge))
  }

  // The grid points a pass looks at, when the distance from the start saturates.
  ghost function PointsSeen(spec: ScheduleSpec, until: Instant): (n: nat)
    requires ScheduleInterval(spec).Some? && spec.startUnixNano <= until
  {
    PointsUpTo(spec, spec.startUnixNano + Sub(until, spec.startUnixNano))
  }

  lemma SeenIsAll(spec: ScheduleSpec, until: Instant)
    requires ScheduleInterval(spec).Some? && spec.startUnixNano <= until
    ensures PointsSeen(spec, until) == PointsUpTo(spec, until) <==>
            GridPoint(spec, PointsUpTo(spec, until) - 1) - spec.startUnixNano <= MAX_INT64
  {
    hide Times, PointsUpTo;
    var start := spec.startUnixNano;
    assert PointsUpTo(spec, until) >= 1 && PointsSeen(spec, until) >= 1 by {
      PointsUpToCounts(spec, until, 0);
      PointsUpToCounts(spec, start + Sub(until, start), 0);
      GridOrder(spec, 0, 0);
    }
    var n, seen, horizon := PointsUpTo(spec, until), PointsSeen(spec, until), start + Sub(until, start);
    PointsUpToCounts(spec, until, n - 1);
    PointsUpToCounts(spec, horizon, n - 1);
    PointsUpToCounts(spec, until, seen - 1);
    PointsUpToCounts(spec, horizon, seen - 1);
    PointsUpToCounts(spec, until, n);
    PointsUpToCounts(spec, horizon, n);
  }

  // Every second since 1684: by the end of 2023 a pass overlooks the newest ones.
  lemma SeenOverlooks()
    ensures PointsSeen(SecondsSince1684(), 1_700_000_000_000_000_000) <
            PointsUpTo(SecondsSince1684(), 1_700_000_000_000_000_000)
  {
    var spec, until := SecondsSince1684(), 1_700_000_000_000_000_000;
    var interval := ScheduleInterval(spec).value;
    QuotientIs(until - spec.startUnixNano, interval, 10_700_000_000);
    QuotientIs(MAX_DURATION, interval, 9_223_372_036);
  }

  // The missed instants of a schedule, ascending and without gaps, and how many were given up.
  ghost predicate MissedAre(spec: ScheduleSpec, until: Instant, maxCount: uint64, maxAge: Duration,
                            missed: seq<Instant>, skipped: nat)
  {
    var start := spec.startUnixNano;
    if spec.kind == SCHEDULE_KIND_ONE_SHOT then
      (missed, skipped) ==
      if start > until then ([], 0)
      else if 0 < maxAge < 0x7FFF_FFFF_FFFF_FFFF && start < until - maxAge then ([], 1)
      else ([start], 0)
    else if ScheduleInterval(spec).None? || start > until then missed == [] && skipped == 0
    else
      var n, c := PointsSeen(spec, until), |missed|;
      && Recoverable(spec, until, maxCount, maxAge, n, c)
      && (forall i | 0 <= i < c :: missed[i] == GridPoint(spec, n - c + i))
      && c + skipped == n
  }

  lemma RecoverableOnce(spec: ScheduleSpec, until: Instant, maxCount: uint64, maxAge: Duration, n: nat, c: nat, d: nat)
    requires ScheduleInterval(spec).Some? && c <= d
    requires Recoverable(spec, until, maxCount, maxAge, n, c) && Recoverable(spec, until, maxCount, maxAge, n, d)
    ensures c == d
  {
    GridOrder(spec, n - d, n - c - 1);
  }

  // The description leaves no choice.
  lemma MissedAreUnique(spec: ScheduleSpec, until: Instant, maxCount: uint64, maxAge: Duration,
                        missed: seq<Instant>, skipped: nat, missed': seq<Instant>, skipped': nat)
    requires MissedAre(spec, until, maxCount, maxAge, missed, skipped)
    requires MissedAre(spec, until, maxCount, maxAge, missed', skipped')
    ensures missed == missed' && skipped == skipped'
  {
    if spec.kind != SCHEDULE_KIND_ONE_SHOT && ScheduleInterval(spec).Some? && spec.startUnixNano <= until {
      var n, c, d := PointsSeen(spec, until), |missed|, |missed'|;
      if c <= d {
        RecoverableOnce(spec, until, maxCount, maxAge, n, c, d);
      } else {
        RecoverableOnce(spec, until, maxCount, maxAge, n, d, c);
      }
    }
  }

  method MissedOccurrences(spec: ScheduleSpec, until: Instant, maxCount: uint64, maxAge: Duration)
    returns (missed: seq<Instant>, skipped: nat)
    ensures MissedAre(spec, until, maxCount, maxAge, missed, skipped)
  {
    var start := spec.startUnixNano;
    if spec.kind == SCHEDULE_KIND_ONE_SHOT {
      if start > until {
        return [], 0;
      }
      if maxAge > 0 && Sub(until, start) > maxAge {
        return [], 1;
      }
      return [start], 0;
    }
    var scheduled := ScheduleInterval(spec);
    if scheduled.None? || start > until {
      return [], 0;
    }
    var interval := scheduled.value;
    var elapsed := Sub(until, start);
    hide Times, Quotient;
    var total := Quotient(elapsed, interval) + 1;
    var oldest := until - maxAge;
    var collected := [];
    var occurrence := start + (elapsed - elapsed % interval);
    NewestSeen(spec, until);
    while occurrence >= start
      invariant |collected| <= total == PointsSeen(spec, until)
      invariant occurrence == GridPoint(spec, total - |collected| - 1)
      invariant forall i | 0 <= i < |collected| :: collected[i] == GridPoint(spec, total - 1 - i)
      invariant maxCount > 0 ==> |collected| <= maxCount
      invariant maxAge > 0 && collected != [] ==> GridPoint(spec, total - |collected|) >= oldest
      decreases total - |collected|
    {
      BeforeStart(spec, total - |collected| - 1);
      if maxCount > 0 && |collected| >= maxCount {
        break;
      }
      if maxAge > 0 && occurrence < oldest {
        break;
      }
      GridOrder(spec, 0, total - |collected| - 2);
      collected := collected + [occurrence];
      occurrence := occurrence - interval;
    }
    BeforeStart(spec, total - |collected| - 1);
    missed := Reversed(collected);
    return missed, total - |collected|;
  }

  lemma NewestSeen(spec: ScheduleSpec, until: Instant)
    requires ScheduleInterval(spec).Some? && spec.startUnixNano <= until
    ensures var elapsed, interval := Sub(until, spec.startUnixNano), ScheduleInterval(spec).value;
            && PointsSeen(spec, until) == Quotient(elapsed, interval) + 1
            && spec.startUnixNano + (elapsed - elapsed % interval) == GridPoint(spec, Quotient(elapsed, interval))
  {
    var elapsed, interval := Sub(until, spec.startUnixNano), ScheduleInterval(spec).value;
    hide Times, Quotient;
    QuotientBounds(elapsed, interval);
  }

  lemma BeforeStart(spec: ScheduleSpec, k: int)
    requires ScheduleInterval(spec).Some?
    ensures k < 0 <==> GridPoint(spec, k) < spec.startUnixNano
  {
    GridOrder(spec, 0, k);
  }

  method Reversed(collected: seq<Instant>) returns (reversed: seq<Instant>)
    ensures |reversed| == |collected|
    ensures forall i | 0 <= i < |collected| :: reversed[i] == collected[|collected| - 1 - i]
  {
    reversed := collected;
    var left, right := 0, |reversed| - 1;
    while left < right
      invariant |reversed| == |collected| && 0 <= left <= |collected| && right == |collected| - 1 - left
      invariant forall i | 0 <= i < left || right < i < |collected| :: reversed[i] == collected[|collected| - 1 - i]
      invariant forall i | left <= i <= right :: reversed[i] == collected[i]
    {
      reversed := reversed[left := reversed[right]][right := reversed[left]];
      left, right := left + 1, right - 1;
    }
  }

  // What a pass recovers of a fixed interval while it overlooks nothing: an instant is missed exactly when the schedule
  // names it, it has come, it is no older than the age, and fewer than the count of them came after it.
  lemma MissedMembers(spec: ScheduleSpec, until: Instant, maxCount: uint64, maxAge: Duration, missed: seq<Instant>,
                      skipped: nat, t: Instant)
    requires MissedAre(spec, until, maxCount, maxAge, missed, skipped)
    requires ScheduleInterval(spec).Some? && spec.startUnixNano <= until
    requires PointsSeen(spec, until) == PointsUpTo(spec, until)
    ensures t in missed <==>
            && Scheduled(spec, t) && t <= until
            && (maxAge > 0 ==> t >= until - maxAge)
            && (maxCount > 0 ==> t + Times(maxCount, ScheduleInterval(spec).value) > until)
  {
    hide Times, Quotient;
    var n, c := PointsUpTo(spec, until), |missed|;
    if t in missed {
      var i :| 0 <= i < c && missed[i] == t;
      MissedIsMember(spec, until, maxCount, maxAge, n, c, n - c + i);
    }
    if Scheduled(spec, t) && t <= until {
      var k: nat :| t == GridPoint(spec, k);
      PointsUpToCounts(spec, until, k);
      if k < n - c {
        GivenUpIsNone(spec, until, maxCount, maxAge, n, c, k);
      } else {
        assert missed[k - (n - c)] == t;
      }
    }
  }

  // The grid point so many steps on.
  lemma GridAhead(spec: ScheduleSpec, k: int, m: int)
    requires ScheduleInterval(spec).Some?
    ensures GridPoint(spec, k + m) == GridPoint(spec, k) + Times(m, ScheduleInterval(spec).value)
  {
    Distribute(k, m, ScheduleInterval(spec).value);
  }

  lemma Distribute(k: int, m: int, d: int)
    ensures Times(k + m, d) == Times(k, d) + Times(m, d)
  {
  }

  lemma MissedIsMember(spec: ScheduleSpec, until: Instant, maxCount: uint64, maxAge: Duration, n: nat, c: nat, k: nat)
    requires spec.kind != SCHEDULE_KIND_ONE_SHOT && ScheduleInterval(spec).Some? && n == PointsUpTo(spec, until)
    requires Recoverable(spec, until, maxCount, maxAge, n, c) && n - c <= k < n
    ensures var t := GridPoint(spec, k);
            && Scheduled(spec, t) && t <= until
            && (maxAge > 0 ==> t >= until - maxAge)
            && (maxCount > 0 ==> t + Times(maxCount, ScheduleInterval(spec).value) > until)
  {
    hide Times, Quotient, PointsUpTo;
    PointsUpToCounts(spec, until, k);
    GridOrder(spec, n - c, k);
    PointsUpToCounts(spec, until, k + maxCount);
    GridAhead(spec, k, maxCount);
  }

  lemma GivenUpIsNone(spec: ScheduleSpec, until: Instant, maxCount: uint64, maxAge: Duration, n: nat, c: nat, k: nat)
    requires ScheduleInterval(spec).Some? && n == PointsUpTo(spec, until)
    requires Recoverable(spec, until, maxCount, maxAge, n, c) && k < n - c
    ensures var t := GridPoint(spec, k);
            || (maxAge > 0 && t < until - maxAge)
            || (maxCount > 0 && t + Times(maxCount, ScheduleInterval(spec).value) <= until)
  {
    hide Times, Quotient, PointsUpTo;
    GridOrder(spec, k, n - c - 1);
    PointsUpToCounts(spec, until, k + maxCount);
    GridAhead(spec, k, maxCount);
  }

  // The next occurrence follows the newest instant a pass looks at exactly while it lies within a duration of the
  // start. The pass overlooks nothing then, so the two meet without a gap.
  lemma NextFollowsMissed(spec: ScheduleSpec, until: Instant)
    requires spec.kind != SCHEDULE_KIND_ONE_SHOT && ScheduleInterval(spec).Some? && spec.startUnixNano <= until
    ensures NextOccurrence(spec, until) ==
            Some(GridPoint(spec, PointsSeen(spec, until) - 1) + ScheduleInterval(spec).value) <==>
            NextFits(spec, until)
    ensures NextFits(spec, until) ==> PointsSeen(spec, until) == PointsUpTo(spec, until)
  {
    hide Times, Quotient, NextOccurrence;
    NextComputes(spec, until);
    SeenIsAll(spec, until);
    var n, seen := PointsUpTo(spec, until), PointsSeen(spec, until);
    PointsUpToCounts(spec, until, n - 1);
    GridOrder(spec, n - 1, n);
    GridOrder(spec, 0, seen - 1);
  }
}

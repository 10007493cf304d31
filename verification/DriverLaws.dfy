/** What drivers are worth over time, kind by kind (engine.py). */
module DriverLaws {
  import opened Drivers
  import opened RealArith
  import opened StableSort
  import opened Wrappers

  /** Constant drivers, and drivers without the schedule or the factors their kind asks for, have their
      value in every period. */
  lemma FlatDriver(d: DriverValue, t: nat)
    requires d.valueType == ConstantValue
          || ((d.valueType == Ramp || d.valueType == Step) && (d.schedule.None? || d.schedule.value == []))
          || (d.valueType == Seasonal && (d.seasonalFactors.None? || |d.seasonalFactors.value| < 12))
    ensures d.value.Some? ==> ResolveDriver(d, t) == d.value.value
    ensures d.value.None? ==> ResolveDriver(d, t) == 0.0
  {
  }

  /** A seasonal driver repeats every twelve periods, and in the first twelve is its value times the
      factor of the month. */
  lemma SeasonsRepeat(d: DriverValue, years: nat, month: nat, v: real)
    requires d.valueType == Seasonal && d.value == Some(v) && month < 12
    requires d.seasonalFactors.Some? && |d.seasonalFactors.value| >= 12
    ensures ResolveDriver(d, 12 * years + month) == v * d.seasonalFactors.value[month]
  {
    assert (12 * years + month) % 12 == month;
  }

  // ----- Schedules -----

  /** Two points of a schedule that follow each other in time, the second not before t, the first
      before it. */
  predicate Around(schedule: seq<SchedulePoint>, t: nat, p: SchedulePoint, q: SchedulePoint) {
    && p in schedule && q in schedule && p.month < t <= q.month
    && (forall r | r in schedule :: r.month <= p.month || q.month <= r.month)
  }

  /** No other point shares its month. */
  predicate Alone(schedule: seq<SchedulePoint>, p: SchedulePoint) {
    forall r | r in schedule && r.month == p.month :: r == p
  }

  lemma SortedElements(schedule: seq<SchedulePoint>, p: SchedulePoint)
    ensures p in ByMonth(schedule) <==> p in schedule
  {
    SortProperties(schedule, (x: SchedulePoint) => x.month as real);
    assert p in ByMonth(schedule) <==> p in multiset(ByMonth(schedule));
    assert p in schedule <==> p in multiset(schedule);
  }

  lemma NeighboursAre(points: seq<SchedulePoint>, t: nat, i: nat, p: SchedulePoint, q: SchedulePoint)
    requires InOrder(points) && LastBefore(points, t, i) && Around(points, t, p, q) && Alone(points, p) && Alone(points, q)
    ensures points[i] == p && points[i + 1] == q
  {
    var j :| 0 <= j < |points| && points[j] == p;
    var k :| 0 <= k < |points| && points[k] == q;
    assert points[i] in points && points[i + 1] in points;
    assert j <= i && points[j].month <= points[i].month;
    assert i < k && points[i + 1].month <= points[k].month;
  }

  lemma SameAround(schedule: seq<SchedulePoint>, t: nat, p: SchedulePoint, q: SchedulePoint)
    requires Around(schedule, t, p, q) && Alone(schedule, p) && Alone(schedule, q)
    ensures Around(ByMonth(schedule), t, p, q) && Alone(ByMonth(schedule), p) && Alone(ByMonth(schedule), q)
  {
    forall r
      ensures r in ByMonth(schedule) <==> r in schedule
    {
      SortedElements(schedule, r);
    }
  }

  /** v is as far from p's value to q's as t is from p's month to q's. */
  predicate PartOfTheGap(v: real, p: SchedulePoint, q: SchedulePoint, t: nat) {
    (v - p.value) * (q.month - p.month) as real == (q.value - p.value) * (t - p.month) as real
  }

  lemma LinearBetween(points: seq<SchedulePoint>, t: nat, p: SchedulePoint, q: SchedulePoint)
    requires InOrder(points) && Around(points, t, p, q) && Alone(points, p) && Alone(points, q)
    ensures InterpolatePoints(points, t, true) == OnLine(p, q, t)
  {
    var j :| 0 <= j < |points| && points[j] == p;
    assert points[0].month <= points[j].month;
    if t < points[|points| - 1].month {
      var i := SegmentOf(points, t);
      NeighboursAre(points, t, i, p, q);
      InsideLinear(points, t, i);
    } else {
      var k :| 0 <= k < |points| && points[k] == q;
      assert points[k].month <= points[|points| - 1].month && points[|points| - 1] in points;
      OnSegment(p, q, t);
    }
  }

  /** A linear ramp covers as much of the way from one point to the next as of the time between them. */
  lemma LinearRampIsProportional(d: DriverValue, t: nat, p: SchedulePoint, q: SchedulePoint)
    requires d.valueType == Ramp && d.interpolation == Linear && d.schedule.Some?
    requires Around(d.schedule.value, t, p, q) && Alone(d.schedule.value, p) && Alone(d.schedule.value, q)
    ensures PartOfTheGap(ResolveDriver(d, t), p, q, t)
  {
    ByMonthInOrder(d.schedule.value);
    SameAround(d.schedule.value, t, p, q);
    LinearBetween(ByMonth(d.schedule.value), t, p, q);
    OnTheWay(p, q, t);
  }

  lemma OnTheWay(p: SchedulePoint, q: SchedulePoint, t: nat)
    requires p.month < t <= q.month
    ensures PartOfTheGap(OnLine(p, q, t), p, q, t)
  {
    Proportion((t - p.month) as real, (q.month - p.month) as real, q.value - p.value);
  }

  lemma Proportion(part: real, whole: real, gap: real)
    requires whole > 0.0
    ensures part / whole * gap * whole == gap * part
  {
    assert part / whole * whole == part;
    MulAssoc(gap, part / whole, whole);
  }

  // ----- Launch ramps -----

  /** On an s-curve the factor is the logistic function at six, from minus one to one over the ramp. */
  lemma SCurveIsLogistic(rs: RevenueStream, launch: nat, t: nat, exp: Exponential)
    requires rs.rampCurve.SCurve? && Ramping(rs, launch, t)
    ensures var x := (2 * (t - launch) + 1) as real / rs.rampUpMonths.value as real - 1.0;
            RampFactor(rs, launch, t, exp) * (1.0 + exp(-6.0 * x)) == 1.0
  {
    var e, n := (t - launch) as real, rs.rampUpMonths.value as real;
    assert (2 * (t - launch) + 1) as real == 2.0 * e + 1.0;
    TwiceTheHalf(e, n);
    assert RampFactor(rs, launch, t, exp) == SCurveFactor((e + 0.5) / n, exp);
    Reciprocal(1.0 + exp(-6.0 * (2.0 * ((e + 0.5) / n) - 1.0)));
  }

  lemma TwiceTheHalf(e: real, n: real)
    requires n > 0.0
    ensures 2.0 * ((e + 0.5) / n) == (2.0 * e + 1.0) / n
  {
  }

  lemma Reciprocal(x: real)
    requires x > 0.0
    ensures 1.0 / x * x == 1.0
  {
  }

  /** On a stepwise ramp nothing comes before its end. */
  lemma StepCurveWaits(rs: RevenueStream, launch: nat, t: nat, exp: Exponential)
    requires rs.rampCurve.StepCurve?
    ensures RampFactor(rs, launch, t, exp) == if t < launch || Ramping(rs, launch, t) then 0.0 else 1.0
  {
  }

  // ----- Which driver counts -----

  /** Of several drivers with one reference the last one listed counts. */
  lemma {:induction false} LastDriverCounts(before: seq<DriverValue>, d: DriverValue, after: seq<DriverValue>)
    requires forall e | e in after :: e.ref != d.ref
    ensures d.ref in DriverMap(before + [d] + after) && DriverMap(before + [d] + after)[d.ref] == d
  {
    var ds := before + [d] + after;
    if after != [] {
      var init, last := after[..|after| - 1], after[|after| - 1];
      assert ds[..|ds| - 1] == before + [d] + init && ds[|ds| - 1] == last;
      assert last in after && forall e | e in init :: e in after;
      LastDriverCounts(before, d, init);
    }
  }

  /** So the days of working capital replace all other drivers of their references, inventory days
      those of payables, and these those of receivables. */
  lemma WorkingCapitalCounts(a: Assumptions)
    ensures var m := DriverMap(AllDrivers(a));
            && a.invDays.ref in m && m[a.invDays.ref] == a.invDays
            && (a.apDays.ref != a.invDays.ref ==> a.apDays.ref in m && m[a.apDays.ref] == a.apDays)
            && (a.arDays.ref != a.apDays.ref && a.arDays.ref != a.invDays.ref ==>
                  a.arDays.ref in m && m[a.arDays.ref] == a.arDays)
  {
    var others := StreamDrivers(a.revenueStreams) + (a.variableCosts + a.fixedCosts);
    assert AllDrivers(a) == (others + [a.arDays, a.apDays]) + [a.invDays] + []
                         == (others + [a.arDays]) + [a.apDays] + [a.invDays]
                         == others + [a.arDays] + [a.apDays, a.invDays];
    LastDriverCounts(others + [a.arDays, a.apDays], a.invDays, []);
    if a.apDays.ref != a.invDays.ref {
      LastDriverCounts(others + [a.arDays], a.apDays, [a.invDays]);
    }
    if a.arDays.ref != a.apDays.ref && a.arDays.ref != a.invDays.ref {
      LastDriverCounts(others, a.arDays, [a.apDays, a.invDays]);
    }
  }

  // ----- Which launch counts -----

  /** The stream is launched and has a volume driver of that reference. */
  predicate Carries(rs: RevenueStream, ref: string) {
    rs.launchMonth.Some? && exists d | d in rs.volume :: d.ref == ref
  }

  lemma {:induction false} WithStreamAt(m: map<string, RevenueStream>, rs: RevenueStream, ds: seq<DriverValue>, ref: string)
    ensures (exists d | d in ds :: d.ref == ref) ==> ref in WithStream(m, rs, ds) && WithStream(m, rs, ds)[ref] == rs
    ensures !(exists d | d in ds :: d.ref == ref) ==>
              (ref in WithStream(m, rs, ds) <==> ref in m) && (ref in m ==> WithStream(m, rs, ds)[ref] == m[ref])
  {
    if ds != [] {
      WithStreamAt(m, rs, ds[..|ds| - 1], ref);
      assert ds == ds[..|ds| - 1] + [ds[|ds| - 1]];
      assert ds[|ds| - 1] in ds && forall d | d in ds[..|ds| - 1] :: d in ds;
    }
  }

  /** Of several launched streams that carry a reference the last one listed sets its ramp; without one
      there is none. */
  lemma {:induction false} LastLaunchCounts(before: seq<RevenueStream>, rs: RevenueStream, after: seq<RevenueStream>, ref: string)
    requires Carries(rs, ref) && forall x | x in after :: !Carries(x, ref)
    ensures ref in LaunchMap(before + [rs] + after) && LaunchMap(before + [rs] + after)[ref] == rs
  {
    var streams := before + [rs] + after;
    if after == [] {
      assert streams[..|streams| - 1] == before && streams[|streams| - 1] == rs;
      WithStreamAt(LaunchMap(before), rs, rs.volume, ref);
    } else {
      var init, last := after[..|after| - 1], after[|after| - 1];
      assert streams[..|streams| - 1] == before + [rs] + init && streams[|streams| - 1] == last;
      assert last in after && forall x | x in init :: x in after;
      LastLaunchCounts(before, rs, init, ref);
      WithStreamAt(LaunchMap(before + [rs] + init), last, last.volume, ref);
    }
  }

  lemma {:induction false} NoLaunch(streams: seq<RevenueStream>, ref: string)
    requires forall rs | rs in streams :: !Carries(rs, ref)
    ensures ref !in LaunchMap(streams)
  {
    if streams != [] {
      var init, last := streams[..|streams| - 1], streams[|streams| - 1];
      assert last in streams && forall x | x in init :: x in streams;
      NoLaunch(init, ref);
      WithStreamAt(LaunchMap(init), last, last.volume, ref);
    }
  }
}

/** Driver values over time: schedules, launch ramps and scenario overrides (engine.py). */
module Drivers {
  import opened RealArith
  import opened Sequences
  import opened StableSort
  import opened Wrappers

  type Positive = x: real | x > 0.0 witness 1.0

  /** Stands for the exponential function. */
  type Exponential = real -> Positive

  ghost predicate Increasing(exp: Exponential) {
    forall x, y | x <= y :: exp(x) <= exp(y)
  }

  datatype SchedulePoint = SchedulePoint(month: nat, value: real)

  datatype ValueType = ConstantValue | Ramp | Seasonal | Step

  datatype Interpolation = Linear | Stepwise

  datatype DriverValue = DriverValue(
    ref: string,
    valueType: ValueType,
    value: Option<real>,
    schedule: Option<seq<SchedulePoint>>,
    seasonalFactors: Option<seq<real>>,
    interpolation: Interpolation)

  datatype RampCurve = LinearCurve | SCurve | StepCurve

  datatype RevenueStream = RevenueStream(
    volume: seq<DriverValue>,
    pricing: seq<DriverValue>,
    directCosts: seq<DriverValue>,
    launchMonth: Option<nat>,
    rampUpMonths: Option<nat>,
    rampCurve: RampCurve)

  // ----- Schedules -----

  function ByMonth(schedule: seq<SchedulePoint>): seq<SchedulePoint> {
    Sort(schedule, (p: SchedulePoint) => p.month as real)
  }

  /** Months never decrease; a month may be listed several times. */
  predicate InOrder(points: seq<SchedulePoint>) {
    forall i, j | 0 <= i < j < |points| :: points[i].month <= points[j].month
  }

  lemma ByMonthInOrder(schedule: seq<SchedulePoint>)
    ensures InOrder(ByMonth(schedule))
  {
    SortProperties(schedule, (p: SchedulePoint) => p.month as real);
  }

  function OnLine(p: SchedulePoint, q: SchedulePoint, t: nat): real
    requires p.month <= t
  {
    var frac := if q.month != p.month then (t - p.month) as real / (q.month - p.month) as real else 0.0;
    p.value + frac * (q.value - p.value)
  }

  /** The search for the segment around t, from segment i on. */
  function SearchSegments(points: seq<SchedulePoint>, t: nat, linear: bool, i: nat): real
    requires points != []
    decreases |points| - i
  {
    if i + 1 >= |points| then
      points[|points| - 1].value
    else
      var p, q := points[i], points[i + 1];
      if p.month <= t <= q.month then
        if linear then OnLine(p, q, t) else p.value
      else
        SearchSegments(points, t, linear, i + 1)
  }

  function InterpolatePoints(points: seq<SchedulePoint>, t: nat, linear: bool): real {
    if points == [] then 0.0
    else if t <= points[0].month then points[0].value
    else if t >= points[|points| - 1].month then points[|points| - 1].value
    else SearchSegments(points, t, linear, 0)
  }

  function InterpolateSchedule(schedule: seq<SchedulePoint>, t: nat, linear: bool): real {
    InterpolatePoints(ByMonth(schedule), t, linear)
  }

  /** The value of the last of the points not after t; before them all, the default. */
  function LastReached(points: seq<SchedulePoint>, t: nat, default: real): real {
    if points == [] then default
    else
      var last := points[|points| - 1];
      if t >= last.month then last.value else LastReached(points[..|points| - 1], t, default)
  }

  function StepPoints(points: seq<SchedulePoint>, t: nat): real {
    if points == [] then 0.0 else LastReached(points, t, points[0].value)
  }

  /** The step schedule's loop. */
  method StepSchedule(schedule: seq<SchedulePoint>, t: nat) returns (out: real)
    ensures out == StepPoints(ByMonth(schedule), t)
  {
    var points := ByMonth(schedule);
    if points == [] {
      return 0.0;
    }
    out := points[0].value;
    for i := 0 to |points|
      invariant out == LastReached(points[..i], t, points[0].value)
    {
      assert points[..i + 1][..i] == points[..i];
      if t >= points[i].month {
        out := points[i].value;
      }
    }
    assert points[..|points|] == points;
  }

  /** Point i is the last one that is not after t. */
  predicate LastOnOrBefore(points: seq<SchedulePoint>, t: nat, i: nat) {
    i < |points| && points[i].month <= t && (i + 1 < |points| ==> t < points[i + 1].month)
  }

  /** Point i is the last one before t. */
  predicate LastBefore(points: seq<SchedulePoint>, t: nat, i: nat) {
    i + 1 < |points| && points[i].month < t <= points[i + 1].month
  }

  lemma {:induction false} LastReachedAt(points: seq<SchedulePoint>, t: nat, default: real, i: nat)
    requires InOrder(points) && LastOnOrBefore(points, t, i)
    ensures LastReached(points, t, default) == points[i].value
  {
    if i + 1 < |points| {
      LastReachedAt(points[..|points| - 1], t, default, i);
    }
  }

  lemma {:induction false} SegmentFound(points: seq<SchedulePoint>, t: nat, linear: bool, i: nat, k: nat)
    requires InOrder(points) && k <= i && LastBefore(points, t, i)
    ensures SearchSegments(points, t, linear, k) == SearchSegments(points, t, linear, i)
    decreases i - k
  {
    if k < i {
      assert points[k + 1].month <= points[i].month;
      SegmentFound(points, t, linear, i, k + 1);
    }
  }

  /** The segment holding a month strictly inside the schedule. */
  lemma {:induction false} SegmentOf(points: seq<SchedulePoint>, t: nat) returns (i: nat)
    requires InOrder(points) && points != []
    requires points[0].month < t < points[|points| - 1].month
    ensures LastBefore(points, t, i)
  {
    i := 0;
    while !(t <= points[i + 1].month)
      invariant i + 1 < |points| && points[i].month < t
      decreases |points| - i
    {
      i := i + 1;
    }
  }

  lemma {:induction false} LastOf(points: seq<SchedulePoint>, t: nat) returns (i: nat)
    requires InOrder(points) && points != [] && points[0].month <= t
    ensures LastOnOrBefore(points, t, i)
  {
    i := |points| - 1;
    while t < points[i].month
      invariant i < |points| && (i + 1 < |points| ==> t < points[i + 1].month)
      decreases i
    {
      i := i - 1;
    }
  }

  lemma InsideLinear(points: seq<SchedulePoint>, t: nat, k: nat)
    requires InOrder(points) && LastBefore(points, t, k) && points[0].month < t < points[|points| - 1].month
    ensures InterpolatePoints(points, t, true) == OnLine(points[k], points[k + 1], t)
  {
    SegmentFound(points, t, true, k, 0);
  }

  /** Linear interpolation stays between two neighbouring points of different months and meets both.
      Where a month is listed several times it comes in to the first of them and leaves from the
      last; at the last month it takes the last. */
  lemma LinearBetweenKnots(points: seq<SchedulePoint>, t: nat, i: nat)
    requires InOrder(points) && i + 1 < |points|
    requires points[i].month <= t <= points[i + 1].month && points[i].month < points[i + 1].month
    requires t == points[i].month ==> i == 0 || points[i - 1].month < t
    requires t == points[i + 1].month ==> t < points[|points| - 1].month || i + 2 == |points|
    ensures var v := InterpolatePoints(points, t, true);
            && Min(points[i].value, points[i + 1].value) <= v <= Max(points[i].value, points[i + 1].value)
            && (t == points[i].month ==> v == points[i].value)
            && (t == points[i + 1].month ==> v == points[i + 1].value)
  {
    assert points[0].month <= points[i].month && points[i + 1].month <= points[|points| - 1].month;
    if points[0].month < t < points[|points| - 1].month {
      var k := if t == points[i].month then i - 1 else i;
      InsideLinear(points, t, k);
      OnSegment(points[k], points[k + 1], t);
    } else if t <= points[0].month {
      FirstMonth(points, t, i);
    }
  }

  lemma FirstMonth(points: seq<SchedulePoint>, t: nat, i: nat)
    requires InOrder(points) && i + 1 < |points| && points[0].month == t == points[i].month
    requires i == 0 || points[i - 1].month < t
    ensures i == 0
  {
  }

  /** Going the part frac of the way by gap. */
  lemma PartOfTheWay(frac: real, gap: real)
    requires 0.0 <= frac <= 1.0
    ensures Min(0.0, gap) <= frac * gap <= Max(0.0, gap)
    ensures frac == 1.0 ==> frac * gap == gap
  {
    if gap >= 0.0 {
      MulMono(0.0, frac, gap);
      MulMono(frac, 1.0, gap);
    } else {
      MulMono(0.0, frac, -gap);
      MulMono(frac, 1.0, -gap);
    }
  }

  lemma OnSegment(p: SchedulePoint, q: SchedulePoint, t: nat)
    requires p.month < q.month && p.month <= t <= q.month
    ensures Min(p.value, q.value) <= OnLine(p, q, t) <= Max(p.value, q.value)
    ensures t == q.month ==> OnLine(p, q, t) == q.value
  {
    var frac := (t - p.month) as real / (q.month - p.month) as real;
    QuotientInUnit((t - p.month) as real, (q.month - p.month) as real);
    PartOfTheWay(frac, q.value - p.value);
  }

  /** Where a stepwise ramp still stands in month t: at the first point if that is its month, else at
      the last point before t, unless the schedule ends with t. */
  predicate StandsAt(points: seq<SchedulePoint>, t: nat, i: nat)
    requires i < |points|
  {
    if points[0].month == t then i == 0
    else LastBefore(points, t, i) && points[i + 1].month == t < points[|points| - 1].month
  }

  /** Month t is listed, and the value last listed for it is not that at which the ramp stands. */
  predicate JumpsAt(points: seq<SchedulePoint>, t: nat) {
    exists i, j | 0 <= i < j < |points| ::
      StandsAt(points, t, i) && LastOnOrBefore(points, t, j) && points[j].month == t && points[i].value != points[j].value
  }

  lemma LastIsUnique(points: seq<SchedulePoint>, t: nat, i: nat, j: nat)
    requires InOrder(points) && LastOnOrBefore(points, t, i) && LastOnOrBefore(points, t, j)
    ensures i == j
  {
  }

  lemma BeforeIsUnique(points: seq<SchedulePoint>, t: nat, i: nat, j: nat)
    requires InOrder(points) && LastBefore(points, t, i) && LastBefore(points, t, j)
    ensures i == j
  {
  }

  /** In the month of the first point the ramp is at that point, the step schedule at the last one of
      the month. */
  lemma AtTheFirstMonth(points: seq<SchedulePoint>, t: nat)
    requires InOrder(points) && points != [] && points[0].month == t
    ensures InterpolatePoints(points, t, false) == StepPoints(points, t) <==> !JumpsAt(points, t)
  {
    var j := LastOf(points, t);
    LastReachedAt(points, t, points[0].value, j);
    assert points[0].month <= points[j].month;
    forall k | 0 <= k < |points| && LastOnOrBefore(points, t, k)
      ensures k == j
    {
      LastIsUnique(points, t, j, k);
    }
    if points[0].value != points[j].value {
      assert StandsAt(points, t, 0);
    }
  }

  lemma StrictlyInside(points: seq<SchedulePoint>, t: nat)
    requires InOrder(points) && points != [] && points[0].month < t < points[|points| - 1].month
    ensures InterpolatePoints(points, t, false) == StepPoints(points, t) <==> !JumpsAt(points, t)
  {
    var i := SegmentOf(points, t);
    var j := LastOf(points, t);
    SegmentFound(points, t, false, i, 0);
    LastReachedAt(points, t, points[0].value, j);
    forall k | 0 <= k < |points| && LastOnOrBefore(points, t, k)
      ensures k == j
    {
      LastIsUnique(points, t, j, k);
    }
    forall k: nat | LastBefore(points, t, k)
      ensures k == i
    {
      BeforeIsUnique(points, t, i, k);
    }
    if points[j].month == t {
      assert i < j;
      assert points[i + 1].month <= points[j].month;
    } else {
      assert LastBefore(points, t, j);
    }
  }

  /** A ramp with step interpolation agrees with a step schedule over the same points except exactly
      where the value jumps: it is one period late there, and does not see repeated months. */
  lemma StepwiseRampIsLateAtJumps(points: seq<SchedulePoint>, t: nat)
    requires InOrder(points)
    ensures InterpolatePoints(points, t, false) == StepPoints(points, t) <==> !JumpsAt(points, t)
  {
    if points == [] {
    } else if t < points[0].month {
      NothingReached(points, t, points[0].value);
    } else if t == points[0].month {
      AtTheFirstMonth(points, t);
    } else if t >= points[|points| - 1].month {
      LastReachedAt(points, t, points[0].value, |points| - 1);
    } else {
      StrictlyInside(points, t);
    }
  }

  /** A point strictly inside the schedule whose value differs from the one before: the ramp still
      shows that one. */
  lemma LateExample(a: SchedulePoint, b: SchedulePoint, c: SchedulePoint)
    requires a.month < b.month < c.month && a.value != b.value
    ensures InterpolatePoints([a, b, c], b.month, false) == a.value
    ensures StepPoints([a, b, c], b.month) == b.value
  {
    var points := [a, b, c];
    SegmentFound(points, b.month, false, 0, 0);
    LastReachedAt(points, b.month, a.value, 1);
  }

  /** At a last month listed twice the two agree, although the value jumped before. */
  lemma RepeatedLastMonthExample(a: SchedulePoint, b: SchedulePoint, c: SchedulePoint)
    requires a.month < b.month == c.month
    ensures InterpolatePoints([a, b, c], b.month, false) == c.value == StepPoints([a, b, c], b.month)
  {
    LastReachedAt([a, b, c], b.month, a.value, 2);
  }

  /** At a first month listed twice they do not, if the values differ. */
  lemma RepeatedFirstMonthExample(a: SchedulePoint, b: SchedulePoint, c: SchedulePoint)
    requires a.month == b.month < c.month && a.value != b.value
    ensures InterpolatePoints([a, b, c], a.month, false) == a.value != b.value == StepPoints([a, b, c], a.month)
  {
    LastReachedAt([a, b, c], a.month, a.value, 1);
  }

  lemma {:induction false} NothingReached(points: seq<SchedulePoint>, t: nat, default: real)
    requires forall i | 0 <= i < |points| :: t < points[i].month
    ensures LastReached(points, t, default) == default
  {
    if points != [] {
      NothingReached(points[..|points| - 1], t, default);
    }
  }

  // ----- The value of a driver in a period -----

  function ResolveDriver(d: DriverValue, t: nat): real {
    match d.valueType
    case Ramp =>
      if d.schedule.Some? && d.schedule.value != [] then
        InterpolateSchedule(d.schedule.value, t, d.interpolation == Linear)
      else
        ValueOr0(d.value)
    case Step =>
      if d.schedule.Some? && d.schedule.value != [] then StepPoints(ByMonth(d.schedule.value), t)
      else ValueOr0(d.value)
    case Seasonal =>
      if d.seasonalFactors.Some? && |d.seasonalFactors.value| >= 12 then
        ValueOr0(d.value) * d.seasonalFactors.value[t % 12]
      else
        ValueOr0(d.value)
    case ConstantValue => ValueOr0(d.value)
  }

  /** So a driver with a stepwise ramp has the value of one with a step schedule, whatever order its
      points are listed in, except exactly where the sorted points jump. */
  lemma RampDriverIsLateAtJumps(d: DriverValue, t: nat)
    requires d.valueType == Ramp && d.interpolation != Linear
    ensures ResolveDriver(d, t) == ResolveDriver(d.(valueType := Step), t)
       <==> !(d.schedule.Some? && JumpsAt(ByMonth(d.schedule.value), t))
  {
    if d.schedule.Some? {
      ByMonthInOrder(d.schedule.value);
      StepwiseRampIsLateAtJumps(ByMonth(d.schedule.value), t);
    }
  }

  /** The scaling of a volume driver of a stream launched in month launch. */
  function RampFactor(rs: RevenueStream, launch: nat, t: nat, exp: Exponential): real {
    if t < launch then 0.0
    else if rs.rampUpMonths.Some? && rs.rampUpMonths.value != 0 && t < launch + rs.rampUpMonths.value then
      var elapsed, total := (t - launch) as real, rs.rampUpMonths.value as real;
      match rs.rampCurve
      case LinearCurve => (elapsed + 1.0) / total
      case SCurve => SCurveFactor((elapsed + 0.5) / total, exp)
      case StepCurve => 0.0
    else 1.0
  }

  /** The ramp applies in period t. */
  predicate Ramping(rs: RevenueStream, launch: nat, t: nat) {
    rs.rampUpMonths.Some? && launch <= t < launch + rs.rampUpMonths.value
  }

  function SCurveFactor(x: real, exp: Exponential): real {
    1.0 / (1.0 + exp(-6.0 * (2.0 * x - 1.0)))
  }

  lemma SCurveRises(x: real, y: real, exp: Exponential)
    requires x <= y && Increasing(exp)
    ensures 0.0 <= SCurveFactor(x, exp) <= SCurveFactor(y, exp) <= 1.0
  {
    var u, v := -6.0 * (2.0 * y - 1.0), -6.0 * (2.0 * x - 1.0);
    ReciprocalAntitone(1.0 + exp(u), 1.0 + exp(v));
    ReciprocalAntitone(1.0, 1.0 + exp(u));
  }

  lemma RampFactorBounds(rs: RevenueStream, launch: nat, t: nat, exp: Exponential)
    requires Increasing(exp)
    ensures 0.0 <= RampFactor(rs, launch, t, exp) <= 1.0
  {
    if Ramping(rs, launch, t) {
      var e, n := (t - launch) as real, rs.rampUpMonths.value as real;
      QuotientInUnit(e + 1.0, n);
      SCurveRises((e + 0.5) / n, (e + 0.5) / n, exp);
    }
  }

  /** Whatever the curve, the factor rises from 0 to 1 and never falls. */
  lemma RampFactorRises(rs: RevenueStream, launch: nat, t: nat, exp: Exponential)
    requires Increasing(exp)
    ensures 0.0 <= RampFactor(rs, launch, t, exp) <= RampFactor(rs, launch, t + 1, exp) <= 1.0
  {
    RampFactorBounds(rs, launch, t, exp);
    RampFactorBounds(rs, launch, t + 1, exp);
    if Ramping(rs, launch, t) && Ramping(rs, launch, t + 1) {
      var e, n := (t - launch) as real, rs.rampUpMonths.value as real;
      DivMono(e + 1.0, e + 2.0, n);
      DivMono(e + 0.5, e + 1.5, n);
      SCurveRises((e + 0.5) / n, (e + 1.5) / n, exp);
    }
  }

  // ----- Drivers by reference -----

  datatype Assumptions = Assumptions(
    revenueStreams: seq<RevenueStream>,
    variableCosts: seq<DriverValue>,
    fixedCosts: seq<DriverValue>,
    arDays: DriverValue,
    apDays: DriverValue,
    invDays: DriverValue)

  function StreamDrivers(streams: seq<RevenueStream>): seq<DriverValue> {
    if streams == [] then []
    else
      var rs := streams[|streams| - 1];
      StreamDrivers(streams[..|streams| - 1]) + (rs.volume + rs.pricing + rs.directCosts)
  }

  function AllDrivers(a: Assumptions): seq<DriverValue> {
    StreamDrivers(a.revenueStreams) + (a.variableCosts + a.fixedCosts) + [a.arDays, a.apDays, a.invDays]
  }

  /** Later drivers replace earlier ones of the same reference. */
  function DriverMap(ds: seq<DriverValue>): map<string, DriverValue> {
    if ds == [] then map[]
    else
      var last := ds[|ds| - 1];
      DriverMap(ds[..|ds| - 1])[last.ref := last]
  }

  lemma {:induction false} DriverMapAppend(a: seq<DriverValue>, b: seq<DriverValue>)
    ensures DriverMap(a + b) == DriverMap(a) + DriverMap(b)
  {
    if b == [] {
      assert a + b == a;
    } else {
      assert (a + b)[..|a + b| - 1] == a + b[..|b| - 1];
      DriverMapAppend(a, b[..|b| - 1]);
    }
  }

  lemma {:induction false} DriverMapRefs(ds: seq<DriverValue>)
    ensures forall r | r in DriverMap(ds) :: DriverMap(ds)[r].ref == r
  {
    if ds != [] {
      DriverMapRefs(ds[..|ds| - 1]);
    }
  }

  method AddDrivers(byRef0: map<string, DriverValue>, ds: seq<DriverValue>) returns (byRef: map<string, DriverValue>)
    ensures byRef == byRef0 + DriverMap(ds)
  {
    byRef := byRef0;
    for i := 0 to |ds|
      invariant byRef == byRef0 + DriverMap(ds[..i])
    {
      assert ds[..i + 1][..i] == ds[..i];
      byRef := byRef[ds[i].ref := ds[i]];
    }
    assert ds[..|ds|] == ds;
  }

  method CollectDriverValuesByRef(a: Assumptions) returns (byRef: map<string, DriverValue>)
    ensures byRef == DriverMap(AllDrivers(a))
  {
    byRef := map[];
    for i := 0 to |a.revenueStreams|
      invariant byRef == DriverMap(StreamDrivers(a.revenueStreams[..i]))
    {
      var rs := a.revenueStreams[i];
      assert a.revenueStreams[..i + 1][..i] == a.revenueStreams[..i];
      DriverMapAppend(StreamDrivers(a.revenueStreams[..i]), rs.volume + rs.pricing + rs.directCosts);
      byRef := AddDrivers(byRef, rs.volume + rs.pricing + rs.directCosts);
    }
    assert a.revenueStreams[..|a.revenueStreams|] == a.revenueStreams;
    var costs, days := a.variableCosts + a.fixedCosts, [a.arDays, a.apDays, a.invDays];
    DriverMapAppend(StreamDrivers(a.revenueStreams), costs);
    DriverMapAppend(StreamDrivers(a.revenueStreams) + costs, days);
    byRef := AddDrivers(byRef, costs);
    byRef := AddDrivers(byRef, days);
  }

  /** For each volume driver reference, the last launched stream that carries it. */
  function LaunchMap(streams: seq<RevenueStream>): map<string, RevenueStream> {
    if streams == [] then map[]
    else
      var rs := streams[|streams| - 1];
      var earlier := LaunchMap(streams[..|streams| - 1]);
      if rs.launchMonth.None? then earlier else WithStream(earlier, rs, rs.volume)
  }

  function WithStream(m: map<string, RevenueStream>, rs: RevenueStream, ds: seq<DriverValue>): map<string, RevenueStream> {
    if ds == [] then m
    else WithStream(m, rs, ds[..|ds| - 1])[ds[|ds| - 1].ref := rs]
  }

  ghost predicate RampTable(
    factors: map<string, seq<real>>, launches: map<string, RevenueStream>, horizon: nat, exp: Exponential)
  {
    && factors.Keys == launches.Keys
    && (forall r | r in factors :: IsRamp(factors[r], launches[r], horizon, exp))
  }

  ghost predicate IsRamp(factors: seq<real>, rs: RevenueStream, horizon: nat, exp: Exponential) {
    && rs.launchMonth.Some?
    && |factors| == horizon
    && (forall t: nat | t < horizon :: factors[t] == RampFactor(rs, rs.launchMonth.value, t, exp))
  }

  method RampScale(rs: RevenueStream, horizon: nat, exp: Exponential) returns (scale: seq<real>)
    requires rs.launchMonth.Some?
    ensures IsRamp(scale, rs, horizon, exp)
  {
    scale := seq(horizon, _ => 0.0);
    for t := 0 to horizon
      invariant |scale| == horizon
      invariant forall u: nat | u < t :: scale[u] == RampFactor(rs, rs.launchMonth.value, u, exp)
    {
      scale := scale[t := RampFactor(rs, rs.launchMonth.value, t, exp)];
    }
  }

  lemma RampTableWith(factors: map<string, seq<real>>, launches: map<string, RevenueStream>, scale: seq<real>,
                      rs: RevenueStream, ds: seq<DriverValue>, j: nat, horizon: nat, exp: Exponential)
    requires j < |ds| && IsRamp(scale, rs, horizon, exp)
    requires RampTable(factors, WithStream(launches, rs, ds[..j]), horizon, exp)
    ensures RampTable(factors[ds[j].ref := scale], WithStream(launches, rs, ds[..j + 1]), horizon, exp)
  {
    assert ds[..j + 1][..j] == ds[..j];
  }

  method AddStreamRamps(factors0: map<string, seq<real>>, ghost launches: map<string, RevenueStream>,
                        rs: RevenueStream, horizon: nat, exp: Exponential)
    returns (factors: map<string, seq<real>>)
    requires rs.launchMonth.Some?
    requires RampTable(factors0, launches, horizon, exp)
    ensures RampTable(factors, WithStream(launches, rs, rs.volume), horizon, exp)
  {
    factors := factors0;
    assert WithStream(launches, rs, rs.volume[..0]) == launches;
    for j := 0 to |rs.volume|
      invariant RampTable(factors, WithStream(launches, rs, rs.volume[..j]), horizon, exp)
    {
      var scale := RampScale(rs, horizon, exp);
      RampTableWith(factors, launches, scale, rs, rs.volume, j, horizon, exp);
      factors := factors[rs.volume[j].ref := scale];
    }
    assert rs.volume[..|rs.volume|] == rs.volume;
  }

  method BuildRampFactors(streams: seq<RevenueStream>, horizon: nat, exp: Exponential)
    returns (factors: map<string, seq<real>>)
    ensures RampTable(factors, LaunchMap(streams), horizon, exp)
  {
    factors := map[];
    for i := 0 to |streams|
      invariant RampTable(factors, LaunchMap(streams[..i]), horizon, exp)
    {
      var rs := streams[i];
      assert streams[..i + 1][..i] == streams[..i];
      if rs.launchMonth.None? {
        continue;
      }
      factors := AddStreamRamps(factors, LaunchMap(streams[..i]), rs, horizon, exp);
    }
    assert streams[..|streams|] == streams;
  }

  // ----- Scenario overrides -----

  datatype OverrideField = OverrideValue | OverrideMultiplier

  datatype ScenarioOverride = ScenarioOverride(ref: string, field: OverrideField, value: real)

  function ApplyOverride(d: DriverValue, ov: ScenarioOverride): DriverValue {
    if ov.field == OverrideValue then
      d.(value := Some(ov.value), valueType := ConstantValue, schedule := None)
    else if d.valueType == ConstantValue && d.value.Some? then
      d.(value := Some(d.value.value * ov.value))
    else
      d
  }

  /** What a driver becomes under the overrides that name it, in list order. */
  function Overridden(d: DriverValue, ovs: seq<ScenarioOverride>): DriverValue {
    if ovs == [] then d
    else
      var last := ovs[|ovs| - 1];
      var before := Overridden(d, ovs[..|ovs| - 1]);
      if last.ref == d.ref then ApplyOverride(before, last) else before
  }

  function OverriddenMap(drivers: map<string, DriverValue>, ovs: seq<ScenarioOverride>): map<string, DriverValue> {
    map r | r in drivers :: Overridden(drivers[r], ovs)
  }

  method ApplyOverrides(drivers: map<string, DriverValue>, ovs: seq<ScenarioOverride>)
    returns (result: map<string, DriverValue>)
    requires forall r | r in drivers :: drivers[r].ref == r
    ensures result == OverriddenMap(drivers, ovs)
  {
    result := drivers;
    for i := 0 to |ovs|
      invariant result == OverriddenMap(drivers, ovs[..i])
    {
      assert ovs[..i + 1][..i] == ovs[..i];
      var ov := ovs[i];
      if ov.ref in result {
        result := result[ov.ref := ApplyOverride(result[ov.ref], ov)];
      }
    }
    assert ovs[..|ovs|] == ovs;
  }

  /** The product of the multipliers on ref. */
  function Multipliers(ovs: seq<ScenarioOverride>, ref: string): real {
    if ovs == [] then 1.0
    else
      var last := ovs[|ovs| - 1];
      Multipliers(ovs[..|ovs| - 1], ref)
      * (if last.ref == ref && last.field == OverrideMultiplier then last.value else 1.0)
  }

  predicate Names(ovs: seq<ScenarioOverride>, ref: string, field: OverrideField) {
    exists ov | ov in ovs :: ov.ref == ref && ov.field == field
  }

  lemma NamesSnoc(ovs: seq<ScenarioOverride>, ref: string, field: OverrideField)
    requires ovs != []
    ensures var last := ovs[|ovs| - 1];
            Names(ovs, ref, field) <==>
            Names(ovs[..|ovs| - 1], ref, field) || (last.ref == ref && last.field == field)
  {
    var init, last := ovs[..|ovs| - 1], ovs[|ovs| - 1];
    assert ovs == init + [last];
    assert last in ovs;
    assert forall ov | ov in init :: ov in ovs;
  }

  /** A constant driver worth x. */
  predicate Worth(d: DriverValue, x: real) {
    d.valueType == ConstantValue && d.value.Some? && d.value.value == x
  }

  lemma MultiplierScales(d: DriverValue, last: ScenarioOverride, x: real, y: real)
    requires Worth(d, x) && last.field == OverrideMultiplier && y == x * last.value
    ensures Worth(ApplyOverride(d, last), y)
  {
  }

  lemma {:induction false} LastValueStands(d: DriverValue, before: seq<ScenarioOverride>, ov: ScenarioOverride,
                                           after: seq<ScenarioOverride>)
    requires ov.ref == d.ref && ov.field == OverrideValue
    requires !Names(after, d.ref, OverrideValue)
    ensures Worth(Overridden(d, before + [ov] + after), ov.value * Multipliers(after, d.ref))
  {
    var ovs := before + [ov] + after;
    if after == [] {
      assert ovs[..|ovs| - 1] == before;
    } else {
      var init, last := after[..|after| - 1], after[|after| - 1];
      NamesSnoc(after, d.ref, OverrideValue);
      assert ovs[..|ovs| - 1] == before + [ov] + init && ovs[|ovs| - 1] == last;
      LastValueStands(d, before, ov, init);
      if last.ref == d.ref {
        MulAssoc(ov.value, Multipliers(init, d.ref), last.value);
        MultiplierScales(Overridden(d, before + [ov] + init), last, ov.value * Multipliers(init, d.ref),
                         ov.value * Multipliers(after, d.ref));
      }
    }
  }

  /** In every period an overridden driver is worth the last value override times the
      multipliers after it, whatever kind of driver it was. */
  lemma LastValueOverrideWins(d: DriverValue, before: seq<ScenarioOverride>, ov: ScenarioOverride,
                              after: seq<ScenarioOverride>, t: nat)
    requires ov.ref == d.ref && ov.field == OverrideValue
    requires !Names(after, d.ref, OverrideValue)
    ensures Worth(Overridden(d, before + [ov] + after), ov.value * Multipliers(after, d.ref))
    ensures ResolveDriver(Overridden(d, before + [ov] + after), t) == ov.value * Multipliers(after, d.ref)
  {
    LastValueStands(d, before, ov, after);
  }

  /** Without a value override, a constant driver is scaled and any other is left alone. */
  lemma {:induction false} MultipliersScaleConstantsOnly(d: DriverValue, ovs: seq<ScenarioOverride>, t: nat)
    requires !Names(ovs, d.ref, OverrideValue)
    ensures d.valueType != ConstantValue ==> Overridden(d, ovs) == d
    ensures d.valueType == ConstantValue ==>
              && Overridden(d, ovs).valueType == ConstantValue
              && Overridden(d, ovs).value.Some? == d.value.Some?
              && ResolveDriver(Overridden(d, ovs), t) == ResolveDriver(d, t) * Multipliers(ovs, d.ref)
  {
    if ovs != [] {
      NamesSnoc(ovs, d.ref, OverrideValue);
      MultipliersScaleConstantsOnly(d, ovs[..|ovs| - 1], t);
    }
  }
}

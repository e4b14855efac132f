/**
 * The driver rating: history counters, the 0 to 5 score with `Math.round`, and the
 * thresholds below which a driver is suspended. Numbers are exact rationals.
 */
module DriverRating {
  import opened Common
  import opened DeliveryStatuses
  import opened Rounding

  const MAX_RATING := 5.0
  const MIN_RATING := 0.0
  const LATE_DELIVERY_PENALTY := 2.0
  const CANCELLATION_PENALTY := 3.0
  /** One plus the grace ratio of a tenth. */
  const GRACE_MULTIPLIER := 1.1
  const SUSPENSION_RATING_THRESHOLD := 2.0
  const SUSPENSION_DURATION_DAYS := 7
  const SEVERE_RATING_THRESHOLD := 1.0
  const SEVERE_SUSPENSION_DURATION_DAYS := 30
  const MIN_COMPLETED_FOR_PENALTY := 5
  const MILLIS_PER_DAY := 86_400_000

  // ------------------------------------------------------------------------ history

  datatype Trip = Trip(status: Status, estimated: Option<real>, actual: Option<real>)

  datatype Metrics = Metrics(completed: nat, delayed: nat, cancelled: nat, total: nat)

  predicate IsLate(t: Trip) {
    t.status == Completed && Or(t.actual, -1.0) > Or(t.estimated, 0.0) * GRACE_MULTIPLIER
  }

  function Count(b: bool): nat {
    if b then 1 else 0
  }

  /** One more trip in the counters of the history aggregation. */
  function Tally(m: Metrics, status: Status, late: bool): Metrics {
    var done, dropped := Count(status == Completed), Count(status == Cancelled);
    Metrics(m.completed + done, m.delayed + Count(late), m.cancelled + dropped, m.total + done + dropped)
  }

  function CollectMetrics(trips: seq<Trip>): Metrics {
    if trips == [] then Metrics(0, 0, 0, 0)
    else Tally(CollectMetrics(trips[1..]), trips[0].status, IsLate(trips[0]))
  }

  /** What the rating formula relies on. */
  predicate Sane(m: Metrics) {
    m.delayed <= m.completed && m.total == m.completed + m.cancelled
  }

  lemma {:induction false} CollectedMetricsAreSane(trips: seq<Trip>)
    ensures Sane(CollectMetrics(trips))
    ensures CollectMetrics(trips).total <= |trips|
  {
    if trips != [] {
      CollectedMetricsAreSane(trips[1..]);
      LateMeansCompleted(trips[0]);
      TallyIsSane(CollectMetrics(trips[1..]), trips[0].status, IsLate(trips[0]));
    }
  }

  lemma TallyIsSane(m: Metrics, status: Status, late: bool)
    requires Sane(m) && (late ==> status == Completed)
    ensures Sane(Tally(m, status, late)) && Tally(m, status, late).total <= m.total + 1
  {
  }

  lemma LateMeansCompleted(t: Trip)
    ensures IsLate(t) ==> t.status == Completed
  {
  }

  /**
   * A completed trip without an estimate is late as soon as it took any time at all; one
   * without an actual duration is late only for an estimate below -1 over the multiplier.
   */
  lemma MissingDurations(t: Trip)
    requires t.status == Completed
    ensures t.estimated.None? ==> (IsLate(t) <==> t.actual.Some? && t.actual.value > 0.0)
    ensures t.actual.None? ==> (IsLate(t) <==> t.estimated.Some? && t.estimated.value * GRACE_MULTIPLIER < -1.0)
  {
  }

  // ------------------------------------------------------------------------- rating

  function Rate(part: nat, whole: nat): real {
    if whole > 0 then part as real / whole as real else 0.0
  }

  function RawRating(m: Metrics): real {
    MAX_RATING - Rate(m.delayed, m.completed) * LATE_DELIVERY_PENALTY
      - Rate(m.cancelled, m.total) * CANCELLATION_PENALTY
  }

  function ClampRating(value: real): real {
    var low := if value > MIN_RATING then value else MIN_RATING;
    if low < MAX_RATING then low else MAX_RATING
  }

  function ComputeDriverRating(m: Metrics): real {
    Round2(ClampRating(RawRating(m)))
  }

  datatype Suspension = Suspension(until: int, severe: bool)

  function ResolveSuspension(rating: real, completed: nat, now: int): Option<Suspension> {
    if completed < MIN_COMPLETED_FOR_PENALTY then None
    else if rating >= SUSPENSION_RATING_THRESHOLD then None
    else
      var severe := rating <= SEVERE_RATING_THRESHOLD;
      var days := if severe then SEVERE_SUSPENSION_DURATION_DAYS else SUSPENSION_DURATION_DAYS;
      Some(Suspension(now + days * MILLIS_PER_DAY, severe))
  }

  // ------------------------------------------------------------- arithmetic helpers

  lemma RateBounds(part: nat, whole: nat)
    requires part <= whole
    ensures 0.0 <= Rate(part, whole) <= 1.0
    ensures Rate(part, whole) * whole as real == part as real
  {
    if whole > 0 {
      Quotient(part as real, whole as real);
      if Rate(part, whole) > 1.0 { Scale(1.0, Rate(part, whole), whole as real); }
    }
  }

  lemma Quotient(a: real, b: real)
    requires a >= 0.0 && b > 0.0
    ensures a / b * b == a && a / b >= 0.0
  {
  }

  lemma Scale(a: real, b: real, c: real)
    requires c > 0.0
    ensures a < b <==> a * c < b * c
  {
    if a < b { assert (b - a) * c > 0.0; }
    if a > b { assert (a - b) * c > 0.0; }
  }

  /** Comparing fractions is comparing cross products. */
  lemma RateOrder(a: nat, b: nat, c: nat, d: nat)
    requires b > 0 && d > 0
    ensures Rate(a, b) < Rate(c, d) <==> a * d < c * b
  {
    var x, y := Rate(a, b), Rate(c, d);
    var rb, rd := b as real, d as real;
    Quotient(a as real, rb);
    Quotient(c as real, rd);
    Scale(x, y, rb * rd);
    assert x * (rb * rd) == (x * rb) * rd;
    assert y * (rb * rd) == (y * rd) * rb;
    assert (a as real) * rd == (a * d) as real;
    assert (c as real) * rb == (c * b) as real;
  }

  // ----------------------------------------------------------------------- the score

  /** On counters of a history the formula stays within 0 and 5 by itself. */
  lemma ClampNeverActs(m: Metrics)
    requires Sane(m)
    ensures MIN_RATING <= RawRating(m) <= MAX_RATING
    ensures ClampRating(RawRating(m)) == RawRating(m)
  {
    RateBounds(m.delayed, m.completed);
    RateBounds(m.cancelled, m.total);
  }

  lemma RatingIsInRange(trips: seq<Trip>)
    ensures MIN_RATING <= ComputeDriverRating(CollectMetrics(trips)) <= MAX_RATING
  {
    CollectedMetricsAreSane(trips);
    var m := CollectMetrics(trips);
    ClampNeverActs(m);
    RoundingIsMonotone(0.0, RawRating(m));
    RoundingIsMonotone(RawRating(m), 5.0);
  }

  /** One more completed delivery, on time, never lowers the rating. */
  lemma OnTimeNeverLowers(m: Metrics)
    requires Sane(m)
    ensures ComputeDriverRating(m.(completed := m.completed + 1, total := m.total + 1)) >= ComputeDriverRating(m)
  {
    var better := m.(completed := m.completed + 1, total := m.total + 1);
    ClampNeverActs(m);
    ClampNeverActs(better);
    RateFalls(m.delayed, m.completed);
    RateFalls(m.cancelled, m.total);
    RoundingIsMonotone(RawRating(m), RawRating(better));
  }

  /** The same part of a larger whole. */
  lemma RateFalls(part: nat, whole: nat)
    requires part <= whole
    ensures Rate(part, whole + 1) <= Rate(part, whole)
  {
    if whole > 0 {
      RateOrder(part, whole, part, whole + 1);
      assert part * (whole + 1) == part * whole + part;
    }
  }

  /** Part and whole grow together. */
  lemma RateRises(part: nat, whole: nat)
    requires part <= whole
    ensures Rate(part, whole) <= Rate(part + 1, whole + 1)
  {
    if whole > 0 {
      RateOrder(part + 1, whole + 1, part, whole);
      assert part * (whole + 1) == part * whole + part;
      assert (part + 1) * whole == part * whole + whole;
    } else {
      RateBounds(part + 1, whole + 1);
    }
  }

  /** One more cancellation never raises it. */
  lemma CancellationNeverRaises(m: Metrics)
    requires Sane(m)
    ensures ComputeDriverRating(m.(cancelled := m.cancelled + 1, total := m.total + 1)) <= ComputeDriverRating(m)
  {
    var worse := m.(cancelled := m.cancelled + 1, total := m.total + 1);
    ClampNeverActs(m);
    ClampNeverActs(worse);
    RateRises(m.cancelled, m.total);
    RoundingIsMonotone(RawRating(worse), RawRating(m));
  }

  // --------------------------------------------------------------------- suspension

  /** Twice the late rate plus three times the cancellation rate, cleared of denominators. */
  function Burden(m: Metrics): int {
    2000 * m.delayed * m.total + 3000 * m.cancelled * m.completed
  }

  lemma RawRatingCleared(m: Metrics, millis: int)
    requires Sane(m) && m.completed > 0
    ensures RawRating(m) < millis as real / 1000.0 <==> (5000 - millis) * m.completed * m.total < Burden(m)
  {
    var late, dropped := Rate(m.delayed, m.completed), Rate(m.cancelled, m.total);
    var c, t := m.completed as real, m.total as real;
    RateBounds(m.delayed, m.completed);
    RateBounds(m.cancelled, m.total);
    var load := 2000.0 * late + 3000.0 * dropped;
    assert RawRating(m) < millis as real / 1000.0 <==> (5000 - millis) as real < load;
    assert c * t > 0.0;
    Scale((5000 - millis) as real, load, c * t);
    ClearedLoad(late, dropped, c, t, m.delayed as real, m.cancelled as real);
    assert (5000 - millis) as real * (c * t) == ((5000 - millis) * m.completed * m.total) as real;
    assert 2000.0 * (m.delayed as real) * t == (2000 * m.delayed * m.total) as real;
    assert 3000.0 * (m.cancelled as real) * c == (3000 * m.cancelled * m.completed) as real;
  }

  lemma ClearedLoad(late: real, dropped: real, c: real, t: real, delayed: real, cancelled: real)
    requires late * c == delayed && dropped * t == cancelled
    ensures (2000.0 * late + 3000.0 * dropped) * (c * t) == 2000.0 * delayed * t + 3000.0 * cancelled * c
  {
    assert late * (c * t) == (late * c) * t;
    assert dropped * (c * t) == (dropped * t) * c;
    assert (2000.0 * late + 3000.0 * dropped) * (c * t) == 2000.0 * (late * (c * t)) + 3000.0 * (dropped * (c * t));
  }

  /** Exactly who is suspended, and for how long, in terms of the counters. */
  lemma SuspensionExactly(m: Metrics, now: int)
    requires Sane(m)
    ensures var s := ResolveSuspension(ComputeDriverRating(m), m.completed, now);
            && (s.Some? <==> m.completed >= 5 && 3005 * m.completed * m.total < Burden(m))
            && (s.Some? ==>
                 && (s.value.severe <==> 3995 * m.completed * m.total < Burden(m))
                 && s.value.until == now + (if s.value.severe then 30 else 7) * MILLIS_PER_DAY)
  {
    if m.completed >= 5 {
      ClampNeverActs(m);
      RoundingThreshold(RawRating(m), 200);
      RoundingThreshold(RawRating(m), 101);
      RoundedIsHundredths(RawRating(m));
      RawRatingCleared(m, 1995);
      RawRatingCleared(m, 1005);
    }
  }

  /** A rounded value above 1 is at least 1.01. */
  lemma RoundedIsHundredths(x: real)
    ensures Round2(x) <= 1.0 <==> Round2(x) < 101 as real / 100.0
  {
  }

  /**
   * A suspended driver has completed at least five deliveries and cancelled more than
   * 67 for every 133 completed; a severely suspended one the other way round.
   */
  lemma SuspensionNeedsCancellations(m: Metrics, now: int)
    requires Sane(m)
    ensures var s := ResolveSuspension(ComputeDriverRating(m), m.completed, now);
            s.Some? ==>
              && m.completed >= 5
              && 133 * m.cancelled > 67 * m.completed
              && (s.value.severe ==> 67 * m.cancelled > 133 * m.completed)
  {
    SuspensionExactly(m, now);
    if m.completed >= 5 {
      WorstLateness(m.delayed, m.completed, m.total);
      CommonFactor(3000 * m.cancelled, 1005 * m.total, m.completed);
      CommonFactor(3000 * m.cancelled, 1995 * m.total, m.completed);
      Regroup(m);
    }
  }

  /** The bound is tight: if every completed delivery is late, it decides the suspension. */
  lemma AllLateIsTight(m: Metrics, now: int)
    requires Sane(m) && m.delayed == m.completed && m.completed >= 5
    ensures var s := ResolveSuspension(ComputeDriverRating(m), m.completed, now);
            && (s.Some? <==> 133 * m.cancelled > 67 * m.completed)
            && (s.Some? ==> (s.value.severe <==> 67 * m.cancelled > 133 * m.completed))
  {
    SuspensionExactly(m, now);
    CommonFactor(3000 * m.cancelled, 1005 * m.total, m.completed);
    CommonFactor(3000 * m.cancelled, 1995 * m.total, m.completed);
    Regroup(m);
  }

  lemma WorstLateness(delayed: nat, completed: nat, total: nat)
    requires delayed <= completed
    ensures 2000 * delayed * total <= 2000 * completed * total
  {
    assert 2000 * completed * total - 2000 * delayed * total == 2000 * (completed - delayed) * total;
  }

  lemma CommonFactor(a: int, b: int, c: nat)
    requires c > 0
    ensures a > b <==> a * c > b * c
  {
    if a > b { PositiveProduct(a - b, c); } else if b > a { PositiveProduct(b - a, c); }
    assert (a - b) * c == a * c - b * c;
  }

  lemma PositiveProduct(a: int, b: int)
    requires a > 0 && b > 0
    ensures a * b > 0
  {
  }

  lemma Regroup(m: Metrics)
    ensures 3005 * m.completed * m.total == 2000 * m.completed * m.total + 1005 * m.total * m.completed
    ensures 3995 * m.completed * m.total == 2000 * m.completed * m.total + 1995 * m.total * m.completed
  {
    assert m.completed * m.total == m.total * m.completed;
    assert 3005 * m.completed * m.total == 3005 * (m.completed * m.total);
    assert 3995 * m.completed * m.total == 3995 * (m.completed * m.total);
    assert 2000 * m.completed * m.total == 2000 * (m.completed * m.total);
    assert 1005 * m.total * m.completed == 1005 * (m.total * m.completed);
    assert 1995 * m.total * m.completed == 1995 * (m.total * m.completed);
  }

  /** Lateness alone never suspends anybody. */
  lemma LatenessAloneNeverSuspends(trips: seq<Trip>, now: int)
    requires CollectMetrics(trips).cancelled == 0
    ensures var m := CollectMetrics(trips); ResolveSuspension(ComputeDriverRating(m), m.completed, now).None?
  {
    CollectedMetricsAreSane(trips);
    SuspensionNeedsCancellations(CollectMetrics(trips), now);
  }
}

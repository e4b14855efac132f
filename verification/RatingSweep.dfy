/**
 * The stored rating profiles: evaluating a driver, lifting lapsed suspensions, and the
 * sweep that does both for every driver with deliveries.
 */
module RatingSweep {
  import opened Common
  import opened DriverRating

  type DriverId = nat

  datatype Profile = Profile(
    rating: real, counters: Metrics, isSuspended: bool, suspendedUntil: Option<int>, lastRatingUpdate: Option<int>)

  type Profiles = map<DriverId, Profile>

  /**
   * One evaluation: the history it reads and the clock it sees. Without a history the
   * evaluation fails, be it for the id, the aggregation or the write.
   */
  datatype Evaluation = Evaluation(driver: DriverId, history: Option<seq<Trip>>, now: int)

  datatype Summary = Summary(processed: nat, updated: nat, suspended: nat, lifted: nat, failed: nat)

  /** The suspension the rating rule asks for. */
  function Penalty(e: Evaluation): Option<Suspension> {
    match e.history
    case None => None
    case Some(trips) =>
      var m := CollectMetrics(trips);
      ResolveSuspension(ComputeDriverRating(m), m.completed, e.now)
  }

  /** The profile written by an evaluation; an absent one starts from the defaults. */
  function Evaluated(profile: Option<Profile>, trips: seq<Trip>, now: int): Profile {
    var m := CollectMetrics(trips);
    var rating := ComputeDriverRating(m);
    match ResolveSuspension(rating, m.completed, now)
    case Some(s) => Profile(rating, m, true, Some(s.until), Some(now))
    case None =>
      if profile.Some?
      then Profile(rating, m, profile.value.isSuspended, profile.value.suspendedUntil, Some(now))
      else Profile(rating, m, false, None, Some(now))
  }

  function Evaluate(profiles: Profiles, e: Evaluation): Profiles {
    match e.history
    case None => profiles
    case Some(trips) =>
      var was := if e.driver in profiles then Some(profiles[e.driver]) else None;
      profiles[e.driver := Evaluated(was, trips, e.now)]
  }

  predicate Lapsed(p: Profile, now: int) {
    p.isSuspended && p.suspendedUntil.Some? && p.suspendedUntil.value <= now
  }

  function Lift(profiles: Profiles, now: int): Profiles {
    map d | d in profiles ::
      if Lapsed(profiles[d], now) then profiles[d].(isSuspended := false, suspendedUntil := None) else profiles[d]
  }

  function EvaluateAll(profiles: Profiles, evaluations: seq<Evaluation>): Profiles {
    if evaluations == [] then profiles
    else
      var n := |evaluations| - 1;
      Evaluate(EvaluateAll(profiles, evaluations[..n]), evaluations[n])
  }

  /** A sweep started at `t`. */
  function Sweep(profiles: Profiles, t: int, evaluations: seq<Evaluation>): Profiles {
    EvaluateAll(Lift(profiles, t), evaluations)
  }

  // --------------------------------------------------------------------- every run

  /** The flag and the end of a suspension are set and cleared together. */
  ghost predicate Consistent(profiles: Profiles) {
    forall d :: d in profiles ==> (profiles[d].isSuspended <==> profiles[d].suspendedUntil.Some?)
  }

  datatype Operation = Lifting(now: int) | Evaluating(evaluation: Evaluation)

  function Run(profiles: Profiles, operations: seq<Operation>): Profiles
    decreases |operations|
  {
    if operations == [] then profiles
    else
      match operations[0]
      case Lifting(now) => Run(Lift(profiles, now), operations[1..])
      case Evaluating(e) => Run(Evaluate(profiles, e), operations[1..])
  }

  /** In every run of sweeps and single evaluations a driver is suspended iff an end is set. */
  lemma {:induction false} RunsStayConsistent(profiles: Profiles, operations: seq<Operation>)
    requires Consistent(profiles)
    ensures Consistent(Run(profiles, operations))
    decreases |operations|
  {
    if operations != [] {
      match operations[0]
      case Lifting(now) => RunsStayConsistent(Lift(profiles, now), operations[1..]);
      case Evaluating(e) => RunsStayConsistent(Evaluate(profiles, e), operations[1..]);
    }
  }

  predicate IsSuspended(profiles: Profiles, d: DriverId) {
    d in profiles && profiles[d].isSuspended
  }

  /** The driver held a suspension that ends after `t`. */
  predicate HeldBeyond(profiles: Profiles, d: DriverId, t: int) {
    IsSuspended(profiles, d) && profiles[d].suspendedUntil.Some? && profiles[d].suspendedUntil.value > t
  }

  /** The rating rule fires for the driver in this sweep. */
  ghost predicate Fires(evaluations: seq<Evaluation>, d: DriverId) {
    exists i :: 0 <= i < |evaluations| && evaluations[i].driver == d && Penalty(evaluations[i]).Some?
  }

  lemma PenaltyEndsLater(e: Evaluation, t: int)
    requires e.now >= t && Penalty(e).Some?
    ensures Penalty(e).value.until > t
  {
  }

  lemma FiresOfSnoc(evaluations: seq<Evaluation>, d: DriverId)
    requires evaluations != []
    ensures var n := |evaluations| - 1;
            Fires(evaluations, d) <==>
            Fires(evaluations[..n], d) || (evaluations[n].driver == d && Penalty(evaluations[n]).Some?)
  {
    var n := |evaluations| - 1;
    if Fires(evaluations[..n], d) {
      var i :| 0 <= i < n && evaluations[..n][i].driver == d && Penalty(evaluations[..n][i]).Some?;
      assert evaluations[i] == evaluations[..n][i];
    }
    if Fires(evaluations, d) {
      var i :| 0 <= i < |evaluations| && evaluations[i].driver == d && Penalty(evaluations[i]).Some?;
      if i < n { assert evaluations[..n][i] == evaluations[i]; }
    }
  }

  /**
   * After a sweep started at `t` a driver is suspended iff the rule fires for that driver
   * now or an earlier suspension ends after `t`; every suspension left ends after `t`.
   */
  lemma {:induction false} SweepDecidesSuspension(profiles: Profiles, t: int, evaluations: seq<Evaluation>, d: DriverId)
    requires Consistent(profiles)
    requires forall i :: 0 <= i < |evaluations| ==> evaluations[i].now >= t
    ensures var after := Sweep(profiles, t, evaluations);
            && (IsSuspended(after, d) <==> Fires(evaluations, d) || HeldBeyond(profiles, d, t))
            && (IsSuspended(after, d) ==> HeldBeyond(after, d, t))
    decreases |evaluations|
  {
    if evaluations != [] {
      var n := |evaluations| - 1;
      SweepDecidesSuspension(profiles, t, evaluations[..n], d);
      FiresOfSnoc(evaluations, d);
      if Penalty(evaluations[n]).Some? { PenaltyEndsLater(evaluations[n], t); }
    }
  }

  // -------------------------------------------------------------------- the service

  ghost function LapsedDrivers(profiles: Profiles, now: int): set<DriverId> {
    set d | d in profiles && Lapsed(profiles[d], now)
  }

  /** How many of the evaluations succeed, and how many of these suspend. */
  function Successes(evaluations: seq<Evaluation>): nat {
    if evaluations == [] then 0
    else
      var n := |evaluations| - 1;
      Successes(evaluations[..n]) + Count(evaluations[n].history.Some?)
  }

  function Penalties(evaluations: seq<Evaluation>): nat {
    if evaluations == [] then 0
    else
      var n := |evaluations| - 1;
      Penalties(evaluations[..n]) + Count(Penalty(evaluations[n]).Some?)
  }

  class DriverRatingService {
    var profiles: Profiles

    constructor (profiles: Profiles)
      ensures this.profiles == profiles
    {
      this.profiles := profiles;
    }

    method LiftExpiredSuspensions(now: int) returns (lifted: nat)
      modifies this
      ensures profiles == Lift(old(profiles), now)
      ensures lifted == |LapsedDrivers(old(profiles), now)|
    {
      var lapsed := set d | d in profiles && Lapsed(profiles[d], now);
      assert lapsed == LapsedDrivers(profiles, now);
      profiles := map d | d in profiles ::
        if d in lapsed then profiles[d].(isSuspended := false, suspendedUntil := None) else profiles[d];
      return |lapsed|;
    }

    /** Some(true) if this evaluation suspended the driver, None if it failed. */
    method EvaluateDriverRating(e: Evaluation) returns (penaltyApplied: Option<bool>)
      modifies this
      ensures profiles == Evaluate(old(profiles), e)
      ensures penaltyApplied == if e.history.Some? then Some(Penalty(e).Some?) else None
    {
      if e.history.None? { return None; }
      var counters := CollectMetrics(e.history.value);
      var rating := ComputeDriverRating(counters);
      var suspension := ResolveSuspension(rating, counters.completed, e.now);
      var profile := if e.driver in profiles then profiles[e.driver] else Profile(MAX_RATING, counters, false, None, None);
      profile := profile.(rating := rating, counters := counters, lastRatingUpdate := Some(e.now));
      if suspension.Some? {
        profile := profile.(isSuspended := true, suspendedUntil := Some(suspension.value.until));
      }
      profiles := profiles[e.driver := profile];
      return Some(suspension.Some?);
    }

    /** The sweep; a failing evaluation is counted and does not stop it. */
    method RecalculateAllDriverRatings(t: int, evaluations: seq<Evaluation>) returns (summary: Summary)
      modifies this
      ensures profiles == Sweep(old(profiles), t, evaluations)
      ensures summary.processed == |evaluations| == summary.updated + summary.failed
      ensures summary.updated == Successes(evaluations)
      ensures summary.suspended == Penalties(evaluations) <= summary.updated
      ensures summary.lifted == |LapsedDrivers(old(profiles), t)|
    {
      var lifted := LiftExpiredSuspensions(t);
      summary := Summary(|evaluations|, 0, 0, lifted, 0);
      for i := 0 to |evaluations|
        invariant profiles == EvaluateAll(Lift(old(profiles), t), evaluations[..i])
        invariant summary.processed == |evaluations| && summary.lifted == lifted
        invariant summary.updated + summary.failed == i
        invariant summary.updated == Successes(evaluations[..i])
        invariant summary.suspended == Penalties(evaluations[..i]) <= summary.updated
      {
        assert evaluations[..i + 1][..i] == evaluations[..i];
        var result := EvaluateDriverRating(evaluations[i]);
        match result
        case Some(penaltyApplied) =>
          summary := summary.(updated := summary.updated + 1);
          if penaltyApplied { summary := summary.(suspended := summary.suspended + 1); }
        case None =>
          summary := summary.(failed := summary.failed + 1);
      }
      assert evaluations[..|evaluations|] == evaluations;
    }
  }
}

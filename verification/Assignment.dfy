/**
 * Assigning the nearest driver to a delivery: an expanding radius search, the atomic
 * claim of a driver, the guarded write to the delivery, and the rollback of the claim.
 */
module Assignment {
  import opened Common
  import opened DeliveryStatuses
  import opened Rounding

  type DriverId = nat
  type DeliveryId = nat

  datatype Position = Position(lat: real, lng: real)

  datatype DriverStatus = Online | Offline | OnDelivery

  datatype Driver = Driver(at: Position, isAvailable: bool, status: DriverStatus)

  datatype Delivery = Delivery(driverId: Option<DriverId>, status: Status, pickup: Option<Position>)

  datatype EscrowStatus = EscrowPending | Locked | Released | Refunded | Disputed | Expired | Resolved

  datatype Failure =
    | InvalidDeliveryId
    | DeliveryNotFound
    | NoPickupCoordinates
    | InvalidCoordinates
    | RadiusNotPositive
    | RadiusTooLarge
    | LimitNotPositive
    | DeliveryClosed
    | AlreadyAssigned
    | EscrowMissing
    | EscrowNotLocked

  datatype Outcome =
    | AssignedTo(driver: DriverId, distanceMeters: int, radius: nat)
    | HasDriverAlready
    | NoDriver(radius: nat)

  /** The environment settings; `Valid` is what start-up insists on. */
  datatype Config = Config(defaultRadius: nat, maxRadius: nat, maxResults: nat, expansionSteps: nat) {
    predicate Valid() {
      1 <= defaultRadius <= maxRadius && 1 <= maxResults <= 500 && expansionSteps <= 10
    }
  }

  // ------------------------------------------------------------------------ guards

  /** Why `assignDriver` refuses this delivery, if it does. */
  function DeliveryGuard(delivery: Delivery): Option<Failure> {
    match delivery.status
    case Completed => Some(DeliveryClosed)
    case Cancelled => Some(DeliveryClosed)
    case Assigned => Some(AlreadyAssigned)
    case _ => None
  }

  function EscrowGuard(escrows: map<DeliveryId, EscrowStatus>, id: DeliveryId): Option<Failure> {
    if id !in escrows then Some(EscrowMissing)
    else if escrows[id] != Locked then Some(EscrowNotLocked)
    else None
  }

  /** The guards of `assignDriver`, in the order they are checked. */
  function AssignGuard(
    deliveries: map<DeliveryId, Delivery>, escrows: map<DeliveryId, EscrowStatus>, id: DeliveryId)
    : Option<Failure>
  {
    if id !in deliveries then Some(DeliveryNotFound)
    else if DeliveryGuard(deliveries[id]).Some? then DeliveryGuard(deliveries[id])
    else EscrowGuard(escrows, id)
  }

  // ------------------------------------------------------------------------- radii

  function Pow2(i: nat): nat {
    if i == 0 then 1 else 2 * Pow2(i - 1)
  }

  /** The radius after i doublings: the loop variable, started at the default. */
  function Radius(config: Config, i: nat): nat {
    if i == 0 then config.defaultRadius
    else Min(Radius(config, i - 1) * 2, config.maxRadius)
  }

  lemma DoubledProduct(a: nat, b: nat)
    ensures a * (2 * b) == 2 * (a * b) && a * b >= 0
  {
  }

  function RealRadius(config: Config, i: nat): real {
    Radius(config, i) as real
  }

  /** The first n radii. */
  function Radii(config: Config, n: nat): seq<nat> {
    seq(n, i requires 0 <= i < n => Radius(config, i))
  }

  /** The i-th radius is the default times 2^i, capped once; it is always acceptable. */
  lemma {:induction false} RadiusFormula(config: Config, i: nat)
    requires config.Valid()
    ensures Radius(config, i) == Min(config.defaultRadius * Pow2(i), config.maxRadius)
    ensures ResolveRadius(config, Some(Radius(config, i) as real)) == Ok(Radius(config, i) as real)
  {
    if i > 0 {
      RadiusFormula(config, i - 1);
      RadiiGrow(config, i, i);
      DoubledProduct(config.defaultRadius, Pow2(i - 1));
    }
  }

  lemma {:induction false} RadiiGrow(config: Config, i: nat, j: nat)
    requires config.Valid() && i <= j
    ensures 1 <= Radius(config, i) <= Radius(config, j) <= config.maxRadius
    ensures Radius(config, i) == config.maxRadius ==> Radius(config, j) == config.maxRadius
    decreases j
  {
    if i < j {
      RadiiGrow(config, i, j - 1);
    } else if i > 0 {
      RadiiGrow(config, i - 1, i - 1);
    }
  }

  /**
   * A search that finds nobody reports the radius after one more doubling than it
   * searched; the two agree exactly if the cap was reached.
   */
  lemma ReportedRadiusOvershoots(config: Config)
    requires config.Valid()
    ensures Radius(config, config.expansionSteps + 1) == Radius(config, config.expansionSteps)
       <==> Radius(config, config.expansionSteps) == config.maxRadius
  {
    RadiiGrow(config, config.expansionSteps, config.expansionSteps);
  }

  function ResolveRadius(config: Config, radius: Option<real>): Result<real, Failure> {
    match radius
    case None => Ok(config.defaultRadius as real)
    case Some(r) =>
      if r <= 0.0 then Err(RadiusNotPositive)
      else if r > config.maxRadius as real then Err(RadiusTooLarge)
      else Ok(r)
  }

  function ResolveLimit(config: Config, limit: Option<real>): Result<nat, Failure> {
    match limit
    case None => Ok(config.maxResults)
    case Some(l) =>
      if l.Floor as real != l || l <= 0.0 then Err(LimitNotPositive) else Ok(Min(l.Floor, config.maxResults))
  }

  predicate ValidCoordinates(p: Position) {
    -90.0 <= p.lat <= 90.0 && -180.0 <= p.lng <= 180.0
  }

  // ------------------------------------------------------------------------ search

  /** The distance between two positions, as the geospatial index computes it. */
  type Metric = (Position, Position) -> real

  predicate Matches(drivers: map<DriverId, Driver>, d: DriverId, center: Position, radius: real, metric: Metric) {
    && d in drivers && drivers[d].isAvailable && drivers[d].status == Online
    && metric(center, drivers[d].at) <= radius
  }

  /** The parameters of a proximity query besides its center. */
  datatype NearbyQuery = NearbyQuery(
    radius: Option<real>, limit: Option<real>, availableOnly: bool, status: Option<DriverStatus>)

  predicate Passes(driver: Driver, q: NearbyQuery) {
    (q.availableOnly ==> driver.isAvailable) && (q.status.Some? ==> driver.status == q.status.value)
  }

  /** The drivers that pass the filter within the radius, with their distance from the center. */
  function Distances(
    drivers: map<DriverId, Driver>, center: Position, radius: real, q: NearbyQuery, metric: Metric)
    : map<DriverId, real>
  {
    map d | d in drivers && Passes(drivers[d], q) && metric(center, drivers[d].at) <= radius ::
      metric(center, drivers[d].at)
  }

  /** What the assignment asks for: available drivers that are online. */
  function FreeWithin(radius: real): NearbyQuery {
    NearbyQuery(Some(radius), None, true, Some(Online))
  }

  /**
   * What a proximity query promises: matching drivers, each once, nearest first, and
   * no match left out unless the limit is reached by drivers at least as near.
   */
  ghost predicate IsNearby(result: seq<DriverId>, distances: map<DriverId, real>, limit: nat) {
    && Distinct(result)
    && |result| <= limit
    && (forall i :: 0 <= i < |result| ==> result[i] in distances)
    && (forall i, j :: 0 <= i < j < |result| ==> distances[result[i]] <= distances[result[j]])
    && (forall d, i :: d in distances && d !in result && 0 <= i < |result| ==>
         distances[result[i]] <= distances[d])
    && (|result| < limit ==> forall d :: d in distances ==> d in result)
  }

  lemma {:induction false} NearestExists(candidates: set<DriverId>, distances: map<DriverId, real>)
    returns (nearest: DriverId)
    requires candidates != {} && candidates <= distances.Keys
    ensures nearest in candidates && forall e :: e in candidates ==> distances[nearest] <= distances[e]
    decreases |candidates|
  {
    var d :| d in candidates;
    if candidates == {d} {
      nearest := d;
    } else {
      var other := NearestExists(candidates - {d}, distances);
      nearest := if distances[d] <= distances[other] then d else other;
    }
  }

  /** `found` are the nearest of `distances` in order, `rest` the others. */
  ghost predicate Taken(found: seq<DriverId>, rest: set<DriverId>, distances: map<DriverId, real>) {
    && Distinct(found)
    && rest <= distances.Keys
    && (forall i :: 0 <= i < |found| ==> found[i] in distances && found[i] !in rest)
    && (forall d :: d in distances ==> d in rest || d in found)
    && (forall i, j :: 0 <= i < j < |found| ==> distances[found[i]] <= distances[found[j]])
    && (forall d, i :: d in rest && 0 <= i < |found| ==> distances[found[i]] <= distances[d])
  }

  lemma TakeOne(found: seq<DriverId>, rest: set<DriverId>, distances: map<DriverId, real>, next: DriverId)
    requires Taken(found, rest, distances)
    requires next in rest && forall e :: e in rest ==> distances[next] <= distances[e]
    ensures Taken(found + [next], rest - {next}, distances)
  {
    var more := found + [next];
    forall d | d in distances ensures d in rest - {next} || d in more {
      if d == next { assert more[|found|] == d; }
    }
  }

  class DriverLocationService {
    const config: Config
    const metric: Metric

    constructor (config: Config, metric: Metric)
      ensures this.config == config && this.metric == metric
    {
      this.config := config;
      this.metric := metric;
    }

    method FindNearbyDrivers(drivers: map<DriverId, Driver>, center: Position, q: NearbyQuery)
      returns (result: Result<seq<DriverId>, Failure>)
      requires config.Valid()
      ensures if !ValidCoordinates(center) then result == Err(InvalidCoordinates)
              else
                match (ResolveRadius(config, q.radius), ResolveLimit(config, q.limit))
                case (Err(e), _) => result == Err(e)
                case (Ok(_), Err(e)) => result == Err(e)
                case (Ok(r), Ok(limit)) =>
                  result.Ok? && IsNearby(result.value, Distances(drivers, center, r, q, metric), limit)
    {
      if !ValidCoordinates(center) { return Err(InvalidCoordinates); }
      var radius := ResolveRadius(config, q.radius);
      if radius.Err? { return Err(radius.error); }
      var limit := ResolveLimit(config, q.limit);
      if limit.Err? { return Err(limit.error); }
      var found := GeoNear(Distances(drivers, center, radius.value, q, metric), limit.value);
      return Ok(found);
    }

    /** The index walk: it visits the matches in the order of their distance, up to the limit. */
    method GeoNear(distances: map<DriverId, real>, limit: nat) returns (found: seq<DriverId>)
      ensures IsNearby(found, distances, limit)
    {
      found := [];
      var rest := distances.Keys;
      while rest != {} && |found| < limit
        invariant |found| <= limit && Taken(found, rest, distances)
        decreases |rest|
      {
        ghost var witnessed := NearestExists(rest, distances);
        var nearest :| nearest in rest && forall e :: e in rest ==> distances[nearest] <= distances[e];
        TakeOne(found, rest, distances, nearest);
        found := found + [nearest];
        rest := rest - {nearest};
      }
    }
  }

  // -------------------------------------------------------------------- assignment

  predicate Free(drivers: map<DriverId, Driver>, d: DriverId) {
    d in drivers && drivers[d].isAvailable && drivers[d].status == Online
  }

  ghost predicate SomeoneWithin(drivers: map<DriverId, Driver>, center: Position, radius: real, metric: Metric) {
    exists d :: Matches(drivers, d, center, radius, metric)
  }

  /** No free driver anywhere is nearer than `d`. */
  ghost predicate IsNearestFree(drivers: map<DriverId, Driver>, center: Position, metric: Metric, d: DriverId) {
    Free(drivers, d) && forall e :: Free(drivers, e) ==> metric(center, drivers[d].at) <= metric(center, drivers[e].at)
  }

  /** The first of the expanding radii within which there is a free driver. */
  ghost predicate IsFirstReaching(
    config: Config, drivers: map<DriverId, Driver>, center: Position, metric: Metric, i: nat)
  {
    && i <= config.expansionSteps
    && SomeoneWithin(drivers, center, RealRadius(config, i), metric)
    && forall j :: 0 <= j < i ==> !SomeoneWithin(drivers, center, RealRadius(config, j), metric)
  }

  function Claim(driver: Driver): Driver {
    driver.(isAvailable := false, status := OnDelivery)
  }

  function Release(driver: Driver): Driver {
    driver.(isAvailable := true, status := Online)
  }

  lemma MatchesHaveDistances(
    drivers: map<DriverId, Driver>, d: DriverId, center: Position, radius: real, metric: Metric)
    ensures d in Distances(drivers, center, radius, FreeWithin(radius), metric)
       <==> Matches(drivers, d, center, radius, metric)
  {
  }

  /** The nearest match is nearest among all free drivers, near or far. */
  lemma NearbyIsNearestFree(
    result: seq<DriverId>, drivers: map<DriverId, Driver>, center: Position, radius: real, limit: nat, metric: Metric)
    requires IsNearby(result, Distances(drivers, center, radius, FreeWithin(radius), metric), limit) && limit > 0
    ensures result == [] <==> !exists d :: Matches(drivers, d, center, radius, metric)
    ensures result != [] ==> IsNearestFree(drivers, center, metric, result[0])
    ensures result != [] ==> Matches(drivers, result[0], center, radius, metric)
  {
    var distances := Distances(drivers, center, radius, FreeWithin(radius), metric);
    if result == [] {
      forall d ensures !Matches(drivers, d, center, radius, metric) {
        MatchesHaveDistances(drivers, d, center, radius, metric);
      }
    } else {
      MatchesHaveDistances(drivers, result[0], center, radius, metric);
      forall e | Free(drivers, e)
        ensures metric(center, drivers[result[0]].at) <= metric(center, drivers[e].at)
      {
        if e in distances {
          if e in result {
            var j :| 0 <= j < |result| && result[j] == e;
            assert j > 0 ==> distances[result[0]] <= distances[result[j]];
          } else {
            assert distances[result[0]] <= distances[e];
          }
        }
      }
    }
  }

  ghost function Busy(drivers: map<DriverId, Driver>): set<DriverId> {
    set d | d in drivers && !drivers[d].isAvailable
  }

  ghost function Served(candidates: seq<DeliveryId>, deliveries: map<DeliveryId, Delivery>): set<DeliveryId> {
    set c | c in candidates && c in deliveries && deliveries[c].driverId.Some?
  }

  lemma ClaimAddsOneBusy(drivers: map<DriverId, Driver>, d: DriverId)
    requires d in drivers && drivers[d].isAvailable
    ensures |Busy(drivers[d := Claim(drivers[d])])| == |Busy(drivers)| + 1
  {
    assert Busy(drivers[d := Claim(drivers[d])]) == Busy(drivers) + {d};
  }

  class AssignmentService {
    const locations: DriverLocationService
    var drivers: map<DriverId, Driver>
    var deliveries: map<DeliveryId, Delivery>
    var escrows: map<DeliveryId, EscrowStatus>

    constructor (
      locations: DriverLocationService, drivers: map<DriverId, Driver>,
      deliveries: map<DeliveryId, Delivery>, escrows: map<DeliveryId, EscrowStatus>)
      ensures this.locations == locations && this.drivers == drivers
      ensures this.deliveries == deliveries && this.escrows == escrows
    {
      this.locations := locations;
      this.drivers := drivers;
      this.deliveries := deliveries;
      this.escrows := escrows;
    }

    /** Claims the first candidate that is still available; the list may be out of date. */
    method ClaimFirstAvailable(candidates: seq<DriverId>) returns (claimed: Option<nat>)
      modifies this`drivers
      ensures match claimed
              case Some(i) =>
                && i < |candidates| && candidates[i] in old(drivers) && old(drivers)[candidates[i]].isAvailable
                && (forall j :: 0 <= j < i ==>
                     candidates[j] in old(drivers) ==> !old(drivers)[candidates[j]].isAvailable)
                && drivers == old(drivers)[candidates[i] := Claim(old(drivers)[candidates[i]])]
              case None =>
                && drivers == old(drivers)
                && forall j :: 0 <= j < |candidates| ==>
                     candidates[j] in drivers ==> !drivers[candidates[j]].isAvailable
    {
      for i := 0 to |candidates|
        invariant drivers == old(drivers)
        invariant forall j :: 0 <= j < i ==> candidates[j] in drivers ==> !drivers[candidates[j]].isAvailable
      {
        var candidate := candidates[i];
        if candidate in drivers && drivers[candidate].isAvailable {
          drivers := drivers[candidate := Claim(drivers[candidate])];
          return Some(i);
        }
      }
      return None;
    }

    method ReleaseClaim(driver: DriverId)
      modifies this`drivers
      ensures drivers == if driver in old(drivers)
                         then old(drivers)[driver := Release(old(drivers)[driver])] else old(drivers)
    {
      if driver in drivers {
        drivers := drivers[driver := Release(drivers[driver])];
      }
    }

    method AssignDriver(id: DeliveryId, driver: DriverId) returns (failure: Option<Failure>)
      modifies this`deliveries
      ensures failure == AssignGuard(old(deliveries), escrows, id)
      ensures failure.Some? ==> deliveries == old(deliveries)
      ensures failure.None? ==>
                && id in old(deliveries)
                && deliveries
                   == old(deliveries)[id := old(deliveries)[id].(driverId := Some(driver), status := Assigned)]
    {
      failure := AssignGuard(deliveries, escrows, id);
      if failure.None? {
        deliveries := deliveries[id := deliveries[id].(driverId := Some(driver), status := Assigned)];
      }
    }

    /**
     * One search of the loop: claim the nearest match and assign it, or roll the claim
     * back if the assignment is refused.
     */
    method SearchAt(id: DeliveryId, center: Position, radius: nat)
      returns (outcome: Result<Option<DriverId>, Failure>)
      requires locations.config.Valid() && ValidCoordinates(center)
      requires 1 <= radius <= locations.config.maxRadius
      modifies this`drivers, this`deliveries
      ensures outcome == Ok(None) <==> !SomeoneWithin(old(drivers), center, radius as real, locations.metric)
      ensures outcome.Err? ==> Some(outcome.error) == AssignGuard(old(deliveries), escrows, id)
      ensures outcome.Err? || outcome.value.None? ==>
                drivers == old(drivers) && deliveries == old(deliveries)
      ensures outcome.Ok? && outcome.value.Some? ==> AssignedOnly(old(drivers), old(deliveries), id, outcome.value.value)
      ensures outcome.Ok? && outcome.value.Some? ==>
                IsNearestFree(old(drivers), center, locations.metric, outcome.value.value)
    {
      var nearby := locations.FindNearbyDrivers(drivers, center, FreeWithin(radius as real));
      NearbyIsNearestFree(nearby.value, drivers, center, radius as real, locations.config.maxResults, locations.metric);
      var claimed := ClaimFirstAvailable(nearby.value);
      if claimed.None? {
        return Ok(None);
      }
      var driver := nearby.value[claimed.value];
      var failure := AssignDriver(id, driver);
      if failure.Some? {
        ReleaseClaim(driver);
        return Err(failure.value);
      }
      return Ok(Some(driver));
    }

    /** Exactly `driver` was claimed and exactly delivery `id` was given to it. */
    ghost predicate AssignedOnly(
      was: map<DriverId, Driver>, had: map<DeliveryId, Delivery>, id: DeliveryId, driver: DriverId)
      reads this
    {
      && AssignGuard(had, escrows, id) == None && driver in was && id in had
      && drivers == was[driver := Claim(was[driver])]
      && deliveries == had[id := had[id].(driverId := Some(driver), status := Assigned)]
    }

    /**
     * The search without interference. It finds nobody exactly if no free driver is
     * within the last radius; otherwise, guards permitting, it assigns a free driver
     * that no other free driver is nearer than, at the first radius that reaches
     * anybody. A refused assignment leaves everything as it was.
     */
    method SearchAndClaim(id: DeliveryId, center: Position)
      returns (outcome: Result<Outcome, Failure>, searched: seq<nat>)
      requires locations.config.Valid()
      modifies this`drivers, this`deliveries
      ensures !ValidCoordinates(center) ==> outcome == Err(InvalidCoordinates)
      ensures |searched| <= locations.config.expansionSteps + 1
      ensures forall i :: 0 <= i < |searched| ==> searched[i] == Radius(locations.config, i)
      ensures ValidCoordinates(center) ==>
                (!Reachable(old(drivers), center)
                 <==> outcome == Ok(NoDriver(Radius(locations.config, locations.config.expansionSteps + 1))))
      ensures outcome.Err? || !outcome.value.AssignedTo? ==>
                drivers == old(drivers) && deliveries == old(deliveries)
      ensures ValidCoordinates(center) && outcome.Err? ==>
                Some(outcome.error) == AssignGuard(old(deliveries), escrows, id)
      ensures outcome.Ok? ==>
                if outcome.value.AssignedTo?
                then
                  && |searched| > 0
                  && IsAssignment(old(drivers), center, outcome.value, |searched| - 1)
                  && AssignedOnly(old(drivers), old(deliveries), id, outcome.value.driver)
                else
                  && outcome.value == NoDriver(Radius(locations.config, locations.config.expansionSteps + 1))
                  && |searched| > 0
                  && searched[|searched| - 1] == Radius(locations.config, locations.config.expansionSteps)
    {
      if !ValidCoordinates(center) { return Err(InvalidCoordinates), []; }
      var found, radius;
      found, radius, searched := ExpandAndClaim(id, center);
      if found.Err? { return Err(found.error), searched; }
      if found.value.None? { return Ok(NoDriver(radius)), searched; }
      var driver := found.value.value;
      return Ok(AssignedTo(driver, MathRound(locations.metric(center, drivers[driver].at)), radius)), searched;
    }

    /** The loop over the expanding radii; `radius` is what is left in the loop variable. */
    method ExpandAndClaim(id: DeliveryId, center: Position)
      returns (found: Result<Option<DriverId>, Failure>, radius: nat, searched: seq<nat>)
      requires locations.config.Valid() && ValidCoordinates(center)
      modifies this`drivers, this`deliveries
      ensures 0 < |searched| <= locations.config.expansionSteps + 1
      ensures searched == Radii(locations.config, |searched|)
      ensures found == Ok(None) <==> !Reachable(old(drivers), center)
      ensures found == Ok(None) ==>
                && radius == Radius(locations.config, locations.config.expansionSteps + 1)
                && Radius(locations.config, |searched| - 1) == Radius(locations.config, locations.config.expansionSteps)
      ensures found != Ok(None) ==>
                && radius == Radius(locations.config, |searched| - 1)
                && IsFirstReaching(locations.config, old(drivers), center, locations.metric, |searched| - 1)
      ensures found.Err? || found.value.None? ==> drivers == old(drivers) && deliveries == old(deliveries)
      ensures found.Err? ==> Some(found.error) == AssignGuard(old(deliveries), escrows, id)
      ensures found.Ok? && found.value.Some? ==>
                && AssignedOnly(old(drivers), old(deliveries), id, found.value.value)
                && IsNearestFree(old(drivers), center, locations.metric, found.value.value)
    {
      var config := locations.config;
      radius := config.defaultRadius;
      searched := [];
      ghost var was := drivers;
      var step := 0;
      while step <= config.expansionSteps
        invariant step <= config.expansionSteps + 1 && radius == Radius(config, step)
        invariant searched == Radii(config, step)
        invariant step > 0 ==> !SomeoneWithin(was, center, RealRadius(config, step - 1), locations.metric)
        invariant drivers == was && deliveries == old(deliveries)
      {
        RadiiGrow(config, step, step);
        searched := searched + [radius];
        assert searched == Radii(config, step + 1);
        found := SearchAt(id, center, radius);
        if found != Ok(None) {
          FirstReaching(config, was, center, locations.metric, step);
          return;
        }
        if radius >= config.maxRadius {
          CappedRadiiAreEqual(config, step);
          return;
        }
        radius := Min(radius * 2, config.maxRadius);
        step := step + 1;
      }
      return Ok(None), radius, searched;
    }

    /**
     * `assignNearestDriver` while it holds the lock of the delivery; `wellFormed` says
     * whether the id has the form of an object id.
     */
    method AssignNearestDriver(id: DeliveryId, wellFormed: bool) returns (outcome: Result<Outcome, Failure>)
      requires locations.config.Valid()
      modifies this`drivers, this`deliveries
      ensures if !wellFormed then outcome == Err(InvalidDeliveryId)
              else IsOutcome(outcome, old(drivers), old(deliveries), id)
      ensures outcome.Err? || !outcome.value.AssignedTo? ==>
                drivers == old(drivers) && deliveries == old(deliveries)
      ensures outcome.Ok? && outcome.value.AssignedTo? ==>
                && id in old(deliveries) && old(deliveries)[id].driverId.None? && old(deliveries)[id].pickup.Some?
                && AssignedOnly(old(drivers), old(deliveries), id, outcome.value.driver)
                && IsNearestFree(old(drivers), old(deliveries)[id].pickup.value, locations.metric, outcome.value.driver)
    {
      if !wellFormed { return Err(InvalidDeliveryId); }
      if id !in deliveries { return Err(DeliveryNotFound); }
      if deliveries[id].driverId.Some? { return Ok(HasDriverAlready); }
      if deliveries[id].pickup.None? { return Err(NoPickupCoordinates); }
      var searched;
      outcome, searched := SearchAndClaim(id, deliveries[id].pickup.value);
    }

    /**
     * The sweep over funded deliveries without a driver. Failures do not stop it: a
     * candidate left without a driver could not be given one even now. The count it returns
     * is the number of candidates that now have a driver, and exactly that many drivers
     * became unavailable.
     */
    method AutoAssignPendingDeliveries(candidates: seq<DeliveryId>) returns (attempted: nat, successes: nat)
      requires locations.config.Valid() && Distinct(candidates)
      requires forall c :: c in candidates ==>
                 c in deliveries && deliveries[c].status == Funded && deliveries[c].driverId.None?
      modifies this`drivers, this`deliveries
      ensures attempted == |candidates|
      ensures deliveries.Keys == old(deliveries.Keys) && drivers.Keys == old(drivers.Keys)
      ensures successes == |Served(candidates, deliveries)|
      ensures |Busy(drivers)| == |Busy(old(drivers))| + successes
      ensures forall d :: d in deliveries && d !in Served(candidates, deliveries) ==>
                deliveries[d] == old(deliveries)[d]
      ensures forall c :: c in candidates && c !in Served(candidates, deliveries) ==>
                !Assignable(drivers, deliveries, c)
    {
      attempted, successes := |candidates|, 0;
      ghost var served: set<DeliveryId> := {};
      for i := 0 to |candidates|
        invariant deliveries.Keys == old(deliveries.Keys) && drivers.Keys == old(drivers.Keys)
        invariant successes == |served|
        invariant forall c :: c in served ==> c in candidates[..i] && deliveries[c].driverId.Some?
        invariant forall d :: d in deliveries && d !in served ==> deliveries[d] == old(deliveries)[d]
        invariant |Busy(drivers)| == |Busy(old(drivers))| + successes
        invariant forall c :: c in candidates[..i] && c !in served ==> !Assignable(drivers, deliveries, c)
      {
        ghost var was, had := drivers, deliveries;
        assert candidates[i] !in served;
        var outcome := AssignNearestDriver(candidates[i], true);
        if outcome.Ok? && outcome.value.AssignedTo? {
          successes := successes + 1;
          served := served + {candidates[i]};
          ClaimAddsOneBusy(was, outcome.value.driver);
          forall c | c in candidates[..i] && c !in served ensures !Assignable(drivers, deliveries, c) {
            AssigningEnablesNothing(was, had, candidates[i], outcome.value.driver, c);
          }
        }
      }
      assert served == Served(candidates, deliveries);
    }

    /** Somebody free is within the last radius. */
    ghost predicate Reachable(drivers: map<DriverId, Driver>, center: Position)
    {
      SomeoneWithin(drivers, center, RealRadius(locations.config, locations.config.expansionSteps), locations.metric)
    }

    /** The delivery waits for a driver and can be given one now. */
    ghost predicate Assignable(drivers: map<DriverId, Driver>, deliveries: map<DeliveryId, Delivery>, id: DeliveryId)
      reads this`escrows
    {
      && id in deliveries && deliveries[id].driverId.None?
      && deliveries[id].pickup.Some? && ValidCoordinates(deliveries[id].pickup.value)
      && Reachable(drivers, deliveries[id].pickup.value)
      && AssignGuard(deliveries, escrows, id) == None
    }

    /** What `assignNearestDriver` answers: the first check that fails decides. */
    ghost predicate IsOutcome(
      outcome: Result<Outcome, Failure>, drivers: map<DriverId, Driver>, deliveries: map<DeliveryId, Delivery>,
      id: DeliveryId)
      reads this`escrows
    {
      if id !in deliveries then outcome == Err(DeliveryNotFound)
      else if deliveries[id].driverId.Some? then outcome == Ok(HasDriverAlready)
      else if deliveries[id].pickup.None? then outcome == Err(NoPickupCoordinates)
      else if !ValidCoordinates(deliveries[id].pickup.value) then outcome == Err(InvalidCoordinates)
      else if !Reachable(drivers, deliveries[id].pickup.value) then
        outcome == Ok(NoDriver(Radius(locations.config, locations.config.expansionSteps + 1)))
      else
        match AssignGuard(deliveries, escrows, id)
        case Some(failure) => outcome == Err(failure)
        case None => outcome.Ok? && outcome.value.AssignedTo?
    }

    /** A driver claimed, a delivery given away: nothing else becomes assignable by that. */
    lemma AssigningEnablesNothing(
      was: map<DriverId, Driver>, had: map<DeliveryId, Delivery>, id: DeliveryId, driver: DriverId, c: DeliveryId)
      requires driver in was && id in had && c != id
      requires !Assignable(was, had, c)
      ensures !Assignable(was[driver := Claim(was[driver])],
                          had[id := had[id].(driverId := Some(driver), status := Assigned)], c)
    {
      if c in had && had[c].pickup.Some? {
        var center := had[c].pickup.value;
        var radius := RealRadius(locations.config, locations.config.expansionSteps);
        var now := was[driver := Claim(was[driver])];
        if d :| Matches(now, d, center, radius, locations.metric) {
          assert Matches(was, d, center, radius, locations.metric);
        }
      }
    }

    /** The nearest free driver, found at the first radius that reaches anybody. */
    ghost predicate IsAssignment(drivers: map<DriverId, Driver>, center: Position, outcome: Outcome, i: nat)
      requires outcome.AssignedTo?
    {
      && IsNearestFree(drivers, center, locations.metric, outcome.driver)
      && outcome.distanceMeters == MathRound(locations.metric(center, drivers[outcome.driver].at))
      && IsFirstReaching(locations.config, drivers, center, locations.metric, i)
      && outcome.radius == Radius(locations.config, i)
    }
  }

  /** A wider radius reaches whoever a narrower one does. */
  lemma ReachGrows(
    config: Config, drivers: map<DriverId, Driver>, center: Position, metric: Metric, i: nat, j: nat)
    requires config.Valid() && i <= j
    ensures SomeoneWithin(drivers, center, RealRadius(config, i), metric)
        ==> SomeoneWithin(drivers, center, RealRadius(config, j), metric)
  {
    RadiiGrow(config, i, j);
    if SomeoneWithin(drivers, center, RealRadius(config, i), metric) {
      var d :| Matches(drivers, d, center, RealRadius(config, i), metric);
      assert Matches(drivers, d, center, RealRadius(config, j), metric);
    }
  }

  /** If nobody is within the radius before, this is the first that reaches anybody. */
  lemma FirstReaching(config: Config, drivers: map<DriverId, Driver>, center: Position, metric: Metric, i: nat)
    requires config.Valid() && i <= config.expansionSteps
    requires SomeoneWithin(drivers, center, RealRadius(config, i), metric)
    requires i > 0 ==> !SomeoneWithin(drivers, center, RealRadius(config, i - 1), metric)
    ensures IsFirstReaching(config, drivers, center, metric, i)
    ensures SomeoneWithin(drivers, center, RealRadius(config, config.expansionSteps), metric)
  {
    ReachGrows(config, drivers, center, metric, i, config.expansionSteps);
    forall j | 0 <= j < i ensures !SomeoneWithin(drivers, center, RealRadius(config, j), metric) {
      ReachGrows(config, drivers, center, metric, j, i - 1);
    }
  }

  lemma CappedRadiiAreEqual(config: Config, i: nat)
    requires config.Valid() && i <= config.expansionSteps && Radius(config, i) >= config.maxRadius
    ensures Radius(config, config.expansionSteps) == Radius(config, i)
    ensures Radius(config, config.expansionSteps + 1) == Radius(config, i)
  {
    RadiiGrow(config, i, config.expansionSteps);
    RadiiGrow(config, i, config.expansionSteps + 1);
  }
}

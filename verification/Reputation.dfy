/**
 * Reputation points and tiers driven by chain events: a walk that increases and slashes
 * move, reflected at zero.
 */
module Reputation {
  import opened Common

  datatype Tier = Bronze | Silver | Gold | Platinum

  const SILVER_THRESHOLD := 100
  const GOLD_THRESHOLD := 500
  const PLATINUM_THRESHOLD := 1000

  function ComputeTier(points: int): Tier {
    if points >= PLATINUM_THRESHOLD then Platinum
    else if points >= GOLD_THRESHOLD then Gold
    else if points >= SILVER_THRESHOLD then Silver
    else Bronze
  }

  datatype Kind = Increased | Slashed | Unknown

  datatype Event = Event(kind: Kind, driver: string, points: int, ledger: nat)

  datatype Profile = Profile(points: int, tier: Tier)

  type Profiles = map<string, Profile>

  predicate ValidPayload(e: Event) {
    e.driver != "" && e.points > 0
  }

  /** The signed change an event asks for; events that are ignored ask for none. */
  function Delta(e: Event): int {
    if !ValidPayload(e) then 0
    else
      match e.kind
      case Increased => e.points
      case Slashed => -e.points
      case Unknown => 0
  }

  /** What an event does to the profile of its driver. */
  function Apply(profile: Option<Profile>, e: Event): Option<Profile> {
    if !ValidPayload(e) then profile
    else
      match e.kind
      case Increased =>
        var points := PointsOf(profile) + e.points;
        Some(Profile(points, ComputeTier(points)))
      case Slashed =>
        if profile.None? then None
        else
          var points := Max(0, profile.value.points - e.points);
          Some(Profile(points, ComputeTier(points)))
      case Unknown => profile
  }

  /** A missing profile counts as no points and the lowest tier. */
  function PointsOf(profile: Option<Profile>): int {
    if profile.Some? then profile.value.points else 0
  }

  function TierOf(profile: Option<Profile>): Tier {
    if profile.Some? then profile.value.tier else Bronze
  }

  function Run(profile: Option<Profile>, events: seq<Event>): Option<Profile> {
    if events == [] then profile else Apply(Run(profile, events[..|events| - 1]), events[|events| - 1])
  }

  // ------------------------------------------------------------ the reflected walk

  /** The sum of the first k changes. */
  function PrefixSum(events: seq<Event>, k: nat): int
    requires k <= |events|
  {
    if k == 0 then 0 else PrefixSum(events, k - 1) + Delta(events[k - 1])
  }

  /** `w` is the largest of start + S(n) and all S(n) - S(k) with 1 <= k <= n. */
  ghost predicate IsReflectedWalk(start: int, events: seq<Event>, w: int) {
    var n := |events|;
    && w >= start + PrefixSum(events, n)
    && (forall k :: 1 <= k <= n ==> w >= PrefixSum(events, n) - PrefixSum(events, k))
    && (w == start + PrefixSum(events, n)
        || exists k :: 1 <= k <= n && w == PrefixSum(events, n) - PrefixSum(events, k))
  }

  lemma {:induction false} PrefixSumOfPrefix(events: seq<Event>, m: nat, k: nat)
    requires k <= m <= |events|
    ensures PrefixSum(events[..m], k) == PrefixSum(events, k)
  {
    if k > 0 { PrefixSumOfPrefix(events, m, k - 1); }
  }

  lemma ReflectOnce(start: int, events: seq<Event>, was: int)
    requires events != [] && was >= 0
    requires IsReflectedWalk(start, events[..|events| - 1], was)
    ensures IsReflectedWalk(start, events, Max(0, was + Delta(events[|events| - 1])))
  {
    var n := |events|;
    var prefix := events[..n - 1];
    forall k | 0 <= k <= n - 1 ensures PrefixSum(prefix, k) == PrefixSum(events, k) {
      PrefixSumOfPrefix(events, n - 1, k);
    }
    var w := Max(0, was + Delta(events[n - 1]));
    assert PrefixSum(events, n) == PrefixSum(prefix, n - 1) + Delta(events[n - 1]);
    if was + Delta(events[n - 1]) >= 0 {
      if was != start + PrefixSum(prefix, n - 1) {
        var k :| 1 <= k <= n - 1 && was == PrefixSum(prefix, n - 1) - PrefixSum(prefix, k);
        assert w == PrefixSum(events, n) - PrefixSum(events, k);
      }
    } else {
      assert w == PrefixSum(events, n) - PrefixSum(events, n);
    }
    forall k | 1 <= k <= n ensures w >= PrefixSum(events, n) - PrefixSum(events, k) {
      if k < n { assert was >= PrefixSum(prefix, n - 1) - PrefixSum(prefix, k); }
    }
  }

  /**
   * After any sequence of events the points are the reflected walk of the changes, and
   * never negative.
   */
  lemma {:induction false} PointsAreReflectedWalk(profile: Option<Profile>, events: seq<Event>)
    requires PointsOf(profile) >= 0
    ensures IsReflectedWalk(PointsOf(profile), events, PointsOf(Run(profile, events)))
    ensures PointsOf(Run(profile, events)) >= 0
  {
    if events != [] {
      var n := |events| - 1;
      PointsAreReflectedWalk(profile, events[..n]);
      ReflectOnce(PointsOf(profile), events, PointsOf(Run(profile, events[..n])));
    }
  }

  /** The tier always follows from the points. */
  lemma {:induction false} TierFollowsPoints(profile: Option<Profile>, events: seq<Event>)
    requires TierOf(profile) == ComputeTier(PointsOf(profile))
    ensures TierOf(Run(profile, events)) == ComputeTier(PointsOf(Run(profile, events)))
  {
    if events != [] { TierFollowsPoints(profile, events[..|events| - 1]); }
  }

  /** Without a slash the reflection never acts and the points are a plain sum. */
  lemma {:induction false} NoSlashMeansSum(profile: Option<Profile>, events: seq<Event>)
    requires PointsOf(profile) >= 0 && forall i :: 0 <= i < |events| ==> events[i].kind != Slashed
    ensures PointsOf(Run(profile, events)) == PointsOf(profile) + PrefixSum(events, |events|)
  {
    if events != [] {
      var n := |events| - 1;
      NoSlashMeansSum(profile, events[..n]);
      PrefixSumOfPrefix(events, n, n);
    }
  }

  // ----------------------------------------------------------------- all profiles

  function Get(profiles: Profiles, driver: string): Option<Profile> {
    if driver in profiles then Some(profiles[driver]) else None
  }

  function Put(profiles: Profiles, driver: string, profile: Option<Profile>): Profiles {
    match profile
    case Some(p) => profiles[driver := p]
    case None => profiles
  }

  function RunAll(profiles: Profiles, events: seq<Event>): Profiles {
    if events == [] then profiles
    else
      var before := RunAll(profiles, events[..|events| - 1]);
      var e := events[|events| - 1];
      Put(before, e.driver, Apply(Get(before, e.driver), e))
  }

  /** The events that name this driver, in order. */
  function Of(events: seq<Event>, driver: string): seq<Event> {
    if events == [] then []
    else
      var e := events[|events| - 1];
      Of(events[..|events| - 1], driver) + if e.driver == driver then [e] else []
  }

  /** Each driver's profile depends on the events of that driver only. */
  lemma {:induction false} DriversAreIndependent(profiles: Profiles, events: seq<Event>, driver: string)
    ensures Get(RunAll(profiles, events), driver) == Run(Get(profiles, driver), Of(events, driver))
  {
    if events != [] {
      var n := |events| - 1;
      DriversAreIndependent(profiles, events[..n], driver);
      if events[n].driver == driver {
        var own := Of(events, driver);
        assert own[..|own| - 1] == Of(events[..n], driver);
        assert Run(Get(profiles, driver), own)
            == Apply(Run(Get(profiles, driver), Of(events[..n], driver)), events[n]);
      } else {
        assert Of(events, driver) == Of(events[..n], driver);
      }
    }
  }

  /**
   * Whatever events arrive in whatever order, each driver ends at the reflected walk of
   * the changes meant for that driver, with the tier that goes with it.
   */
  lemma EveryDriverWalks(profiles: Profiles, events: seq<Event>, driver: string)
    requires var p := Get(profiles, driver); PointsOf(p) >= 0 && TierOf(p) == ComputeTier(PointsOf(p))
    ensures var p := Get(RunAll(profiles, events), driver);
            && IsReflectedWalk(PointsOf(Get(profiles, driver)), Of(events, driver), PointsOf(p))
            && PointsOf(p) >= 0
            && TierOf(p) == ComputeTier(PointsOf(p))
  {
    DriversAreIndependent(profiles, events, driver);
    PointsAreReflectedWalk(Get(profiles, driver), Of(events, driver));
    TierFollowsPoints(Get(profiles, driver), Of(events, driver));
  }

  // ---------------------------------------------------------------- the handlers

  class ReputationIndexer {
    var profiles: Profiles
    var checkpoint: Option<nat>

    constructor (profiles: Profiles)
      ensures this.profiles == profiles && checkpoint == None
    {
      this.profiles := profiles;
      checkpoint := None;
    }

    /** Increments the points, creating the profile, then corrects the tier if it differs. */
    method HandleReputationIncreased(e: Event)
      requires e.kind == Increased
      modifies this`profiles
      ensures profiles == Put(old(profiles), e.driver, Apply(Get(old(profiles), e.driver), e))
    {
      if e.driver == "" || e.points <= 0 { return; }
      var was := if e.driver in profiles then profiles[e.driver] else Profile(0, Bronze);
      profiles := profiles[e.driver := was.(points := was.points + e.points)];
      var newTier := ComputeTier(profiles[e.driver].points);
      if profiles[e.driver].tier != newTier {
        profiles := profiles[e.driver := profiles[e.driver].(tier := newTier)];
      }
    }

    method HandleReputationSlashed(e: Event)
      requires e.kind == Slashed
      modifies this`profiles
      ensures profiles == Put(old(profiles), e.driver, Apply(Get(old(profiles), e.driver), e))
    {
      if e.driver == "" || e.points <= 0 { return; }
      if e.driver !in profiles { return; }
      var newPoints := Max(0, profiles[e.driver].points - e.points);
      profiles := profiles[e.driver := Profile(newPoints, ComputeTier(newPoints))];
    }

    /** Raises the checkpoint to `ledger`, or seeds it; it never moves back. */
    method RecordProcessedLedger(ledger: nat)
      modifies this`checkpoint
      ensures checkpoint == Some(Max(ledger, Or(old(checkpoint), 0)))
    {
      if checkpoint.None? || checkpoint.value < ledger {
        checkpoint := Some(ledger);
      }
    }

    method DispatchReputationEvent(e: Event)
      modifies this
      ensures profiles == Put(old(profiles), e.driver, Apply(Get(old(profiles), e.driver), e))
      ensures e.kind == Unknown ==> checkpoint == old(checkpoint)
      ensures e.kind != Unknown ==> checkpoint == Some(Max(e.ledger, Or(old(checkpoint), 0)))
    {
      match e.kind {
        case Increased => HandleReputationIncreased(e);
        case Slashed => HandleReputationSlashed(e);
        case Unknown =>
          UnknownLeavesProfiles(profiles, e);
          return;
      }
      RecordProcessedLedger(e.ledger);
    }
  }

  lemma UnknownLeavesProfiles(profiles: Profiles, e: Event)
    requires e.kind == Unknown
    ensures Put(profiles, e.driver, Apply(Get(profiles, e.driver), e)) == profiles
  {
    if e.driver in profiles { assert profiles[e.driver := profiles[e.driver]] == profiles; }
  }
}

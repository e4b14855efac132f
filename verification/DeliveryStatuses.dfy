/** The delivery state machine and the milestone raised on entering each status. */
module DeliveryStatuses {
  import opened Common

  datatype Status = Pending | Funded | Assigned | InProgress | Completed | Cancelled

  datatype Milestone =
    | CreatedMilestone
    | FundedMilestone
    | AssignedMilestone
    | InProgressMilestone
    | CompletedMilestone
    | CancelledMilestone

  /** One record of the milestone log, without its sequence number. */
  datatype Event = Event(name: Milestone, fromStatus: Option<Status>, toStatus: Status)

  function AllowedTransitions(from: Status): set<Status> {
    match from
    case Pending => {Funded, Assigned, Cancelled}
    case Funded => {Assigned, Cancelled}
    case Assigned => {InProgress, Cancelled}
    case InProgress => {Completed, Cancelled}
    case Completed => {}
    case Cancelled => {}
  }

  function MilestoneByStatus(status: Status): Milestone {
    match status
    case Pending => CreatedMilestone
    case Funded => FundedMilestone
    case Assigned => AssignedMilestone
    case InProgress => InProgressMilestone
    case Completed => CompletedMilestone
    case Cancelled => CancelledMilestone
  }

  function TransitionEvent(from: Status, to: Status): Event {
    Event(MilestoneByStatus(to), Some(from), to)
  }

  const CREATED_EVENT := Event(CreatedMilestone, None, Pending)

  /** Position on the longest legal path; every legal edge climbs. */
  function Rank(status: Status): nat {
    match status
    case Pending => 0
    case Funded => 1
    case Assigned => 2
    case InProgress => 3
    case Completed => 4
    case Cancelled => 4
  }

  /** `path` is a walk along legal edges. */
  ghost predicate IsPath(path: seq<Status>) {
    forall i :: 0 <= i < |path| - 1 ==> path[i + 1] in AllowedTransitions(path[i])
  }

  /** Walking k edges climbs at least k ranks, so no status ever repeats. */
  lemma {:induction false} PathClimbs(path: seq<Status>, i: nat, j: nat)
    requires IsPath(path)
    requires i <= j < |path|
    ensures Rank(path[i]) + (j - i) <= Rank(path[j])
  {
    if i < j {
      PathClimbs(path, i, j - 1);
      assert path[j - 1 + 1] in AllowedTransitions(path[j - 1]);
    }
  }
}

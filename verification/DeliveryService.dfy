/**
 * `DeliveryService` on one stored delivery, as it runs between the writes of other
 * callers: those writes are parameters of the methods.
 */
module DeliveryServices {
  import opened Common
  import opened DeliveryStatuses
  import EventLog
  import Lifecycle = DeliveryLifecycle

  class DeliveryDocument {
    var status: Option<Status>
    var proof: bool

    constructor ()
      ensures status == None && !proof
    {
      status := None;
      proof := false;
    }

    /** The conditional update: it writes only if the id is valid and the status is still expected. */
    method TransitionStatus(validId: bool, expected: set<Status>, to: Status) returns (updated: bool)
      modifies this`status
      ensures updated <==> validId && old(status).Some? && old(status).value in expected
      ensures status == if updated then Some(to) else old(status)
    {
      if !validId { return false; }
      updated := status.Some? && status.value in expected;
      if updated { status := Some(to); }
    }

    /** Transitions that other callers commit, one after the other. */
    method Interfere(others: seq<Status>)
      requires others != [] ==> status.Some?
      modifies this`status
      ensures status == if others == [] then old(status) else Some(others[|others| - 1])
    {
      for i := 0 to |others|
        invariant status == if i == 0 then old(status) else Some(others[i - 1])
      {
        var updated := TransitionStatus(true, {status.value}, others[i]);
      }
    }
  }

  /** The sequence number `emitMilestone` hands on, or None if `append` threw. */
  function Recorded(windows: seq<EventLog.Window>, length: nat): Option<nat> {
    if EventLog.Succeeds(windows) then Some(length) else None
  }

  class DeliveryService {
    const document: DeliveryDocument
    const events: EventLog.DeliveryEventRepository

    constructor (document: DeliveryDocument, events: EventLog.DeliveryEventRepository)
      ensures this.document == document && this.events == events
    {
      this.document := document;
      this.events := events;
    }

    /**
     * Appends the milestone and swallows whatever `append` throws: the caller learns the
     * sequence number, or None, and the status is untouched.
     */
    method EmitMilestone(event: Event, caller: EventLog.CallId, windows: seq<EventLog.Window>)
      returns (record: Option<nat>)
      requires events.Valid() && |windows| == EventLog.MAX_SEQ_ATTEMPTS
      modifies events
      ensures events.Valid()
      ensures EventLog.Events(events.log)
           == EventLog.AfterAppend(old(EventLog.Events(events.log)), EventLog.Entry(event, caller), windows)
      ensures record == Recorded(windows, |EventLog.Events(events.log)|)
    {
      var answer := events.Append(EventLog.Entry(event, caller), windows);
      record := if answer.Returned? then Some(answer.at) else None;
    }

    /**
     * `create`: refused if the tracking number is taken, else a pending delivery whose
     * log goes on with the created milestone.
     */
    method Create(taken: bool, caller: EventLog.CallId, windows: seq<EventLog.Window>)
      returns (outcome: Option<Option<nat>>)
      requires events.Valid() && document.status.None? && |windows| == EventLog.MAX_SEQ_ATTEMPTS
      modifies document`status, events
      ensures events.Valid()
      ensures taken ==> outcome.None? && document.status == None && events.log == old(events.log)
      ensures !taken ==>
                && document.status == Some(Pending)
                && EventLog.Events(events.log)
                   == EventLog.AfterAppend(old(EventLog.Events(events.log)), EventLog.Entry(CREATED_EVENT, caller), windows)
                && outcome == Some(Recorded(windows, |EventLog.Events(events.log)|))
    {
      if taken { return None; }
      document.status := Some(Pending);
      var record := EmitMilestone(CREATED_EVENT, caller, windows);
      return Some(record);
    }

    /**
     * One call of `updateStatus`. `others` are the transitions that other callers commit
     * between the read and the conditional update, `windows` what they insert around the
     * attempts to append the milestone.
     *
     * The call succeeds exactly if its id is valid, the status it reads has a legal edge to `next`, the
     * proof is there when it is needed, and nobody else commits in between; only then
     * does it change the status and raise a milestone.
     */
    method UpdateStatus(
      validId: bool, next: Status, caller: EventLog.CallId, others: seq<Status>, windows: seq<EventLog.Window>)
      returns (outcome: Result<Option<nat>, Lifecycle.Refusal>)
      requires events.Valid() && |windows| == EventLog.MAX_SEQ_ATTEMPTS
      requires others != [] ==> document.status.Some? && IsPath([document.status.value] + others)
      modifies document`status, events
      ensures events.Valid()
      ensures outcome.Ok? <==>
                && validId && old(document.status).Some? && next in AllowedTransitions(old(document.status).value)
                && (next == Completed ==> document.proof)
                && others == []
      ensures outcome.Ok? ==>
                && document.status == Some(next)
                && outcome.value == Recorded(windows, |EventLog.Events(events.log)|)
                && var entry := EventLog.Entry(TransitionEvent(old(document.status).value, next), caller);
                   EventLog.Events(events.log) == EventLog.AfterAppend(old(EventLog.Events(events.log)), entry, windows)
      ensures outcome.Err? ==> events.log == old(events.log)
      ensures outcome.Err? ==>
                document.status
                == if others == [] then old(document.status) else Some(others[|others| - 1])
      ensures outcome == Err(Lifecycle.InvalidId) <==> !validId
      ensures outcome == Err(Lifecycle.NotFound) <==> validId && old(document.status).None?
      ensures outcome == Err(Lifecycle.AlreadyInStatus) <==> validId && old(document.status) == Some(next)
      ensures outcome == Err(Lifecycle.IllegalTransition) <==>
                && validId && old(document.status).Some? && old(document.status) != Some(next)
                && next !in AllowedTransitions(old(document.status).value)
      ensures outcome == Err(Lifecycle.ProofMissing) <==>
                && validId && old(document.status).Some? && next in AllowedTransitions(old(document.status).value)
                && next == Completed && !document.proof
      ensures outcome.Err? && outcome.error.ChangedConcurrently? <==>
                && validId && old(document.status).Some? && next in AllowedTransitions(old(document.status).value)
                && (next == Completed ==> document.proof)
                && others != []
    {
      if !validId {
        document.Interfere(others);
        return Err(Lifecycle.InvalidId);
      }
      match Lifecycle.Check(document.status, next, 0)
      case Refused(why) =>
        document.Interfere(others);
        outcome := Err(why);
      case Checked(from, _, _) =>
        if document.proof {
          outcome := TransitionAndEmit(from, next, caller, others, windows);
        } else {
          document.Interfere(others);
          outcome := Err(Lifecycle.ProofMissing);
        }
      case Ready(from, _, _) =>
        outcome := TransitionAndEmit(from, next, caller, others, windows);
    }

    method TransitionAndEmit(
      from: Status, next: Status, caller: EventLog.CallId, others: seq<Status>, windows: seq<EventLog.Window>)
      returns (outcome: Result<Option<nat>, Lifecycle.Refusal>)
      requires events.Valid() && |windows| == EventLog.MAX_SEQ_ATTEMPTS
      requires document.status == Some(from) && IsPath([from] + others)
      modifies document`status, events
      ensures events.Valid()
      ensures outcome.Ok? <==> others == []
      ensures outcome.Ok? ==>
                && document.status == Some(next)
                && outcome.value == Recorded(windows, |EventLog.Events(events.log)|)
                && EventLog.Events(events.log)
                   == EventLog.AfterAppend(old(EventLog.Events(events.log)),
                                           EventLog.Entry(TransitionEvent(from, next), caller), windows)
      ensures outcome.Err? ==>
                && outcome.error.ChangedConcurrently?
                && events.log == old(events.log)
                && document.status == Some(others[|others| - 1])
    {
      document.Interfere(others);
      if others != [] {
        PathClimbs([from] + others, 0, |others|);
      }
      var updated := document.TransitionStatus(true, {from}, next);
      if updated {
        var record := EmitMilestone(TransitionEvent(from, next), caller, windows);
        outcome := Ok(record);
      } else {
        outcome := Err(Lifecycle.ChangedConcurrently(0));
      }
    }
  }
}

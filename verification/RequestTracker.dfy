/** The count of in-flight requests and the drain before shutdown. */
module RequestTracker {
  import opened Common

  type RequestId = nat

  /** What can happen: a request arrives, one of its two callbacks fires, draining begins. */
  datatype Event = Arrive(id: RequestId) | Finish(id: RequestId) | Close(id: RequestId) | BeginDrain

  /** `settled` holds the flag of each accepted request. */
  datatype State = State(inFlight: int, draining: bool, settled: map<RequestId, bool>)

  const START := State(0, false, map[])

  /** The callback shared by finish and close; it does nothing once the flag is set. */
  function Settle(s: State, id: RequestId): State {
    if id !in s.settled || s.settled[id] then s
    else State(Max(0, s.inFlight - 1), s.draining, s.settled[id := true])
  }

  function Step(s: State, e: Event): State {
    match e
    case Arrive(id) =>
      if s.draining || id in s.settled then s
      else State(s.inFlight + 1, s.draining, s.settled[id := false])
    case Finish(id) => Settle(s, id)
    case Close(id) => Settle(s, id)
    case BeginDrain => s.(draining := true)
  }

  function Run(s: State, events: seq<Event>): State
    decreases |events|
  {
    if events == [] then s else Run(Step(s, events[0]), events[1..])
  }

  /** The accepted requests for which neither callback has fired. */
  ghost function Open(s: State): set<RequestId> {
    set id | id in s.settled && !s.settled[id]
  }

  ghost predicate Counts(s: State) {
    s.inFlight == |Open(s)|
  }

  lemma SettleCloses(s: State, id: RequestId)
    requires Counts(s)
    ensures Counts(Settle(s, id)) && Open(Settle(s, id)) == Open(s) - {id}
    ensures id in Open(s) ==> s.inFlight >= 1 && Settle(s, id).inFlight == s.inFlight - 1
  {
    assert Open(Settle(s, id)) == Open(s) - {id};
  }

  lemma StepCounts(s: State, e: Event)
    requires Counts(s)
    ensures Counts(Step(s, e))
  {
    match e
    case Arrive(id) =>
      if !s.draining && id !in s.settled { assert Open(Step(s, e)) == Open(s) + {id}; }
    case Finish(id) => SettleCloses(s, id);
    case Close(id) => SettleCloses(s, id);
    case BeginDrain =>
  }

  /**
   * In every run the counter is the number of requests accepted and not settled, even if
   * both callbacks of a request fire, in any order; so the clamp at zero never acts.
   */
  lemma {:induction false} CounterIsExact(s: State, events: seq<Event>)
    requires Counts(s)
    ensures Counts(Run(s, events))
    decreases |events|
  {
    if events != [] {
      StepCounts(s, events[0]);
      CounterIsExact(Step(s, events[0]), events[1..]);
    }
  }

  // ---------------------------------------------------- what the flags say about a run

  predicate IsCallback(e: Event, id: RequestId) {
    e == Finish(id) || e == Close(id)
  }

  /** The request arrives at position `i`, for the first time and before draining. */
  ghost predicate AcceptedAt(events: seq<Event>, id: RequestId, i: nat) {
    i < |events| && events[i] == Arrive(id) && BeginDrain !in events[..i] && Arrive(id) !in events[..i]
  }

  ghost predicate CallbackAfter(events: seq<Event>, id: RequestId, i: nat) {
    exists j :: i < j < |events| && IsCallback(events[j], id)
  }

  lemma {:induction false} RunSnoc(s: State, events: seq<Event>, e: Event)
    ensures Run(s, events + [e]) == Step(Run(s, events), e)
    decreases |events|
  {
    if events == [] {
      assert [] + [e] == [e];
      assert Run(s, [e]) == Run(Step(s, e), [e][1..]);
    } else {
      assert (events + [e])[1..] == events[1..] + [e];
      RunSnoc(Step(s, events[0]), events[1..], e);
    }
  }

  /** One more event leaves every earlier acceptance as it was and may add its own. */
  lemma AcceptedSnoc(events: seq<Event>, e: Event, id: RequestId, i: nat)
    ensures AcceptedAt(events + [e], id, i) <==>
              if i < |events| then AcceptedAt(events, id, i)
              else i == |events| && e == Arrive(id) && BeginDrain !in events && Arrive(id) !in events
    ensures i < |events| ==>
              (CallbackAfter(events + [e], id, i) <==> CallbackAfter(events, id, i) || IsCallback(e, id))
  {
    if i < |events| {
      assert (events + [e])[..i] == events[..i];
      if IsCallback(e, id) { assert IsCallback((events + [e])[|events|], id); }
      if j :| i < j < |events| && IsCallback(events[j], id) { assert IsCallback((events + [e])[j], id); }
    } else if i == |events| {
      assert (events + [e])[..i] == events;
    }
  }

  /** The flags of a request are decided by the events of the run. */
  ghost predicate FlagsTell(s: State, events: seq<Event>, id: RequestId) {
    && (s.draining <==> BeginDrain in events)
    && (id in s.settled ==> Arrive(id) in events)
    && (Arrive(id) in events ==> id in s.settled || s.draining)
    && (forall i :: AcceptedAt(events, id, i) ==>
          id in s.settled && (s.settled[id] <==> CallbackAfter(events, id, i)))
    && (id in s.settled ==> exists i :: AcceptedAt(events, id, i))
  }

  lemma FlagsTellStep(s: State, events: seq<Event>, e: Event, id: RequestId)
    requires FlagsTell(s, events, id)
    ensures FlagsTell(Step(s, e), events + [e], id)
  {
    var longer := events + [e];
    forall i | AcceptedAt(longer, id, i)
      ensures id in Step(s, e).settled && (Step(s, e).settled[id] <==> CallbackAfter(longer, id, i))
    {
      AcceptedSnoc(events, e, id, i);
    }
    if id in s.settled {
      var i :| AcceptedAt(events, id, i);
      AcceptedSnoc(events, e, id, i);
      assert AcceptedAt(longer, id, i);
    } else if id in Step(s, e).settled {
      AcceptedSnoc(events, e, id, |events|);
      assert AcceptedAt(longer, id, |events|);
    }
  }

  lemma {:induction false} FlagsTellRun(events: seq<Event>, id: RequestId)
    ensures FlagsTell(Run(START, events), events, id)
    decreases |events|
  {
    if events != [] {
      var before, e := events[..|events| - 1], events[|events| - 1];
      FlagsTellRun(before, id);
      FlagsTellStep(Run(START, before), before, e, id);
      RunSnoc(START, before, e);
      assert before + [e] == events;
    }
  }

  /**
   * The counter counts exactly the requests that arrived before draining and for which
   * neither callback has fired since.
   */
  lemma CounterIsPending(events: seq<Event>)
    ensures var s := Run(START, events);
            && s.inFlight == |Open(s)|
            && forall id :: id in Open(s) <==>
                 exists i :: AcceptedAt(events, id, i) && !CallbackAfter(events, id, i)
  {
    assert Open(START) == {};
    CounterIsExact(START, events);
    forall id
      ensures id in Open(Run(START, events)) <==>
                exists i :: AcceptedAt(events, id, i) && !CallbackAfter(events, id, i)
    {
      FlagsTellRun(events, id);
    }
  }

  /** After draining begins the counter never rises, and nobody new is accepted. */
  lemma {:induction false} DrainOnlyFalls(s: State, events: seq<Event>)
    requires Counts(s) && s.draining
    ensures Run(s, events).draining && Run(s, events).inFlight <= s.inFlight
    ensures Run(s, events).settled.Keys == s.settled.Keys && Open(Run(s, events)) <= Open(s)
    decreases |events|
  {
    if events != [] {
      var e := events[0];
      if e.Finish? || e.Close? { SettleCloses(s, e.id); }
      StepCounts(s, e);
      DrainOnlyFalls(Step(s, e), events[1..]);
    }
  }

  /** A callback of the request fires in these events. */
  predicate Fires(events: seq<Event>, id: RequestId) {
    exists i :: 0 <= i < |events| && (events[i] == Finish(id) || events[i] == Close(id))
  }

  lemma {:induction false} FiredIsClosed(s: State, events: seq<Event>, id: RequestId)
    requires Counts(s) && s.draining && (id !in Open(s) || Fires(events, id))
    ensures id !in Open(Run(s, events))
    decreases |events|
  {
    if events != [] {
      var e := events[0];
      StepCounts(s, e);
      if e.Finish? || e.Close? { SettleCloses(s, e.id); }
      if id in Open(Step(s, e)) {
        var i :| 0 <= i < |events| && (events[i] == Finish(id) || events[i] == Close(id));
        assert i > 0 && events[1..][i - 1] == events[i];
      }
      FiredIsClosed(Step(s, e), events[1..], id);
    }
  }

  /** The drain completes: the counter is zero as soon as every open request has settled. */
  lemma DrainReachesZero(s: State, events: seq<Event>)
    requires Counts(s) && s.draining
    requires forall id :: id in Open(s) ==> Fires(events, id)
    ensures Run(s, events).inFlight == 0
  {
    DrainOnlyFalls(s, events);
    CounterIsExact(s, events);
    forall id | id in Open(s) ensures id !in Open(Run(s, events)) { FiredIsClosed(s, events, id); }
    assert Open(Run(s, events)) == {};
  }

  /** The module variables and the flags its callbacks close over. */
  class Tracker {
    var inFlightRequests: int
    var isShuttingDown: bool
    var settled: map<RequestId, bool>

    function Abstract(): State reads this { State(inFlightRequests, isShuttingDown, settled) }

    ghost predicate Valid() reads this { Counts(Abstract()) }

    constructor ()
      ensures Valid() && Abstract() == START
    {
      inFlightRequests := 0;
      isShuttingDown := false;
      settled := map[];
      new;
      assert Open(START) == {};
    }

    method BeginRequestDrain()
      requires Valid()
      modifies this`isShuttingDown
      ensures Valid() && Abstract() == Step(old(Abstract()), BeginDrain)
    {
      isShuttingDown := true;
      assert Open(Abstract()) == Open(old(Abstract()));
    }

    /** The middleware: false is the 503 answer. */
    method Track(id: RequestId) returns (accepted: bool)
      requires Valid() && id !in settled
      modifies this
      ensures Valid() && accepted == !old(isShuttingDown)
      ensures Abstract() == Step(old(Abstract()), Arrive(id))
    {
      StepCounts(Abstract(), Arrive(id));
      if isShuttingDown { return false; }
      inFlightRequests := inFlightRequests + 1;
      settled := settled[id := false];
      return true;
    }

    /** The callback registered for both finish and close of an accepted request. */
    method OnSettled(id: RequestId)
      requires Valid() && id in settled
      modifies this
      ensures Valid() && Abstract() == Step(old(Abstract()), Finish(id)) == Step(old(Abstract()), Close(id))
      ensures inFlightRequests == old(inFlightRequests) - if old(settled)[id] then 0 else 1
    {
      SettleCloses(Abstract(), id);
      if settled[id] { return; }
      settled := settled[id := true];
      inFlightRequests := Max(0, inFlightRequests - 1);
    }
  }
}

/**
 * All deliveries together: one document each, and one collection with the milestone events
 * of all of them, indexed by delivery and `seq`.
 */
module DeliveryStore {
  import opened Common
  import opened DeliveryStatuses
  import EventLog
  import opened DeliveryLifecycle

  type DeliveryId = nat

  /** The event collection; the compound key is unique. */
  type SharedLog = map<(DeliveryId, nat), Entry>

  /** One delivery and the calls on it. */
  datatype Delivery = Delivery(
    status: Option<Status>, proof: bool, commits: seq<Entry>,
    calls: map<CallId, Call>, appends: map<CallId, EventLog.Append>)

  const ABSENT := Delivery(None, false, [], map[], map[])

  datatype Store = Store(deliveries: map<DeliveryId, Delivery>, log: SharedLog)

  datatype StoreAction = StoreAction(delivery: DeliveryId, action: Action)

  /** The events that the filter on the delivery selects, by `seq`. */
  function LogOf(log: SharedLog, d: DeliveryId): EventLog.Log {
    map key | key in log && key.0 == d :: key.1 := log[key]
  }

  function DeliveryOf(store: Store, d: DeliveryId): Delivery {
    if d in store.deliveries then store.deliveries[d] else ABSENT
  }

  /** What concerns one delivery. */
  function Cell(store: Store, d: DeliveryId): State {
    var own := DeliveryOf(store, d);
    State(own.status, own.proof, own.commits, own.calls, EventLog.State(LogOf(store.log, d), own.appends))
  }

  /** The insert into the shared collection: it fails on a key that is taken. */
  function InsertEventStep(store: Store, d: DeliveryId, c: CallId): Store {
    var own := DeliveryOf(store, d);
    if c !in own.appends || !own.appends[c].Inserting? then store
    else
      var a := own.appends[c];
      if (d, a.next) in store.log then
        var lost := a.collided + [a.next];
        var again := if a.attempt < EventLog.MAX_SEQ_ATTEMPTS
                     then EventLog.Reading(a.event, a.attempt + 1, a.began, lost)
                     else EventLog.GaveUp(a.event, a.began, lost);
        store.(deliveries := store.deliveries[d := own.(appends := own.appends[c := again])])
      else
        var stored := own.(appends := own.appends[c := EventLog.Stored(a.event, a.next)]);
        Store(store.deliveries[d := stored], store.log[(d, a.next) := EventLog.Entry(a.event, c)])
  }

  /** Every step but the insert leaves the collection alone. */
  function StoreStep(store: Store, e: StoreAction): Store {
    match e.action
    case InsertEvent(c) => InsertEventStep(store, e.delivery, c)
    case _ =>
      var t := Step(Cell(store, e.delivery), e.action);
      var own := Delivery(t.status, t.proof, t.commits, t.calls, t.events.calls);
      store.(deliveries := store.deliveries[e.delivery := own])
  }

  function ExecStore(store: Store, schedule: seq<StoreAction>): Store
    decreases |schedule|
  {
    if schedule == [] then store else ExecStore(StoreStep(store, schedule[0]), schedule[1..])
  }

  /** The steps of a schedule that concern one delivery. */
  function Project(schedule: seq<StoreAction>, d: DeliveryId): seq<Action> {
    if schedule == [] then []
    else (if schedule[0].delivery == d then [schedule[0].action] else []) + Project(schedule[1..], d)
  }

  lemma InLog(log: SharedLog, d: DeliveryId, k: nat)
    ensures (d, k) in log <==> k in LogOf(log, d)
    ensures (d, k) in log ==> LogOf(log, d)[k] == log[(d, k)]
  {
    if (d, k) in log { assert (d, k).1 in LogOf(log, d); }
  }

  /** An insert shows in the events of its delivery only, at its `seq`. */
  lemma InsertIsLocal(log: SharedLog, d: DeliveryId, next: nat, entry: Entry, e: DeliveryId)
    ensures LogOf(log[(d, next) := entry], e)
         == if e == d then LogOf(log, d)[next := entry] else LogOf(log, e)
  {
    var longer := log[(d, next) := entry];
    var shown := if e == d then LogOf(log, d)[next := entry] else LogOf(log, e);
    forall k ensures k in LogOf(longer, e) <==> k in shown {
      InLog(longer, e, k);
      InLog(log, e, k);
    }
    forall k | k in shown ensures LogOf(longer, e)[k] == shown[k] {
      InLog(longer, e, k);
      InLog(log, e, k);
    }
  }

  lemma OnlyInsertsChangeTheLog(s: State, a: Action)
    requires !a.InsertEvent?
    ensures Step(s, a).events.log == s.events.log
  {
  }

  /** A step on one delivery is the step of its cell, and leaves the cells of the others alone. */
  lemma StepIsLocal(store: Store, e: StoreAction, d: DeliveryId)
    ensures Cell(StoreStep(store, e), d)
         == if d == e.delivery then Step(Cell(store, d), e.action) else Cell(store, d)
  {
    if e.action.InsertEvent? {
      InsertStepIsLocal(store, e.delivery, e.action.call, d);
    } else {
      OnlyInsertsChangeTheLog(Cell(store, e.delivery), e.action);
    }
  }

  lemma InsertStepIsLocal(store: Store, e: DeliveryId, c: CallId, d: DeliveryId)
    ensures Cell(InsertEventStep(store, e, c), d)
         == if d == e then Step(Cell(store, d), InsertEvent(c)) else Cell(store, d)
  {
    var own := DeliveryOf(store, e);
    if c in own.appends && own.appends[c].Inserting? {
      var a := own.appends[c];
      InsertIsLocal(store.log, e, a.next, EventLog.Entry(a.event, c), d);
      InLog(store.log, e, a.next);
    }
  }

  lemma ProjectedStep(s: State, schedule: seq<StoreAction>, d: DeliveryId)
    requires schedule != []
    ensures Exec(s, Project(schedule, d))
         == Exec(if d == schedule[0].delivery then Step(s, schedule[0].action) else s, Project(schedule[1..], d))
  {
    var rest := Project(schedule[1..], d);
    if schedule[0].delivery == d {
      assert ([schedule[0].action] + rest)[1..] == rest;
    } else {
      assert [] + rest == rest;
    }
  }

  /**
   * Calls on different deliveries do not disturb each other, although their events share
   * one collection: each delivery runs as if alone.
   */
  lemma {:induction false} DeliveriesRunAlone(store: Store, schedule: seq<StoreAction>, d: DeliveryId)
    ensures Cell(ExecStore(store, schedule), d) == Exec(Cell(store, d), Project(schedule, d))
    decreases |schedule|
  {
    if schedule != [] {
      StepIsLocal(store, schedule[0], d);
      ProjectedStep(Cell(store, d), schedule, d);
      DeliveriesRunAlone(StoreStep(store, schedule[0]), schedule[1..], d);
    }
  }

  /** So what holds of every run of one delivery holds of each in the shared store. */
  lemma SharedLogsAreGapless(schedule: seq<StoreAction>, d: DeliveryId, k: nat)
    ensures var log := ExecStore(Store(map[], map[]), schedule).log;
            (d, k) in log <==> 1 <= k <= |LogOf(log, d)|
  {
    var empty := Store(map[], map[]);
    DeliveriesRunAlone(empty, schedule, d);
    assert LogOf(empty.log, d) == map[];
    ReachableInv(Project(schedule, d));
    var log := ExecStore(empty, schedule).log;
    assert EventLog.Gapless(LogOf(log, d));
    InLog(log, d, k);
  }
}

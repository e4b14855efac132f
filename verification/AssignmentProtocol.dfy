/**
 * Any number of concurrent calls of `assignNearestDriver`, among other writers that may
 * change the status of deliveries and escrows at any time.
 */
module AssignmentProtocol {
  import opened Common
  import opened DeliveryStatuses
  import opened Assignment

  type CallId = nat

  datatype End = Success(driver: DriverId) | NotAssigned | Failed

  /** Where a call stands inside the lock of its delivery. */
  datatype Place =
    | Waiting
    | Entered
    | Searching(step: nat)
    | Claiming(step: nat, candidates: seq<DriverId>)
    | Claimed(driver: DriverId)
    | DeliveryChecked(driver: DriverId)
    | EscrowChecked(driver: DriverId)
    | RollingBack(driver: DriverId)
    | Ended(end: End)

  datatype Call = Call(delivery: DeliveryId, place: Place)

  /**
   * The lists a search returns are arbitrary: they may be out of date when they are
   * used. `stranded` records the drivers whose rollback write failed; the code logs that
   * error and goes on.
   */
  datatype State = State(
    config: Config,
    drivers: map<DriverId, Driver>,
    deliveries: map<DeliveryId, Delivery>,
    escrows: map<DeliveryId, EscrowStatus>,
    locks: map<DeliveryId, CallId>,
    calls: map<CallId, Call>,
    stranded: set<DriverId>)

  /** The atomic steps of a call: on its lock, in its search, and around the assignment. */
  datatype LockAct = Acquire | AcquireFails | LoadDelivery | LoadFails
  datatype SearchAct = Search(found: seq<DriverId>) | SearchFails | TryClaim | ClaimFails
  datatype WriteAct = CheckDelivery | CheckEscrow | Save | SaveFails | RollBack | RollBackFails

  datatype Action =
    | Begin(call: CallId, delivery: DeliveryId)
    | OnLock(call: CallId, lockAct: LockAct)
    | OnSearch(call: CallId, searchAct: SearchAct)
    | OnWrite(call: CallId, writeAct: WriteAct)
    | WriteStatus(delivery: DeliveryId, status: Status)
    | WriteEscrow(delivery: DeliveryId, escrow: EscrowStatus)

  function Move(s: State, c: CallId, place: Place): State
    requires c in s.calls
  {
    s.(calls := s.calls[c := s.calls[c].(place := place)])
  }

  /** A call that ends leaves the lock of its delivery. */
  function Leave(s: State, c: CallId, end: End): State
    requires c in s.calls
  {
    Move(s, c, Ended(end)).(locks := s.locks - {s.calls[c].delivery})
  }

  function LockStep(s: State, c: CallId, act: LockAct): State
    requires c in s.calls
  {
    var Call(d, place) := s.calls[c];
    match act
    case Acquire => if place.Waiting? && d !in s.locks then Move(s, c, Entered).(locks := s.locks[d := c]) else s
    case AcquireFails => if place.Waiting? then Move(s, c, Ended(Failed)) else s
    case LoadDelivery =>
      if !place.Entered? then s
      else if d !in s.deliveries then Leave(s, c, Failed)
      else if s.deliveries[d].driverId.Some? then Leave(s, c, NotAssigned)
      else if s.deliveries[d].pickup.None? then Leave(s, c, Failed)
      else Move(s, c, Searching(0))
    case LoadFails => if place.Entered? then Leave(s, c, Failed) else s
  }

  function SearchStep(s: State, c: CallId, act: SearchAct): State
    requires c in s.calls
  {
    var place := s.calls[c].place;
    match act
    case Search(found) => if place.Searching? then Move(s, c, Claiming(place.step, found)) else s
    case SearchFails => if place.Searching? then Leave(s, c, Failed) else s
    case ClaimFails => if place.Claiming? then Leave(s, c, Failed) else s
    case TryClaim =>
      if !place.Claiming? then s
      else if place.candidates == [] then
        if place.step >= s.config.expansionSteps || Radius(s.config, place.step) >= s.config.maxRadius
        then Leave(s, c, NotAssigned) else Move(s, c, Searching(place.step + 1))
      else
        var x := place.candidates[0];
        if x in s.drivers && s.drivers[x].isAvailable
        then Move(s, c, Claimed(x)).(drivers := s.drivers[x := Claim(s.drivers[x])])
        else Move(s, c, Claiming(place.step, place.candidates[1..]))
  }

  function WriteStep(s: State, c: CallId, act: WriteAct): State
    requires c in s.calls
  {
    var Call(d, place) := s.calls[c];
    match act
    case CheckDelivery =>
      if !place.Claimed? then s
      else if d !in s.deliveries || DeliveryGuard(s.deliveries[d]).Some? then Move(s, c, RollingBack(place.driver))
      else Move(s, c, DeliveryChecked(place.driver))
    case CheckEscrow =>
      if !place.DeliveryChecked? then s
      else if EscrowGuard(s.escrows, d).Some? then Move(s, c, RollingBack(place.driver))
      else Move(s, c, EscrowChecked(place.driver))
    case Save =>
      if !place.EscrowChecked? then s
      else if d !in s.deliveries then Move(s, c, RollingBack(place.driver))
      else
        var saved := s.deliveries[d].(driverId := Some(place.driver), status := Assigned);
        Leave(s, c, Success(place.driver)).(deliveries := s.deliveries[d := saved])
    case SaveFails => if place.EscrowChecked? then Move(s, c, RollingBack(place.driver)) else s
    case RollBack =>
      if !place.RollingBack? then s
      else
        var x := place.driver;
        Leave(s, c, Failed).(drivers := if x in s.drivers then s.drivers[x := Release(s.drivers[x])] else s.drivers)
    case RollBackFails =>
      if place.RollingBack? then Leave(s, c, Failed).(stranded := s.stranded + {place.driver}) else s
  }

  /** One atomic step; an action that is not enabled changes nothing. */
  function Step(s: State, a: Action): State {
    match a
    case Begin(c, d) => if c in s.calls then s else s.(calls := s.calls[c := Call(d, Waiting)])
    case WriteStatus(d, status) =>
      if d in s.deliveries then s.(deliveries := s.deliveries[d := s.deliveries[d].(status := status)]) else s
    case WriteEscrow(d, escrow) => s.(escrows := s.escrows[d := escrow])
    case OnLock(c, act) => if c in s.calls then LockStep(s, c, act) else s
    case OnSearch(c, act) => if c in s.calls then SearchStep(s, c, act) else s
    case OnWrite(c, act) => if c in s.calls then WriteStep(s, c, act) else s
  }

  function Exec(s: State, schedule: seq<Action>): State
    decreases |schedule|
  {
    if schedule == [] then s else Exec(Step(s, schedule[0]), schedule[1..])
  }

  /** Before the first call: every driver available, no delivery assigned. */
  ghost predicate Initial(s: State) {
    && s.locks == map[] && s.calls == map[] && s.stranded == {}
    && (forall x :: x in s.drivers ==> s.drivers[x].isAvailable)
    && (forall d :: d in s.deliveries ==> s.deliveries[d].driverId.None?)
  }

  // -------------------------------------------------------------------- conservation

  /** Who a driver is held by: a call in flight, a delivery, or nobody who remembers. */
  datatype Holder = InFlight(call: CallId) | Committed(delivery: DeliveryId) | Stranded

  predicate HasDriver(place: Place) {
    place.Claimed? || place.DeliveryChecked? || place.EscrowChecked? || place.RollingBack?
  }

  ghost predicate Holds(s: State, h: Holder, x: DriverId) {
    match h
    case InFlight(c) => c in s.calls && HasDriver(s.calls[c].place) && s.calls[c].place.driver == x
    case Committed(d) => d in s.deliveries && s.deliveries[d].driverId == Some(x)
    case Stranded => x in s.stranded
  }

  /** A driver is unavailable exactly while somebody holds it, and is never held twice. */
  ghost predicate DriverInv(s: State) {
    && (forall h, x :: Holds(s, h, x) ==> x in s.drivers && !s.drivers[x].isAvailable)
    && (forall h, g, x :: Holds(s, h, x) && Holds(s, g, x) ==> h == g)
    && (forall x :: x in s.drivers && !s.drivers[x].isAvailable ==> exists h :: Holds(s, h, x))
  }

  /** Inside the lock; between reading the delivery and leaving, nobody else assigns it. */
  ghost predicate CallInv(s: State, c: CallId)
    requires c in s.calls
  {
    var call := s.calls[c];
    && (!call.place.Waiting? && !call.place.Ended? ==>
         call.delivery in s.locks && s.locks[call.delivery] == c)
    && (call.place.Searching? || call.place.Claiming? || HasDriver(call.place) ==>
         call.delivery in s.deliveries && s.deliveries[call.delivery].driverId.None?)
    && (call.place.Ended? && call.place.end.Success? ==>
         call.delivery in s.deliveries && s.deliveries[call.delivery].driverId == Some(call.place.end.driver))
  }

  ghost predicate Inv(s: State) {
    DriverInv(s) && forall c :: c in s.calls ==> CallInv(s, c)
  }

  /** Nothing changes hands. */
  lemma SameHoldings(s: State, t: State)
    requires DriverInv(s) && t.drivers == s.drivers
    requires forall h, x :: Holds(t, h, x) <==> Holds(s, h, x)
    ensures DriverInv(t)
  {
    forall x | x in t.drivers && !t.drivers[x].isAvailable ensures exists h :: Holds(t, h, x) {
      var h :| Holds(s, h, x);
      assert Holds(t, h, x);
    }
  }

  /** Driver `held` passes from one holder to another. */
  lemma Handover(s: State, t: State, from: Holder, to: Holder, held: DriverId)
    requires DriverInv(s) && t.drivers == s.drivers && Holds(s, from, held)
    requires forall h, x :: Holds(t, h, x) <==>
               (Holds(s, h, x) && !(h == from && x == held)) || (h == to && x == held)
    ensures DriverInv(t)
  {
    forall x | x in t.drivers && !t.drivers[x].isAvailable ensures exists h :: Holds(t, h, x) {
      var h :| Holds(s, h, x);
      assert if x == held then Holds(t, to, x) else Holds(t, h, x);
    }
  }

  lemma SearchKeepsDriverInv(s: State, c: CallId, act: SearchAct)
    requires DriverInv(s) && c in s.calls
    ensures DriverInv(SearchStep(s, c, act))
  {
    var place := s.calls[c].place;
    if act.TryClaim? && place.Claiming? && place.candidates != []
       && place.candidates[0] in s.drivers && s.drivers[place.candidates[0]].isAvailable
    {
      ClaimKeepsDriverInv(s, c);
    } else {
      var t := SearchStep(s, c, act);
      forall h, x ensures Holds(t, h, x) <==> Holds(s, h, x) {}
      SameHoldings(s, t);
    }
  }

  lemma ClaimKeepsDriverInv(s: State, c: CallId)
    requires DriverInv(s) && c in s.calls && s.calls[c].place.Claiming? && s.calls[c].place.candidates != []
    requires var x := s.calls[c].place.candidates[0]; x in s.drivers && s.drivers[x].isAvailable
    ensures DriverInv(SearchStep(s, c, TryClaim))
  {
    var t := SearchStep(s, c, TryClaim);
    var claimed := s.calls[c].place.candidates[0];
    forall h, x ensures Holds(t, h, x) <==> Holds(s, h, x) || (h == InFlight(c) && x == claimed) {}
    forall x | x in t.drivers && !t.drivers[x].isAvailable ensures exists h :: Holds(t, h, x) {
      if x == claimed {
        assert Holds(t, InFlight(c), x);
      } else {
        var h :| Holds(s, h, x);
        assert Holds(t, h, x);
      }
    }
  }

  lemma LockKeepsDriverInv(s: State, c: CallId, act: LockAct)
    requires DriverInv(s) && c in s.calls
    ensures DriverInv(LockStep(s, c, act))
  {
    var t := LockStep(s, c, act);
    var place := s.calls[c].place;
    if place.Waiting? || place.Entered? {
      assert t.drivers == s.drivers && t.deliveries == s.deliveries && t.stranded == s.stranded;
      assert !HasDriver(t.calls[c].place);
      forall h, x ensures Holds(t, h, x) <==> Holds(s, h, x) {}
      SameHoldings(s, t);
    } else {
      assert t == s;
    }
  }

  lemma RollBackKeepsDriverInv(s: State, c: CallId)
    requires DriverInv(s) && c in s.calls && s.calls[c].place.RollingBack?
    ensures DriverInv(WriteStep(s, c, RollBack))
  {
    var t := WriteStep(s, c, RollBack);
    var held := s.calls[c].place.driver;
    assert Holds(s, InFlight(c), held);
    forall h, x ensures Holds(t, h, x) <==> Holds(s, h, x) && h != InFlight(c) {}
    forall x | x in t.drivers && !t.drivers[x].isAvailable ensures exists h :: Holds(t, h, x) {
      var h :| Holds(s, h, x);
      assert Holds(t, h, x);
    }
  }

  lemma RollBackFailsKeepsDriverInv(s: State, c: CallId)
    requires DriverInv(s) && c in s.calls && s.calls[c].place.RollingBack?
    ensures DriverInv(WriteStep(s, c, RollBackFails))
  {
    var t := WriteStep(s, c, RollBackFails);
    var held := s.calls[c].place.driver;
    forall h, x ensures Holds(t, h, x) <==>
      (Holds(s, h, x) && !(h == InFlight(c) && x == held)) || (h == Stranded && x == held) {}
    Handover(s, t, InFlight(c), Stranded, held);
  }

  lemma SaveKeepsDriverInv(s: State, c: CallId)
    requires DriverInv(s) && c in s.calls && CallInv(s, c) && s.calls[c].place.EscrowChecked?
    ensures DriverInv(WriteStep(s, c, Save))
  {
    var t := WriteStep(s, c, Save);
    var d, held := s.calls[c].delivery, s.calls[c].place.driver;
    forall h, x ensures Holds(t, h, x) <==>
      (Holds(s, h, x) && !(h == InFlight(c) && x == held)) || (h == Committed(d) && x == held) {}
    Handover(s, t, InFlight(c), Committed(d), held);
  }

  lemma WriteKeepsDriverInv(s: State, c: CallId, act: WriteAct)
    requires DriverInv(s) && c in s.calls && CallInv(s, c)
    ensures DriverInv(WriteStep(s, c, act))
  {
    var place := s.calls[c].place;
    if act.Save? && place.EscrowChecked? {
      SaveKeepsDriverInv(s, c);
    } else if act.RollBack? && place.RollingBack? {
      RollBackKeepsDriverInv(s, c);
    } else if act.RollBackFails? && place.RollingBack? {
      RollBackFailsKeepsDriverInv(s, c);
    } else {
      var t := WriteStep(s, c, act);
      forall h, x ensures Holds(t, h, x) <==> Holds(s, h, x) {}
      SameHoldings(s, t);
    }
  }

  lemma StepKeepsDriverInv(s: State, a: Action)
    requires Inv(s)
    ensures DriverInv(Step(s, a))
  {
    match a
    case OnLock(c, act) => if c in s.calls { LockKeepsDriverInv(s, c, act); }
    case OnSearch(c, act) => if c in s.calls { SearchKeepsDriverInv(s, c, act); }
    case OnWrite(c, act) =>
      if c in s.calls {
        assert CallInv(s, c);
        WriteKeepsDriverInv(s, c, act);
      }
    case _ =>
      forall h, x ensures Holds(Step(s, a), h, x) <==> Holds(s, h, x) {}
      SameHoldings(s, Step(s, a));
  }

  /**
   * What a step of call `c` leaves alone: the other calls, the locks of the others, and
   * every delivery but its own, which it may write only while it has the lock.
   */
  ghost predicate Framed(s: State, t: State, c: CallId)
    requires c in s.calls
  {
    var d := s.calls[c].delivery;
    && t.calls.Keys == s.calls.Keys && t.calls[c].delivery == d
    && (forall e :: e in s.calls && e != c ==> t.calls[e] == s.calls[e])
    && (forall k :: k in s.locks && s.locks[k] != c ==> k in t.locks && t.locks[k] == s.locks[k])
    && t.deliveries.Keys == s.deliveries.Keys
    && (forall k :: k in s.deliveries && t.deliveries[k] != s.deliveries[k] ==>
         k == d && d in s.locks && s.locks[d] == c && s.deliveries[d].driverId.None?)
  }

  lemma LockIsFramed(s: State, c: CallId, act: LockAct)
    requires c in s.calls && CallInv(s, c)
    ensures Framed(s, LockStep(s, c, act), c) && CallInv(LockStep(s, c, act), c)
  {
  }

  lemma SearchIsFramed(s: State, c: CallId, act: SearchAct)
    requires c in s.calls && CallInv(s, c)
    ensures Framed(s, SearchStep(s, c, act), c) && CallInv(SearchStep(s, c, act), c)
  {
  }

  lemma WriteIsFramed(s: State, c: CallId, act: WriteAct)
    requires c in s.calls && CallInv(s, c)
    ensures Framed(s, WriteStep(s, c, act), c) && CallInv(WriteStep(s, c, act), c)
  {
  }

  lemma FramedKeepsOthers(s: State, t: State, c: CallId, e: CallId)
    requires c in s.calls && Framed(s, t, c) && e in s.calls && e != c && CallInv(s, e)
    ensures CallInv(t, e)
  {
  }

  lemma StepKeepsCallInv(s: State, a: Action, e: CallId)
    requires Inv(s) && e in Step(s, a).calls
    ensures CallInv(Step(s, a), e)
  {
    if e in s.calls { assert CallInv(s, e); }
    if (a.OnLock? || a.OnSearch? || a.OnWrite?) && a.call in s.calls {
      var c := a.call;
      assert CallInv(s, c);
      match a {
        case OnLock(_, act) => LockIsFramed(s, c, act);
        case OnSearch(_, act) => SearchIsFramed(s, c, act);
        case OnWrite(_, act) => WriteIsFramed(s, c, act);
      }
      if e != c { FramedKeepsOthers(s, Step(s, a), c, e); }
    }
  }

  lemma StepKeepsInv(s: State, a: Action)
    requires Inv(s)
    ensures Inv(Step(s, a))
  {
    StepKeepsDriverInv(s, a);
    forall c | c in Step(s, a).calls ensures CallInv(Step(s, a), c) {
      StepKeepsCallInv(s, a, c);
    }
  }

  lemma {:induction false} ExecKeepsInv(s: State, schedule: seq<Action>)
    requires Inv(s)
    ensures Inv(Exec(s, schedule))
    decreases |schedule|
  {
    if schedule != [] {
      StepKeepsInv(s, schedule[0]);
      ExecKeepsInv(Step(s, schedule[0]), schedule[1..]);
    }
  }

  lemma InitialInv(s: State)
    requires Initial(s)
    ensures Inv(s)
  {
    forall h, x ensures !Holds(s, h, x) {}
  }

  // ----------------------------------------------------------------- what follows

  /**
   * In every interleaving a driver is unavailable exactly if it is held by one call in
   * flight, one delivery, or a rollback that failed; and by no two of these.
   */
  lemma DriversAreConserved(s: State, schedule: seq<Action>, x: DriverId)
    requires Initial(s)
    ensures var t := Exec(s, schedule);
            && ((x in t.drivers && !t.drivers[x].isAvailable) <==> exists h :: Holds(t, h, x))
            && forall h, g :: Holds(t, h, x) && Holds(t, g, x) ==> h == g
  {
    InitialInv(s);
    ExecKeepsInv(s, schedule);
  }

  /** No driver is given to two deliveries. */
  lemma NoDriverServesTwice(s: State, schedule: seq<Action>, d: DeliveryId, e: DeliveryId)
    requires Initial(s)
    requires var t := Exec(s, schedule);
             d in t.deliveries && e in t.deliveries && t.deliveries[d].driverId.Some? &&
             t.deliveries[d].driverId == t.deliveries[e].driverId
    ensures d == e
  {
    var t := Exec(s, schedule);
    var x := t.deliveries[d].driverId.value;
    DriversAreConserved(s, schedule, x);
    assert Holds(t, Committed(d), x) && Holds(t, Committed(e), x);
  }

  /** No delivery is given a second driver: once set, the driver stays. */
  lemma {:induction false} DriverIsNeverReplaced(s: State, schedule: seq<Action>, d: DeliveryId)
    requires Inv(s) && d in s.deliveries && s.deliveries[d].driverId.Some?
    ensures d in Exec(s, schedule).deliveries
    ensures Exec(s, schedule).deliveries[d].driverId == s.deliveries[d].driverId
    decreases |schedule|
  {
    if schedule != [] {
      var a := schedule[0];
      if a.OnWrite? && a.call in s.calls { assert CallInv(s, a.call); }
      StepKeepsInv(s, a);
      DriverIsNeverReplaced(Step(s, a), schedule[1..], d);
    }
  }

  /** Of the calls on one delivery at most one is inside the lock. */
  lemma LockIsExclusive(s: State, schedule: seq<Action>, c: CallId, e: CallId)
    requires Initial(s)
    requires var t := Exec(s, schedule);
             && c in t.calls && e in t.calls && t.calls[c].delivery == t.calls[e].delivery
             && !t.calls[c].place.Waiting? && !t.calls[c].place.Ended?
             && !t.calls[e].place.Waiting? && !t.calls[e].place.Ended?
    ensures c == e
  {
    InitialInv(s);
    ExecKeepsInv(s, schedule);
    var t := Exec(s, schedule);
    assert CallInv(t, c) && CallInv(t, e);
  }

  /** A call that reports success has its driver on the delivery, now and ever after. */
  lemma SuccessIsOnRecord(s: State, schedule: seq<Action>, c: CallId)
    requires Initial(s)
    requires var t := Exec(s, schedule);
             c in t.calls && t.calls[c].place.Ended? && t.calls[c].place.end.Success?
    ensures var t := Exec(s, schedule);
            var d := t.calls[c].delivery;
            d in t.deliveries && t.deliveries[d].driverId == Some(t.calls[c].place.end.driver)
  {
    InitialInv(s);
    ExecKeepsInv(s, schedule);
    assert CallInv(Exec(s, schedule), c);
  }

  lemma {:induction false} NobodyStranded(s: State, schedule: seq<Action>, x: DriverId)
    requires forall c :: OnWrite(c, RollBackFails) !in schedule
    ensures !StrandsInRun(s, schedule, x)
    decreases |schedule|
  {
    if schedule != [] {
      NobodyStranded(Step(s, schedule[0]), schedule[1..], x);
    }
  }

  /**
   * When no call is in flight and no rollback write has failed, the unavailable drivers
   * are exactly those on deliveries: every failed assignment has returned its driver.
   */
  lemma FailedCallsReturnTheirDriver(s: State, schedule: seq<Action>, x: DriverId)
    requires Initial(s)
    requires forall c :: OnWrite(c, RollBackFails) !in schedule
    requires var t := Exec(s, schedule); forall c :: c in t.calls ==> !HasDriver(t.calls[c].place)
    ensures var t := Exec(s, schedule);
            (x in t.drivers && !t.drivers[x].isAvailable) <==> exists d :: Holds(t, Committed(d), x)
  {
    DriversAreConserved(s, schedule, x);
    NobodyStranded(s, schedule, x);
    StrandedExactly(s, schedule, x);
    var t := Exec(s, schedule);
    if h :| Holds(t, h, x) {
      assert h == Committed(h.delivery);
    }
  }

  // ------------------------------------------------------------ how a driver is stranded

  /** The step is the failing rollback write of a call that holds this driver. */
  predicate Strands(s: State, a: Action, x: DriverId) {
    && a.OnWrite? && a.writeAct.RollBackFails? && a.call in s.calls
    && s.calls[a.call].place == RollingBack(x)
  }

  predicate StrandsInRun(s: State, schedule: seq<Action>, x: DriverId)
    decreases |schedule|
  {
    schedule != [] && (Strands(s, schedule[0], x) || StrandsInRun(Step(s, schedule[0]), schedule[1..], x))
  }

  /** A driver ends up stranded exactly if the rollback write of a call that held it failed. */
  lemma {:induction false} StrandedExactly(s: State, schedule: seq<Action>, x: DriverId)
    ensures x in Exec(s, schedule).stranded <==> x in s.stranded || StrandsInRun(s, schedule, x)
    decreases |schedule|
  {
    if schedule != [] {
      StrandedExactly(Step(s, schedule[0]), schedule[1..], x);
      StrandingStep(s, schedule[0], x);
    }
  }

  lemma LockAndSearchStrandNobody(s: State, c: CallId, lockAct: LockAct, searchAct: SearchAct)
    requires c in s.calls
    ensures LockStep(s, c, lockAct).stranded == s.stranded == SearchStep(s, c, searchAct).stranded
  {
  }

  lemma StrandingStep(s: State, a: Action, x: DriverId)
    ensures x in Step(s, a).stranded <==> x in s.stranded || Strands(s, a, x)
  {
    match a
    case OnLock(c, act) => if c in s.calls { LockAndSearchStrandNobody(s, c, act, TryClaim); }
    case OnSearch(c, act) => if c in s.calls { LockAndSearchStrandNobody(s, c, Acquire, act); }
    case OnWrite(_, _) =>
    case Begin(_, _) =>
    case WriteStatus(_, _) =>
    case WriteEscrow(_, _) =>
  }

  /** A stranded driver is unavailable, with no call and no delivery that holds it. */
  lemma FailedRollbackStrands(s: State, schedule: seq<Action>, x: DriverId)
    requires Initial(s) && StrandsInRun(s, schedule, x)
    ensures var t := Exec(s, schedule);
            && x in t.drivers && !t.drivers[x].isAvailable
            && (forall c :: !Holds(t, InFlight(c), x)) && (forall d :: !Holds(t, Committed(d), x))
  {
    StrandedExactly(s, schedule, x);
    DriversAreConserved(s, schedule, x);
    assert Holds(Exec(s, schedule), Stranded, x);
  }

  /** The driver is out of service, and neither a call nor a delivery has it. */
  ghost predicate Unheld(s: State, x: DriverId) {
    && x in s.drivers && !s.drivers[x].isAvailable
    && (forall c :: !Holds(s, InFlight(c), x)) && (forall d :: !Holds(s, Committed(d), x))
  }

  /**
   * In every run a driver is out of service without a call or delivery that has it exactly
   * if the rollback write of a call that held it failed.
   */
  lemma UnheldExactly(s: State, schedule: seq<Action>, x: DriverId)
    requires Initial(s)
    ensures Unheld(Exec(s, schedule), x) <==> StrandsInRun(s, schedule, x)
  {
    var t := Exec(s, schedule);
    if Unheld(t, x) {
      DriversAreConserved(s, schedule, x);
      var h :| Holds(t, h, x);
      assert h == Stranded;
    }
    StrandedExactly(s, schedule, x);
    if StrandsInRun(s, schedule, x) { FailedRollbackStrands(s, schedule, x); }
  }

  /** The call enters the lock and reads the delivery. */
  function LockIn(c: CallId, d: DeliveryId): seq<Action> {
    [Begin(c, d), OnLock(c, Acquire), OnLock(c, LoadDelivery)]
  }

  /** It searches and claims the first driver found. */
  function ClaimFirst(c: CallId, found: seq<DriverId>): seq<Action> {
    [OnSearch(c, Search(found)), OnSearch(c, TryClaim)]
  }

  /** The answer of the first search for this delivery, in this state. */
  ghost predicate IsFirstSearch(s: State, d: DeliveryId, metric: Metric, found: seq<DriverId>) {
    && d in s.deliveries && s.deliveries[d].pickup.Some? && ValidCoordinates(s.deliveries[d].pickup.value)
    && var center, radius := s.deliveries[d].pickup.value, RealRadius(s.config, 0);
       IsNearby(found, Distances(s.drivers, center, radius, FreeWithin(radius), metric), s.config.maxResults)
  }

  function CheckGuards(c: CallId): seq<Action> {
    [OnWrite(c, CheckDelivery), OnWrite(c, CheckEscrow)]
  }

  /** A call claims the first driver found, is refused the assignment, and its rollback write fails. */
  function StrandingSchedule(c: CallId, d: DeliveryId, found: seq<DriverId>): seq<Action> {
    LockIn(c, d) + (ClaimFirst(c, found) + (CheckGuards(c) + [OnWrite(c, RollBackFails)]))
  }

  lemma ExecTwo(s: State, a: Action, b: Action)
    ensures Exec(s, [a, b]) == Step(Step(s, a), b)
  {
    assert [a, b][1..] == [b] && [b][1..] == [];
    assert Exec(Step(s, a), [b]) == Exec(Step(Step(s, a), b), []);
  }

  lemma {:induction false} ExecSplits(s: State, first: seq<Action>, second: seq<Action>)
    ensures Exec(s, first + second) == Exec(Exec(s, first), second)
    decreases |first|
  {
    if first == [] {
      assert first + second == second;
    } else {
      ExecSplits(Step(s, first[0]), first[1..], second);
      assert (first + second)[1..] == first[1..] + second;
    }
  }

  lemma LockedCallSearches(s: State, c: CallId, d: DeliveryId)
    requires Initial(s) && d in s.deliveries && s.deliveries[d].pickup.Some?
    ensures Exec(s, LockIn(c, d)) == s.(calls := map[c := Call(d, Searching(0))], locks := map[d := c])
  {
    var begun := Step(s, Begin(c, d));
    assert begun == s.(calls := map[c := Call(d, Waiting)]);
    ExecTwo(begun, OnLock(c, Acquire), OnLock(c, LoadDelivery));
    assert LockIn(c, d)[1..] == [OnLock(c, Acquire), OnLock(c, LoadDelivery)];
    var entered := Step(begun, OnLock(c, Acquire));
    assert entered == s.(calls := map[c := Call(d, Entered)], locks := map[d := c]);
    assert Step(entered, OnLock(c, LoadDelivery)).calls == map[c := Call(d, Searching(0))];
  }

  lemma SearchingCallClaims(s: State, c: CallId, d: DeliveryId, found: seq<DriverId>)
    requires s.calls == map[c := Call(d, Searching(0))]
    requires found != [] && found[0] in s.drivers && s.drivers[found[0]].isAvailable
    ensures var x := found[0];
            Exec(s, ClaimFirst(c, found))
            == s.(calls := map[c := Call(d, Claimed(x))], drivers := s.drivers[x := Claim(s.drivers[x])])
  {
    ExecTwo(s, OnSearch(c, Search(found)), OnSearch(c, TryClaim));
    var searched := Step(s, OnSearch(c, Search(found)));
    assert searched == s.(calls := map[c := Call(d, Claiming(0, found))]);
    assert Step(searched, OnSearch(c, TryClaim)).calls == map[c := Call(d, Claimed(found[0]))];
  }

  /** The call after it has claimed a driver. */
  function Claimer(s: State, c: CallId, d: DeliveryId, x: DriverId): State
    requires x in s.drivers
  {
    s.(calls := map[c := Call(d, Claimed(x))], locks := map[d := c], drivers := s.drivers[x := Claim(s.drivers[x])])
  }

  lemma RunToClaim(s: State, c: CallId, d: DeliveryId, found: seq<DriverId>, rest: seq<Action>)
    requires Initial(s) && d in s.deliveries && s.deliveries[d].pickup.Some?
    requires found != [] && found[0] in s.drivers
    ensures Exec(s, LockIn(c, d) + (ClaimFirst(c, found) + rest)) == Exec(Claimer(s, c, d, found[0]), rest)
  {
    var searching := s.(calls := map[c := Call(d, Searching(0))], locks := map[d := c]);
    ExecSplits(s, LockIn(c, d), ClaimFirst(c, found) + rest);
    LockedCallSearches(s, c, d);
    ExecSplits(searching, ClaimFirst(c, found), rest);
    SearchingCallClaims(searching, c, d, found);
  }

  lemma RefusedClaimerRollsBack(s: State, c: CallId, d: DeliveryId, x: DriverId)
    requires s.calls == map[c := Call(d, Claimed(x))] && AssignGuard(s.deliveries, s.escrows, d).Some?
    ensures Exec(s, CheckGuards(c)) == s.(calls := map[c := Call(d, RollingBack(x))])
  {
    ExecTwo(s, OnWrite(c, CheckDelivery), OnWrite(c, CheckEscrow));
    var checked := Step(s, OnWrite(c, CheckDelivery));
    assert Step(checked, OnWrite(c, CheckEscrow)).calls == map[c := Call(d, RollingBack(x))];
  }

  /** The refused call, its rollback write failed. */
  lemma RunToStranding(s: State, c: CallId, d: DeliveryId, found: seq<DriverId>)
    requires Initial(s) && d in s.deliveries && s.deliveries[d].pickup.Some?
    requires found != [] && found[0] in s.drivers
    requires AssignGuard(s.deliveries, s.escrows, d).Some?
    ensures var t := Exec(s, StrandingSchedule(c, d, found));
            t.calls == map[c := Call(d, Ended(Failed))] && t.stranded == {found[0]}
  {
    var claimer, last := Claimer(s, c, d, found[0]), [OnWrite(c, RollBackFails)];
    RunToClaim(s, c, d, found, CheckGuards(c) + last);
    ExecSplits(claimer, CheckGuards(c), last);
    RefusedClaimerRollsBack(claimer, c, d, found[0]);
    LastStepStrands(claimer.(calls := map[c := Call(d, RollingBack(found[0]))]), c, d, found[0]);
  }

  lemma LastStepStrands(s: State, c: CallId, d: DeliveryId, x: DriverId)
    requires s.calls == map[c := Call(d, RollingBack(x))] && s.stranded == {}
    ensures var t := Exec(s, [OnWrite(c, RollBackFails)]);
            t.calls == map[c := Call(d, Ended(Failed))] && t.stranded == {x}
  {
    var a := OnWrite(c, RollBackFails);
    assert [a][1..] == [];
    assert Exec(s, [a]) == Exec(Step(s, a), []);
  }

  lemma FirstFoundIsNearest(s: State, d: DeliveryId, metric: Metric, found: seq<DriverId>)
    requires s.config.Valid() && IsFirstSearch(s, d, metric, found) && found != []
    ensures found[0] in s.drivers && IsNearestFree(s.drivers, s.deliveries[d].pickup.value, metric, found[0])
  {
    var center, radius := s.deliveries[d].pickup.value, RealRadius(s.config, 0);
    NearbyIsNearestFree(found, s.drivers, center, radius, s.config.maxResults, metric);
  }

  /**
   * Such runs exist: from every initial state, a search for a delivery that `assignDriver`
   * refuses can strand the driver it finds first, a free driver nobody free is nearer than.
   */
  lemma RefusedAssignmentCanStrand(s: State, c: CallId, d: DeliveryId, metric: Metric, found: seq<DriverId>)
    requires Initial(s) && s.config.Valid()
    requires IsFirstSearch(s, d, metric, found) && found != []
    requires AssignGuard(s.deliveries, s.escrows, d).Some?
    ensures var t := Exec(s, StrandingSchedule(c, d, found));
            && t.calls.Keys == {c} && t.calls[c].place == Ended(Failed)
            && IsNearestFree(s.drivers, s.deliveries[d].pickup.value, metric, found[0])
            && Unheld(t, found[0])
  {
    FirstFoundIsNearest(s, d, metric, found);
    RunToStranding(s, c, d, found);
    StrandedExactly(s, StrandingSchedule(c, d, found), found[0]);
    UnheldExactly(s, StrandingSchedule(c, d, found), found[0]);
  }

  // -------------------------------------- how an assignment overwrites a closed delivery

  predicate IsClosed(status: Status) {
    status == Completed || status == Cancelled
  }

  /** The status of a delivery after these steps of others, if it was `status` before. */
  function LastStatus(schedule: seq<Action>, d: DeliveryId, status: Status): Status
    decreases |schedule|
  {
    if schedule == [] then status
    else
      var a := schedule[0];
      LastStatus(schedule[1..], d, if a.WriteStatus? && a.delivery == d then a.status else status)
  }

  /** The guards on the delivery have passed, and the call has not saved yet. */
  predicate AboutToSave(place: Place) {
    place.DeliveryChecked? || place.EscrowChecked?
  }

  /** A call that is past its save or on its way out never comes back to it. */
  predicate IsPastSave(place: Place) {
    place.RollingBack? || place.Ended?
  }

  /** What a step of call `c` itself does to its way to the save. */
  ghost predicate GoesOn(s: State, t: State, c: CallId)
    requires c in s.calls
  {
    && c in t.calls && t.calls[c].delivery == s.calls[c].delivery
    && (IsPastSave(s.calls[c].place) ==> IsPastSave(t.calls[c].place))
    && (AboutToSave(s.calls[c].place) ==>
         || IsPastSave(t.calls[c].place)
         || (AboutToSave(t.calls[c].place) && t.deliveries == s.deliveries))
  }

  lemma OwnLockStep(s: State, c: CallId, act: LockAct)
    requires c in s.calls
    ensures GoesOn(s, LockStep(s, c, act), c)
  {
  }

  lemma OwnSearchStep(s: State, c: CallId, act: SearchAct)
    requires c in s.calls
    ensures GoesOn(s, SearchStep(s, c, act), c)
  {
  }

  lemma OwnWriteStep(s: State, c: CallId, act: WriteAct)
    requires c in s.calls
    ensures GoesOn(s, WriteStep(s, c, act), c)
  {
  }

  predicate IsOwn(a: Action, c: CallId) {
    (a.OnLock? || a.OnSearch? || a.OnWrite?) && a.call == c
  }

  lemma OwnStep(s: State, a: Action, c: CallId)
    requires c in s.calls && IsOwn(a, c)
    ensures GoesOn(s, Step(s, a), c)
  {
    match a
    case OnLock(_, act) => OwnLockStep(s, c, act);
    case OnSearch(_, act) => OwnSearchStep(s, c, act);
    case OnWrite(_, act) => OwnWriteStep(s, c, act);
  }

  /** Steps of others leave the call as it is, and the delivery in its lock, but for the status. */
  lemma OthersStep(s: State, a: Action, c: CallId)
    requires Inv(s) && c in s.calls && !IsOwn(a, c)
    ensures c in Step(s, a).calls && Step(s, a).calls[c] == s.calls[c]
    ensures AboutToSave(s.calls[c].place) ==>
              var d := s.calls[c].delivery;
              && d in s.deliveries && d in Step(s, a).deliveries
              && Step(s, a).deliveries[d].status
                 == if a.WriteStatus? && a.delivery == d then a.status else s.deliveries[d].status
  {
    assert CallInv(s, c);
    if (a.OnLock? || a.OnSearch? || a.OnWrite?) && a.call in s.calls {
      assert CallInv(s, a.call);
      match a {
        case OnLock(e, act) => LockIsFramed(s, e, act);
        case OnSearch(e, act) => SearchIsFramed(s, e, act);
        case OnWrite(e, act) => WriteIsFramed(s, e, act);
      }
      assert Framed(s, Step(s, a), a.call);
    }
  }

  lemma {:induction false} PastSaveForGood(s: State, schedule: seq<Action>, c: CallId)
    requires Inv(s) && c in s.calls && IsPastSave(s.calls[c].place)
    ensures c in Exec(s, schedule).calls && IsPastSave(Exec(s, schedule).calls[c].place)
    decreases |schedule|
  {
    if schedule != [] {
      StepKeepsInv(s, schedule[0]);
      if IsOwn(schedule[0], c) { OwnStep(s, schedule[0], c); } else { OthersStep(s, schedule[0], c); }
      PastSaveForGood(Step(s, schedule[0]), schedule[1..], c);
    }
  }

  /** While a call is about to save, the status of its delivery is whatever others wrote last. */
  lemma {:induction false} StatusUntilSave(s: State, schedule: seq<Action>, c: CallId)
    requires Inv(s) && c in s.calls && AboutToSave(s.calls[c].place)
    requires c in Exec(s, schedule).calls && AboutToSave(Exec(s, schedule).calls[c].place)
    ensures var d, t := s.calls[c].delivery, Exec(s, schedule);
            && t.calls[c].delivery == d && d in s.deliveries && d in t.deliveries
            && t.deliveries[d].status == LastStatus(schedule, d, s.deliveries[d].status)
    decreases |schedule|
  {
    assert CallInv(s, c);
    if schedule != [] {
      StepKeepsInv(s, schedule[0]);
      var next := Step(s, schedule[0]);
      if IsOwn(schedule[0], c) {
        OwnStep(s, schedule[0], c);
        if IsPastSave(next.calls[c].place) { PastSaveForGood(next, schedule[1..], c); }
      } else {
        OthersStep(s, schedule[0], c);
      }
      StatusUntilSave(next, schedule[1..], c);
    }
  }

  /**
   * Exactly when an assignment overwrites a closed delivery: its plain save does so if the
   * last status others wrote since the check of the delivery closes it. Whatever it was,
   * the status is assigned afterwards.
   */
  lemma SaveOverwritesExactly(s: State, between: seq<Action>, c: CallId)
    requires Inv(s) && c in s.calls && s.calls[c].place.Claimed?
    requires Step(s, OnWrite(c, CheckDelivery)).calls[c].place.DeliveryChecked?
    requires var t := Exec(Step(s, OnWrite(c, CheckDelivery)), between); c in t.calls && t.calls[c].place.EscrowChecked?
    ensures var t := Exec(Step(s, OnWrite(c, CheckDelivery)), between);
            var d, after := s.calls[c].delivery, Step(t, OnWrite(c, Save));
            && d in s.deliveries && d in t.deliveries && d in after.deliveries
            && (IsClosed(t.deliveries[d].status) <==> IsClosed(LastStatus(between, d, Pending)))
            && after.deliveries[d].status == Assigned
  {
    var checked := Step(s, OnWrite(c, CheckDelivery));
    var d := s.calls[c].delivery;
    StepKeepsInv(s, OnWrite(c, CheckDelivery));
    StatusUntilSave(checked, between, c);
    assert !IsClosed(checked.deliveries[d].status);
    OpenUnlessWritten(between, d, checked.deliveries[d].status, Pending);
  }

  lemma {:induction false} OpenUnlessWritten(schedule: seq<Action>, d: DeliveryId, a: Status, b: Status)
    requires IsClosed(a) <==> IsClosed(b)
    ensures IsClosed(LastStatus(schedule, d, a)) <==> IsClosed(LastStatus(schedule, d, b))
    decreases |schedule|
  {
    if schedule != [] {
      var w := schedule[0];
      var written := w.WriteStatus? && w.delivery == d;
      OpenUnlessWritten(schedule[1..], d, if written then w.status else a, if written then w.status else b);
    }
  }

  /** A delivery is cancelled between the guards of an assignment and its save. */
  function OverwritingSchedule(c: CallId, d: DeliveryId, found: seq<DriverId>): seq<Action> {
    LockIn(c, d) + (ClaimFirst(c, found) + (CheckGuards(c) + [WriteStatus(d, Cancelled), OnWrite(c, Save)]))
  }

  lemma AcceptedClaimerMaySave(s: State, c: CallId, d: DeliveryId, x: DriverId)
    requires s.calls == map[c := Call(d, Claimed(x))] && AssignGuard(s.deliveries, s.escrows, d).None?
    ensures Exec(s, CheckGuards(c)) == s.(calls := map[c := Call(d, EscrowChecked(x))])
  {
    ExecTwo(s, OnWrite(c, CheckDelivery), OnWrite(c, CheckEscrow));
    var checked := Step(s, OnWrite(c, CheckDelivery));
    assert checked.calls == map[c := Call(d, DeliveryChecked(x))];
    assert Step(checked, OnWrite(c, CheckEscrow)).calls == map[c := Call(d, EscrowChecked(x))];
  }

  /** Such runs exist: from every initial state, for any delivery that can be assigned now. */
  lemma CancelledCanBeOverwritten(s: State, c: CallId, d: DeliveryId, metric: Metric, found: seq<DriverId>)
    requires Initial(s) && s.config.Valid()
    requires IsFirstSearch(s, d, metric, found) && found != []
    requires AssignGuard(s.deliveries, s.escrows, d).None?
    ensures var t := Exec(s, OverwritingSchedule(c, d, found));
            && t.calls == map[c := Call(d, Ended(Success(found[0])))]
            && d in t.deliveries && t.deliveries[d].status == Assigned && t.deliveries[d].driverId == Some(found[0])
  {
    FirstFoundIsNearest(s, d, metric, found);
    var x := found[0];
    var claimer, last := Claimer(s, c, d, x), [WriteStatus(d, Cancelled), OnWrite(c, Save)];
    RunToClaim(s, c, d, found, CheckGuards(c) + last);
    ExecSplits(claimer, CheckGuards(c), last);
    AcceptedClaimerMaySave(claimer, c, d, x);
    ExecTwo(claimer.(calls := map[c := Call(d, EscrowChecked(x))]), WriteStatus(d, Cancelled), OnWrite(c, Save));
  }
}

/**
 * How often one document lists a token. The unique index compares documents, not the
 * entries of one document.
 */
module TokenEntries {
  import opened Common
  import opened DeviceTokens

  ghost predicate NoRepeats(devices: seq<Device>) {
    forall i, j :: 0 <= i < j < |devices| ==> devices[i].token != devices[j].token
  }

  ghost predicate OneEntryEach(docs: Docs) {
    forall u :: u in docs ==> NoRepeats(docs[u])
  }

  // ------------------------------------------------------------------ counting entries

  function Entries(devices: seq<Device>, t: Token): nat {
    if devices == [] then 0 else (if devices[0].token == t then 1 else 0) + Entries(devices[1..], t)
  }

  function EntriesOf(docs: Docs, u: UserId, t: Token): nat {
    if u in docs then Entries(docs[u], t) else 0
  }

  lemma {:induction false} EntriesSnoc(devices: seq<Device>, d: Device, t: Token)
    ensures Entries(devices + [d], t) == Entries(devices, t) + if d.token == t then 1 else 0
  {
    if devices == [] {
      assert [] + [d] == [d];
    } else {
      assert (devices + [d])[1..] == devices[1..] + [d];
      EntriesSnoc(devices[1..], d, t);
    }
  }

  lemma {:induction false} PullClears(devices: seq<Device>, tokens: set<Token>, t: Token)
    ensures Entries(Pull(devices, tokens), t) == if t in tokens then 0 else Entries(devices, t)
  {
    if devices != [] {
      var rest := Pull(devices[1..], tokens);
      PullClears(devices[1..], tokens, t);
      if devices[0].token in tokens {
        assert [] + rest == rest;
      } else {
        assert ([devices[0]] + rest)[1..] == rest;
      }
    }
  }

  lemma {:induction false} TouchKeepsEntries(devices: seq<Device>, device: Device, t: Token)
    ensures Entries(Touch(devices, device), t) == Entries(devices, t)
  {
    if devices != [] {
      if devices[0].token == device.token {
        assert ([device] + devices[1..])[1..] == devices[1..];
      } else {
        TouchKeepsEntries(devices[1..], device, t);
        assert ([devices[0]] + Touch(devices[1..], device))[1..] == Touch(devices[1..], device);
      }
    }
  }

  lemma {:induction false} ListedMeansEntries(devices: seq<Device>, t: Token)
    ensures HasToken(devices, t) <==> Entries(devices, t) > 0
  {
    if devices != [] {
      ListedMeansEntries(devices[1..], t);
      assert devices == [devices[0]] + devices[1..];
      HasTokenOfCons(devices[0], devices[1..], t);
    }
  }

  lemma {:induction false} SingleEntry(devices: seq<Device>, t: Token)
    requires NoRepeats(devices)
    ensures Entries(devices, t) <= 1
  {
    if devices != [] {
      SingleEntry(devices[1..], t);
      ListedMeansEntries(devices[1..], t);
      forall i | 0 <= i < |devices[1..]| ensures devices[1..][i].token != devices[0].token {
        assert devices[1..][i] == devices[i + 1];
      }
    }
  }

  lemma {:induction false} RepeatCounts(devices: seq<Device>, i: nat, j: nat)
    requires i < j < |devices| && devices[i].token == devices[j].token
    ensures Entries(devices, devices[i].token) >= 2
  {
    var rest := devices[1..];
    if i == 0 {
      assert rest[j - 1].token == devices[0].token;
      ListedMeansEntries(rest, devices[0].token);
    } else {
      RepeatCounts(rest, i - 1, j - 1);
    }
  }

  lemma OneEntryMeansCounts(docs: Docs)
    ensures OneEntryEach(docs) <==> forall u, t :: EntriesOf(docs, u, t) <= 1
  {
    if OneEntryEach(docs) {
      forall u, t ensures EntriesOf(docs, u, t) <= 1 {
        if u in docs { SingleEntry(docs[u], t); }
      }
    } else {
      var u :| u in docs && !NoRepeats(docs[u]);
      var i, j :| 0 <= i < j < |docs[u]| && docs[u][i].token == docs[u][j].token;
      RepeatCounts(docs[u], i, j);
      assert EntriesOf(docs, u, docs[u][i].token) > 1;
    }
  }

  // ------------------------------------------------------ when a token comes to be doubled

  /** The step attaches token `t` for user `u`. */
  predicate Pushes(s: State, a: Action, u: UserId, t: Token) {
    && a.Do? && a.call in s.calls && a.act.DoAttach? && s.calls[a.call].place.Attaching?
    && s.calls[a.call].user == u && s.calls[a.call].device.token == t
    && !ListedElsewhere(s.docs, u, t)
  }

  /** The step takes token `t` from user `u`, if it is there. */
  predicate Clears(s: State, a: Action, u: UserId, t: Token) {
    match a
    case Begin(_, _, _) => false
    case Do(c, act, _) =>
      && c in s.calls && act.DoDetach? && s.calls[c].place.Detaching?
      && s.calls[c].user != u && s.calls[c].device.token == t
    case RemoveDevice(v, x) => v == u && x == t
    case PruneTokens(tokens) => t in tokens
  }

  /** What a step does to the number of entries. */
  lemma StepCounts(s: State, a: Action, u: UserId, t: Token)
    ensures EntriesOf(Step(s, a).docs, u, t)
         == if Clears(s, a, u, t) then 0
            else EntriesOf(s.docs, u, t) + if Pushes(s, a, u, t) then 1 else 0
  {
    match a
    case Begin(_, _, _) =>
    case RemoveDevice(v, x) =>
      if v in s.docs { PullClears(s.docs[v], {x}, t); }
    case PruneTokens(tokens) =>
      if u in s.docs { PullClears(s.docs[u], tokens, t); }
    case Do(c, act, now) =>
      if c in s.calls { CallStepCounts(s, c, act, now, u, t); }
  }

  lemma CallStepCounts(s: State, c: CallId, act: Act, now: int, u: UserId, t: Token)
    requires c in s.calls
    ensures EntriesOf(CallStep(s, c, act, now).docs, u, t)
         == if Clears(s, Do(c, act, now), u, t) then 0
            else EntriesOf(s.docs, u, t) + if Pushes(s, Do(c, act, now), u, t) then 1 else 0
  {
    var call := s.calls[c];
    var device := call.device.(lastSeen := now);
    match act
    case DoRefresh =>
      if call.user in s.docs { TouchKeepsEntries(s.docs[call.user], device, t); }
    case DoDetach =>
      if u in s.docs { PullClears(s.docs[u], {device.token}, t); }
    case DoAttach =>
      if call.user in s.docs {
        EntriesSnoc(s.docs[call.user], device, t);
      } else {
        EntriesSnoc([], device, t);
      }
  }

  /** The guard that fails: a call attaches a token its own user lists already, and nobody else lists. */
  predicate PushesTwice(s: State, a: Action, u: UserId, t: Token) {
    Pushes(s, a, u, t) && Lists(s.docs, u, t)
  }

  ghost predicate DoublesSome(s: State, a: Action) {
    exists u, t :: PushesTwice(s, a, u, t)
  }

  /** One step lists a token twice exactly if it attaches a token its user lists already. */
  lemma StepDoublesExactly(s: State, a: Action)
    requires OneEntryEach(s.docs)
    ensures OneEntryEach(Step(s, a).docs) <==> !DoublesSome(s, a)
  {
    OneEntryMeansCounts(s.docs);
    OneEntryMeansCounts(Step(s, a).docs);
    forall u, t
      ensures EntriesOf(Step(s, a).docs, u, t) <= 1 <==> !PushesTwice(s, a, u, t)
    {
      assert EntriesOf(s.docs, u, t) <= 1;
      StepCounts(s, a, u, t);
      if u in s.docs { ListedMeansEntries(s.docs[u], t); }
    }
  }

  /** No state of the run lists a token twice. */
  ghost predicate StaysSingle(s: State, schedule: seq<Action>)
    decreases |schedule|
  {
    OneEntryEach(s.docs) && (schedule == [] || StaysSingle(Step(s, schedule[0]), schedule[1..]))
  }

  /** Some step of the run attaches a token its user lists already. */
  ghost predicate DoublesInRun(s: State, schedule: seq<Action>)
    decreases |schedule|
  {
    schedule != [] && (DoublesSome(s, schedule[0]) || DoublesInRun(Step(s, schedule[0]), schedule[1..]))
  }

  /** A run stays free of doubled tokens exactly if no step attaches a token its user lists already. */
  lemma {:induction false} RunDoublesExactly(s: State, schedule: seq<Action>)
    requires OneEntryEach(s.docs)
    ensures StaysSingle(s, schedule) <==> !DoublesInRun(s, schedule)
    decreases |schedule|
  {
    if schedule != [] {
      StepDoublesExactly(s, schedule[0]);
      if !DoublesSome(s, schedule[0]) { RunDoublesExactly(Step(s, schedule[0]), schedule[1..]); }
    }
  }

  predicate NeverCleared(s: State, schedule: seq<Action>, u: UserId, t: Token)
    decreases |schedule|
  {
    schedule == [] || (!Clears(s, schedule[0], u, t) && NeverCleared(Step(s, schedule[0]), schedule[1..], u, t))
  }

  /** Some step attaches the token its user lists already, and nothing takes it away afterwards. */
  predicate DoublesForGood(s: State, schedule: seq<Action>, u: UserId, t: Token)
    decreases |schedule|
  {
    schedule != [] &&
    var next := Step(s, schedule[0]);
    || (PushesTwice(s, schedule[0], u, t) && NeverCleared(next, schedule[1..], u, t))
    || DoublesForGood(next, schedule[1..], u, t)
  }

  /** Whether a token is doubled at the end of a run, for every start. */
  lemma {:induction false} EndDoubledExactly(s: State, schedule: seq<Action>, u: UserId, t: Token)
    ensures EntriesOf(Exec(s, schedule).docs, u, t) >= 2 <==>
            || (EntriesOf(s.docs, u, t) >= 2 && NeverCleared(s, schedule, u, t))
            || DoublesForGood(s, schedule, u, t)
    decreases |schedule|
  {
    if schedule != [] {
      StepCounts(s, schedule[0], u, t);
      if u in s.docs { ListedMeansEntries(s.docs[u], t); }
      EndDoubledExactly(Step(s, schedule[0]), schedule[1..], u, t);
      PushIsNoClear(s, schedule[0], u, t);
    }
  }

  lemma PushIsNoClear(s: State, a: Action, u: UserId, t: Token)
    ensures !(Pushes(s, a, u, t) && Clears(s, a, u, t))
  {
  }

  // ---------------------------------------------------------- two registrations that overlap

  /** Two calls of one user for one device, side by side. */
  function TwoOverlapping(c: CallId, e: CallId, u: UserId, device: Device): seq<Action> {
    [Begin(c, u, device), Begin(e, u, device)]
    + ([Do(c, DoRefresh, 0), Do(e, DoRefresh, 0)]
       + ([Do(c, DoDetach, 0), Do(e, DoDetach, 0)] + ([Do(c, DoAttach, 0), Do(e, DoAttach, 0)] + [])))
  }

  /** Both calls are about to do this, and the user does not list the token. */
  predicate BothAt(s: State, c: CallId, e: CallId, u: UserId, device: Device, next: Act) {
    IsAt(s, c, u, device, next) && IsAt(s, e, u, device, next) && !Lists(s.docs, u, device.token)
  }

  predicate IsAt(s: State, c: CallId, u: UserId, device: Device, next: Act) {
    && c in s.calls && s.calls[c].user == u && s.calls[c].device == device
    && match next
       case DoRefresh => s.calls[c].place.Refreshing?
       case DoDetach => s.calls[c].place.Detaching?
       case DoAttach => s.calls[c].place.Attaching?
  }

  lemma BothRefresh(s: State, c: CallId, e: CallId, u: UserId, device: Device)
    requires c != e && BothAt(s, c, e, u, device, DoRefresh)
    ensures BothAt(Step(Step(s, Do(c, DoRefresh, 0)), Do(e, DoRefresh, 0)), c, e, u, device, DoDetach)
  {
  }

  lemma BothDetach(s: State, c: CallId, e: CallId, u: UserId, device: Device)
    requires c != e && BothAt(s, c, e, u, device, DoDetach)
    ensures var t := Step(Step(s, Do(c, DoDetach, 0)), Do(e, DoDetach, 0));
            BothAt(t, c, e, u, device, DoAttach) && !ListedElsewhere(t.docs, u, device.token)
  {
    var s1 := Step(s, Do(c, DoDetach, 0));
    DetachLists(s.docs, u, device.token, u, device.token);
    DetachLists(s1.docs, u, device.token, u, device.token);
    DetachShrinks(s1.docs, u, device.token);
  }

  lemma BothAttach(s: State, c: CallId, e: CallId, u: UserId, device: Device)
    requires c != e && BothAt(s, c, e, u, device, DoAttach) && !ListedElsewhere(s.docs, u, device.token)
    ensures EntriesOf(Step(Step(s, Do(c, DoAttach, 0)), Do(e, DoAttach, 0)).docs, u, device.token) == 2
  {
    var s1 := Step(s, Do(c, DoAttach, 0));
    StepCounts(s, Do(c, DoAttach, 0), u, device.token);
    StepCounts(s1, Do(e, DoAttach, 0), u, device.token);
    if u in s.docs { ListedMeansEntries(s.docs[u], device.token); }
    assert forall v :: v != u && v in s1.docs ==> v in s.docs && s1.docs[v] == s.docs[v];
    assert !ListedElsewhere(s1.docs, u, device.token);
  }

  /**
   * Whatever the state, the user and the device: if the user does not list its token, two
   * overlapping registrations leave two entries of it.
   */
  lemma OverlapDuplicates(s: State, c: CallId, e: CallId, u: UserId, device: Device)
    requires c != e && c !in s.calls && e !in s.calls && !Lists(s.docs, u, device.token)
    ensures EntriesOf(Exec(s, TwoOverlapping(c, e, u, device)).docs, u, device.token) == 2
  {
    var attach := [Do(c, DoAttach, 0), Do(e, DoAttach, 0)] + [];
    var detach := [Do(c, DoDetach, 0), Do(e, DoDetach, 0)] + attach;
    var refresh := [Do(c, DoRefresh, 0), Do(e, DoRefresh, 0)] + detach;
    var s2 := Step(Step(s, Begin(c, u, device)), Begin(e, u, device));
    var s4 := Step(Step(s2, Do(c, DoRefresh, 0)), Do(e, DoRefresh, 0));
    var s6 := Step(Step(s4, Do(c, DoDetach, 0)), Do(e, DoDetach, 0));
    ExecPair(s, Begin(c, u, device), Begin(e, u, device), refresh);
    ExecPair(s2, Do(c, DoRefresh, 0), Do(e, DoRefresh, 0), detach);
    ExecPair(s4, Do(c, DoDetach, 0), Do(e, DoDetach, 0), attach);
    ExecPair(s6, Do(c, DoAttach, 0), Do(e, DoAttach, 0), []);
    BothBegin(s, c, e, u, device);
    BothRefresh(s2, c, e, u, device);
    BothDetach(s4, c, e, u, device);
    BothAttach(s6, c, e, u, device);
  }

  lemma BothBegin(s: State, c: CallId, e: CallId, u: UserId, device: Device)
    requires c != e && c !in s.calls && e !in s.calls && !Lists(s.docs, u, device.token)
    ensures BothAt(Step(Step(s, Begin(c, u, device)), Begin(e, u, device)), c, e, u, device, DoRefresh)
  {
  }

  // ------------------------------------------------------ registrations that do not overlap

  predicate Active(place: Place) {
    place.Refreshing? || place.Detaching? || place.Attaching?
  }

  /** No call is active that wants the same token for the same user. */
  ghost predicate Alone(s: State, u: UserId, t: Token) {
    forall c :: c in s.calls && Active(s.calls[c].place) && s.calls[c].user == u ==> s.calls[c].device.token != t
  }

  /** Calls for the same user and token never overlap, as in a sequential run. */
  ghost predicate NeverOverlapping(s: State, schedule: seq<Action>)
    decreases |schedule|
  {
    schedule == [] ||
    (&& (schedule[0].Begin? ==> Alone(s, schedule[0].user, schedule[0].device.token))
     && NeverOverlapping(Step(s, schedule[0]), schedule[1..]))
  }

  /** A call past its refresh found no entry, and nobody else can have made one since. */
  ghost predicate EntryInv(s: State) {
    && OneEntryEach(s.docs)
    && (forall c :: c in s.calls && (s.calls[c].place.Detaching? || s.calls[c].place.Attaching?) ==>
         !Lists(s.docs, s.calls[c].user, s.calls[c].device.token))
    && (forall c, e :: c in s.calls && e in s.calls && c != e && Active(s.calls[c].place) && Active(s.calls[e].place) ==>
         s.calls[c].user != s.calls[e].user || s.calls[c].device.token != s.calls[e].device.token)
  }

  lemma {:induction false} PullKeepsOneEntry(devices: seq<Device>, tokens: set<Token>)
    requires NoRepeats(devices)
    ensures NoRepeats(Pull(devices, tokens))
  {
    if devices != [] {
      var tail := Pull(devices[1..], tokens);
      PullKeepsOneEntry(devices[1..], tokens);
      PullRemoves(devices[1..], tokens, devices[0].token);
      assert !HasToken(devices[1..], devices[0].token);
      forall i | 0 <= i < |tail| ensures tail[i].token != devices[0].token {}
    }
  }

  lemma ShrinkKeepsEntryInv(s: State, docs: Docs)
    requires EntryInv(s) && Shrinks(s.docs, docs) && OneEntryEach(docs)
    ensures EntryInv(s.(docs := docs))
  {
  }

  lemma DetachKeepsOneEntry(docs: Docs, u: UserId, t: Token)
    requires OneEntryEach(docs)
    ensures OneEntryEach(Detach(docs, u, t))
  {
    forall v | v in docs ensures NoRepeats(Detach(docs, u, t)[v]) {
      PullKeepsOneEntry(docs[v], {t});
    }
  }

  lemma PruneKeepsOneEntry(docs: Docs, tokens: set<Token>)
    requires OneEntryEach(docs)
    ensures OneEntryEach(Prune(docs, tokens))
  {
    forall v | v in docs ensures NoRepeats(Prune(docs, tokens)[v]) {
      PullKeepsOneEntry(docs[v], tokens);
    }
  }

  lemma AttachKeepsEntryInv(s: State, c: CallId, now: int)
    requires EntryInv(s) && c in s.calls && s.calls[c].place.Attaching?
    requires !ListedElsewhere(s.docs, s.calls[c].user, s.calls[c].device.token)
    ensures EntryInv(CallStep(s, c, DoAttach, now))
  {
    var call := s.calls[c];
    var device := call.device.(lastSeen := now);
    var t := CallStep(s, c, DoAttach, now);
    assert !Lists(s.docs, call.user, device.token);
    forall e | e in t.calls && (t.calls[e].place.Detaching? || t.calls[e].place.Attaching?)
      ensures !Lists(t.docs, t.calls[e].user, t.calls[e].device.token)
    {
      AttachLists(s.docs, call.user, device, t.calls[e].user, t.calls[e].device.token);
    }
    if call.user in s.docs {
      forall i | 0 <= i < |s.docs[call.user]| ensures s.docs[call.user][i].token != device.token {}
    }
  }

  lemma CallStepKeepsEntryInv(s: State, c: CallId, act: Act, now: int)
    requires EntryInv(s) && c in s.calls
    ensures EntryInv(CallStep(s, c, act, now))
  {
    var call := s.calls[c];
    var device := call.device.(lastSeen := now);
    match act
    case DoRefresh =>
      if call.place.Refreshing? && Lists(s.docs, call.user, device.token) {
        RefreshShrinks(s.docs, call.user, device);
        TouchKeepsTokens(s.docs[call.user], device);
        ShrinkKeepsEntryInv(Move(s, c, Refreshed), Refresh(s.docs, call.user, device).value);
      }
    case DoDetach =>
      if call.place.Detaching? {
        DetachShrinks(s.docs, call.user, device.token);
        DetachKeepsOneEntry(s.docs, call.user, device.token);
        var place := Attaching(call.place.attempt, |Rivals(s, device.token, call.user)|);
        ShrinkKeepsEntryInv(Move(s, c, place), Detach(s.docs, call.user, device.token));
      }
    case DoAttach =>
      if call.place.Attaching? && !ListedElsewhere(s.docs, call.user, device.token) {
        AttachKeepsEntryInv(s, c, now);
      }
  }

  lemma StepKeepsEntryInv(s: State, a: Action)
    requires EntryInv(s)
    requires a.Begin? ==> Alone(s, a.user, a.device.token)
    ensures EntryInv(Step(s, a))
  {
    match a
    case Begin(_, _, _) =>
    case Do(c, act, now) => if c in s.calls { CallStepKeepsEntryInv(s, c, act, now); }
    case RemoveDevice(u, t) =>
      forall v, x ensures Lists(Remove(s.docs, u, t), v, x) ==> Lists(s.docs, v, x) { RemoveLists(s.docs, u, t, v, x); }
      if u in s.docs { PullKeepsOneEntry(s.docs[u], {t}); }
      ShrinkKeepsEntryInv(s, Remove(s.docs, u, t));
    case PruneTokens(tokens) =>
      forall v, x ensures Lists(Prune(s.docs, tokens), v, x) ==> Lists(s.docs, v, x) { PruneLists(s.docs, tokens, v, x); }
      PruneKeepsOneEntry(s.docs, tokens);
      ShrinkKeepsEntryInv(s, Prune(s.docs, tokens));
  }

  /**
   * As long as calls of one user for one token do not overlap, no document lists a
   * token twice, however many other calls run at the same time.
   */
  lemma {:induction false} OneEntryWithoutOverlap(s: State, schedule: seq<Action>)
    requires EntryInv(s) && NeverOverlapping(s, schedule)
    ensures OneEntryEach(Exec(s, schedule).docs)
    decreases |schedule|
  {
    if schedule != [] {
      StepKeepsEntryInv(s, schedule[0]);
      OneEntryWithoutOverlap(Step(s, schedule[0]), schedule[1..]);
    }
  }
}

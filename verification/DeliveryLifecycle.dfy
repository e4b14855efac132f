/**
 * `create` and `updateStatus` on a delivery, run concurrently by any number of
 * callers: read the status, check the edge, compare-and-set, then append the
 * milestone to the event log.
 */
module DeliveryLifecycle {
  import opened Common
  import opened DeliveryStatuses
  import EventLog

  type CallId = EventLog.CallId
  type Entry = EventLog.Entry

  datatype Refusal =
    | InvalidId
    | NotFound
    | AlreadyInStatus
    | IllegalTransition
    | ProofMissing
    /** The compare-and-set matched nothing; `version` is the number of commits it had read. */
    | ChangedConcurrently(version: nat)

  /** Progress of one call of `updateStatus`; `version` counts the commits it has seen. */
  datatype Call =
    | Requested(next: Status)
    | Checked(from: Status, next: Status, version: nat)
    | Ready(from: Status, next: Status, version: nat)
    | Committed
    | Refused(why: Refusal)

  /**
   * The documents of one delivery and the calls on it. `commits` records, in commit
   * order, the event each committed call owes to the log; no step depends on it.
   */
  datatype State = State(
    status: Option<Status>,
    proof: bool,
    commits: seq<Entry>,
    calls: map<CallId, Call>,
    events: EventLog.State)

  datatype Action =
    | Create(call: CallId)
    | Request(call: CallId, next: Status)
    | ReadStatus(call: CallId)
    | CheckProof(call: CallId)
    | Transition(call: CallId)
    | UploadProof
    | ReadSeq(call: CallId)
    | InsertEvent(call: CallId)
    /** A read or insert of the log that fails with anything but a duplicate key. */
    | BreakAppend(call: CallId)

  const EMPTY := State(None, false, [], map[], EventLog.EMPTY)

  /** A committed write: the status changes and its caller goes on to append the event. */
  function Commit(s: State, c: CallId, event: Event): State {
    State(Some(event.toStatus), s.proof, s.commits + [EventLog.Entry(event, c)], s.calls[c := Committed],
          EventLog.Step(s.events, EventLog.Start(c, event)))
  }

  /** The checks `updateStatus` makes on the status it has read. */
  function Check(status: Option<Status>, next: Status, version: nat): Call {
    match status
    case None => Refused(NotFound)
    case Some(from) =>
      if from == next then Refused(AlreadyInStatus)
      else if next !in AllowedTransitions(from) then Refused(IllegalTransition)
      else if next == Completed then Checked(from, next, version)
      else Ready(from, next, version)
  }

  /** One atomic step; an action that is not enabled changes nothing. */
  function Step(s: State, a: Action): State {
    match a
    case Create(c) =>
      if s.status.None? && c !in s.calls then Commit(s, c, CREATED_EVENT) else s
    case Request(c, next) =>
      if c !in s.calls then s.(calls := s.calls[c := Requested(next)]) else s
    case ReadStatus(c) =>
      if c in s.calls && s.calls[c].Requested?
      then s.(calls := s.calls[c := Check(s.status, s.calls[c].next, |s.commits|)]) else s
    case CheckProof(c) =>
      if c in s.calls && s.calls[c].Checked? then
        var k := s.calls[c];
        s.(calls := s.calls[c := if s.proof then Ready(k.from, k.next, k.version) else Refused(ProofMissing)])
      else s
    case Transition(c) =>
      if c in s.calls && s.calls[c].Ready? then
        var k := s.calls[c];
        if s.status == Some(k.from) then Commit(s, c, TransitionEvent(k.from, k.next))
        else s.(calls := s.calls[c := Refused(ChangedConcurrently(k.version))])
      else s
    case UploadProof => s.(proof := true)
    case ReadSeq(c) => s.(events := EventLog.Step(s.events, EventLog.Read(c)))
    case InsertEvent(c) => s.(events := EventLog.Step(s.events, EventLog.Insert(c)))
    case BreakAppend(c) => s.(events := EventLog.Step(s.events, EventLog.Break(c)))
  }

  function Exec(s: State, schedule: seq<Action>): State
    decreases |schedule|
  {
    if schedule == [] then s else Exec(Step(s, schedule[0]), schedule[1..])
  }

  // -------------------------------------------------------------------- invariant

  /** The statuses the delivery has been in, oldest first. */
  function Path(commits: seq<Entry>): seq<Status> {
    seq(|commits|, i requires 0 <= i < |commits| => commits[i].event.toStatus)
  }

  /** Commit 0 creates the delivery, every later one takes a legal edge from its predecessor. */
  ghost predicate IsHistory(commits: seq<Entry>) {
    && (commits != [] ==> commits[0].event == CREATED_EVENT)
    && forall i :: 1 <= i < |commits| ==>
         var from, to := commits[i - 1].event.toStatus, commits[i].event.toStatus;
         to in AllowedTransitions(from) && commits[i].event == TransitionEvent(from, to)
  }

  ghost predicate StatusInv(s: State) {
    && (s.status.None? <==> s.commits == [])
    && (s.status.Some? ==> s.status.value == s.commits[|s.commits| - 1].event.toStatus)
    && (s.status == Some(Completed) ==> s.proof)
    && IsHistory(s.commits)
  }

  ghost predicate CallInv(commits: seq<Entry>, proof: bool, call: Call) {
    match call
    case Checked(from, next, v) =>
      1 <= v <= |commits| && commits[v - 1].event.toStatus == from && next in AllowedTransitions(from)
    case Ready(from, next, v) =>
      && 1 <= v <= |commits| && commits[v - 1].event.toStatus == from && next in AllowedTransitions(from)
      && (next == Completed ==> proof)
    case Refused(ChangedConcurrently(v)) => 1 <= v < |commits|
    case _ => true
  }

  ghost predicate CallsInv(s: State) {
    forall c :: c in s.calls ==> CallInv(s.commits, s.proof, s.calls[c])
  }

  /** The call that made a commit is the one that appends its event. */
  ghost predicate OwesEvent(calls: map<CallId, Call>, appends: map<CallId, EventLog.Append>, entry: Entry) {
    && entry.caller in calls && calls[entry.caller].Committed?
    && entry.caller in appends && appends[entry.caller].event == entry.event
  }

  ghost predicate MadeCommit(commits: seq<Entry>, c: CallId) {
    exists i :: 0 <= i < |commits| && commits[i].caller == c
  }

  /** The calls of `append` are those of the committed calls, one each. */
  ghost predicate AppendInv(
    commits: seq<Entry>, calls: map<CallId, Call>, appends: map<CallId, EventLog.Append>)
  {
    && (forall i :: 0 <= i < |commits| ==> OwesEvent(calls, appends, commits[i]))
    && (forall c :: c in appends ==> MadeCommit(commits, c))
    && (forall i, j :: 0 <= i < j < |commits| ==> commits[i].caller != commits[j].caller)
  }

  ghost predicate Inv(s: State) {
    && StatusInv(s)
    && CallsInv(s)
    && AppendInv(s.commits, s.calls, s.events.calls)
    && EventLog.Inv(s.events)
  }

  lemma HistoryIsPath(commits: seq<Entry>)
    requires IsHistory(commits)
    ensures IsPath(Path(commits))
  {
  }

  /** If the status is still the one read at `version`, nothing was committed since. */
  lemma SameStatusSameVersion(s: State, from: Status, version: nat)
    requires StatusInv(s) && 1 <= version <= |s.commits|
    requires s.commits[version - 1].event.toStatus == from
    ensures s.status == Some(from) <==> version == |s.commits|
  {
    HistoryIsPath(s.commits);
    PathClimbs(Path(s.commits), version - 1, |s.commits| - 1);
  }

  lemma CommitKeepsAppendInv(
    commits: seq<Entry>, calls: map<CallId, Call>, appends: map<CallId, EventLog.Append>,
    entry: Entry, append: EventLog.Append)
    requires AppendInv(commits, calls, appends)
    requires entry.caller in calls ==> !calls[entry.caller].Committed?
    requires append.event == entry.event
    ensures entry.caller !in appends
    ensures AppendInv(commits + [entry], calls[entry.caller := Committed], appends[entry.caller := append])
  {
    var more := commits + [entry];
    var c := entry.caller;
    assert forall i :: 0 <= i < |commits| ==> OwesEvent(calls, appends, commits[i]);
    forall d | d in appends.Keys + {c} ensures MadeCommit(more, d) {
      if d in appends {
        var i :| 0 <= i < |commits| && commits[i].caller == d;
        assert more[i].caller == d;
      } else {
        assert more[|commits|].caller == d;
      }
    }
  }

  lemma CommitKeepsInv(s: State, c: CallId, event: Event)
    requires Inv(s)
    requires c in s.calls ==> !s.calls[c].Committed?
    requires IsHistory(s.commits + [EventLog.Entry(event, c)])
    requires event.toStatus == Completed ==> s.proof
    ensures Inv(Commit(s, c, event))
  {
    var t := Commit(s, c, event);
    var append := EventLog.Reading(event, 1, |s.events.log|, []);
    CommitKeepsAppendInv(s.commits, s.calls, s.events.calls, EventLog.Entry(event, c), append);
    assert t.events.calls == s.events.calls[c := append];
    assert EventLog.Inv(t.events) by { EventLog.StepKeepsInv(s.events, EventLog.Start(c, event)); }
    CommitKeepsCallsInv(s, c, event);
  }

  lemma CommitKeepsCallsInv(s: State, c: CallId, event: Event)
    requires CallsInv(s)
    ensures CallsInv(Commit(s, c, event))
  {
    var t := Commit(s, c, event);
    forall d | d in t.calls ensures CallInv(t.commits, t.proof, t.calls[d]) {
      if d != c { assert CallInv(s.commits, s.proof, s.calls[d]); }
    }
  }

  lemma TransitionExtendsHistory(commits: seq<Entry>, c: CallId, from: Status, next: Status)
    requires IsHistory(commits) && commits != [] && commits[|commits| - 1].event.toStatus == from
    requires next in AllowedTransitions(from)
    ensures IsHistory(commits + [EventLog.Entry(TransitionEvent(from, next), c)])
  {
  }

  lemma TransitionKeepsInv(s: State, c: CallId)
    requires Inv(s)
    ensures Inv(Step(s, Transition(c)))
  {
    if c in s.calls && s.calls[c].Ready? {
      var k := s.calls[c];
      assert CallInv(s.commits, s.proof, k);
      if s.status == Some(k.from) {
        TransitionExtendsHistory(s.commits, c, k.from, k.next);
        CommitKeepsInv(s, c, TransitionEvent(k.from, k.next));
      } else {
        assert k.version < |s.commits| by { SameStatusSameVersion(s, k.from, k.version); }
        CallChangeKeepsInv(s, c, Refused(ChangedConcurrently(k.version)));
      }
    }
  }

  /** Only the progress of one call that has not committed changes. */
  lemma CallChangeKeepsInv(s: State, c: CallId, call: Call)
    requires Inv(s) && CallInv(s.commits, s.proof, call)
    requires c in s.calls ==> !s.calls[c].Committed?
    ensures Inv(s.(calls := s.calls[c := call]))
  {
    var calls := s.calls[c := call];
    forall i | 0 <= i < |s.commits| ensures OwesEvent(calls, s.events.calls, s.commits[i]) {
      assert OwesEvent(s.calls, s.events.calls, s.commits[i]);
    }
    forall d | d in calls ensures CallInv(s.commits, s.proof, calls[d]) {
      if d != c { assert CallInv(s.commits, s.proof, s.calls[d]); }
    }
  }

  lemma LogStepKeepsInv(s: State, a: EventLog.Action)
    requires Inv(s) && !a.Start?
    ensures Inv(s.(events := EventLog.Step(s.events, a)))
  {
    var appends := EventLog.Step(s.events, a).calls;
    assert EventLog.Inv(EventLog.Step(s.events, a)) by { EventLog.StepKeepsInv(s.events, a); }
    EventLog.CallsKeepTheirEvents(s.events, a);
    forall i | 0 <= i < |s.commits| ensures OwesEvent(s.calls, appends, s.commits[i]) {
      assert OwesEvent(s.calls, s.events.calls, s.commits[i]);
    }
  }

  lemma CreateKeepsInv(s: State, c: CallId)
    requires Inv(s)
    ensures Inv(Step(s, Create(c)))
  {
    if s.status.None? && c !in s.calls { CommitKeepsInv(s, c, CREATED_EVENT); }
  }

  lemma RequestKeepsInv(s: State, c: CallId, next: Status)
    requires Inv(s)
    ensures Inv(Step(s, Request(c, next)))
  {
    if c !in s.calls { CallChangeKeepsInv(s, c, Requested(next)); }
  }

  lemma ReadKeepsInv(s: State, c: CallId)
    requires Inv(s)
    ensures Inv(Step(s, ReadStatus(c)))
  {
    if c in s.calls && s.calls[c].Requested? {
      CallChangeKeepsInv(s, c, Check(s.status, s.calls[c].next, |s.commits|));
    }
  }

  lemma CheckProofKeepsInv(s: State, c: CallId)
    requires Inv(s)
    ensures Inv(Step(s, CheckProof(c)))
  {
    if c in s.calls && s.calls[c].Checked? {
      var k := s.calls[c];
      assert CallInv(s.commits, s.proof, k);
      CallChangeKeepsInv(s, c, if s.proof then Ready(k.from, k.next, k.version) else Refused(ProofMissing));
    }
  }

  lemma UploadKeepsInv(s: State)
    requires Inv(s)
    ensures Inv(Step(s, UploadProof))
  {
    forall c | c in s.calls ensures CallInv(s.commits, true, s.calls[c]) {
      assert CallInv(s.commits, s.proof, s.calls[c]);
    }
  }

  lemma StepKeepsInv(s: State, a: Action)
    requires Inv(s)
    ensures Inv(Step(s, a))
  {
    match a
    case Create(c) => CreateKeepsInv(s, c);
    case Request(c, next) => RequestKeepsInv(s, c, next);
    case ReadStatus(c) => ReadKeepsInv(s, c);
    case CheckProof(c) => CheckProofKeepsInv(s, c);
    case Transition(c) => TransitionKeepsInv(s, c);
    case UploadProof => UploadKeepsInv(s);
    case ReadSeq(c) => LogStepKeepsInv(s, EventLog.Read(c));
    case InsertEvent(c) => LogStepKeepsInv(s, EventLog.Insert(c));
    case BreakAppend(c) => LogStepKeepsInv(s, EventLog.Break(c));
  }

  lemma {:induction false} ExecKeepsInv(s: State, schedule: seq<Action>)
    requires Inv(s)
    ensures Inv(Exec(s, schedule))
    decreases |schedule|
  {
    if schedule != [] {
      StepKeepsInv(s, schedule[0]);
      ExecKeepsInv(Step(s, schedule[0]), schedule[1..]);
    }
  }

  lemma ReachableInv(schedule: seq<Action>)
    ensures Inv(Exec(EMPTY, schedule))
  {
    ExecKeepsInv(EMPTY, schedule);
  }

  // ------------------------------------------------------------ the state machine

  /**
   * Whatever the callers do, the delivery walks along legal edges from Pending, and
   * at most four transitions ever succeed.
   */
  lemma HistoryIsLegalPath(schedule: seq<Action>)
    ensures var s := Exec(EMPTY, schedule);
            && IsPath(Path(s.commits))
            && |s.commits| <= 5
            && (s.commits != [] ==>
                 && Path(s.commits)[0] == Pending
                 && s.status == Some(Path(s.commits)[|s.commits| - 1]))
  {
    ReachableInv(schedule);
    var s := Exec(EMPTY, schedule);
    HistoryIsPath(s.commits);
    if s.commits != [] { PathClimbs(Path(s.commits), 0, |s.commits| - 1); }
  }

  /** A delivery is only ever completed with its proof on record. */
  lemma CompletedHasProof(schedule: seq<Action>)
    ensures var s := Exec(EMPTY, schedule); s.status == Some(Completed) ==> s.proof
  {
    ReachableInv(schedule);
  }

  /**
   * Comparing the status is as good as comparing a version: the compare-and-set of a
   * call succeeds exactly when nothing was committed since the call read the status.
   */
  lemma CompareAndSetIsVersioned(schedule: seq<Action>, c: CallId)
    requires var s := Exec(EMPTY, schedule); c in s.calls && s.calls[c].Ready?
    ensures var s := Exec(EMPTY, schedule);
            var t := Step(s, Transition(c));
            if s.calls[c].version == |s.commits|
            then t.calls[c].Committed? && t.status == Some(s.calls[c].next)
            else t == s.(calls := s.calls[c := Refused(ChangedConcurrently(s.calls[c].version))])
  {
    ReachableInv(schedule);
    var s := Exec(EMPTY, schedule);
    assert CallInv(s.commits, s.proof, s.calls[c]);
    SameStatusSameVersion(s, s.calls[c].from, s.calls[c].version);
  }

  /** A call told of a concurrent change really was overtaken by another commit. */
  lemma ConflictMeansOvertaken(schedule: seq<Action>, c: CallId)
    requires var s := Exec(EMPTY, schedule);
             c in s.calls && s.calls[c].Refused? && s.calls[c].why.ChangedConcurrently?
    ensures var s := Exec(EMPTY, schedule); s.calls[c].why.version < |s.commits|
  {
    ReachableInv(schedule);
    var s := Exec(EMPTY, schedule);
    assert CallInv(s.commits, s.proof, s.calls[c]);
  }

  lemma TerminalStep(s: State, a: Action)
    requires Inv(s) && s.status.Some? && AllowedTransitions(s.status.value) == {}
    ensures Step(s, a).status == s.status && Step(s, a).commits == s.commits
  {
    if a.Transition? && a.call in s.calls && s.calls[a.call].Ready? {
      assert CallInv(s.commits, s.proof, s.calls[a.call]);
    }
  }

  /** Nothing follows a completed or cancelled delivery, even for calls already under way. */
  lemma {:induction false} TerminalIsAbsorbing(s: State, schedule: seq<Action>)
    requires Inv(s)
    ensures s.status == Some(Completed) || s.status == Some(Cancelled) ==>
              Exec(s, schedule).status == s.status && Exec(s, schedule).commits == s.commits
    decreases |schedule|
  {
    if schedule != [] && (s.status == Some(Completed) || s.status == Some(Cancelled)) {
      TerminalStep(s, schedule[0]);
      StepKeepsInv(s, schedule[0]);
      TerminalIsAbsorbing(Step(s, schedule[0]), schedule[1..]);
    }
  }

  // ------------------------------------------------------------ no milestone is lost

  /** The callers of the commits, as many as there are commits. */
  ghost function Callers(commits: seq<Entry>): set<CallId> {
    if commits == [] then {} else Callers(commits[..|commits| - 1]) + {commits[|commits| - 1].caller}
  }

  lemma {:induction false} CallersAreThose(commits: seq<Entry>, c: CallId)
    ensures c in Callers(commits) <==> MadeCommit(commits, c)
  {
    if commits != [] {
      var n := |commits| - 1;
      CallersAreThose(commits[..n], c);
      if c in Callers(commits[..n]) {
        var i :| 0 <= i < n && commits[..n][i].caller == c;
        assert commits[i].caller == c;
      }
      if MadeCommit(commits, c) {
        var i :| 0 <= i < |commits| && commits[i].caller == c;
        if i < n { assert commits[..n][i].caller == c; }
      }
    }
  }

  lemma {:induction false} NoMoreCallersThanCommits(commits: seq<Entry>)
    ensures |Callers(commits)| <= |commits|
  {
    if commits != [] { NoMoreCallersThanCommits(commits[..|commits| - 1]); }
  }

  lemma AtMostFiveCommits(s: State)
    requires StatusInv(s)
    ensures |s.commits| <= EventLog.MAX_SEQ_ATTEMPTS
  {
    HistoryIsPath(s.commits);
    if s.commits != [] { PathClimbs(Path(s.commits), 0, |s.commits| - 1); }
  }

  lemma NoMoreAppendsThanCommits(
    commits: seq<Entry>, calls: map<CallId, Call>, appends: map<CallId, EventLog.Append>)
    requires AppendInv(commits, calls, appends)
    ensures |appends| <= |commits|
  {
    forall c | c in appends ensures c in Callers(commits) {
      CallersAreThose(commits, c);
    }
    EventLog.SubsetSize(appends.Keys, Callers(commits));
    NoMoreCallersThanCommits(commits);
  }

  lemma NobodyGivesUp(s: State, c: CallId)
    requires Inv(s) && c in s.events.calls
    ensures !s.events.calls[c].GaveUp?
  {
    AtMostFiveCommits(s);
    NoMoreAppendsThanCommits(s.commits, s.calls, s.events.calls);
    if s.events.calls[c].GaveUp? { EventLog.FewCallsNeverGiveUp(s.events, c); }
  }

  /** The event of a commit is on its way into the log. */
  predicate UnderWay(s: State, entry: Entry) {
    && entry.caller in s.events.calls
    && (s.events.calls[entry.caller].Reading? || s.events.calls[entry.caller].Inserting?)
  }

  /** It is in the log. */
  predicate Logged(s: State, entry: Entry) {
    && entry.caller in s.events.calls && s.events.calls[entry.caller].Stored?
    && s.events.calls[entry.caller].at in s.events.log
    && s.events.log[s.events.calls[entry.caller].at] == entry
  }

  /** Its `append` failed with something else than a duplicate key, and `emitMilestone` went on. */
  predicate Dropped(s: State, entry: Entry) {
    entry.caller in s.events.calls && s.events.calls[entry.caller].Broken?
  }

  lemma CommitIsAccounted(s: State, i: nat)
    requires Inv(s) && i < |s.commits|
    ensures UnderWay(s, s.commits[i]) || Logged(s, s.commits[i]) || Dropped(s, s.commits[i])
  {
    var c := s.commits[i].caller;
    assert OwesEvent(s.calls, s.events.calls, s.commits[i]);
    NobodyGivesUp(s, c);
    assert EventLog.CallInv(s.events.log, c, s.events.calls[c]);
  }

  predicate IsBroken(s: State, c: CallId) {
    c in s.events.calls && s.events.calls[c].Broken?
  }

  lemma BreakingStep(s: State, a: Action, c: CallId)
    requires IsBroken(Step(s, a), c)
    ensures IsBroken(s, c) || a == BreakAppend(c)
  {
  }

  lemma {:induction false} OnlyBreaksBreak(s: State, schedule: seq<Action>, c: CallId)
    requires IsBroken(Exec(s, schedule), c)
    ensures IsBroken(s, c) || BreakAppend(c) in schedule
    decreases |schedule|
  {
    if schedule != [] {
      OnlyBreaksBreak(Step(s, schedule[0]), schedule[1..], c);
      if IsBroken(Step(s, schedule[0]), c) { BreakingStep(s, schedule[0], c); }
    }
  }

  /**
   * No `append` ever exhausts its attempts, because the state machine lets too few commits
   * happen: the event of every committed change is in the log, or its call is still about
   * to put it there, or the database failed that very call otherwise.
   */
  lemma NoMilestoneIsLost(schedule: seq<Action>, i: nat)
    requires i < |Exec(EMPTY, schedule).commits|
    ensures var s := Exec(EMPTY, schedule);
            var entry := s.commits[i];
            && (UnderWay(s, entry) || Logged(s, entry) || Dropped(s, entry))
            && (Dropped(s, entry) ==> BreakAppend(entry.caller) in schedule)
  {
    ReachableInv(schedule);
    var s := Exec(EMPTY, schedule);
    CommitIsAccounted(s, i);
    if Dropped(s, s.commits[i]) { OnlyBreaksBreak(EMPTY, schedule, s.commits[i].caller); }
  }

  /** No call of `append` is in the middle of its work. */
  ghost predicate Quiescent(s: State) {
    forall c :: c in s.events.calls ==> !s.events.calls[c].Reading? && !s.events.calls[c].Inserting?
  }

  lemma {:induction false} DistinctCount<T>(s: seq<T>, x: T)
    requires Distinct(s)
    ensures multiset(s)[x] == if x in s then 1 else 0
  {
    if s != [] {
      var rest := s[..|s| - 1];
      DistinctCount(rest, x);
      assert s == rest + [s[|s| - 1]];
    }
  }

  lemma SameElementsPermute<T>(s: seq<T>, t: seq<T>)
    requires Distinct(s) && Distinct(t) && forall x :: x in s <==> x in t
    ensures multiset(s) == multiset(t)
  {
    forall x ensures multiset(s)[x] == multiset(t)[x] {
      DistinctCount(s, x);
      DistinctCount(t, x);
    }
  }

  lemma LoggedMeansCommitted(s: State, k: nat)
    requires AppendInv(s.commits, s.calls, s.events.calls)
    requires k in s.events.log && EventLog.EntryInv(s.events, k)
    ensures s.events.log[k] in s.commits
  {
    var c := s.events.log[k].caller;
    assert MadeCommit(s.commits, c);
    var i :| 0 <= i < |s.commits| && s.commits[i].caller == c;
    assert OwesEvent(s.calls, s.events.calls, s.commits[i]);
  }

  lemma EventsAreDistinct(s: EventLog.State)
    requires EventLog.Inv(s)
    ensures Distinct(EventLog.Events(s.log))
  {
    var events := EventLog.Events(s.log);
    forall i, j | 0 <= i < j < |events| ensures events[i] != events[j] {
      assert EventLog.EntryInv(s, i + 1) && EventLog.EntryInv(s, j + 1);
    }
  }

  lemma QuiescentMeansLogged(s: State, entry: Entry)
    requires Inv(s) && Quiescent(s) && entry in s.commits && !Dropped(s, entry)
    ensures entry in EventLog.Events(s.events.log)
  {
    var i :| 0 <= i < |s.commits| && s.commits[i] == entry;
    CommitIsAccounted(s, i);
    assert Logged(s, entry);
    LoggedIsListed(s.events.log, s.events.calls[entry.caller].at);
  }

  lemma LoggedIsListed(log: EventLog.Log, k: nat)
    requires EventLog.Gapless(log) && k in log
    ensures log[k] in EventLog.Events(log)
  {
    assert EventLog.Events(log)[k - 1] == log[k];
  }

  /** The commits whose event was not dropped, in order. */
  function Kept(s: State, commits: seq<Entry>): seq<Entry> {
    if commits == [] then []
    else
      var n := |commits| - 1;
      Kept(s, commits[..n]) + if Dropped(s, commits[n]) then [] else [commits[n]]
  }

  lemma {:induction false} KeptAreThose(s: State, commits: seq<Entry>, entry: Entry)
    ensures entry in Kept(s, commits) <==> entry in commits && !Dropped(s, entry)
  {
    if commits != [] {
      var n := |commits| - 1;
      KeptAreThose(s, commits[..n], entry);
      assert commits == commits[..n] + [commits[n]];
    }
  }

  lemma {:induction false} KeptAreDistinct(s: State, commits: seq<Entry>)
    requires Distinct(commits)
    ensures Distinct(Kept(s, commits))
  {
    if commits != [] {
      var n := |commits| - 1;
      KeptAreDistinct(s, commits[..n]);
      KeptAreThose(s, commits[..n], commits[n]);
    }
  }

  lemma {:induction false} NothingDropped(s: State, commits: seq<Entry>)
    requires forall i :: 0 <= i < |commits| ==> !Dropped(s, commits[i])
    ensures Kept(s, commits) == commits
  {
    if commits != [] {
      var n := |commits| - 1;
      NothingDropped(s, commits[..n]);
      assert commits == commits[..n] + [commits[n]];
    }
  }

  /**
   * Once every `append` has returned, the log is, in some order, the committed events but
   * for those the database failed; all of them if it never failed.
   */
  lemma QuiescentLogIsPermutation(schedule: seq<Action>)
    requires Quiescent(Exec(EMPTY, schedule))
    ensures var s := Exec(EMPTY, schedule);
            && EventLog.Gapless(s.events.log)
            && multiset(EventLog.Events(s.events.log)) == multiset(Kept(s, s.commits))
            && ((forall c :: BreakAppend(c) !in schedule) ==> Kept(s, s.commits) == s.commits)
  {
    ReachableInv(schedule);
    var s := Exec(EMPTY, schedule);
    SameEntries(s);
    EventsAreDistinct(s.events);
    KeptAreDistinct(s, s.commits);
    SameElementsPermute(EventLog.Events(s.events.log), Kept(s, s.commits));
    if forall c :: BreakAppend(c) !in schedule {
      forall i | 0 <= i < |s.commits| ensures !Dropped(s, s.commits[i]) {
        if IsBroken(s, s.commits[i].caller) { OnlyBreaksBreak(EMPTY, schedule, s.commits[i].caller); }
      }
      NothingDropped(s, s.commits);
    }
  }

  lemma SameEntries(s: State)
    requires Inv(s) && Quiescent(s)
    ensures forall entry :: entry in EventLog.Events(s.events.log) <==> entry in Kept(s, s.commits)
    ensures Distinct(s.commits)
  {
    forall entry ensures entry in EventLog.Events(s.events.log) <==> entry in Kept(s, s.commits) {
      KeptAreThose(s, s.commits, entry);
      if entry in s.commits && !Dropped(s, entry) { QuiescentMeansLogged(s, entry); }
      if entry in EventLog.Events(s.events.log) { LoggedIsKept(s, entry); }
    }
  }

  lemma LoggedIsKept(s: State, entry: Entry)
    requires AppendInv(s.commits, s.calls, s.events.calls) && EventLog.Inv(s.events)
    requires entry in EventLog.Events(s.events.log)
    ensures entry in s.commits && !Dropped(s, entry)
  {
    var k := SeqOf(s.events.log, entry);
    assert EventLog.EntryInv(s.events, k);
    LoggedMeansCommitted(s, k);
  }

  lemma SeqOf(log: EventLog.Log, entry: Entry) returns (k: nat)
    requires EventLog.Gapless(log) && entry in EventLog.Events(log)
    ensures k in log && log[k] == entry
  {
    var i :| 0 <= i < |EventLog.Events(log)| && EventLog.Events(log)[i] == entry;
    k := i + 1;
  }
}

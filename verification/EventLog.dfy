/**
 * The append-only milestone log of one delivery: a collection with a unique index
 * on `seq`, and callers that read the highest `seq`, insert at the next one and
 * retry on a duplicate key, at most MAX_SEQ_ATTEMPTS times.
 */
module EventLog {
  import opened Common
  import opened DeliveryStatuses

  const MAX_SEQ_ATTEMPTS: nat := 5

  type CallId = nat

  /** A stored event; `caller` names the call that inserted it. */
  datatype Entry = Entry(event: Event, caller: CallId)

  /** The collection for one delivery, keyed by the uniquely indexed `seq`. */
  type Log = map<nat, Entry>

  // ---------------------------------------------------------------- the store

  lemma HighestKeyExists(log: Log)
    requires log != map[]
    ensures exists m :: m in log && forall k | k in log :: k <= m
  {
    var m :| m in log;
    var rest := log - {m};
    assert forall k :: k in log ==> k == m || k in rest;
    if rest != map[] {
      HighestKeyExists(rest);
      var h :| h in rest && forall k | k in rest :: k <= h;
      assert (if h < m then m else h) in log;
    }
  }

  /** The `seq` of the first document in descending order, or 0 without one. */
  function LastSeq(log: Log): (last: nat)
    ensures last == 0 || last in log
    ensures forall k | k in log :: k <= last
  {
    if log == map[] then 0
    else
      HighestKeyExists(log);
      var m :| m in log && forall k | k in log :: k <= m;
      m
  }

  /** Insertion under the unique index: `None` stands for the duplicate-key error. */
  function InsertAt(log: Log, next: nat, entry: Entry): Option<Log> {
    if next in log then None else Some(log[next := entry])
  }

  /** The sequence numbers in use are exactly 1 up to the number of events. */
  ghost predicate Gapless(log: Log) {
    forall k :: k in log <==> 1 <= k <= |log|
  }

  lemma LastSeqOfGapless(log: Log)
    requires Gapless(log)
    ensures LastSeq(log) == |log|
  {
    if log != map[] {
      var m :| m in log;
      assert |log| in log;
    }
  }

  lemma InsertKeepsGapless(log: Log, entry: Entry)
    requires Gapless(log)
    ensures |log| + 1 !in log && Gapless(log[|log| + 1 := entry])
    ensures |log[|log| + 1 := entry]| == |log| + 1
  {
  }

  // ------------------------------------------------- concurrent calls of append

  /**
   * Where a call of `append` stands. `began` is the length of the log when the
   * call started and `collided` the sequence numbers on which it has lost so far;
   * both only record history, no step depends on them.
   */
  datatype Append =
    | Reading(event: Event, attempt: nat, began: nat, collided: seq<nat>)
    | Inserting(event: Event, attempt: nat, next: nat, began: nat, collided: seq<nat>)
    | Stored(event: Event, at: nat)
    | GaveUp(event: Event, began: nat, collided: seq<nat>)
    | Broken(event: Event)

  datatype State = State(log: Log, calls: map<CallId, Append>)

  /** `Break` is an insert or read that fails with anything but a duplicate key. */
  datatype Action =
    | Start(call: CallId, event: Event)
    | Read(call: CallId)
    | Insert(call: CallId)
    | Break(call: CallId)

  const EMPTY := State(map[], map[])

  /** What the insert of `c` does to the log and to the call. */
  function InsertStep(s: State, c: CallId): State
    requires c in s.calls && s.calls[c].Inserting?
  {
    var a := s.calls[c];
    match InsertAt(s.log, a.next, Entry(a.event, c))
    case Some(log) => State(log, s.calls[c := Stored(a.event, a.next)])
    case None =>
      var lost := a.collided + [a.next];
      if a.attempt < MAX_SEQ_ATTEMPTS
      then s.(calls := s.calls[c := Reading(a.event, a.attempt + 1, a.began, lost)])
      else s.(calls := s.calls[c := GaveUp(a.event, a.began, lost)])
  }

  /** One atomic step; an action that is not enabled changes nothing. */
  function Step(s: State, a: Action): State {
    match a
    case Start(c, e) =>
      if c in s.calls then s else s.(calls := s.calls[c := Reading(e, 1, |s.log|, [])])
    case Read(c) =>
      if c in s.calls && s.calls[c].Reading? then
        var r := s.calls[c];
        s.(calls := s.calls[c := Inserting(r.event, r.attempt, LastSeq(s.log) + 1, r.began, r.collided)])
      else s
    case Insert(c) =>
      if c in s.calls && s.calls[c].Inserting? then InsertStep(s, c) else s
    case Break(c) =>
      if c in s.calls && (s.calls[c].Reading? || s.calls[c].Inserting?)
      then s.(calls := s.calls[c := Broken(s.calls[c].event)]) else s
  }

  function Exec(s: State, schedule: seq<Action>): State
    decreases |schedule|
  {
    if schedule == [] then s else Exec(Step(s, schedule[0]), schedule[1..])
  }

  /** Each lost sequence number belongs to a different insert made by another call since `began`. */
  ghost predicate Charged(log: Log, c: CallId, began: nat, collided: seq<nat>) {
    && Increasing(collided)
    && forall i :: 0 <= i < |collided| ==>
         began < collided[i] <= |log| && collided[i] in log && log[collided[i]].caller != c
  }

  ghost predicate CallInv(log: Log, c: CallId, a: Append) {
    match a
    case Reading(_, attempt, began, collided) =>
      && 1 <= attempt <= MAX_SEQ_ATTEMPTS
      && began <= |log|
      && |collided| == attempt - 1
      && Charged(log, c, began, collided)
    case Inserting(_, attempt, next, began, collided) =>
      && 1 <= attempt <= MAX_SEQ_ATTEMPTS
      && |collided| == attempt - 1
      && Charged(log, c, began, collided)
      && began < next <= |log| + 1
      && forall i :: 0 <= i < |collided| ==> collided[i] < next
    case Stored(e, at) => at in log && log[at] == Entry(e, c)
    case GaveUp(_, began, collided) =>
      |collided| == MAX_SEQ_ATTEMPTS && Charged(log, c, began, collided)
    case Broken(_) => true
  }

  /** Every stored event is the single event of the call that inserted it. */
  ghost predicate EntryInv(s: State, k: nat)
    requires k in s.log
  {
    s.log[k].caller in s.calls && s.calls[s.log[k].caller] == Stored(s.log[k].event, k)
  }

  ghost predicate Inv(s: State) {
    && Gapless(s.log)
    && (forall c :: c in s.calls ==> CallInv(s.log, c, s.calls[c]))
    && (forall k :: k in s.log ==> EntryInv(s, k))
  }

  /** What is known of a call survives the insert of an event by anyone else. */
  lemma CallInvSurvivesInsert(log: Log, c: CallId, a: Append, entry: Entry)
    requires Gapless(log) && CallInv(log, c, a)
    ensures CallInv(log[|log| + 1 := entry], c, a)
  {
    InsertKeepsGapless(log, entry);
  }

  lemma InsertKeepsInv(s: State, c: CallId)
    requires Inv(s) && c in s.calls && s.calls[c].Inserting?
    ensures Inv(InsertStep(s, c))
  {
    var a := s.calls[c];
    assert CallInv(s.log, c, a);
    if a.next !in s.log {
      StoringKeepsInv(s, c);
    } else {
      LosingKeepsInv(s, c);
    }
  }

  lemma StoringKeepsInv(s: State, c: CallId)
    requires Inv(s) && c in s.calls && s.calls[c].Inserting? && s.calls[c].next == |s.log| + 1
    ensures Inv(InsertStep(s, c))
  {
    var entry := Entry(s.calls[c].event, c);
    var t := InsertStep(s, c);
    InsertKeepsGapless(s.log, entry);
    assert t.log == s.log[|s.log| + 1 := entry];
    forall d | d in t.calls ensures CallInv(t.log, d, t.calls[d]) {
      if d != c { CallInvSurvivesInsert(s.log, d, s.calls[d], entry); }
    }
    forall k | k in t.log ensures EntryInv(t, k) {
      if k != |s.log| + 1 { assert EntryInv(s, k); }
    }
  }

  lemma LosingKeepsInv(s: State, c: CallId)
    requires Inv(s) && c in s.calls && s.calls[c].Inserting? && s.calls[c].next in s.log
    ensures Inv(InsertStep(s, c))
  {
    var a := s.calls[c];
    var t := InsertStep(s, c);
    assert CallInv(s.log, c, a) && EntryInv(s, a.next);
    LosingIsCharged(s.log, c, a);
    forall k | k in t.log ensures EntryInv(t, k) {
      assert EntryInv(s, k);
    }
  }

  lemma LosingIsCharged(log: Log, c: CallId, a: Append)
    requires Gapless(log) && a.Inserting? && CallInv(log, c, a)
    requires a.next in log && log[a.next].caller != c
    ensures Charged(log, c, a.began, a.collided + [a.next])
  {
  }

  lemma StepKeepsInv(s: State, a: Action)
    requires Inv(s)
    ensures Inv(Step(s, a))
  {
    var t := Step(s, a);
    if a.Insert? && a.call in s.calls && s.calls[a.call].Inserting? {
      InsertKeepsInv(s, a.call);
    } else {
      LastSeqOfGapless(s.log);
      assert t.log == s.log;
      if a.call in s.calls {
        assert CallInv(s.log, a.call, s.calls[a.call]);
      }
      forall k | k in t.log ensures EntryInv(t, k) {
        assert EntryInv(s, k);
      }
    }
  }

  /** A call under way neither adds calls nor changes what a call wants to record. */
  lemma CallsKeepTheirEvents(s: State, a: Action)
    requires !a.Start?
    ensures Step(s, a).calls.Keys == s.calls.Keys
    ensures forall c :: c in s.calls ==>
              && Step(s, a).calls[c].event == s.calls[c].event
              && (Step(s, a).calls[c].Broken? ==> s.calls[c].Broken? || a == Break(c))
  {
  }

  lemma {:induction false} ExecKeepsInv(s: State, schedule: seq<Action>)
    requires Inv(s)
    ensures Inv(Exec(s, schedule))
    decreases |schedule|
  {
    if schedule != [] {
      StepKeepsInv(s, schedule[0]);
      ExecKeepsInv(Step(s, schedule[0]), schedule[1..]);
    }
  }

  // ------------------------------------------------------------- what callers see

  /** Whatever the calls do, the numbers in the log are 1, 2, ..., n. */
  lemma EveryLogIsGapless(schedule: seq<Action>, k: nat)
    ensures var log := Exec(EMPTY, schedule).log; k in log <==> 1 <= k <= |log|
  {
    ExecKeepsInv(EMPTY, schedule);
  }

  /** A call that returned has exactly its one event in the log, any other call none. */
  lemma OneEventPerReturningCall(schedule: seq<Action>, c: CallId, k: nat)
    ensures var s := Exec(EMPTY, schedule);
            k in s.log && s.log[k].caller == c <==>
            c in s.calls && s.calls[c].Stored? && s.calls[c].at == k
    ensures var s := Exec(EMPTY, schedule);
            k in s.log && s.log[k].caller == c ==> s.log[k].event == s.calls[c].event
  {
    ExecKeepsInv(EMPTY, schedule);
    var s := Exec(EMPTY, schedule);
    if k in s.log { assert EntryInv(s, k); }
    if c in s.calls { assert CallInv(s.log, c, s.calls[c]); }
  }

  /**
   * A call gives up only after losing to MAX_SEQ_ATTEMPTS different inserts, each
   * made during the call and each by a different other call.
   */
  lemma GivingUpNeedsFiveRivals(schedule: seq<Action>, c: CallId)
    requires var s := Exec(EMPTY, schedule); c in s.calls && s.calls[c].GaveUp?
    ensures var s := Exec(EMPTY, schedule);
            var lost := s.calls[c].collided;
            && |lost| == MAX_SEQ_ATTEMPTS
            && (forall i :: 0 <= i < |lost| ==>
                 s.calls[c].began < lost[i] && lost[i] in s.log && s.log[lost[i]].caller != c)
            && (forall i, j :: 0 <= i < j < |lost| ==> s.log[lost[i]].caller != s.log[lost[j]].caller)
  {
    ExecKeepsInv(EMPTY, schedule);
    var s := Exec(EMPTY, schedule);
    assert CallInv(s.log, c, s.calls[c]);
    var lost := s.calls[c].collided;
    forall i, j | 0 <= i < j < |lost| ensures s.log[lost[i]].caller != s.log[lost[j]].caller {
      assert EntryInv(s, lost[i]) && EntryInv(s, lost[j]);
    }
  }

  // ----------------------------------------------- counting writers against calls

  /** The calls that inserted the events 1 to n. */
  ghost function Writers(log: Log, n: nat): set<CallId>
    requires forall k :: 1 <= k <= n ==> k in log
  {
    if n == 0 then {} else Writers(log, n - 1) + {log[n].caller}
  }

  lemma {:induction false} WriterHasEntry(s: State, n: nat, c: CallId)
    requires Inv(s) && n <= |s.log| && c in Writers(s.log, n)
    ensures c in s.calls && s.calls[c].Stored? && s.calls[c].at <= n
  {
    assert EntryInv(s, n);
    if c != s.log[n].caller { WriterHasEntry(s, n - 1, c); }
  }

  lemma {:induction false} WritersAreDistinct(s: State, n: nat)
    requires Inv(s) && n <= |s.log|
    ensures |Writers(s.log, n)| == n
  {
    if n > 0 {
      WritersAreDistinct(s, n - 1);
      assert EntryInv(s, n);
      if s.log[n].caller in Writers(s.log, n - 1) {
        WriterHasEntry(s, n - 1, s.log[n].caller);
      }
    }
  }

  lemma {:induction false} ChargesSpread(log: Log, c: CallId, began: nat, collided: seq<nat>, i: nat)
    requires Charged(log, c, began, collided) && i < |collided|
    ensures began + i < collided[i]
  {
    if i > 0 { ChargesSpread(log, c, began, collided, i - 1); }
  }

  /** With five calls or fewer in the system, nobody ever runs out of attempts. */
  lemma FewCallsNeverGiveUp(s: State, c: CallId)
    requires Inv(s) && c in s.calls && s.calls[c].GaveUp?
    ensures |s.calls| > MAX_SEQ_ATTEMPTS
  {
    var a := s.calls[c];
    assert CallInv(s.log, c, a);
    ChargesSpread(s.log, c, a.began, a.collided, MAX_SEQ_ATTEMPTS - 1);
    WritersAreDistinct(s, |s.log|);
    var writers := Writers(s.log, |s.log|);
    forall d | d in writers ensures d in s.calls && d != c {
      WriterHasEntry(s, |s.log|, d);
    }
    SubsetSize(writers + {c}, s.calls.Keys);
  }

  lemma {:induction false} SubsetSize<T>(a: set<T>, b: set<T>)
    requires a <= b
    ensures |a| <= |b|
  {
    if a != {} {
      var x :| x in a;
      SubsetSize(a - {x}, b - {x});
    }
  }

  // ------------------------------------------- the bound of five rivals is exact

  /** One attempt of `victim` defeated by a call `rival` that was not in the system before. */
  function DefeatBy(victim: CallId, rival: CallId, event: Event): seq<Action> {
    [Read(victim), Start(rival, event), Read(rival), Insert(rival), Insert(victim)]
  }

  function Defeats(victim: CallId, rival: CallId, event: Event, n: nat): seq<Action>
    decreases n
  {
    if n == 0 then [] else DefeatBy(victim, rival, event) + Defeats(victim, rival + 1, event, n - 1)
  }

  lemma {:induction false} ExecSplits(s: State, first: seq<Action>, second: seq<Action>)
    ensures Exec(s, first + second) == Exec(Exec(s, first), second)
    decreases |first|
  {
    if first == [] {
      assert first + second == second;
    } else {
      ExecSplits(Step(s, first[0]), first[1..], second);
      assert (first + second)[1..] == first[1..] + second;
    }
  }

  lemma ExecOfFive(s: State, a: Action, b: Action, c: Action, d: Action, e: Action)
    ensures Exec(s, [a, b, c, d, e]) == Step(Step(Step(Step(Step(s, a), b), c), d), e)
  {
    ExecSplits(s, [a], [b, c, d, e]);
    ExecSplits(Step(s, a), [b], [c, d, e]);
    ExecSplits(Step(Step(s, a), b), [c], [d, e]);
    ExecSplits(Step(Step(Step(s, a), b), c), [d], [e]);
    assert [a] + [b, c, d, e] == [a, b, c, d, e] && [b] + [c, d, e] == [b, c, d, e];
    assert [c] + [d, e] == [c, d, e] && [d] + [e] == [d, e];
  }

  /** A call that runs undisturbed stores its event right after the last one. */
  lemma UndisturbedCallStores(s: State, c: CallId, event: Event)
    requires Gapless(s.log) && c !in s.calls
    ensures Step(Step(Step(s, Start(c, event)), Read(c)), Insert(c))
         == State(s.log[|s.log| + 1 := Entry(event, c)], s.calls[c := Stored(event, |s.log| + 1)])
  {
    LastSeqOfGapless(s.log);
    InsertKeepsGapless(s.log, Entry(event, c));
    var s2 := Step(s, Start(c, event));
    assert s2.log == s.log && s2.calls == s.calls[c := Reading(event, 1, |s.log|, [])];
    var s3 := Step(s2, Read(c));
    assert s3.calls == s.calls[c := Inserting(event, 1, |s.log| + 1, |s.log|, [])];
  }

  /** How a call stands after it lost one attempt. */
  function AfterLosing(a: Append, next: nat): Append
    requires a.Reading?
  {
    var lost := a.collided + [next];
    if a.attempt < MAX_SEQ_ATTEMPTS then Reading(a.event, a.attempt + 1, a.began, lost)
    else GaveUp(a.event, a.began, lost)
  }

  lemma DefeatCostsAnAttempt(s: State, victim: CallId, rival: CallId, event: Event)
    requires Gapless(s.log) && victim in s.calls && s.calls[victim].Reading?
    requires rival !in s.calls
    ensures Exec(s, DefeatBy(victim, rival, event))
         == State(s.log[|s.log| + 1 := Entry(event, rival)],
                  s.calls[rival := Stored(event, |s.log| + 1)]
                         [victim := AfterLosing(s.calls[victim], |s.log| + 1)])
  {
    var v := s.calls[victim];
    var reading := Inserting(v.event, v.attempt, |s.log| + 1, v.began, v.collided);
    assert Step(s, Read(victim)) == s.(calls := s.calls[victim := reading]) by {
      LastSeqOfGapless(s.log);
    }
    var s1 := s.(calls := s.calls[victim := reading]);
    var s4 := State(s.log[|s.log| + 1 := Entry(event, rival)], s1.calls[rival := Stored(event, |s.log| + 1)]);
    assert Step(Step(Step(s1, Start(rival, event)), Read(rival)), Insert(rival)) == s4 by {
      UndisturbedCallStores(s1, rival, event);
    }
    var final := s4.(calls := s4.calls[victim := AfterLosing(v, |s.log| + 1)]);
    assert Step(s4, Insert(victim)) == final;
    assert Exec(s, DefeatBy(victim, rival, event)) == final by {
      ExecOfFive(s, Read(victim), Start(rival, event), Read(rival), Insert(rival), Insert(victim));
    }
    assert final.calls
        == s.calls[rival := Stored(event, |s.log| + 1)][victim := AfterLosing(v, |s.log| + 1)];
  }

  lemma {:induction false} DefeatsAddUp(s: State, victim: CallId, rival: CallId, event: Event, n: nat)
    requires Inv(s) && victim in s.calls && s.calls[victim].Reading?
    requires 1 <= n && s.calls[victim].attempt + n == MAX_SEQ_ATTEMPTS + 1
    requires victim < rival && forall c :: c in s.calls ==> c < rival
    ensures var t := Exec(s, Defeats(victim, rival, event, n));
            victim in t.calls && t.calls[victim].GaveUp? && |t.log| == |s.log| + n
    decreases n
  {
    var round := DefeatBy(victim, rival, event);
    DefeatCostsAnAttempt(s, victim, rival, event);
    InsertKeepsGapless(s.log, Entry(event, rival));
    ExecKeepsInv(s, round);
    ExecSplits(s, round, Defeats(victim, rival + 1, event, n - 1));
    if n > 1 {
      DefeatsAddUp(Exec(s, round), victim, rival + 1, event, n - 1);
    }
  }

  /** Five rivals do suffice: some schedule of six calls makes one of them give up. */
  lemma FiveRivalsSuffice(event: Event)
    ensures exists schedule ::
              var s := Exec(EMPTY, schedule);
              0 in s.calls && s.calls[0].GaveUp? && |s.log| == MAX_SEQ_ATTEMPTS
  {
    var s := Step(EMPTY, Start(0, event));
    assert Exec(s, []) == s;
    assert s == Exec(EMPTY, [Start(0, event)]);
    StepKeepsInv(EMPTY, Start(0, event));
    DefeatsAddUp(s, 0, 1, event, MAX_SEQ_ATTEMPTS);
    ExecSplits(EMPTY, [Start(0, event)], Defeats(0, 1, event, MAX_SEQ_ATTEMPTS));
  }

  // --------------------------------------------------------- the repository itself

  /** The events in the order of their sequence numbers. */
  ghost function Events(log: Log): seq<Entry>
    requires Gapless(log)
  {
    seq(|log|, i requires 0 <= i < |log| => log[i + 1])
  }

  lemma InsertAppends(log: Log, entry: Entry)
    requires Gapless(log)
    ensures Gapless(log[|log| + 1 := entry])
    ensures Events(log[|log| + 1 := entry]) == Events(log) + [entry]
  {
    InsertKeepsGapless(log, entry);
  }

  /**
   * What other callers insert around one attempt of `append`: before it reads the
   * highest `seq`, and between that read and its own insert; and whether its insert fails
   * for another reason than a duplicate key.
   */
  datatype Window = Window(before: seq<Entry>, between: seq<Entry>, breaks: bool)

  /** How `append` ends: it returns a `seq`, or throws, for a duplicate key or otherwise. */
  datatype Answer = Returned(at: nat) | DuplicateKey | OtherError

  /** Another attempt follows only if this one meets a duplicate key. */
  predicate Retries(w: Window) {
    w.between != [] && !w.breaks
  }

  /** The first attempt that is the last, or |windows|. */
  function LastAttempt(windows: seq<Window>): (q: nat)
    ensures q <= |windows|
    ensures q < |windows| ==> !Retries(windows[q])
    ensures forall i :: 0 <= i < q ==> Retries(windows[i])
  {
    if windows == [] || !Retries(windows[0]) then 0 else 1 + LastAttempt(windows[1..])
  }

  /** The attempt that stores the event, if one does. */
  predicate Succeeds(windows: seq<Window>) {
    LastAttempt(windows) < |windows| && !windows[LastAttempt(windows)].breaks
  }

  /** Everything the others insert during the first n attempts. */
  function Foreign(windows: seq<Window>, n: nat): seq<Entry>
    requires n <= |windows|
  {
    if n == 0 then []
    else Foreign(windows, n - 1) + windows[n - 1].before + windows[n - 1].between
  }

  /** The log after an `append` amid these windows: `entry` comes right after the undisturbed read. */
  function AfterAppend(events: seq<Entry>, entry: Entry, windows: seq<Window>): seq<Entry> {
    var q := LastAttempt(windows);
    if Succeeds(windows) then events + Foreign(windows, q) + windows[q].before + [entry]
    else events + Foreign(windows, if q < |windows| then q + 1 else q)
  }

  class DeliveryEventRepository {
    var log: Log

    ghost predicate Valid() reads this { Gapless(log) }

    constructor ()
      ensures Valid() && Events(log) == []
    {
      log := map[];
    }

    method GetLastSeq() returns (last: nat)
      requires Valid()
      ensures last == |Events(log)|
    {
      last := LastSeq(log);
      LastSeqOfGapless(log);
    }

    /** The insert; `created` is false for the duplicate-key error. */
    method Create(entry: Entry, next: nat) returns (created: bool)
      modifies this
      ensures created <==> next !in old(log)
      ensures log == if created then old(log)[next := entry] else old(log)
    {
      match InsertAt(log, next, entry)
      case Some(extended) =>
        log := extended;
        created := true;
      case None =>
        created := false;
    }

    /** Inserts of other callers, all of them successful. */
    method Interfere(entries: seq<Entry>)
      requires Valid()
      modifies this
      ensures Valid() && Events(log) == old(Events(log)) + entries
    {
      for i := 0 to |entries|
        invariant Valid() && Events(log) == old(Events(log)) + entries[..i]
      {
        InsertAppends(log, entries[i]);
        var last := GetLastSeq();
        var created := Create(entries[i], last + 1);
        assert entries[..i + 1] == entries[..i] + [entries[i]];
      }
      assert entries[..|entries|] == entries;
    }

    /** One attempt: read the highest `seq`, insert at the next one. */
    method Attempt(entry: Entry, window: Window) returns (answer: Answer)
      requires Valid()
      modifies this
      ensures Valid()
      ensures answer == if window.breaks then OtherError
                        else if window.between == [] then Returned(|Events(log)|) else DuplicateKey
      ensures Events(log) == old(Events(log)) + window.before
                             + if answer.Returned? then [entry] else window.between
    {
      Interfere(window.before);
      var last := GetLastSeq();
      Interfere(window.between);
      if window.breaks { return OtherError; }
      InsertAppends(log, entry);
      var created := Create(entry, last + 1);
      answer := if created then Returned(last + 1) else DuplicateKey;
    }

    /**
     * Appends `entry` amid the inserts of others. It succeeds on the first attempt nobody
     * disturbs, right after everything inserted until then. It throws, and adds nothing,
     * exactly when an insert fails otherwise first, or every attempt is disturbed.
     */
    method Append(entry: Entry, windows: seq<Window>) returns (answer: Answer)
      requires Valid() && |windows| == MAX_SEQ_ATTEMPTS
      modifies this
      ensures Valid()
      ensures answer.Returned? <==> Succeeds(windows)
      ensures answer == DuplicateKey <==> forall i :: 0 <= i < |windows| ==> Retries(windows[i])
      ensures Events(log) == AfterAppend(old(Events(log)), entry, windows)
      ensures answer.Returned? ==> answer.at == |Events(log)|
    {
      for attempt := 0 to MAX_SEQ_ATTEMPTS
        invariant Valid()
        invariant forall i :: 0 <= i < attempt ==> Retries(windows[i])
        invariant Events(log) == old(Events(log)) + Foreign(windows, attempt)
      {
        answer := Attempt(entry, windows[attempt]);
        if answer != DuplicateKey {
          assert LastAttempt(windows) == attempt;
          return;
        }
      }
      return DuplicateKey;
    }
  }
}

/**
 * Ownership of push tokens: preference documents with a unique index over the tokens of
 * all documents, and `registerDevice`, which refreshes, detaches, attaches and retries.
 */
module DeviceTokens {
  import opened Common

  type UserId = nat
  type Token = nat
  type CallId = nat

  datatype Platform = Ios | Android | Web

  datatype Device = Device(token: Token, platform: Platform, lastSeen: int)

  /** The devices of every user that has a preference document. */
  type Docs = map<UserId, seq<Device>>

  const MAX_CLAIM_ATTEMPTS: nat := 5

  // ------------------------------------------------------------- atomic operations

  predicate HasToken(devices: seq<Device>, t: Token) {
    exists i :: 0 <= i < |devices| && devices[i].token == t
  }

  predicate Lists(docs: Docs, u: UserId, t: Token) {
    u in docs && HasToken(docs[u], t)
  }

  predicate ListedElsewhere(docs: Docs, u: UserId, t: Token) {
    exists v :: v in docs && v != u && HasToken(docs[v], t)
  }

  /** `$pull`: the devices whose token is not among `tokens`, in order. */
  function Pull(devices: seq<Device>, tokens: set<Token>): seq<Device> {
    if devices == [] then []
    else (if devices[0].token in tokens then [] else [devices[0]]) + Pull(devices[1..], tokens)
  }

  lemma {:induction false} PullRemoves(devices: seq<Device>, tokens: set<Token>, t: Token)
    ensures HasToken(Pull(devices, tokens), t) <==> HasToken(devices, t) && t !in tokens
  {
    if devices != [] {
      var rest := Pull(devices[1..], tokens);
      PullRemoves(devices[1..], tokens, t);
      HasTokenOfCons(devices[0], devices[1..], t);
      assert devices == [devices[0]] + devices[1..];
      HasTokenOfCons(devices[0], rest, t);
      assert [] + rest == rest;
    }
  }

  lemma HasTokenOfCons(d: Device, devices: seq<Device>, t: Token)
    ensures HasToken([d] + devices, t) <==> d.token == t || HasToken(devices, t)
  {
    if d.token == t { assert ([d] + devices)[0].token == t; }
    if HasToken(devices, t) {
      var i :| 0 <= i < |devices| && devices[i].token == t;
      assert ([d] + devices)[i + 1].token == t;
    }
  }

  lemma HasTokenOfSnoc(devices: seq<Device>, d: Device, t: Token)
    ensures HasToken(devices + [d], t) <==> HasToken(devices, t) || d.token == t
  {
    if d.token == t { assert (devices + [d])[|devices|].token == t; }
    if HasToken(devices, t) {
      var i :| 0 <= i < |devices| && devices[i].token == t;
      assert (devices + [d])[i].token == t;
    }
  }

  /** The positional update of the first device with this token. */
  function Touch(devices: seq<Device>, device: Device): seq<Device> {
    if devices == [] then []
    else if devices[0].token == device.token then [device] + devices[1..]
    else [devices[0]] + Touch(devices[1..], device)
  }

  function Refresh(docs: Docs, u: UserId, device: Device): Option<Docs> {
    if Lists(docs, u, device.token) then Some(docs[u := Touch(docs[u], device)]) else None
  }

  function Detach(docs: Docs, u: UserId, t: Token): Docs {
    map v | v in docs :: if v == u then docs[v] else Pull(docs[v], {t})
  }

  /** The upsert that pushes the device; `None` is the duplicate-key error of the index. */
  function Attach(docs: Docs, u: UserId, device: Device): Option<Docs> {
    if ListedElsewhere(docs, u, device.token) then None
    else Some(docs[u := (if u in docs then docs[u] else []) + [device]])
  }

  function Remove(docs: Docs, u: UserId, t: Token): Docs {
    if u in docs then docs[u := Pull(docs[u], {t})] else docs
  }

  function Prune(docs: Docs, tokens: set<Token>): Docs {
    map v | v in docs :: Pull(docs[v], tokens)
  }

  lemma {:induction false} TouchKeepsTokens(devices: seq<Device>, device: Device)
    ensures |Touch(devices, device)| == |devices|
    ensures forall i :: 0 <= i < |devices| ==> Touch(devices, device)[i].token == devices[i].token
  {
    if devices != [] { TouchKeepsTokens(devices[1..], device); }
  }

  lemma RefreshKeepsLists(docs: Docs, u: UserId, device: Device, v: UserId, t: Token)
    requires Lists(docs, u, device.token)
    ensures Lists(Refresh(docs, u, device).value, v, t) <==> Lists(docs, v, t)
  {
    TouchKeepsTokens(docs[u], device);
    if v == u && v in docs {
      var touched := Touch(docs[u], device);
      forall i | 0 <= i < |touched| ensures touched[i].token == docs[u][i].token {}
      if HasToken(docs[u], t) {
        var i :| 0 <= i < |docs[u]| && docs[u][i].token == t;
        assert touched[i].token == t;
      }
    }
  }

  lemma DetachLists(docs: Docs, u: UserId, t: Token, v: UserId, x: Token)
    ensures Lists(Detach(docs, u, t), v, x) <==> Lists(docs, v, x) && (v == u || x != t)
  {
    if v in docs && v != u { PullRemoves(docs[v], {t}, x); }
  }

  lemma AttachLists(docs: Docs, u: UserId, device: Device, v: UserId, x: Token)
    requires !ListedElsewhere(docs, u, device.token)
    ensures Lists(Attach(docs, u, device).value, v, x) <==>
              Lists(docs, v, x) || (v == u && x == device.token)
  {
    if v == u { HasTokenOfSnoc(if u in docs then docs[u] else [], device, x); }
  }

  lemma RemoveLists(docs: Docs, u: UserId, t: Token, v: UserId, x: Token)
    ensures Lists(Remove(docs, u, t), v, x) <==> Lists(docs, v, x) && !(v == u && x == t)
  {
    if u in docs { PullRemoves(docs[u], {t}, x); }
  }

  lemma PruneLists(docs: Docs, tokens: set<Token>, v: UserId, x: Token)
    ensures Lists(Prune(docs, tokens), v, x) <==> Lists(docs, v, x) && x !in tokens
  {
    if v in docs { PullRemoves(docs[v], tokens, x); }
  }

  // ----------------------------------------------------------- concurrent calls

  /**
   * Where a call of `registerDevice` stands. `mark` is the number of attaches of the
   * token by other users when the call last detached it; it only records history.
   */
  datatype Place =
    | Refreshing(attempt: nat)
    | Detaching(attempt: nat)
    | Attaching(attempt: nat, mark: nat)
    | Refreshed
    | Attached
    | Contended

  /** `began` is the number of attaches of the token by other users when the call started. */
  datatype Call = Call(user: UserId, device: Device, began: nat, place: Place)

  datatype Attachment = Attachment(call: CallId, user: UserId)

  /** `attaches` lists, for each token, the calls that attached it, in order. */
  datatype State = State(docs: Docs, calls: map<CallId, Call>, attaches: map<Token, seq<Attachment>>)

  datatype Act = DoRefresh | DoDetach | DoAttach

  datatype Action =
    | Begin(call: CallId, user: UserId, device: Device)
    | Do(call: CallId, act: Act, now: int)
    | RemoveDevice(user: UserId, token: Token)
    | PruneTokens(tokens: set<Token>)

  function Attaches(s: State, t: Token): seq<Attachment> {
    if t in s.attaches then s.attaches[t] else []
  }

  /** The calls of other users in a history. */
  function Others(history: seq<Attachment>, u: UserId): seq<CallId> {
    if history == [] then []
    else
      var n := |history| - 1;
      Others(history[..n], u) + if history[n].user != u then [history[n].call] else []
  }

  /** The calls of users other than `u` that attached token `t`. */
  function Rivals(s: State, t: Token, u: UserId): seq<CallId> {
    Others(Attaches(s, t), u)
  }

  lemma OthersSnoc(history: seq<Attachment>, e: Attachment, u: UserId)
    ensures Others(history + [e], u) == Others(history, u) + if e.user != u then [e.call] else []
  {
    assert (history + [e])[..|history|] == history;
  }

  lemma {:induction false} OthersAreListed(history: seq<Attachment>, u: UserId, c: CallId)
    requires c in Others(history, u)
    ensures exists i :: 0 <= i < |history| && history[i].call == c && history[i].user != u
  {
    var n := |history| - 1;
    if c in Others(history[..n], u) {
      OthersAreListed(history[..n], u, c);
      var i :| 0 <= i < n && history[..n][i].call == c && history[..n][i].user != u;
      assert history[i] == history[..n][i];
    } else {
      assert history[n].call == c;
    }
  }

  lemma {:induction false} OthersAreDistinct(history: seq<Attachment>, u: UserId)
    requires forall i, j :: 0 <= i < j < |history| ==> history[i].call != history[j].call
    ensures Distinct(Others(history, u))
  {
    if history != [] {
      var n := |history| - 1;
      OthersAreDistinct(history[..n], u);
      if history[n].call in Others(history[..n], u) {
        OthersAreListed(history[..n], u, history[n].call);
        assert false;
      }
    }
  }

  function Move(s: State, c: CallId, place: Place): State
    requires c in s.calls
  {
    s.(calls := s.calls[c := s.calls[c].(place := place)])
  }

  function CallStep(s: State, c: CallId, act: Act, now: int): State
    requires c in s.calls
  {
    var call := s.calls[c];
    var device := call.device.(lastSeen := now);
    match act
    case DoRefresh =>
      if !call.place.Refreshing? then s
      else
        (match Refresh(s.docs, call.user, device)
         case Some(docs) => Move(s, c, Refreshed).(docs := docs)
         case None => Move(s, c, Detaching(call.place.attempt)))
    case DoDetach =>
      if !call.place.Detaching? then s
      else Move(s, c, Attaching(call.place.attempt, |Rivals(s, device.token, call.user)|))
           .(docs := Detach(s.docs, call.user, device.token))
    case DoAttach =>
      if !call.place.Attaching? then s
      else
        (match Attach(s.docs, call.user, device)
         case Some(docs) =>
           Move(s, c, Attached)
           .(docs := docs,
             attaches := s.attaches[device.token := Attaches(s, device.token) + [Attachment(c, call.user)]])
         case None =>
           if call.place.attempt < MAX_CLAIM_ATTEMPTS - 1
           then Move(s, c, Refreshing(call.place.attempt + 1)) else Move(s, c, Contended))
  }

  /** One atomic step; an action that is not enabled changes nothing. */
  function Step(s: State, a: Action): State {
    match a
    case Begin(c, u, device) =>
      if c in s.calls then s
      else s.(calls := s.calls[c := Call(u, device, |Rivals(s, device.token, u)|, Refreshing(0))])
    case Do(c, act, now) => if c in s.calls then CallStep(s, c, act, now) else s
    case RemoveDevice(u, t) => s.(docs := Remove(s.docs, u, t))
    case PruneTokens(tokens) => s.(docs := Prune(s.docs, tokens))
  }

  function Exec(s: State, schedule: seq<Action>): State
    decreases |schedule|
  {
    if schedule == [] then s else Exec(Step(s, schedule[0]), schedule[1..])
  }

  // -------------------------------------------------------------- one owner a token

  ghost predicate OneOwner(docs: Docs) {
    forall u, v, t :: Lists(docs, u, t) && Lists(docs, v, t) ==> u == v
  }

  /** Every attach in the history is that of one finished call. */
  ghost predicate HistoryInv(calls: map<CallId, Call>, t: Token, history: seq<Attachment>) {
    && (forall i, j :: 0 <= i < j < |history| ==> history[i].call != history[j].call)
    && (forall i :: 0 <= i < |history| ==> HasAttached(calls, t, history[i]))
  }

  predicate HasAttached(calls: map<CallId, Call>, t: Token, e: Attachment) {
    && e.call in calls && calls[e.call].place.Attached?
    && calls[e.call].device.token == t && calls[e.call].user == e.user
  }

  /** Every attempt that failed was answered by an attach of another user since `began`. */
  ghost predicate CallInv(docs: Docs, call: Call, attaches: nat) {
    && call.began <= attaches
    && match call.place
       case Refreshing(attempt) => attempt < MAX_CLAIM_ATTEMPTS && call.began + attempt <= attaches
       case Detaching(attempt) => attempt < MAX_CLAIM_ATTEMPTS && call.began + attempt <= attaches
       case Attaching(attempt, mark) =>
         && attempt < MAX_CLAIM_ATTEMPTS && call.began + attempt <= mark <= attaches
         && (mark == attaches ==> !ListedElsewhere(docs, call.user, call.device.token))
       case Contended => call.began + MAX_CLAIM_ATTEMPTS <= attaches
       case _ => true
  }

  ghost predicate Inv(s: State) {
    && OneOwner(s.docs)
    && (forall t :: t in s.attaches ==> HistoryInv(s.calls, t, s.attaches[t]))
    && (forall c :: c in s.calls ==> CallInv(s.docs, s.calls[c], |RivalsOf(s, s.calls[c])|))
  }

  function RivalsOf(s: State, call: Call): seq<CallId> {
    Rivals(s, call.device.token, call.user)
  }

  /** Each user lists no more tokens than before. */
  ghost predicate Shrinks(docs: Docs, after: Docs) {
    forall u, t :: Lists(after, u, t) ==> Lists(docs, u, t)
  }

  lemma ShrinkingKeeps(docs: Docs, after: Docs, call: Call, attaches: nat)
    requires Shrinks(docs, after)
    ensures OneOwner(docs) ==> OneOwner(after)
    ensures CallInv(docs, call, attaches) ==> CallInv(after, call, attaches)
  {
    if ListedElsewhere(after, call.user, call.device.token) {
      var v :| v in after && v != call.user && HasToken(after[v], call.device.token);
      assert Lists(after, v, call.device.token);
      assert Lists(docs, v, call.device.token);
    }
  }

  lemma RefreshShrinks(docs: Docs, u: UserId, device: Device)
    requires Lists(docs, u, device.token)
    ensures Shrinks(docs, Refresh(docs, u, device).value)
  {
    forall v, t ensures Lists(Refresh(docs, u, device).value, v, t) ==> Lists(docs, v, t) {
      RefreshKeepsLists(docs, u, device, v, t);
    }
  }

  lemma DetachShrinks(docs: Docs, u: UserId, t: Token)
    ensures Shrinks(docs, Detach(docs, u, t))
    ensures !ListedElsewhere(Detach(docs, u, t), u, t)
  {
    forall v, x ensures Lists(Detach(docs, u, t), v, x) <==> Lists(docs, v, x) && (v == u || x != t) {
      DetachLists(docs, u, t, v, x);
    }
    if v :| v in Detach(docs, u, t) && v != u && HasToken(Detach(docs, u, t)[v], t) {
      assert Lists(Detach(docs, u, t), v, t);
    }
  }

  /** Histories only speak of finished calls, which no longer move. */
  lemma MoveKeepsHistory(s: State, c: CallId, call: Call, t: Token)
    requires t in s.attaches ==> HistoryInv(s.calls, t, s.attaches[t])
    requires c in s.calls ==> !s.calls[c].place.Attached?
    ensures t in s.attaches ==> HistoryInv(s.calls[c := call], t, s.attaches[t])
  {
  }

  /** A step that attaches nothing: the documents shrink, one unfinished call moves. */
  lemma QuietStepKeepsInv(s: State, docs: Docs, c: CallId, call: Call)
    requires Inv(s) && Shrinks(s.docs, docs)
    requires c in s.calls ==> !s.calls[c].place.Attached?
    requires CallInv(docs, call, |RivalsOf(s, call)|)
    ensures Inv(State(docs, s.calls[c := call], s.attaches))
  {
    var t := State(docs, s.calls[c := call], s.attaches);
    ShrinkingKeeps(s.docs, docs, call, 0);
    forall k | k in t.attaches ensures HistoryInv(t.calls, k, t.attaches[k]) {
      MoveKeepsHistory(s, c, call, k);
    }
    forall e | e in t.calls ensures CallInv(t.docs, t.calls[e], |RivalsOf(t, t.calls[e])|) {
      if e != c { ShrinkingKeeps(s.docs, docs, s.calls[e], |RivalsOf(s, s.calls[e])|); }
    }
  }

  lemma ShrinkStepKeepsInv(s: State, docs: Docs)
    requires Inv(s) && Shrinks(s.docs, docs)
    ensures Inv(s.(docs := docs))
  {
    ShrinkingKeeps(s.docs, docs, Call(0, Device(0, Web, 0), 0, Attached), 0);
    forall e | e in s.calls ensures CallInv(docs, s.calls[e], |RivalsOf(s, s.calls[e])|) {
      ShrinkingKeeps(s.docs, docs, s.calls[e], |RivalsOf(s, s.calls[e])|);
    }
  }

  lemma AttachKeepsOneOwner(docs: Docs, u: UserId, device: Device)
    requires OneOwner(docs) && !ListedElsewhere(docs, u, device.token)
    ensures OneOwner(Attach(docs, u, device).value)
  {
    var after := Attach(docs, u, device).value;
    forall v, w, t | Lists(after, v, t) && Lists(after, w, t) ensures v == w {
      AttachLists(docs, u, device, v, t);
      AttachLists(docs, u, device, w, t);
    }
  }

  lemma AttachKeepsCallInv(docs: Docs, u: UserId, device: Device, call: Call, attaches: nat)
    requires !ListedElsewhere(docs, u, device.token) && CallInv(docs, call, attaches)
    ensures var n := if call.device.token == device.token && call.user != u then attaches + 1 else attaches;
            CallInv(Attach(docs, u, device).value, call, n)
  {
    var after := Attach(docs, u, device).value;
    if (call.device.token != device.token || call.user == u) && ListedElsewhere(after, call.user, call.device.token) {
      var v :| v in after && v != call.user && HasToken(after[v], call.device.token);
      AttachLists(docs, u, device, v, call.device.token);
    }
  }

  lemma AttachKeepsHistory(s: State, c: CallId, now: int, k: Token)
    requires k in s.attaches ==> HistoryInv(s.calls, k, s.attaches[k])
    requires c in s.calls && s.calls[c].place.Attaching?
    requires !ListedElsewhere(s.docs, s.calls[c].user, s.calls[c].device.token)
    ensures var t := CallStep(s, c, DoAttach, now); k in t.attaches ==> HistoryInv(t.calls, k, t.attaches[k])
  {
    var t := CallStep(s, c, DoAttach, now);
    if k in s.attaches {
      forall i | 0 <= i < |s.attaches[k]|
        ensures s.attaches[k][i].call != c && HasAttached(t.calls, k, s.attaches[k][i])
      {
        assert HasAttached(s.calls, k, s.attaches[k][i]);
      }
    }
  }

  lemma AttachStepKeepsInv(s: State, c: CallId, now: int)
    requires Inv(s) && c in s.calls && s.calls[c].place.Attaching?
    requires !ListedElsewhere(s.docs, s.calls[c].user, s.calls[c].device.token)
    ensures Inv(CallStep(s, c, DoAttach, now))
  {
    var t := CallStep(s, c, DoAttach, now);
    var call := s.calls[c];
    var device := call.device.(lastSeen := now);
    AttachKeepsOneOwner(s.docs, call.user, device);
    forall k | k in t.attaches ensures HistoryInv(t.calls, k, t.attaches[k]) {
      AttachKeepsHistory(s, c, now, k);
    }
    forall e | e in t.calls ensures CallInv(t.docs, t.calls[e], |RivalsOf(t, t.calls[e])|) {
      assert CallInv(s.docs, s.calls[e], |RivalsOf(s, s.calls[e])|);
      OthersSnoc(Attaches(s, device.token), Attachment(c, call.user), s.calls[e].user);
      if e != c {
        AttachKeepsCallInv(s.docs, call.user, device, s.calls[e], |RivalsOf(s, s.calls[e])|);
      }
    }
  }

  lemma CallStepKeepsInv(s: State, c: CallId, act: Act, now: int)
    requires Inv(s) && c in s.calls
    ensures Inv(CallStep(s, c, act, now))
  {
    var call := s.calls[c];
    var device := call.device.(lastSeen := now);
    assert CallInv(s.docs, call, |RivalsOf(s, call)|);
    match act
    case DoRefresh =>
      if call.place.Refreshing? {
        if Lists(s.docs, call.user, device.token) {
          RefreshShrinks(s.docs, call.user, device);
          QuietStepKeepsInv(s, Refresh(s.docs, call.user, device).value, c, call.(place := Refreshed));
        } else {
          QuietStepKeepsInv(s, s.docs, c, call.(place := Detaching(call.place.attempt)));
        }
      }
    case DoDetach =>
      if call.place.Detaching? {
        DetachShrinks(s.docs, call.user, device.token);
        var place := Attaching(call.place.attempt, |RivalsOf(s, call)|);
        QuietStepKeepsInv(s, Detach(s.docs, call.user, device.token), c, call.(place := place));
      }
    case DoAttach =>
      if call.place.Attaching? {
        if !ListedElsewhere(s.docs, call.user, device.token) {
          AttachStepKeepsInv(s, c, now);
        } else if call.place.attempt < MAX_CLAIM_ATTEMPTS - 1 {
          QuietStepKeepsInv(s, s.docs, c, call.(place := Refreshing(call.place.attempt + 1)));
        } else {
          QuietStepKeepsInv(s, s.docs, c, call.(place := Contended));
        }
      }
  }

  lemma StepKeepsInv(s: State, a: Action)
    requires Inv(s)
    ensures Inv(Step(s, a))
  {
    match a
    case Begin(c, u, device) =>
      if c !in s.calls {
        QuietStepKeepsInv(s, s.docs, c, Call(u, device, |Rivals(s, device.token, u)|, Refreshing(0)));
      }
    case Do(c, act, now) => if c in s.calls { CallStepKeepsInv(s, c, act, now); }
    case RemoveDevice(u, t) =>
      forall v, x ensures Lists(Remove(s.docs, u, t), v, x) ==> Lists(s.docs, v, x) { RemoveLists(s.docs, u, t, v, x); }
      ShrinkStepKeepsInv(s, Remove(s.docs, u, t));
    case PruneTokens(tokens) =>
      forall v, x ensures Lists(Prune(s.docs, tokens), v, x) ==> Lists(s.docs, v, x) { PruneLists(s.docs, tokens, v, x); }
      ShrinkStepKeepsInv(s, Prune(s.docs, tokens));
  }

  lemma {:induction false} ExecKeepsInv(s: State, schedule: seq<Action>)
    requires Inv(s)
    ensures Inv(Exec(s, schedule))
    decreases |schedule|
  {
    if schedule != [] {
      StepKeepsInv(s, schedule[0]);
      ExecKeepsInv(Step(s, schedule[0]), schedule[1..]);
    }
  }

  // ----------------------------------------------------------------- what follows

  /** Before the first call; the index already guarantees one owner a token. */
  ghost predicate Initial(s: State) {
    s.calls == map[] && s.attaches == map[] && OneOwner(s.docs)
  }

  /** In every interleaving no token is listed under two users. */
  lemma NoTokenHasTwoOwners(s: State, schedule: seq<Action>, u: UserId, v: UserId, t: Token)
    requires Initial(s)
    requires Lists(Exec(s, schedule).docs, u, t) && Lists(Exec(s, schedule).docs, v, t)
    ensures u == v
  {
    ExecKeepsInv(s, schedule);
  }

  /** The call whose step succeeds leaves its user the only owner of the token. */
  lemma SuccessMakesOwner(s: State, schedule: seq<Action>, c: CallId, act: Act, now: int)
    requires Initial(s)
    requires var r := Exec(s, schedule); c in r.calls && !r.calls[c].place.Refreshed? && !r.calls[c].place.Attached?
    requires var after := CallStep(Exec(s, schedule), c, act, now).calls[c].place; after.Refreshed? || after.Attached?
    ensures var r := CallStep(Exec(s, schedule), c, act, now);
            var call := r.calls[c];
            Lists(r.docs, call.user, call.device.token) && !ListedElsewhere(r.docs, call.user, call.device.token)
  {
    ExecKeepsInv(s, schedule);
    var r := Exec(s, schedule);
    var call := r.calls[c];
    var device := call.device.(lastSeen := now);
    CallStepKeepsInv(r, c, act, now);
    var after := CallStep(r, c, act, now);
    if act.DoRefresh? {
      RefreshKeepsLists(r.docs, call.user, device, call.user, device.token);
    } else {
      AttachLists(r.docs, call.user, device, call.user, device.token);
    }
    assert Lists(after.docs, call.user, device.token);
    if v :| v in after.docs && v != call.user && HasToken(after.docs[v], device.token) {
      assert Lists(after.docs, v, device.token);
    }
  }

  /** The calls of other users that attached the token of call `c` since `c` began. */
  function RivalsSince(s: State, c: CallId): seq<CallId>
    requires c in s.calls
  {
    var rivals, began := RivalsOf(s, s.calls[c]), s.calls[c].began;
    if began <= |rivals| then rivals[began..] else []
  }

  /** A call of another user that wants the token of call `c`. */
  predicate IsRival(s: State, c: CallId, r: CallId)
    requires c in s.calls
  {
    r in s.calls && s.calls[r].user != s.calls[c].user && s.calls[r].device.token == s.calls[c].device.token
  }

  /** These calls are different, are calls of other users, and have attached the token of `c`. */
  ghost predicate AreRivals(s: State, c: CallId, rivals: seq<CallId>)
    requires c in s.calls
  {
    && Distinct(rivals)
    && forall i :: 0 <= i < |rivals| ==> IsRival(s, c, rivals[i]) && s.calls[rivals[i]].place.Attached?
  }

  lemma ContendedCallHasRivals(s: State, c: CallId)
    requires Inv(s) && c in s.calls && s.calls[c].place.Contended?
    ensures |RivalsSince(s, c)| >= MAX_CLAIM_ATTEMPTS
    ensures AreRivals(s, c, RivalsSince(s, c))
  {
    var t, u := s.calls[c].device.token, s.calls[c].user;
    assert CallInv(s.docs, s.calls[c], |RivalsOf(s, s.calls[c])|);
    assert HistoryInv(s.calls, t, s.attaches[t]);
    OthersAreDistinct(s.attaches[t], u);
    var rivals := RivalsSince(s, c);
    forall i | 0 <= i < |rivals| ensures IsRival(s, c, rivals[i]) && s.calls[rivals[i]].place.Attached? {
      OthersAreListed(s.attaches[t], u, rivals[i]);
      var k :| 0 <= k < |s.attaches[t]| && s.attaches[t][k].call == rivals[i] && s.attaches[t][k].user != u;
      assert HasAttached(s.calls, t, s.attaches[t][k]);
    }
  }

  /**
   * A call fails for contention only if, since it began, at least MAX_CLAIM_ATTEMPTS
   * different calls of other users attached the token.
   */
  lemma ContentionNeedsFiveRivals(s: State, schedule: seq<Action>, c: CallId)
    requires Initial(s)
    requires var r := Exec(s, schedule); c in r.calls && r.calls[c].place.Contended?
    ensures var r := Exec(s, schedule);
            |RivalsSince(r, c)| >= MAX_CLAIM_ATTEMPTS && AreRivals(r, c, RivalsSince(r, c))
  {
    ExecKeepsInv(s, schedule);
    ContendedCallHasRivals(Exec(s, schedule), c);
  }

  /** The calls of other users that want the token of call `c`. */
  ghost function RivalCalls(s: State, c: CallId): set<CallId>
    requires c in s.calls
  {
    set r | r in s.calls && IsRival(s, c, r)
  }

  lemma {:induction false} DistinctMembers<T>(s: seq<T>, b: set<T>)
    requires Distinct(s) && forall i :: 0 <= i < |s| ==> s[i] in b
    ensures |s| <= |b|
  {
    if s != [] {
      var rest := s[..|s| - 1];
      DistinctMembers(rest, b - {s[|s| - 1]});
    }
  }

  /** With fewer than five calls of other users for its token a call never fails for contention. */
  lemma FewRivalsNeverContend(s: State, schedule: seq<Action>, c: CallId)
    requires Initial(s)
    requires c in Exec(s, schedule).calls
    requires |RivalCalls(Exec(s, schedule), c)| < MAX_CLAIM_ATTEMPTS
    ensures !Exec(s, schedule).calls[c].place.Contended?
  {
    var r := Exec(s, schedule);
    if r.calls[c].place.Contended? {
      ContentionNeedsFiveRivals(s, schedule, c);
      DistinctMembers(RivalsSince(r, c), RivalCalls(r, c));
    }
  }

  // ------------------------------------------- the bound of five rivals is exact

  /** One attempt of `victim` defeated by call `rival`, which user `u` makes meanwhile. */
  function DefeatBy(victim: CallId, rival: CallId, u: UserId, device: Device): seq<Action> {
    [Do(victim, DoRefresh, 0), Do(victim, DoDetach, 0), Begin(rival, u, device), Do(rival, DoRefresh, 0),
     Do(rival, DoDetach, 0), Do(rival, DoAttach, 0), Do(victim, DoAttach, 0)]
  }

  function Defeats(victim: CallId, rival: CallId, u: UserId, device: Device, n: nat): seq<Action>
    decreases n
  {
    if n == 0 then [] else DefeatBy(victim, rival, u, device) + Defeats(victim, rival + 1, u, device, n - 1)
  }

  lemma {:induction false} ExecSplits(s: State, first: seq<Action>, second: seq<Action>)
    ensures Exec(s, first + second) == Exec(Exec(s, first), second)
    decreases |first|
  {
    if first == [] {
      assert first + second == second;
    } else {
      ExecSplits(Step(s, first[0]), first[1..], second);
      assert (first + second)[1..] == first[1..] + second;
    }
  }

  lemma ExecCons(s: State, a: Action, rest: seq<Action>)
    ensures Exec(s, [a] + rest) == Exec(Step(s, a), rest)
  {
    assert ([a] + rest)[1..] == rest;
  }

  /** The victim is about to make this attempt, does not list the token, and later calls are new. */
  predicate Struggles(s: State, victim: CallId, rival: CallId, device: Device, attempt: nat) {
    && victim in s.calls && s.calls[victim].device.token == device.token
    && s.calls[victim].place
       == (if attempt < MAX_CLAIM_ATTEMPTS then Refreshing(attempt) else Contended)
    && !Lists(s.docs, s.calls[victim].user, device.token)
    && forall c :: c in s.calls ==> c < rival
  }

  lemma VictimDetaches(s: State, victim: CallId, rival: CallId, device: Device, attempt: nat)
    requires Struggles(s, victim, rival, device, attempt) && attempt < MAX_CLAIM_ATTEMPTS
    ensures var t := Step(Step(s, Do(victim, DoRefresh, 0)), Do(victim, DoDetach, 0));
            && t.calls.Keys == s.calls.Keys
            && t.calls[victim].(place := Contended) == s.calls[victim].(place := Contended)
            && t.calls[victim].place.Attaching? && t.calls[victim].place.attempt == attempt
            && forall v :: !Lists(t.docs, v, device.token)
  {
    var t := Step(Step(s, Do(victim, DoRefresh, 0)), Do(victim, DoDetach, 0));
    var u := s.calls[victim].user;
    forall v ensures !Lists(t.docs, v, device.token) { DetachLists(s.docs, u, device.token, v, device.token); }
  }

  lemma RivalAttaches(s: State, rival: CallId, u: UserId, device: Device)
    requires rival !in s.calls && forall v :: !Lists(s.docs, v, device.token)
    ensures var t := Step(Step(Step(Step(s, Begin(rival, u, device)), Do(rival, DoRefresh, 0)),
                               Do(rival, DoDetach, 0)), Do(rival, DoAttach, 0));
            && t.calls.Keys == s.calls.Keys + {rival}
            && (forall c :: c in s.calls ==> t.calls[c] == s.calls[c])
            && forall v :: Lists(t.docs, v, device.token) <==> v == u
  {
    var docs := Detach(s.docs, u, device.token);
    var pushed := device.(lastSeen := 0);
    forall v ensures !Lists(docs, v, device.token) { DetachLists(s.docs, u, device.token, v, device.token); }
    assert !ListedElsewhere(docs, u, device.token) by {
      if v :| v in docs && v != u && HasToken(docs[v], device.token) { assert Lists(docs, v, device.token); }
    }
    forall v ensures Lists(Attach(docs, u, pushed).value, v, device.token) <==> v == u {
      AttachLists(docs, u, pushed, v, device.token);
    }
  }

  /** The state after the rival has taken the token, before the victim attaches. */
  function Taken(s: State, victim: CallId, rival: CallId, u: UserId, device: Device): State {
    var detached := Step(Step(s, Do(victim, DoRefresh, 0)), Do(victim, DoDetach, 0));
    Step(Step(Step(Step(detached, Begin(rival, u, device)), Do(rival, DoRefresh, 0)), Do(rival, DoDetach, 0)),
         Do(rival, DoAttach, 0))
  }

  lemma DefeatIsSevenSteps(s: State, victim: CallId, rival: CallId, u: UserId, device: Device)
    ensures Exec(s, DefeatBy(victim, rival, u, device))
         == Step(Taken(s, victim, rival, u, device), Do(victim, DoAttach, 0))
  {
    var last := [Do(victim, DoAttach, 0)] + [];
    var attach := [Do(rival, DoDetach, 0), Do(rival, DoAttach, 0)] + last;
    var begin := [Begin(rival, u, device), Do(rival, DoRefresh, 0)] + attach;
    var detached := Step(Step(s, Do(victim, DoRefresh, 0)), Do(victim, DoDetach, 0));
    ExecPair(s, Do(victim, DoRefresh, 0), Do(victim, DoDetach, 0), begin);
    ExecPair(detached, Begin(rival, u, device), Do(rival, DoRefresh, 0), attach);
    ExecPair(Step(Step(detached, Begin(rival, u, device)), Do(rival, DoRefresh, 0)),
             Do(rival, DoDetach, 0), Do(rival, DoAttach, 0), last);
    ExecCons(Taken(s, victim, rival, u, device), Do(victim, DoAttach, 0), []);
    assert DefeatBy(victim, rival, u, device) == [Do(victim, DoRefresh, 0), Do(victim, DoDetach, 0)] + begin;
  }

  lemma DefeatCostsAnAttempt(s: State, victim: CallId, rival: CallId, u: UserId, device: Device, attempt: nat)
    requires Struggles(s, victim, rival, device, attempt) && attempt < MAX_CLAIM_ATTEMPTS
    requires u != s.calls[victim].user
    ensures var t := Exec(s, DefeatBy(victim, rival, u, device));
            && Struggles(t, victim, rival + 1, device, attempt + 1)
            && t.calls[victim].user == s.calls[victim].user && t.calls.Keys == s.calls.Keys + {rival}
  {
    VictimDetaches(s, victim, rival, device, attempt);
    RivalAttaches(Step(Step(s, Do(victim, DoRefresh, 0)), Do(victim, DoDetach, 0)), rival, u, device);
    DefeatIsSevenSteps(s, victim, rival, u, device);
    VictimLoses(Taken(s, victim, rival, u, device), victim, rival, u, device, attempt);
  }

  lemma VictimLoses(s: State, victim: CallId, rival: CallId, u: UserId, device: Device, attempt: nat)
    requires victim in s.calls && s.calls[victim].device.token == device.token && u != s.calls[victim].user
    requires s.calls[victim].place.Attaching? && s.calls[victim].place.attempt == attempt < MAX_CLAIM_ATTEMPTS
    requires forall v :: Lists(s.docs, v, device.token) <==> v == u
    requires forall c :: c in s.calls ==> c < rival + 1
    ensures var t := Step(s, Do(victim, DoAttach, 0));
            && Struggles(t, victim, rival + 1, device, attempt + 1)
            && t.calls[victim].user == s.calls[victim].user && t.calls.Keys == s.calls.Keys
  {
    assert Lists(s.docs, u, device.token);
    assert ListedElsewhere(s.docs, s.calls[victim].user, device.token);
  }

  lemma {:induction false} DefeatsAddUp(
    s: State, victim: CallId, rival: CallId, u: UserId, device: Device, attempt: nat, n: nat)
    requires Struggles(s, victim, rival, device, attempt) && attempt + n <= MAX_CLAIM_ATTEMPTS
    requires u != s.calls[victim].user
    ensures var t := Exec(s, Defeats(victim, rival, u, device, n));
            && Struggles(t, victim, rival + n, device, attempt + n)
            && |t.calls| == |s.calls| + n
    decreases n
  {
    if n > 0 {
      var t := Exec(s, DefeatBy(victim, rival, u, device));
      DefeatCostsAnAttempt(s, victim, rival, u, device, attempt);
      DefeatsAddUp(t, victim, rival + 1, u, device, attempt + 1, n - 1);
      ExecSplits(s, DefeatBy(victim, rival, u, device), Defeats(victim, rival + 1, u, device, n - 1));
    }
  }

  /** Five calls of another user are enough to make a call fail for contention. */
  lemma FiveRivalsSuffice(owner: UserId, other: UserId, device: Device)
    requires owner != other
    ensures var schedule := [Begin(0, owner, device)] + Defeats(0, 1, other, device, MAX_CLAIM_ATTEMPTS);
            var s := Exec(State(map[], map[], map[]), schedule);
            && |s.calls| == 1 + MAX_CLAIM_ATTEMPTS
            && 0 in s.calls && s.calls[0].place.Contended?
  {
    var empty := State(map[], map[], map[]);
    var rest := Defeats(0, 1, other, device, MAX_CLAIM_ATTEMPTS);
    var begun := Step(empty, Begin(0, owner, device));
    ExecCons(empty, Begin(0, owner, device), rest);
    assert begun.calls.Keys == {0};
    DefeatsAddUp(begun, 0, 1, other, device, 0, MAX_CLAIM_ATTEMPTS);
  }

  lemma ExecPair(s: State, a: Action, b: Action, rest: seq<Action>)
    ensures Exec(s, [a, b] + rest) == Exec(Step(Step(s, a), b), rest)
  {
    assert ([a, b] + rest)[1..] == [b] + rest;
    assert ([b] + rest)[1..] == rest;
  }

  // ------------------------------------------------------------- the repository itself

  /** One atomic write of another caller. */
  datatype Write =
    | PushWrite(user: UserId, device: Device)
    | RefreshWrite(user: UserId, device: Device)
    | DetachWrite(user: UserId, token: Token)
    | RemoveWrite(user: UserId, token: Token)
    | PruneWrite(tokens: set<Token>)

  function Apply(docs: Docs, w: Write): Docs {
    match w
    case PushWrite(u, device) =>
      (match Attach(docs, u, device)
       case Some(after) => after
       case None => docs)
    case RefreshWrite(u, device) =>
      (match Refresh(docs, u, device)
       case Some(after) => after
       case None => docs)
    case DetachWrite(u, t) => Detach(docs, u, t)
    case RemoveWrite(u, t) => Remove(docs, u, t)
    case PruneWrite(tokens) => Prune(docs, tokens)
  }

  function ApplyAll(docs: Docs, writes: seq<Write>): Docs {
    if writes == [] then docs else Apply(ApplyAll(docs, writes[..|writes| - 1]), writes[|writes| - 1])
  }

  lemma WriteLists(docs: Docs, w: Write, u: UserId, t: Token)
    ensures Lists(Apply(docs, w), u, t) ==>
              Lists(docs, u, t) || (w.PushWrite? && w.user == u && w.device.token == t)
  {
    match w
    case PushWrite(v, device) =>
      if !ListedElsewhere(docs, v, device.token) { AttachLists(docs, v, device, u, t); }
    case RefreshWrite(v, device) =>
      if Lists(docs, v, device.token) { RefreshKeepsLists(docs, v, device, u, t); }
    case DetachWrite(v, x) => DetachLists(docs, v, x, u, t);
    case RemoveWrite(v, x) => RemoveLists(docs, v, x, u, t);
    case PruneWrite(tokens) => PruneLists(docs, tokens, u, t);
  }

  lemma WriteKeepsOneOwner(docs: Docs, w: Write)
    requires OneOwner(docs)
    ensures OneOwner(Apply(docs, w))
  {
    if w.PushWrite? {
      if !ListedElsewhere(docs, w.user, w.device.token) { AttachKeepsOneOwner(docs, w.user, w.device); }
    } else {
      forall u, t ensures Lists(Apply(docs, w), u, t) ==> Lists(docs, u, t) { WriteLists(docs, w, u, t); }
    }
  }

  /** Some other user pushes the token among these writes. */
  predicate RivalIn(writes: seq<Write>, u: UserId, t: Token) {
    exists i :: 0 <= i < |writes| && writes[i].PushWrite? && writes[i].user != u && writes[i].device.token == t
  }

  lemma {:induction false} OnlyRivalsTakeOver(docs: Docs, writes: seq<Write>, u: UserId, t: Token)
    requires !ListedElsewhere(docs, u, t)
    ensures ListedElsewhere(ApplyAll(docs, writes), u, t) ==> RivalIn(writes, u, t)
  {
    if writes != [] {
      var n := |writes| - 1;
      var before := ApplyAll(docs, writes[..n]);
      OnlyRivalsTakeOver(docs, writes[..n], u, t);
      if ListedElsewhere(before, u, t) {
        var i :| 0 <= i < n && writes[..n][i].PushWrite? && writes[..n][i].user != u && writes[..n][i].device.token == t;
        assert writes[i] == writes[..n][i];
      } else if v :| v in Apply(before, writes[n]) && v != u && HasToken(Apply(before, writes[n])[v], t) {
        WriteLists(before, writes[n], v, t);
        assert Lists(Apply(before, writes[n]), v, t) && !Lists(before, v, t);
      }
    }
  }

  /** What the others write around the three operations of one attempt. */
  datatype Window = Window(beforeRefresh: seq<Write>, beforeDetach: seq<Write>, beforeAttach: seq<Write>)

  predicate Quiet(w: Window) {
    w.beforeRefresh == [] && w.beforeDetach == [] && w.beforeAttach == []
  }

  /** The users whose document differs. */
  function Changed(before: Docs, after: Docs): set<UserId> {
    set u | u in before && u in after && after[u] != before[u]
  }

  class NotificationPreferenceRepository {
    var docs: Docs

    ghost predicate Valid() reads this { OneOwner(docs) }

    constructor ()
      ensures Valid() && docs == map[]
    {
      docs := map[];
    }

    method Interfere(writes: seq<Write>)
      requires Valid()
      modifies this
      ensures Valid() && docs == ApplyAll(old(docs), writes)
    {
      for i := 0 to |writes|
        invariant Valid() && docs == ApplyAll(old(docs), writes[..i])
      {
        WriteKeepsOneOwner(docs, writes[i]);
        docs := Apply(docs, writes[i]);
        assert writes[..i + 1][..i] == writes[..i];
      }
      assert writes[..|writes|] == writes;
    }

    /**
     * One attempt. It can only fail if another user pushes the token between the
     * detach and the attach.
     */
    method Attempt(user: UserId, device: Device, window: Window) returns (registered: bool)
      requires Valid()
      modifies this
      ensures Valid()
      ensures registered ==> Lists(docs, user, device.token) && !ListedElsewhere(docs, user, device.token)
      ensures !registered ==> RivalIn(window.beforeAttach, user, device.token)
      ensures Quiet(window) ==> registered && docs == Registered(old(docs), user, device)
    {
      Interfere(window.beforeRefresh);
      var refreshed := Refresh(docs, user, device);
      if refreshed.Some? {
        RefreshMakesOwner(docs, user, device);
        docs := refreshed.value;
        return true;
      }
      Interfere(window.beforeDetach);
      DetachShrinks(docs, user, device.token);
      docs := Detach(docs, user, device.token);
      OnlyRivalsTakeOver(docs, window.beforeAttach, user, device.token);
      Interfere(window.beforeAttach);
      var attached := Attach(docs, user, device);
      if attached.None? { return false; }
      AttachMakesOwner(docs, user, device);
      docs := attached.value;
      return true;
    }

    /**
     * Registers a device amid the writes of others. If it reports contention, every
     * attempt met a rival that took the token; undisturbed, it refreshes the entry the
     * user has, or takes the token from whoever has it.
     */
    method RegisterDevice(user: UserId, device: Device, windows: seq<Window>) returns (registered: bool)
      requires Valid() && |windows| == MAX_CLAIM_ATTEMPTS
      modifies this
      ensures Valid()
      ensures registered ==> Lists(docs, user, device.token) && !ListedElsewhere(docs, user, device.token)
      ensures !registered ==>
                forall i :: 0 <= i < |windows| ==> RivalIn(windows[i].beforeAttach, user, device.token)
      ensures Quiet(windows[0]) ==> registered && docs == Registered(old(docs), user, device)
    {
      for attempt := 0 to MAX_CLAIM_ATTEMPTS
        invariant Valid()
        invariant forall i :: 0 <= i < attempt ==> RivalIn(windows[i].beforeAttach, user, device.token)
        invariant attempt == 0 ==> docs == old(docs)
        invariant Quiet(windows[0]) ==> attempt == 0
      {
        registered := Attempt(user, device, windows[attempt]);
        if registered { return; }
      }
      return false;
    }

    method RemoveDevice(user: UserId, token: Token)
      requires Valid()
      modifies this
      ensures Valid() && docs == Remove(old(docs), user, token)
      ensures forall u, t :: Lists(docs, u, t) <==> Lists(old(docs), u, t) && !(u == user && t == token)
    {
      forall u, t ensures Lists(Remove(docs, user, token), u, t) <==> Lists(docs, u, t) && !(u == user && t == token) {
        RemoveLists(docs, user, token, u, t);
      }
      docs := Remove(docs, user, token);
    }

    /** Drops the tokens everywhere and returns the number of documents it changed. */
    method PruneTokens(tokens: set<Token>) returns (modified: nat)
      requires Valid()
      modifies this
      ensures Valid() && docs == Prune(old(docs), tokens)
      ensures forall u, t :: Lists(docs, u, t) <==> Lists(old(docs), u, t) && t !in tokens
      ensures modified == |Changed(old(docs), docs)|
    {
      forall u, t ensures Lists(Prune(docs, tokens), u, t) <==> Lists(docs, u, t) && t !in tokens {
        PruneLists(docs, tokens, u, t);
      }
      if tokens == {} {
        PruningNothing(docs);
        return 0;
      }
      var after := Prune(docs, tokens);
      modified := |Changed(docs, after)|;
      docs := after;
    }
  }

  lemma {:induction false} PullingNothing(devices: seq<Device>)
    ensures Pull(devices, {}) == devices
  {
    if devices != [] { PullingNothing(devices[1..]); }
  }

  lemma PruningNothing(docs: Docs)
    ensures Prune(docs, {}) == docs && Changed(docs, docs) == {}
  {
    forall v | v in docs ensures Prune(docs, {})[v] == docs[v] { PullingNothing(docs[v]); }
  }

  /** What an undisturbed registration leaves. */
  function Registered(docs: Docs, u: UserId, device: Device): Docs {
    if Lists(docs, u, device.token) then docs[u := Touch(docs[u], device)]
    else
      var detached := Detach(docs, u, device.token);
      detached[u := (if u in detached then detached[u] else []) + [device]]
  }

  lemma RefreshMakesOwner(docs: Docs, u: UserId, device: Device)
    requires OneOwner(docs) && Lists(docs, u, device.token)
    ensures var after := Refresh(docs, u, device).value;
            OneOwner(after) && Lists(after, u, device.token) && !ListedElsewhere(after, u, device.token)
  {
    var after := Refresh(docs, u, device).value;
    RefreshShrinks(docs, u, device);
    RefreshKeepsLists(docs, u, device, u, device.token);
    assert OneOwner(after);
    if v :| v in after && v != u && HasToken(after[v], device.token) {
      assert Lists(after, v, device.token);
    }
  }

  lemma AttachMakesOwner(docs: Docs, u: UserId, device: Device)
    requires OneOwner(docs) && !ListedElsewhere(docs, u, device.token)
    ensures var after := Attach(docs, u, device).value;
            OneOwner(after) && Lists(after, u, device.token) && !ListedElsewhere(after, u, device.token)
  {
    var after := Attach(docs, u, device).value;
    AttachKeepsOneOwner(docs, u, device);
    AttachLists(docs, u, device, u, device.token);
    if v :| v in after && v != u && HasToken(after[v], device.token) {
      assert Lists(after, v, device.token);
    }
  }
}

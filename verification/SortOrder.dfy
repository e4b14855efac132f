/** The `sort` parameter: comma-separated fields, a leading minus for descending order. */
module SortOrder {
  import opened Common
  import opened Text

  datatype Key = Key(field: string, descending: bool)

  /** One piece between commas; a blank one names nothing. */
  function ParseToken(token: string): Option<Key> {
    var trimmed := Trim(token);
    if trimmed == "" then None
    else if trimmed[0] == '-' then Some(Key(trimmed[1..], true))
    else Some(Key(trimmed, false))
  }

  predicate Mentions(token: string, field: string) {
    ParseToken(token).Some? && ParseToken(token).value.field == field
  }

  /** Assignment to a property: an existing one keeps its place, a new one goes last. */
  function Put(sort: seq<Key>, key: Key): seq<Key> {
    if sort == [] then [key]
    else if sort[0].field == key.field then [key] + sort[1..]
    else [sort[0]] + Put(sort[1..], key)
  }

  /** The sort object after these tokens, its properties in order. */
  function Collect(tokens: seq<string>): seq<Key> {
    if tokens == [] then []
    else
      var n := |tokens| - 1;
      match ParseToken(tokens[n])
      case None => Collect(tokens[..n])
      case Some(key) => Put(Collect(tokens[..n]), key)
  }

  // ------------------------------------------------------------ what the object says

  function DirectionOf(sort: seq<Key>, field: string): Option<bool> {
    if sort == [] then None
    else if sort[0].field == field then Some(sort[0].descending)
    else DirectionOf(sort[1..], field)
  }

  /** The direction in the last token that names the field. */
  function LastDirection(tokens: seq<string>, field: string): Option<bool> {
    if tokens == [] then None
    else
      var n := |tokens| - 1;
      if Mentions(tokens[n], field) then Some(ParseToken(tokens[n]).value.descending)
      else LastDirection(tokens[..n], field)
  }

  /** The position of the first token that names the field, or the number of tokens. */
  function FirstMention(tokens: seq<string>, field: string): (at: nat)
    ensures at <= |tokens|
  {
    if tokens == [] then 0
    else
      var n := |tokens| - 1;
      var before := FirstMention(tokens[..n], field);
      if before < n || Mentions(tokens[n], field) then before else n + 1
  }

  lemma {:induction false} PutUpdates(sort: seq<Key>, key: Key, field: string)
    ensures DirectionOf(Put(sort, key), field)
         == if field == key.field then Some(key.descending) else DirectionOf(sort, field)
  {
    if sort != [] && sort[0].field != key.field {
      PutUpdates(sort[1..], key, field);
      assert ([sort[0]] + Put(sort[1..], key))[1..] == Put(sort[1..], key);
    } else if sort != [] {
      assert ([key] + sort[1..])[1..] == sort[1..];
    }
  }

  /** A field keeps its place, or is new and last. */
  lemma {:induction false} PutPlaces(sort: seq<Key>, key: Key)
    ensures |sort| <= |Put(sort, key)| <= |sort| + 1
    ensures forall i :: 0 <= i < |sort| ==> Put(sort, key)[i].field == sort[i].field
    ensures |Put(sort, key)| == |sort| ==> exists i :: 0 <= i < |sort| && sort[i].field == key.field
    ensures |Put(sort, key)| == |sort| + 1 ==>
              && Put(sort, key) == sort + [key]
              && forall i :: 0 <= i < |sort| ==> sort[i].field != key.field
  {
    if sort != [] && sort[0].field != key.field {
      var rest := sort[1..];
      PutPlaces(rest, key);
      forall i | 0 < i < |sort| ensures sort[i] == rest[i - 1] {}
      if i :| 0 <= i < |rest| && rest[i].field == key.field { assert sort[i + 1].field == key.field; }
    }
  }

  /** Each field has the direction of its last mention. */
  lemma {:induction false} LastDirectionWins(tokens: seq<string>, field: string)
    ensures DirectionOf(Collect(tokens), field) == LastDirection(tokens, field)
  {
    if tokens != [] {
      var n := |tokens| - 1;
      LastDirectionWins(tokens[..n], field);
      match ParseToken(tokens[n])
      case None =>
      case Some(key) => PutUpdates(Collect(tokens[..n]), key, field);
    }
  }

  /** The fields of the object were named, and come in the order of their first mention. */
  lemma {:induction false} FirstMentionOrders(tokens: seq<string>)
    ensures forall i :: 0 <= i < |Collect(tokens)| ==> FirstMention(tokens, Collect(tokens)[i].field) < |tokens|
    ensures forall i, j :: 0 <= i < j < |Collect(tokens)| ==>
              FirstMention(tokens, Collect(tokens)[i].field) < FirstMention(tokens, Collect(tokens)[j].field)
  {
    if tokens != [] {
      var n := |tokens| - 1;
      FirstMentionOrders(tokens[..n]);
      match ParseToken(tokens[n])
      case None =>
      case Some(key) =>
        PutPlaces(Collect(tokens[..n]), key);
        if |Collect(tokens)| > |Collect(tokens[..n])| {
          NoDirection(Collect(tokens[..n]), key.field);
          UnseenField(tokens[..n], key.field);
        }
    }
  }

  lemma {:induction false} UnseenField(tokens: seq<string>, field: string)
    requires DirectionOf(Collect(tokens), field) == None
    ensures FirstMention(tokens, field) == |tokens|
  {
    if tokens != [] {
      var n := |tokens| - 1;
      match ParseToken(tokens[n])
      case None => UnseenField(tokens[..n], field);
      case Some(key) =>
        PutUpdates(Collect(tokens[..n]), key, field);
        UnseenField(tokens[..n], field);
    }
  }

  lemma {:induction false} NoDirection(sort: seq<Key>, field: string)
    requires forall i :: 0 <= i < |sort| ==> sort[i].field != field
    ensures DirectionOf(sort, field) == None
  {
    if sort != [] { NoDirection(sort[1..], field); }
  }

  // --------------------------------------------------------------------- the parser

  /** The token names a field that must not be sorted by. */
  predicate Refused(token: string, sortable: seq<string>) {
    ParseToken(token).Some? && ParseToken(token).value.field !in sortable
  }

  /** Token i is the first that is refused, and this is its field. */
  ghost predicate FirstRefused(tokens: seq<string>, sortable: seq<string>, i: nat, field: string) {
    && i < |tokens| && Refused(tokens[i], sortable) && ParseToken(tokens[i]).value.field == field
    && forall j :: 0 <= j < i ==> !Refused(tokens[j], sortable)
  }

  ghost predicate AllSortable(tokens: seq<string>, sortable: seq<string>) {
    forall i :: 0 <= i < |tokens| ==> !Refused(tokens[i], sortable)
  }

  method CollectTokens(tokens: seq<string>, sortable: seq<string>) returns (keys: Result<seq<Key>, string>)
    ensures keys.Ok? ==> AllSortable(tokens, sortable) && keys.value == Collect(tokens)
    ensures keys.Err? ==> exists i: nat :: FirstRefused(tokens, sortable, i, keys.error)
  {
    var sort: seq<Key> := [];
    for i := 0 to |tokens|
      invariant sort == Collect(tokens[..i]) && AllSortable(tokens[..i], sortable)
    {
      assert tokens[..i + 1][..i] == tokens[..i];
      var parsed := ParseToken(tokens[i]);
      if parsed.Some? {
        if parsed.value.field !in sortable {
          assert FirstRefused(tokens, sortable, i, parsed.value.field);
          return Err(parsed.value.field);
        }
        sort := Put(sort, parsed.value);
      }
    }
    assert tokens[..|tokens|] == tokens;
    return Ok(sort);
  }

  /**
   * Fails at the first field that is not sortable. Otherwise the answer is the object the
   * tokens build, or the fallback if they name nothing.
   */
  method ParseSort(text: string, sortable: seq<string>, fallback: seq<Key>) returns (sort: Result<seq<Key>, string>)
    ensures sort.Ok? ==>
              && AllSortable(Split(text, ','), sortable)
              && sort.value == if Collect(Split(text, ',')) == [] then fallback else Collect(Split(text, ','))
    ensures sort.Err? ==> exists i: nat :: FirstRefused(Split(text, ','), sortable, i, sort.error)
  {
    sort := CollectTokens(Split(text, ','), sortable);
    if sort == Ok([]) { return Ok(fallback); }
  }

  // --------------------------------------------------------------------- round trip

  function Print(key: Key): string {
    (if key.descending then "-" else "") + key.field
  }

  function PrintAll(sort: seq<Key>): seq<string> {
    seq(|sort|, i requires 0 <= i < |sort| => Print(sort[i]))
  }

  /** The key survives trimming and splitting, and an ascending one is not taken for descending. */
  predicate Printable(key: Key) {
    && ',' !in key.field
    && Print(key) != "" && IsTrimmed(Print(key))
    && (key.descending || key.field[0] != '-')
  }

  lemma PrintedTokenParses(key: Key)
    requires Printable(key)
    ensures ParseToken(Print(key)) == Some(key)
  {
    TrimUnpads("", Print(key), "");
    assert "" + Print(key) + "" == Print(key);
    if key.descending {
      assert Print(key)[0] == '-' && Print(key)[1..] == key.field;
    } else {
      assert Print(key) == key.field;
    }
  }

  lemma {:induction false} CollectRecovers(sort: seq<Key>)
    requires forall i :: 0 <= i < |sort| ==> Printable(sort[i])
    requires forall i, j :: 0 <= i < j < |sort| ==> sort[i].field != sort[j].field
    ensures Collect(PrintAll(sort)) == sort
  {
    if sort != [] {
      var n := |sort| - 1;
      CollectRecovers(sort[..n]);
      assert PrintAll(sort)[..n] == PrintAll(sort[..n]);
      PrintedTokenParses(sort[n]);
      PutPlaces(sort[..n], sort[n]);
      assert sort[..n] + [sort[n]] == sort;
    }
  }

  /** Parsing recovers a printed sort order: the same fields, directions and precedence. */
  lemma ParseUndoesPrint(sort: seq<Key>)
    requires sort != [] && forall i :: 0 <= i < |sort| ==> Printable(sort[i])
    requires forall i, j :: 0 <= i < j < |sort| ==> sort[i].field != sort[j].field
    ensures Collect(Split(Join(PrintAll(sort), ','), ',')) == sort
  {
    forall i | 0 <= i < |sort| ensures ',' !in PrintAll(sort)[i] {
      assert Printable(sort[i]);
    }
    SplitUndoesJoin(PrintAll(sort), ',');
    CollectRecovers(sort);
  }
}

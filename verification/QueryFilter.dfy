/**
 * Query-string filters: literal search patterns, whitelisted field conditions, and the
 * flattening of the combined filter.
 */
module QueryFilter {
  import opened Common
  import opened Filters
  import opened Text
  import SortOrder

  // ------------------------------------------------------------------ search patterns

  predicate IsMeta(c: char) {
    c in ".*+?^${}()|[]\\"
  }

  function EscapeRegExp(s: string): string {
    if s == [] then []
    else (if IsMeta(s[0]) then ['\\', s[0]] else [s[0]]) + EscapeRegExp(s[1..])
  }

  /**
   * The characters a pattern stands for, if it consists of literals only: a character
   * that is no metacharacter, or a metacharacter behind a backslash. None for any other
   * pattern.
   */
  function LiteralText(pattern: string): Option<string>
    decreases |pattern|
  {
    if pattern == [] then Some([])
    else if pattern[0] == '\\' then
      if |pattern| < 2 || !IsMeta(pattern[1]) then None
      else
        match LiteralText(pattern[2..])
        case None => None
        case Some(rest) => Some([pattern[1]] + rest)
    else if IsMeta(pattern[0]) then None
    else
      match LiteralText(pattern[1..])
      case None => None
      case Some(rest) => Some([pattern[0]] + rest)
  }

  /** `fold` is the case folding of the case-insensitive flag. */
  type Folding = char -> char

  predicate MatchesAt(literal: string, text: string, at: nat, fold: Folding) {
    at + |literal| <= |text| && forall i :: 0 <= i < |literal| ==> fold(literal[i]) == fold(text[at + i])
  }

  /** A literal pattern is found in a text if it matches at some position. */
  ghost predicate RegexFinds(pattern: string, text: string, fold: Folding) {
    match LiteralText(pattern)
    case None => false
    case Some(literal) => exists at: nat :: MatchesAt(literal, text, at, fold)
  }

  function FoldAll(s: string, fold: Folding): string {
    seq(|s|, i requires 0 <= i < |s| => fold(s[i]))
  }

  /** `part` occurs in `whole`. */
  ghost predicate Contains(whole: string, part: string) {
    exists before, after :: whole == before + part + after
  }

  lemma {:induction false} EscapedIsLiteral(s: string)
    ensures LiteralText(EscapeRegExp(s)) == Some(s)
  {
    if s != [] {
      var rest := EscapeRegExp(s[1..]);
      EscapedIsLiteral(s[1..]);
      if IsMeta(s[0]) {
        assert (['\\', s[0]] + rest)[2..] == rest;
      } else {
        assert ([s[0]] + rest)[1..] == rest;
      }
      assert [s[0]] + s[1..] == s;
    }
  }

  /** Without escaping a term stands for itself only if it has no metacharacter. */
  lemma {:induction false} EscapingIsNeeded(s: string)
    ensures LiteralText(s) == Some(s) <==> forall i :: 0 <= i < |s| ==> !IsMeta(s[i])
    ensures LiteralText(s).Some? ==> |LiteralText(s).value| <= |s|
    decreases |s|
  {
    if s != [] {
      if s[0] == '\\' {
        if |s| >= 2 && IsMeta(s[1]) {
          EscapingIsNeeded(s[2..]);
        }
      } else if !IsMeta(s[0]) {
        EscapingIsNeeded(s[1..]);
        assert [s[0]] + s[1..] == s;
        if LiteralText(s) == Some(s) { assert LiteralText(s).value[1..] == s[1..]; }
      }
    }
  }

  lemma MatchMeansContains(term: string, text: string, at: nat, fold: Folding)
    requires MatchesAt(term, text, at, fold)
    ensures Contains(FoldAll(text, fold), FoldAll(term, fold))
  {
    var whole, part := FoldAll(text, fold), FoldAll(term, fold);
    var before, after := whole[..at], whole[at + |term|..];
    assert whole == before + part + after;
  }

  lemma ContainsMeansMatch(term: string, text: string, before: string, after: string, fold: Folding)
    requires FoldAll(text, fold) == before + FoldAll(term, fold) + after
    ensures MatchesAt(term, text, |before|, fold)
  {
    var whole, part := FoldAll(text, fold), FoldAll(term, fold);
    assert |whole| == |before| + |part| + |after|;
    forall i | 0 <= i < |term| ensures fold(term[i]) == fold(text[|before| + i]) {
      assert (before + part + after)[|before| + i] == part[i];
      assert whole[|before| + i] == fold(text[|before| + i]);
    }
  }

  /** The escaped term finds exactly the texts that contain it literally, case aside. */
  lemma SearchIsLiteral(term: string, text: string, fold: Folding)
    ensures RegexFinds(EscapeRegExp(term), text, fold) <==> Contains(FoldAll(text, fold), FoldAll(term, fold))
  {
    EscapedIsLiteral(term);
    if at: nat :| MatchesAt(term, text, at, fold) {
      MatchMeansContains(term, text, at, fold);
    }
    if Contains(FoldAll(text, fold), FoldAll(term, fold)) {
      var before, after :| FoldAll(text, fold) == before + FoldAll(term, fold) + after;
      ContainsMeansMatch(term, text, before, after, fold);
    }
  }

  // ------------------------------------------------------------------- query options

  datatype FieldType = StringField | NumberField | BooleanField | DateField | ObjectIdField

  /** A raw parameter: a string, an object of operator entries, or anything else. */
  datatype Raw = Str(text: string) | Obj(entries: seq<(string, RawOperand)>) | OtherRaw

  datatype RawOperand = StrOperand(text: string) | OtherOperand

  datatype QueryError =
    | Malformed(field: string)
    | UnsupportedOperator(operator: string, field: string)
    | UnsupportedFormat(field: string)
    | SearchNotString
    | SortNotString
    | CannotSortBy(field: string)
    | NotPositiveInteger(field: string)

  /** Conversion of a raw string to the declared type; None if it is malformed. */
  type Coercion = (string, FieldType) -> Option<Value>

  function ParseOperator(name: string): Option<Operator> {
    match name
    case "eq" => Some(Eq)
    case "ne" => Some(Ne)
    case "gt" => Some(Gt)
    case "gte" => Some(Gte)
    case "lt" => Some(Lt)
    case "lte" => Some(Lte)
    case "in" => Some(In)
    case "nin" => Some(Nin)
    case _ => None
  }

  /** The non-blank entries of a comma-separated list. */
  function ListEntries(entries: seq<string>): seq<string> {
    if entries == [] then []
    else (if Trim(entries[0]) == "" then [] else [Trim(entries[0])]) + ListEntries(entries[1..])
  }

  function CoerceAll(texts: seq<string>, t: FieldType, coerce: Coercion): Option<seq<Value>> {
    if texts == [] then Some([])
    else
      match (coerce(texts[0], t), CoerceAll(texts[1..], t, coerce))
      case (Some(v), Some(vs)) => Some([v] + vs)
      case _ => None
  }

  function CoerceOperand(op: Operator, text: string, t: FieldType, coerce: Coercion): Option<Operand> {
    if op == In || op == Nin then
      match CoerceAll(ListEntries(Split(text, ',')), t, coerce)
      case Some(vs) => Some(Many(vs))
      case None => None
    else
      match coerce(text, t)
      case Some(v) => Some(One(v))
      case None => None
  }

  /** One operator entry of a field. */
  function ParseEntry(entry: (string, RawOperand), field: string, t: FieldType, coerce: Coercion)
    : Result<(Operator, Operand), QueryError>
  {
    match ParseOperator(entry.0)
    case None => Err(UnsupportedOperator(entry.0, field))
    case Some(op) =>
      match entry.1
      case OtherOperand => Err(Malformed(field))
      case StrOperand(text) =>
        match CoerceOperand(op, text, t, coerce)
        case None => Err(Malformed(field))
        case Some(operand) => Ok((op, operand))
  }

  const DEFAULT_PAGE: nat := 1
  const DEFAULT_LIMIT: nat := 20
  const DEFAULT_MAX_LIMIT: nat := 100
  const DEFAULT_SORT := [SortOrder.Key("createdAt", true)]

  datatype Config = Config(
    sortableFields: seq<string>, filterableFields: seq<(string, FieldType)>, searchableFields: seq<string>,
    defaultSort: Option<seq<SortOrder.Key>>, defaultLimit: Option<nat>, maxLimit: Option<nat>)

  /** Entry i says `op` with this operand, and no later one says `op`. */
  ghost predicate IsLastTest(
    entries: seq<(string, RawOperand)>, i: nat, field: string, t: FieldType, coerce: Coercion,
    op: Operator, operand: Operand)
  {
    && i < |entries| && ParseEntry(entries[i], field, t, coerce) == Ok((op, operand))
    && forall j :: i < j < |entries| ==> !SaysOperator(entries[j], field, t, coerce, op)
  }

  predicate SaysOperator(entry: (string, RawOperand), field: string, t: FieldType, coerce: Coercion, op: Operator) {
    var parsed := ParseEntry(entry, field, t, coerce);
    parsed.Ok? && parsed.value.0 == op
  }

  /** Every entry has a reading, and each operator named has the operand of its last entry. */
  ghost predicate IsTests(
    entries: seq<(string, RawOperand)>, field: string, t: FieldType, coerce: Coercion, tests: map<Operator, Operand>)
  {
    && (forall op :: op in tests ==> exists i: nat :: IsLastTest(entries, i, field, t, coerce, op, tests[op]))
    && (forall i :: 0 <= i < |entries| ==>
         ParseEntry(entries[i], field, t, coerce).Ok? &&
         ParseEntry(entries[i], field, t, coerce).value.0 in tests)
  }

  /** The condition one raw parameter puts on a field, if any. */
  ghost predicate IsCondition(raw: Raw, field: string, t: FieldType, coerce: Coercion, c: Condition) {
    match raw
    case Str(text) => c.Equals? && coerce(text, t) == Some(c.value)
    case Obj(entries) => c.Compare? && IsTests(entries, field, t, coerce, c.tests)
    case OtherRaw => false
  }

  /** The parameter is absent, empty, or an object without entries. */
  predicate Ignored(query: map<string, Raw>, field: string) {
    field !in query || query[field] == Str("") || query[field] == Obj([])
  }

  ghost predicate Declares(config: Config, field: string, t: FieldType) {
    exists i :: 0 <= i < |config.filterableFields| && config.filterableFields[i] == (field, t)
  }

  ghost predicate DistinctFields(config: Config) {
    forall i, j :: 0 <= i < j < |config.filterableFields| ==>
      config.filterableFields[i].0 != config.filterableFields[j].0
  }

  lemma TestsGrow(
    entries: seq<(string, RawOperand)>, entry: (string, RawOperand), field: string, t: FieldType, coerce: Coercion,
    tests: map<Operator, Operand>, op: Operator, operand: Operand)
    requires IsTests(entries, field, t, coerce, tests)
    requires ParseEntry(entry, field, t, coerce) == Ok((op, operand))
    ensures IsTests(entries + [entry], field, t, coerce, tests[op := operand])
  {
    var longer, grown := entries + [entry], tests[op := operand];
    assert IsLastTest(longer, |entries|, field, t, coerce, op, operand);
    forall o | o in tests && o != op ensures exists i: nat :: IsLastTest(longer, i, field, t, coerce, o, tests[o]) {
      var i: nat :| IsLastTest(entries, i, field, t, coerce, o, tests[o]);
      assert IsLastTest(longer, i, field, t, coerce, o, tests[o]);
    }
  }

  /** Entry i is the first without a reading, and this is its error. */
  ghost predicate IsFirstBadEntry(
    entries: seq<(string, RawOperand)>, i: nat, field: string, t: FieldType, coerce: Coercion, e: QueryError)
  {
    && i < |entries| && ParseEntry(entries[i], field, t, coerce) == Err(e)
    && forall j :: 0 <= j < i ==> ParseEntry(entries[j], field, t, coerce).Ok?
  }

  lemma PrefixReadable(
    entries: seq<(string, RawOperand)>, i: nat, field: string, t: FieldType, coerce: Coercion,
    tests: map<Operator, Operand>)
    requires i <= |entries| && IsTests(entries[..i], field, t, coerce, tests)
    ensures forall j :: 0 <= j < i ==> ParseEntry(entries[j], field, t, coerce).Ok?
  {
    forall j | 0 <= j < i ensures ParseEntry(entries[j], field, t, coerce).Ok? {
      assert entries[..i][j] == entries[j];
    }
  }

  /** One operator object; later entries with the same operator win. */
  method BuildConditions(entries: seq<(string, RawOperand)>, field: string, t: FieldType, coerce: Coercion)
    returns (result: Result<Condition, QueryError>)
    ensures result.Ok? ==> IsCondition(Obj(entries), field, t, coerce, result.value)
    ensures result.Err? <==> exists i :: 0 <= i < |entries| && ParseEntry(entries[i], field, t, coerce).Err?
    ensures result.Err? ==> exists i: nat :: IsFirstBadEntry(entries, i, field, t, coerce, result.error)
  {
    var tests: map<Operator, Operand> := map[];
    for i := 0 to |entries|
      invariant IsTests(entries[..i], field, t, coerce, tests)
    {
      var parsed := ParseEntry(entries[i], field, t, coerce);
      if parsed.Err? {
        PrefixReadable(entries, i, field, t, coerce, tests);
        assert IsFirstBadEntry(entries, i, field, t, coerce, parsed.error);
        return Err(parsed.error);
      }
      TestsGrow(entries[..i], entries[i], field, t, coerce, tests, parsed.value.0, parsed.value.1);
      tests := tests[parsed.value.0 := parsed.value.1];
      assert entries[..i + 1] == entries[..i] + [entries[i]];
    }
    assert entries[..|entries|] == entries;
    return Ok(Compare(tests));
  }

  /** The filter has a condition for exactly the declared fields supplied, and each says what its parameter says. */
  ghost predicate SaysQuery(f: Filter, query: map<string, Raw>, config: Config, coerce: Coercion) {
    && f.conj == Absent && f.disj == Absent
    && (forall k :: k in f.fields ==>
         exists t :: Declares(config, k, t) && !Ignored(query, k) && IsCondition(query[k], k, t, coerce, f.fields[k]))
    && (forall k, t :: Declares(config, k, t) && !Ignored(query, k) ==> k in f.fields)
  }

  /** The field is supplied and has no reading as a condition. */
  ghost predicate NoReading(query: map<string, Raw>, k: string, t: FieldType, coerce: Coercion) {
    !Ignored(query, k) && !exists c :: IsCondition(query[k], k, t, coerce, c)
  }

  ghost predicate BadField(query: map<string, Raw>, config: Config, coerce: Coercion) {
    exists k, t :: Declares(config, k, t) && NoReading(query, k, t, coerce)
  }

  /** What is wrong with a field that has no reading; of an object it is the first bad entry. */
  ghost predicate IsErrorOf(raw: Raw, k: string, t: FieldType, coerce: Coercion, e: QueryError) {
    match raw
    case Str(_) => e == Malformed(k)
    case Obj(entries) => exists i: nat :: IsFirstBadEntry(entries, i, k, t, coerce, e)
    case OtherRaw => e == UnsupportedFormat(k)
  }

  /** Declared field i is the first without a reading, and this is its error. */
  ghost predicate IsFirstBadField(
    query: map<string, Raw>, config: Config, coerce: Coercion, i: nat, e: QueryError)
  {
    && i < |config.filterableFields|
    && var (k, t) := config.filterableFields[i];
       && NoReading(query, k, t, coerce) && IsErrorOf(query[k], k, t, coerce, e)
       && AllReadable(query, config.filterableFields[..i], coerce)
  }

  ghost predicate AllReadable(query: map<string, Raw>, fields: seq<(string, FieldType)>, coerce: Coercion) {
    forall j :: 0 <= j < |fields| ==> !NoReading(query, fields[j].0, fields[j].1, coerce)
  }

  /** The error of the first declared field without a reading. */
  ghost predicate IsFieldError(e: QueryError, query: map<string, Raw>, config: Config, coerce: Coercion) {
    exists i: nat :: IsFirstBadField(query, config, coerce, i, e)
  }

  /** What `SaysQuery` says, of the fields declared so far. */
  ghost predicate SaysFields(
    fields: map<string, Condition>, query: map<string, Raw>, declared: seq<(string, FieldType)>, coerce: Coercion)
  {
    && (forall k :: k in fields ==> IsSaid(fields[k], query, declared, coerce, k))
    && (forall j :: 0 <= j < |declared| && !Ignored(query, declared[j].0) ==> declared[j].0 in fields)
  }

  ghost predicate IsSaid(
    c: Condition, query: map<string, Raw>, declared: seq<(string, FieldType)>, coerce: Coercion, k: string)
  {
    !Ignored(query, k) && exists t :: (k, t) in declared && IsCondition(query[k], k, t, coerce, c)
  }

  lemma FieldsGrow(
    fields: map<string, Condition>, query: map<string, Raw>, declared: seq<(string, FieldType)>, coerce: Coercion,
    k: string, t: FieldType, c: Option<Condition>)
    requires SaysFields(fields, query, declared, coerce)
    requires if c.Some? then !Ignored(query, k) && IsCondition(query[k], k, t, coerce, c.value) else Ignored(query, k)
    ensures SaysFields(if c.Some? then fields[k := c.value] else fields, query, declared + [(k, t)], coerce)
  {
    var longer := declared + [(k, t)];
    assert longer[|declared|] == (k, t);
    forall f, cond | f in fields && cond == fields[f] ensures IsSaid(cond, query, longer, coerce, f) {
      var u :| (f, u) in declared && IsCondition(query[f], f, u, coerce, cond);
      assert (f, u) in longer;
    }
    if c.Some? { assert (k, t) in longer && IsSaid(c.value, query, longer, coerce, k); }
  }

  lemma ReadableGrows(query: map<string, Raw>, declared: seq<(string, FieldType)>, coerce: Coercion, i: nat)
    requires i < |declared| && AllReadable(query, declared[..i], coerce)
    requires !NoReading(query, declared[i].0, declared[i].1, coerce)
    ensures AllReadable(query, declared[..i + 1], coerce)
  {
    assert declared[..i + 1] == declared[..i] + [declared[i]];
  }

  lemma AllFieldsSaid(fields: map<string, Condition>, query: map<string, Raw>, config: Config, coerce: Coercion)
    requires SaysFields(fields, query, config.filterableFields, coerce)
    ensures SaysQuery(Filter(fields, Absent, Absent), query, config, coerce)
  {
    forall k | k in fields
      ensures exists t :: Declares(config, k, t) && !Ignored(query, k) && IsCondition(query[k], k, t, coerce, fields[k])
    {
      assert IsSaid(fields[k], query, config.filterableFields, coerce, k);
      var t :| (k, t) in config.filterableFields && IsCondition(query[k], k, t, coerce, fields[k]);
      assert Declares(config, k, t);
    }
  }

  lemma UnreadableIsBad(query: map<string, Raw>, config: Config, coerce: Coercion, i: nat)
    requires i < |config.filterableFields|
    requires NoReading(query, config.filterableFields[i].0, config.filterableFields[i].1, coerce)
    ensures BadField(query, config, coerce)
  {
    var (k, t) := config.filterableFields[i];
    assert Declares(config, k, t);
  }

  /** The filter of the whitelisted parameters; it fails exactly at the first that has no reading. */
  method BuildFilter(query: map<string, Raw>, config: Config, coerce: Coercion)
    returns (result: Result<Filter, QueryError>)
    requires DistinctFields(config)
    ensures result.Ok? ==> SaysQuery(result.value, query, config, coerce)
    ensures result.Err? <==> BadField(query, config, coerce)
    ensures result.Err? ==> IsFieldError(result.error, query, config, coerce)
  {
    var declared := config.filterableFields;
    var fields: map<string, Condition> := map[];
    for i := 0 to |declared|
      invariant SaysFields(fields, query, declared[..i], coerce)
      invariant AllReadable(query, declared[..i], coerce)
    {
      var (field, t) := declared[i];
      var condition := ReadField(query, field, t, coerce);
      if condition.Err? {
        assert IsFirstBadField(query, config, coerce, i, condition.error);
        UnreadableIsBad(query, config, coerce, i);
        return Err(condition.error);
      }
      FieldsGrow(fields, query, declared[..i], coerce, field, t, condition.value);
      ReadableGrows(query, declared, coerce, i);
      assert declared[..i + 1] == declared[..i] + [(field, t)];
      if condition.value.Some? { fields := fields[field := condition.value.value]; }
    }
    assert declared[..|declared|] == declared;
    AllFieldsSaid(fields, query, config, coerce);
    result := Ok(Filter(fields, Absent, Absent));
    SaidMeansReadable(result.value, query, config, coerce);
  }

  /** The condition one field contributes, if it contributes any. */
  method ReadField(query: map<string, Raw>, field: string, t: FieldType, coerce: Coercion)
    returns (result: Result<Option<Condition>, QueryError>)
    ensures result == Ok(None) <==> Ignored(query, field)
    ensures result.Err? <==> NoReading(query, field, t, coerce)
    ensures result.Err? ==> IsErrorOf(query[field], field, t, coerce, result.error)
    ensures result.Ok? && result.value.Some? ==>
              !Ignored(query, field) && IsCondition(query[field], field, t, coerce, result.value.value)
  {
    if field !in query || query[field] == Str("") { return Ok(None); }
    match query[field]
    case Str(text) =>
      var value := coerce(text, t);
      if value.None? { return Err(Malformed(field)); }
      assert IsCondition(query[field], field, t, coerce, Equals(value.value));
      return Ok(Some(Equals(value.value)));
    case Obj(entries) =>
      var condition := BuildConditions(entries, field, t, coerce);
      if condition.Err? { return Err(condition.error); }
      if entries == [] { return Ok(None); }
      return Ok(Some(condition.value));
    case OtherRaw =>
      return Err(UnsupportedFormat(field));
  }

  lemma SaidMeansReadable(f: Filter, query: map<string, Raw>, config: Config, coerce: Coercion)
    requires DistinctFields(config) && SaysQuery(f, query, config, coerce)
    ensures !BadField(query, config, coerce)
  {
    forall k, t | Declares(config, k, t) && !Ignored(query, k) ensures exists c :: IsCondition(query[k], k, t, coerce, c) {
      var u :| Declares(config, k, u) && !Ignored(query, k) && IsCondition(query[k], k, u, coerce, f.fields[k]);
      assert t == u;
    }
  }

  /** The disjunction behind a search: the literal pattern on each searchable field. */
  function SearchClause(fields: seq<string>, term: string): Filter {
    Filter(map[], Absent, Present(seq(|fields|, i requires 0 <= i < |fields| =>
      Filter(map[fields[i] := Pattern(EscapeRegExp(term))], Absent, Absent))))
  }

  /** What `buildQueryOptions` hands on: field conditions, alone or next to a search. */
  ghost predicate IsOptionsFilter(f: Filter, fields: seq<string>) {
    || (f.conj == Absent && f.disj == Absent)
    || (f.fields == map[] && f.disj == Absent && f.conj.Present? && |f.conj.parts| == 2
        && f.conj.parts[0].conj == Absent && f.conj.parts[0].disj == Absent
        && exists term :: term != "" && f.conj.parts[1] == SearchClause(fields, term))
  }

  lemma OptionsFilterLosesNothing(f: Filter, fields: seq<string>, k: string, c: Condition, entry: Filter)
    requires IsOptionsFilter(f, fields)
    ensures !Loses(f, k, c) && !LosesEntry(f, entry)
  {
    if f.conj.Present? {
      var parts := f.conj.parts;
      var rest := f.(conj := Absent);
      assert parts[1..][1..] == [] && parts[1..][0] == parts[1];
      assert AssignAll(Assign(rest, parts[0]), parts[1..]) == Assign(Assign(rest, parts[0]), parts[1]);
      assert FlattenQueryFilter(f) == Filter(parts[0].fields, Absent, parts[1].disj);
      assert Merged(f) == [rest, parts[0], parts[1]];
    }
  }

  /** On every filter the middleware builds, flattening selects the same documents. */
  lemma OptionsFilterFlattens<Doc>(f: Filter, fields: seq<string>, doc: Doc, test: Test<Doc>)
    requires IsOptionsFilter(f, fields)
    ensures Selects(FlattenQueryFilter(f), doc, test) <==> Selects(f, doc, test)
  {
    FlatteningSplits(f, doc, test);
    forall k, c ensures !Loses(f, k, c) { OptionsFilterLosesNothing(f, fields, k, c, f); }
    forall entry ensures !LosesEntry(f, entry) { OptionsFilterLosesNothing(f, fields, "", Equals(0), entry); }
  }

  /** A search selects the documents with a searchable field that contains the term, case aside. */
  lemma SearchSelects<Doc>(
    fields: seq<string>, term: string, doc: Doc, text: string -> string, fold: Folding, test: Test<Doc>)
    requires forall k, r :: test(doc, k, Pattern(r)) <==> RegexFinds(r, text(k), fold)
    ensures Selects(SearchClause(fields, term), doc, test) <==>
            exists k :: k in fields && Contains(FoldAll(text(k), fold), FoldAll(term, fold))
  {
    var parts := SearchClause(fields, term).disj.parts;
    forall i | 0 <= i < |fields|
      ensures Selects(parts[i], doc, test) <==> Contains(FoldAll(text(fields[i]), fold), FoldAll(term, fold))
    {
      SearchIsLiteral(term, text(fields[i]), fold);
      assert parts[i].fields == map[fields[i] := Pattern(EscapeRegExp(term))];
      if test(doc, fields[i], Pattern(EscapeRegExp(term))) {
        forall k | k in parts[i].fields ensures test(doc, k, parts[i].fields[k]) {}
      } else {
        assert fields[i] in parts[i].fields;
      }
    }
    if k :| k in fields && Contains(FoldAll(text(k), fold), FoldAll(term, fold)) {
      var i :| 0 <= i < |fields| && fields[i] == k;
      assert Selects(parts[i], doc, test);
    }
  }

  /** Conversion of a string to a finite number; None if it is none. */
  type ToNumber = string -> Option<real>

  function ParsePositiveInt(query: map<string, Raw>, field: string, fallback: nat, toNumber: ToNumber): Option<nat> {
    if field !in query || query[field] == Str("") then Some(fallback)
    else if !query[field].Str? then None
    else
      match toNumber(query[field].text)
      case None => None
      case Some(r) => if r.Floor as real == r && r >= 1.0 then Some(r.Floor) else None
  }

  datatype Options = Options(page: nat, limit: nat, skip: nat, sort: seq<SortOrder.Key>, filter: Filter)

  /** The search term asked for, if there is anything to search for and in. */
  function SearchTerm(query: map<string, Raw>, config: Config): Option<string> {
    if "search" in query && config.searchableFields != [] && query["search"].Str? && Trim(query["search"].text) != ""
    then Some(Trim(query["search"].text)) else None
  }

  /** The search, if there is one and anything to search in, is a string. */
  predicate SearchFine(query: map<string, Raw>, config: Config) {
    "search" in query && config.searchableFields != [] ==> query["search"].Str?
  }

  /** What the filter of a request says: its fields, and the search if there is one. */
  ghost predicate SaysRequest(f: Filter, query: map<string, Raw>, config: Config, coerce: Coercion) {
    match SearchTerm(query, config)
    case None => SaysQuery(f, query, config, coerce)
    case Some(term) =>
      && f.fields == map[] && f.disj == Absent && f.conj.Present? && |f.conj.parts| == 2
      && SaysQuery(f.conj.parts[0], query, config, coerce)
      && f.conj.parts[1] == SearchClause(config.searchableFields, term)
  }

  lemma RequestFilterIsOptions(f: Filter, query: map<string, Raw>, config: Config, coerce: Coercion)
    requires SaysRequest(f, query, config, coerce)
    ensures IsOptionsFilter(f, config.searchableFields)
  {
    if SearchTerm(query, config).Some? {
      assert f.conj.parts[1] == SearchClause(config.searchableFields, SearchTerm(query, config).value);
    }
  }

  /** The `$and` of the fields and the search, or the fields alone. */
  method BuildCombinedFilter(query: map<string, Raw>, config: Config, coerce: Coercion)
    returns (result: Result<Filter, QueryError>)
    requires DistinctFields(config)
    ensures result.Ok? ==> SaysRequest(result.value, query, config, coerce)
    ensures result.Ok? <==> !BadField(query, config, coerce) && SearchFine(query, config)
    ensures result.Err? ==>
              if BadField(query, config, coerce) then IsFieldError(result.error, query, config, coerce)
              else result.error == SearchNotString
  {
    var filter := BuildFilter(query, config, coerce);
    if filter.Err? {
      return Err(filter.error);
    }
    if "search" !in query || query["search"] == Str("") || config.searchableFields == [] {
      TrimOfEmpty();
      return filter;
    }
    if !query["search"].Str? { return Err(SearchNotString); }
    var term := Trim(query["search"].text);
    if term == "" { return filter; }
    return Ok(Filter(map[], Present([filter.value, SearchClause(config.searchableFields, term)]), Absent));
  }

  predicate HasSort(query: map<string, Raw>) {
    "sort" in query && query["sort"] != Str("")
  }

  /** The sort, if there is one, is a string that names sortable fields only. */
  ghost predicate SortFine(query: map<string, Raw>, config: Config) {
    HasSort(query) ==>
      query["sort"].Str? && SortOrder.AllSortable(Split(query["sort"].text, ','), config.sortableFields)
  }

  /** The sort is no string, or this is the first field of it that is not sortable. */
  ghost predicate IsSortError(e: QueryError, query: map<string, Raw>, config: Config) {
    && HasSort(query)
    && if query["sort"].Str?
       then e.CannotSortBy? && exists i: nat ::
         SortOrder.FirstRefused(Split(query["sort"].text, ','), config.sortableFields, i, e.field)
       else e == SortNotString
  }

  method ParseSort(query: map<string, Raw>, config: Config) returns (sort: Result<seq<SortOrder.Key>, QueryError>)
    ensures sort.Ok? ==> SaysSort(sort.value, query, config)
    ensures sort.Ok? <==> SortFine(query, config)
    ensures sort.Err? ==> IsSortError(sort.error, query, config)
  {
    var fallback := Or(config.defaultSort, DEFAULT_SORT);
    if !HasSort(query) { return Ok(fallback); }
    if !query["sort"].Str? { return Err(SortNotString); }
    var parsed := SortOrder.ParseSort(query["sort"].text, config.sortableFields, fallback);
    match parsed
    case Ok(keys) => return Ok(keys);
    case Err(field) => return Err(CannotSortBy(field));
  }

  /** The keys the parameter names, all of them sortable, or the fallback if it names none. */
  ghost predicate SaysSort(sort: seq<SortOrder.Key>, query: map<string, Raw>, config: Config) {
    var fallback := Or(config.defaultSort, DEFAULT_SORT);
    if !HasSort(query) then sort == fallback
    else
      && query["sort"].Str?
      && var tokens := Split(query["sort"].text, ',');
         && SortOrder.AllSortable(tokens, config.sortableFields)
         && sort == if SortOrder.Collect(tokens) == [] then fallback else SortOrder.Collect(tokens)
  }

  predicate PageFine(query: map<string, Raw>, toNumber: ToNumber) {
    ParsePositiveInt(query, "page", DEFAULT_PAGE, toNumber).Some?
  }

  predicate LimitFine(query: map<string, Raw>, config: Config, toNumber: ToNumber) {
    ParsePositiveInt(query, "limit", Or(config.defaultLimit, DEFAULT_LIMIT), toNumber).Some?
  }

  /** The error is that of the first stage that fails: page, limit, fields, search, sort. */
  ghost predicate IsFirstError(
    e: QueryError, query: map<string, Raw>, config: Config, coerce: Coercion, toNumber: ToNumber)
  {
    if !PageFine(query, toNumber) then e == NotPositiveInteger("page")
    else if !LimitFine(query, config, toNumber) then e == NotPositiveInteger("limit")
    else if BadField(query, config, coerce) then IsFieldError(e, query, config, coerce)
    else if !SearchFine(query, config) then e == SearchNotString
    else IsSortError(e, query, config)
  }

  /**
   * The options of a request: the page asked for, a page size that is bounded rather than
   * refused, the items before the page skipped, and sort and filter as the query has them.
   * On the resulting filter flattening keeps the meaning.
   */
  method BuildQueryOptions(query: map<string, Raw>, config: Config, coerce: Coercion, toNumber: ToNumber)
    returns (result: Result<Options, QueryError>)
    requires DistinctFields(config)
    ensures result.Ok? ==>
              && Some(result.value.page) == ParsePositiveInt(query, "page", DEFAULT_PAGE, toNumber)
              && result.value.page >= 1
              && result.value.skip == (result.value.page - 1) * result.value.limit
    ensures result.Ok? ==>
              var requested := ParsePositiveInt(query, "limit", Or(config.defaultLimit, DEFAULT_LIMIT), toNumber);
              var bound := Or(config.maxLimit, DEFAULT_MAX_LIMIT);
              && requested.Some? && result.value.limit <= bound
              && result.value.limit <= requested.value && result.value.limit in {bound, requested.value}
    ensures result.Ok? ==> SaysSort(result.value.sort, query, config)
    ensures result.Ok? ==>
              && SaysRequest(result.value.filter, query, config, coerce)
              && IsOptionsFilter(result.value.filter, config.searchableFields)
    ensures result.Ok? <==>
              && PageFine(query, toNumber) && LimitFine(query, config, toNumber) && !BadField(query, config, coerce)
              && SearchFine(query, config) && SortFine(query, config)
    ensures result.Err? ==> IsFirstError(result.error, query, config, coerce, toNumber)
  {
    var maxLimit := Or(config.maxLimit, DEFAULT_MAX_LIMIT);
    var page := ParsePositiveInt(query, "page", DEFAULT_PAGE, toNumber);
    if page.None? { return Err(NotPositiveInteger("page")); }
    var requested := ParsePositiveInt(query, "limit", Or(config.defaultLimit, DEFAULT_LIMIT), toNumber);
    if requested.None? { return Err(NotPositiveInteger("limit")); }
    var limit := if requested.value < maxLimit then requested.value else maxLimit;
    var filter := BuildCombinedFilter(query, config, coerce);
    if filter.Err? { return Err(filter.error); }
    RequestFilterIsOptions(filter.value, query, config, coerce);
    var sort := ParseSort(query, config);
    if sort.Err? { return Err(sort.error); }
    SkipIsNatural(page.value, limit);
    return Ok(Options(page.value, limit, (page.value - 1) * limit, sort.value, filter.value));
  }

  lemma SkipIsNatural(page: nat, limit: nat)
    requires page >= 1
    ensures (page - 1) * limit >= 0
  {
  }

  lemma TrimOfEmpty()
    ensures Trim("") == ""
  {
  }
}

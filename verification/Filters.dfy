/** Query filters: what they select, and when flattening a combined filter keeps that. */
module Filters {
  import opened Common

  type Value = int

  datatype Operator = Eq | Ne | Gt | Gte | Lt | Lte | In | Nin

  datatype Operand = One(value: Value) | Many(values: seq<Value>)

  datatype Condition = Equals(value: Value) | Compare(tests: map<Operator, Operand>) | Pattern(regex: string)

  /**
   * A filter: conditions on fields, and the `$and` and `$or` entries. Operator keys start
   * with a dollar sign, which no field name does, so they are kept apart.
   */
  datatype Filter = Filter(fields: map<string, Condition>, conj: Parts, disj: Parts)

  datatype Parts = Absent | Present(parts: seq<Filter>)

  /** Does the document with these field values meet one condition? */
  type Test<!Doc> = (Doc, string, Condition) -> bool

  /** Which documents a filter selects. */
  ghost predicate Selects<Doc>(f: Filter, doc: Doc, test: Test<Doc>)
    decreases f
  {
    && (forall k :: k in f.fields ==> test(doc, k, f.fields[k]))
    && (match f.conj
        case Absent => true
        case Present(parts) => forall i :: 0 <= i < |parts| ==> Selects(parts[i], doc, test))
    && (match f.disj
        case Absent => true
        case Present(parts) => exists i :: 0 <= i < |parts| && Selects(parts[i], doc, test))
  }

  /** `Object.assign`: later entries replace earlier ones under the same key. */
  function Assign(into: Filter, from: Filter): Filter {
    Filter(into.fields + from.fields,
           if from.conj.Present? then from.conj else into.conj,
           if from.disj.Present? then from.disj else into.disj)
  }

  function AssignAll(into: Filter, parts: seq<Filter>): Filter
    decreases |parts|
  {
    if parts == [] then into else AssignAll(Assign(into, parts[0]), parts[1..])
  }

  function FlattenQueryFilter(f: Filter): Filter {
    match f.conj
    case Absent => f
    case Present(parts) => AssignAll(f.(conj := Absent), parts)
  }

  // ------------------------------------------------------------ what flattening loses

  /** The object left of `$and`, then the parts of `$and`: what flattening merges, in order. */
  function Merged(f: Filter): seq<Filter>
    requires f.conj.Present?
  {
    [f.(conj := Absent)] + f.conj.parts
  }

  /** A condition of some merged object that the flattened filter does not have under that key. */
  ghost predicate Loses(f: Filter, k: string, c: Condition) {
    && f.conj.Present?
    && (exists i :: 0 <= i < |Merged(f)| && HasCondition(Merged(f)[i], k, c))
    && !HasCondition(FlattenQueryFilter(f), k, c)
  }

  predicate HasCondition(f: Filter, k: string, c: Condition) {
    k in f.fields && f.fields[k] == c
  }

  function ConjOf(f: Filter): Filter { Filter(map[], f.conj, Absent) }

  function DisjOf(f: Filter): Filter { Filter(map[], Absent, f.disj) }

  /** An `$and` or `$or` entry of some merged object that another one replaces. */
  ghost predicate LosesEntry(f: Filter, entry: Filter) {
    && f.conj.Present?
    && exists i :: 0 <= i < |Merged(f)| && ReplacedIn(Merged(f)[i], FlattenQueryFilter(f), entry)
  }

  predicate ReplacedIn(part: Filter, flat: Filter, entry: Filter) {
    || (entry == ConjOf(part) && part.conj.Present? && part.conj != flat.conj)
    || (entry == DisjOf(part) && part.disj.Present? && part.disj != flat.disj)
  }

  /** A filter is its conditions and its two entries. */
  lemma SelectsByEntry<Doc>(f: Filter, doc: Doc, test: Test<Doc>)
    ensures Selects(f, doc, test) <==>
              && (forall k, c :: HasCondition(f, k, c) ==> test(doc, k, c))
              && Selects(ConjOf(f), doc, test) && Selects(DisjOf(f), doc, test)
  {
    if Selects(f, doc, test) {
      forall k, c | HasCondition(f, k, c) ensures test(doc, k, c) {}
    }
    if forall k, c :: HasCondition(f, k, c) ==> test(doc, k, c) {
      forall k | k in f.fields ensures test(doc, k, f.fields[k]) { assert HasCondition(f, k, f.fields[k]); }
    }
  }

  /** Where the entries of the merged object come from. */
  lemma {:induction false} AssignAllOrigins(into: Filter, parts: seq<Filter>, k: string)
    ensures var all, merged := [into] + parts, AssignAll(into, parts);
            && (k in merged.fields ==> exists i :: 0 <= i < |all| && HasCondition(all[i], k, merged.fields[k]))
            && (merged.conj.Present? ==> exists i :: 0 <= i < |all| && all[i].conj == merged.conj)
            && (merged.disj.Present? ==> exists i :: 0 <= i < |all| && all[i].disj == merged.disj)
            && (forall i :: 0 <= i < |all| ==> k in all[i].fields ==> k in merged.fields)
            && (forall i :: 0 <= i < |all| ==> all[i].conj.Present? ==> merged.conj.Present?)
            && (forall i :: 0 <= i < |all| ==> all[i].disj.Present? ==> merged.disj.Present?)
    decreases |parts|
  {
    var all, merged := [into] + parts, AssignAll(into, parts);
    if parts == [] {
      assert all[0] == into;
    } else {
      var next := Assign(into, parts[0]);
      var fewer := [next] + parts[1..];
      AssignAllOrigins(next, parts[1..], k);
      assert all[0] == into && all[1] == parts[0];
      assert forall i :: 2 <= i < |all| ==> all[i] == fewer[i - 1];
      if k in merged.fields {
        var i :| 0 <= i < |fewer| && HasCondition(fewer[i], k, merged.fields[k]);
        assert if i > 0 then all[i + 1] == fewer[i]
               else HasCondition(all[0], k, merged.fields[k]) || HasCondition(all[1], k, merged.fields[k]);
      }
      if merged.conj.Present? {
        var i :| 0 <= i < |fewer| && fewer[i].conj == merged.conj;
        assert if i > 0 then all[i + 1] == fewer[i] else all[0].conj == merged.conj || all[1].conj == merged.conj;
      }
      if merged.disj.Present? {
        var i :| 0 <= i < |fewer| && fewer[i].disj == merged.disj;
        assert if i > 0 then all[i + 1] == fewer[i] else all[0].disj == merged.disj || all[1].disj == merged.disj;
      }
      forall i | 0 <= i < |all|
        ensures k in all[i].fields ==> k in merged.fields
        ensures all[i].conj.Present? ==> merged.conj.Present?
        ensures all[i].disj.Present? ==> merged.disj.Present?
      {
        assert if i < 2 then fewer[0] == next else all[i] == fewer[i - 1];
      }
    }
  }

  lemma SelectsMerged<Doc>(f: Filter, doc: Doc, test: Test<Doc>)
    requires f.conj.Present?
    ensures Selects(f, doc, test) <==> forall i :: 0 <= i < |Merged(f)| ==> Selects(Merged(f)[i], doc, test)
  {
    var rest := f.(conj := Absent);
    assert Merged(f)[0] == rest;
    assert forall i :: 0 < i < |Merged(f)| ==> Merged(f)[i] == f.conj.parts[i - 1];
    if forall i :: 0 <= i < |Merged(f)| ==> Selects(Merged(f)[i], doc, test) {
      forall i | 0 <= i < |f.conj.parts| ensures Selects(f.conj.parts[i], doc, test) {
        assert f.conj.parts[i] == Merged(f)[i + 1];
      }
    }
  }

  /** What a selected document says of each merged object. */
  lemma MergedHolds<Doc>(f: Filter, doc: Doc, test: Test<Doc>, i: nat)
    requires f.conj.Present? && Selects(f, doc, test) && i < |Merged(f)|
    ensures forall k, c :: HasCondition(Merged(f)[i], k, c) ==> test(doc, k, c)
    ensures Selects(ConjOf(Merged(f)[i]), doc, test) && Selects(DisjOf(Merged(f)[i]), doc, test)
  {
    SelectsMerged(f, doc, test);
    SelectsByEntry(Merged(f)[i], doc, test);
  }

  lemma FlatConditionHolds<Doc>(f: Filter, doc: Doc, test: Test<Doc>, k: string, c: Condition)
    requires f.conj.Present? && Selects(f, doc, test) && HasCondition(FlattenQueryFilter(f), k, c)
    ensures test(doc, k, c)
  {
    AssignAllOrigins(f.(conj := Absent), f.conj.parts, k);
    var i :| 0 <= i < |Merged(f)| && HasCondition(Merged(f)[i], k, c);
    MergedHolds(f, doc, test, i);
  }

  lemma FlatEntriesHold<Doc>(f: Filter, doc: Doc, test: Test<Doc>)
    requires f.conj.Present? && Selects(f, doc, test)
    ensures Selects(ConjOf(FlattenQueryFilter(f)), doc, test) && Selects(DisjOf(FlattenQueryFilter(f)), doc, test)
  {
    var all, flat := Merged(f), FlattenQueryFilter(f);
    AssignAllOrigins(f.(conj := Absent), f.conj.parts, "");
    if flat.conj.Present? {
      var i :| 0 <= i < |all| && all[i].conj == flat.conj;
      MergedHolds(f, doc, test, i);
      assert ConjOf(flat) == ConjOf(all[i]);
    }
    if flat.disj.Present? {
      var i :| 0 <= i < |all| && all[i].disj == flat.disj;
      MergedHolds(f, doc, test, i);
      assert DisjOf(flat) == DisjOf(all[i]);
    }
  }

  lemma SelectedIsKept<Doc>(f: Filter, doc: Doc, test: Test<Doc>)
    requires f.conj.Present? && Selects(f, doc, test)
    ensures Selects(FlattenQueryFilter(f), doc, test)
    ensures forall k, c :: Loses(f, k, c) ==> test(doc, k, c)
    ensures forall entry :: LosesEntry(f, entry) ==> Selects(entry, doc, test)
  {
    forall k, c | HasCondition(FlattenQueryFilter(f), k, c) ensures test(doc, k, c) {
      FlatConditionHolds(f, doc, test, k, c);
    }
    FlatEntriesHold(f, doc, test);
    SelectsByEntry(FlattenQueryFilter(f), doc, test);
    forall k, c | Loses(f, k, c) ensures test(doc, k, c) {
      var i :| 0 <= i < |Merged(f)| && HasCondition(Merged(f)[i], k, c);
      MergedHolds(f, doc, test, i);
    }
    forall entry | LosesEntry(f, entry) ensures Selects(entry, doc, test) {
      var i :| 0 <= i < |Merged(f)| && ReplacedIn(Merged(f)[i], FlattenQueryFilter(f), entry);
      MergedHolds(f, doc, test, i);
    }
  }

  /** A merged object holds wherever the flattened filter and all it lost hold. */
  lemma NothingElseIsLost<Doc>(f: Filter, doc: Doc, test: Test<Doc>, i: nat)
    requires f.conj.Present? && i < |Merged(f)|
    requires Selects(FlattenQueryFilter(f), doc, test)
    requires forall k, c :: Loses(f, k, c) ==> test(doc, k, c)
    requires forall entry :: LosesEntry(f, entry) ==> Selects(entry, doc, test)
    ensures Selects(Merged(f)[i], doc, test)
  {
    var part, flat := Merged(f)[i], FlattenQueryFilter(f);
    SelectsByEntry(flat, doc, test);
    forall k, c | HasCondition(part, k, c) ensures test(doc, k, c) {
      assert HasCondition(flat, k, c) || Loses(f, k, c);
    }
    if part.conj == flat.conj {
      assert ConjOf(part) == ConjOf(flat);
    } else if part.conj.Present? {
      assert ReplacedIn(part, flat, ConjOf(part));
      assert LosesEntry(f, ConjOf(part));
    }
    if part.disj == flat.disj {
      assert DisjOf(part) == DisjOf(flat);
    } else if part.disj.Present? {
      assert ReplacedIn(part, flat, DisjOf(part));
      assert LosesEntry(f, DisjOf(part));
    }
    SelectsByEntry(part, doc, test);
  }

  /** The filter says what the flattened one says, and besides what flattening loses. */
  lemma FlatteningSplits<Doc>(f: Filter, doc: Doc, test: Test<Doc>)
    ensures Selects(f, doc, test) <==>
              && Selects(FlattenQueryFilter(f), doc, test)
              && (forall k, c :: Loses(f, k, c) ==> test(doc, k, c))
              && (forall entry :: LosesEntry(f, entry) ==> Selects(entry, doc, test))
  {
    if f.conj.Present? {
      if Selects(f, doc, test) {
        SelectedIsKept(f, doc, test);
      } else if
        && Selects(FlattenQueryFilter(f), doc, test)
        && (forall k, c :: Loses(f, k, c) ==> test(doc, k, c))
        && (forall entry :: LosesEntry(f, entry) ==> Selects(entry, doc, test))
      {
        SelectsMerged(f, doc, test);
        forall i | 0 <= i < |Merged(f)| ensures Selects(Merged(f)[i], doc, test) {
          NothingElseIsLost(f, doc, test, i);
        }
        assert false;
      }
    }
  }

  // ------------------------------------------------------- when flattening keeps the meaning

  /** Whatever the conditions mean: `test` is any reading of them. */
  ghost predicate KeepsMeaning<Doc(!new)>(f: Filter) {
    forall doc: Doc, test: Test<Doc> :: Selects(FlattenQueryFilter(f), doc, test) <==> Selects(f, doc, test)
  }

  /** The test every condition passes but this one. */
  function AllBut<Doc>(k: string, c: Condition): Test<Doc> {
    (doc: Doc, key: string, condition: Condition) => !(key == k && condition == c)
  }

  /** A filter that selects a document goes on to select one that passes at least the same tests. */
  lemma {:induction false} SelectsMonotone<A, B>(f: Filter, a: A, testA: Test<A>, b: B, testB: Test<B>)
    requires forall k, c :: testA(a, k, c) ==> testB(b, k, c)
    requires Selects(f, a, testA)
    ensures Selects(f, b, testB)
    decreases f
  {
    if f.conj.Present? {
      forall i | 0 <= i < |f.conj.parts| ensures Selects(f.conj.parts[i], b, testB) {
        SelectsMonotone(f.conj.parts[i], a, testA, b, testB);
      }
    }
    if f.disj.Present? {
      var i :| 0 <= i < |f.disj.parts| && Selects(f.disj.parts[i], a, testA);
      SelectsMonotone(f.disj.parts[i], a, testA, b, testB);
    }
  }

  ghost predicate Implies<Doc(!new)>(f: Filter, g: Filter) {
    forall doc: Doc, test: Test<Doc> :: Selects(f, doc, test) ==> Selects(g, doc, test)
  }

  /** The flattened filter still insists on the condition, through some other entry. */
  ghost predicate StillInsists<Doc>(f: Filter, k: string, c: Condition, some: Doc) {
    !Selects(FlattenQueryFilter(f), some, AllBut(k, c))
  }

  lemma InsistingImplies<Doc>(f: Filter, k: string, c: Condition, some: Doc, doc: Doc, test: Test<Doc>)
    requires StillInsists(f, k, c, some) && Selects(FlattenQueryFilter(f), doc, test)
    ensures test(doc, k, c)
  {
    if !test(doc, k, c) { SelectsMonotone(FlattenQueryFilter(f), doc, test, some, AllBut(k, c)); }
  }

  /**
   * Exactly when flattening keeps the meaning of a filter under every reading of the
   * conditions: each condition it loses is still insisted on when all other conditions hold,
   * and each `$and` or `$or` entry it loses follows from what is left.
   */
  lemma FlatteningExactly<Doc(!new)>(f: Filter, some: Doc)
    ensures KeepsMeaning<Doc>(f) <==>
              && (forall k, c :: Loses(f, k, c) ==> StillInsists(f, k, c, some))
              && (forall entry :: LosesEntry(f, entry) ==> Implies<Doc>(FlattenQueryFilter(f), entry))
  {
    if KeepsMeaning<Doc>(f) {
      forall k, c | Loses(f, k, c) ensures StillInsists(f, k, c, some) {
        FlatteningSplits(f, some, AllBut(k, c));
      }
      forall entry | LosesEntry(f, entry) ensures Implies<Doc>(FlattenQueryFilter(f), entry) {
        forall doc: Doc, test: Test<Doc> | Selects(FlattenQueryFilter(f), doc, test) ensures Selects(entry, doc, test) {
          FlatteningSplits(f, doc, test);
        }
      }
    } else {
      var doc, test: Test<Doc> :| Selects(FlattenQueryFilter(f), doc, test) != Selects(f, doc, test);
      FlatteningSplits(f, doc, test);
      forall k, c | Loses(f, k, c) && StillInsists(f, k, c, some) ensures test(doc, k, c) {
        InsistingImplies(f, k, c, some, doc, test);
      }
    }
  }

  // ------------------------------------------------------------------ filters on fields only

  predicate IsFlat(f: Filter) {
    f.conj == Absent && f.disj == Absent
  }

  /** No two of the objects put different conditions under one key. */
  ghost predicate Agree(parts: seq<Filter>) {
    forall i, j, k :: 0 <= i < |parts| && 0 <= j < |parts| && k in parts[i].fields && k in parts[j].fields ==>
      parts[i].fields[k] == parts[j].fields[k]
  }

  lemma {:induction false} FlatPartsStayFlat(into: Filter, parts: seq<Filter>)
    requires IsFlat(into) && forall i :: 0 <= i < |parts| ==> IsFlat(parts[i])
    ensures IsFlat(AssignAll(into, parts))
    decreases |parts|
  {
    if parts != [] { FlatPartsStayFlat(Assign(into, parts[0]), parts[1..]); }
  }

  /** The objects left of and under `$and` have conditions on fields only. */
  predicate OnlyFields(f: Filter) {
    f.conj.Present? && f.disj == Absent && forall i :: 0 <= i < |f.conj.parts| ==> IsFlat(f.conj.parts[i])
  }

  lemma OnlyFieldsLosesNoEntry(f: Filter, entry: Filter)
    requires OnlyFields(f)
    ensures !LosesEntry(f, entry)
  {
    assert forall i :: 0 < i < |Merged(f)| ==> Merged(f)[i] == f.conj.parts[i - 1];
  }

  lemma OnlyFieldsNeverInsists<Doc>(f: Filter, k: string, c: Condition, some: Doc)
    requires OnlyFields(f) && Loses(f, k, c)
    ensures !StillInsists(f, k, c, some)
  {
    var flat := FlattenQueryFilter(f);
    FlatPartsStayFlat(f.(conj := Absent), f.conj.parts);
    forall key | key in flat.fields ensures !(key == k && flat.fields[key] == c) {
      assert HasCondition(flat, key, flat.fields[key]);
    }
  }

  lemma AgreementLosesNothing(f: Filter, k: string, c: Condition)
    requires f.conj.Present? && Agree(Merged(f))
    ensures !Loses(f, k, c)
  {
    AssignAllOrigins(f.(conj := Absent), f.conj.parts, k);
  }

  lemma DisagreementLoses(f: Filter, i: nat, j: nat, k: string)
    requires f.conj.Present? && i < |Merged(f)| && j < |Merged(f)|
    requires k in Merged(f)[i].fields && k in Merged(f)[j].fields
    requires Merged(f)[i].fields[k] != Merged(f)[j].fields[k]
    ensures Loses(f, k, Merged(f)[i].fields[k]) || Loses(f, k, Merged(f)[j].fields[k])
  {
    assert HasCondition(Merged(f)[i], k, Merged(f)[i].fields[k]);
    assert HasCondition(Merged(f)[j], k, Merged(f)[j].fields[k]);
  }

  /**
   * For any number of objects with conditions on fields only: flattening keeps the meaning
   * under every reading of the conditions exactly if no key has two different conditions.
   */
  lemma FlatFlatteningExactly<Doc(!new)>(f: Filter, some: Doc)
    requires OnlyFields(f)
    ensures KeepsMeaning<Doc>(f) <==> Agree(Merged(f))
  {
    FlatteningExactly<Doc>(f, some);
    forall entry ensures !LosesEntry(f, entry) { OnlyFieldsLosesNoEntry(f, entry); }
    forall k, c | Loses(f, k, c) ensures !StillInsists(f, k, c, some) { OnlyFieldsNeverInsists(f, k, c, some); }
    if Agree(Merged(f)) {
      forall k, c ensures !Loses(f, k, c) { AgreementLosesNothing(f, k, c); }
    } else {
      var i, j, k :| 0 <= i < |Merged(f)| && 0 <= j < |Merged(f)| &&
                     k in Merged(f)[i].fields && k in Merged(f)[j].fields &&
                     Merged(f)[i].fields[k] != Merged(f)[j].fields[k];
      DisagreementLoses(f, i, j, k);
    }
  }

  // ------------------------------------------------------- with the meaning of conditions fixed

  /** The reading in which a condition on a field is a condition on the value of that field. */
  function On<V>(meets: (V, Condition) -> bool): Test<string -> V> {
    (doc: string -> V, k: string, c: Condition) => meets(doc(k), c)
  }

  ghost predicate KeepsMeaningOf<V(!new)>(f: Filter, meets: (V, Condition) -> bool) {
    forall doc: string -> V :: Selects(FlattenQueryFilter(f), doc, On(meets)) <==> Selects(f, doc, On(meets))
  }

  /** No value meets the condition. */
  ghost predicate Unmeetable<V(!new)>(c: Condition, meets: (V, Condition) -> bool) {
    forall v: V :: !meets(v, c)
  }

  ghost predicate SomeUnmeetable<V(!new)>(f: Filter, meets: (V, Condition) -> bool) {
    exists k :: k in f.fields && Unmeetable(f.fields[k], meets)
  }

  /** Whatever value meets the first condition meets the second. */
  ghost predicate Stronger<V(!new)>(kept: Condition, lost: Condition, meets: (V, Condition) -> bool) {
    forall v: V :: meets(v, kept) ==> meets(v, lost)
  }

  /** Each condition lost is weaker than the one that replaces it. */
  ghost predicate LosesOnlyWeaker<V(!new)>(f: Filter, meets: (V, Condition) -> bool) {
    forall k, c :: Loses(f, k, c) ==>
      k in FlattenQueryFilter(f).fields && Stronger(FlattenQueryFilter(f).fields[k], c, meets)
  }

  lemma LostKeyIsKept(f: Filter, k: string, c: Condition)
    requires Loses(f, k, c)
    ensures k in FlattenQueryFilter(f).fields
  {
    AssignAllOrigins(f.(conj := Absent), f.conj.parts, k);
  }

  ghost function Meeting<V(!new)>(c: Condition, meets: (V, Condition) -> bool): (v: V)
    requires !Unmeetable(c, meets)
    ensures meets(v, c)
  {
    var v :| meets(v, c);
    v
  }

  /** A document that meets every condition of a flat filter, with a value of choice under one key. */
  ghost function SelectedDocument<V(!new)>(f: Filter, meets: (V, Condition) -> bool, k: string, v: V)
    : (doc: string -> V)
    requires IsFlat(f) && !SomeUnmeetable(f, meets) && (k in f.fields ==> meets(v, f.fields[k]))
    ensures Selects(f, doc, On(meets)) && doc(k) == v
  {
    key => if key != k && key in f.fields then Meeting(f.fields[key], meets) else v
  }

  /**
   * Flattening loses the document that meets all that is left, but under this key only what
   * replaced the condition.
   */
  lemma CollisionLosesCondition<V(!new)>(f: Filter, meets: (V, Condition) -> bool, k: string, c: Condition, v: V)
    requires OnlyFields(f) && Loses(f, k, c) && !SomeUnmeetable(FlattenQueryFilter(f), meets)
    requires k in FlattenQueryFilter(f).fields && meets(v, FlattenQueryFilter(f).fields[k]) && !meets(v, c)
    ensures exists doc: string -> V ::
              doc(k) == v && Selects(FlattenQueryFilter(f), doc, On(meets)) && !Selects(f, doc, On(meets))
  {
    FlatPartsStayFlat(f.(conj := Absent), f.conj.parts);
    var doc := SelectedDocument(FlattenQueryFilter(f), meets, k, v);
    FlatteningSplits(f, doc, On(meets));
    assert !On(meets)(doc, k, c);
  }

  /**
   * For objects with conditions on fields only, and any meaning of the conditions:
   * flattening keeps the selected documents exactly if some condition that is left cannot
   * be met at all, or each condition lost is weaker than the one that replaced it.
   */
  lemma FlatteningExactlyFor<V(!new)>(f: Filter, meets: (V, Condition) -> bool)
    requires OnlyFields(f)
    ensures KeepsMeaningOf(f, meets) <==>
              SomeUnmeetable(FlattenQueryFilter(f), meets) || LosesOnlyWeaker(f, meets)
  {
    var flat := FlattenQueryFilter(f);
    if SomeUnmeetable(flat, meets) || LosesOnlyWeaker(f, meets) {
      forall doc: string -> V ensures Selects(flat, doc, On(meets)) <==> Selects(f, doc, On(meets)) {
        WeakerIsNoLoss(f, meets, doc);
      }
    } else {
      var k, c :| Loses(f, k, c) && !(k in flat.fields && Stronger(flat.fields[k], c, meets));
      LostKeyIsKept(f, k, c);
      var v: V :| meets(v, flat.fields[k]) && !meets(v, c);
      CollisionLosesCondition(f, meets, k, c, v);
    }
  }

  lemma WeakerIsNoLoss<V(!new)>(f: Filter, meets: (V, Condition) -> bool, doc: string -> V)
    requires OnlyFields(f)
    requires SomeUnmeetable(FlattenQueryFilter(f), meets) || LosesOnlyWeaker(f, meets)
    ensures Selects(FlattenQueryFilter(f), doc, On(meets)) <==> Selects(f, doc, On(meets))
  {
    var flat, test := FlattenQueryFilter(f), On(meets);
    FlatteningSplits(f, doc, test);
    if Selects(flat, doc, test) {
      forall k | k in flat.fields ensures !Unmeetable(flat.fields[k], meets) {
        assert test(doc, k, flat.fields[k]);
      }
      forall k, c | Loses(f, k, c) ensures test(doc, k, c) {
        assert test(doc, k, flat.fields[k]) && Stronger(flat.fields[k], c, meets);
      }
      forall entry ensures !LosesEntry(f, entry) { OnlyFieldsLosesNoEntry(f, entry); }
    }
  }

  /** Two different conditions under one key are harmless if the later one is the stronger. */
  lemma StrongerLaterIsHarmless<V(!new)>(field: string, weak: Condition, strong: Condition, meets: (V, Condition) -> bool)
    requires Stronger(strong, weak, meets)
    ensures var first, second := Filter(map[field := weak], Absent, Absent), Filter(map[field := strong], Absent, Absent);
            KeepsMeaningOf(Filter(map[], Present([first, second]), Absent), meets)
  {
    var first, second := Filter(map[field := weak], Absent, Absent), Filter(map[field := strong], Absent, Absent);
    var f := Filter(map[], Present([first, second]), Absent);
    var empty := Filter(map[], Absent, Absent);
    assert [first, second][1..] == [second] && [second][1..] == [];
    assert AssignAll(Assign(empty, first), [second]) == Assign(Assign(empty, first), second);
    assert FlattenQueryFilter(f).fields == map[field := strong];
    assert Merged(f) == [empty, first, second];
    forall k, c | Loses(f, k, c)
      ensures k in FlattenQueryFilter(f).fields && Stronger(FlattenQueryFilter(f).fields[k], c, meets)
    {
      assert HasCondition(FlattenQueryFilter(f), field, strong);
      assert k == field && c == weak;
    }
    FlatteningExactlyFor(f, meets);
  }
}

/** The search for the first index name in an explain plan. */
module PlanTree {
  import opened Common

  /** A JSON value; objects keep the order of their entries. */
  datatype Json =
    | Null
    | Bool(b: bool)
    | Number(n: real)
    | Text(s: string)
    | Array(items: seq<Json>)
    | Object(entries: seq<Entry>)

  datatype Entry = Entry(key: string, value: Json)

  /** The value under the last entry with this key. */
  function Lookup(entries: seq<Entry>, key: string): Option<Json> {
    if entries == [] then None
    else
      var last := entries[|entries| - 1];
      if last.key == key then Some(last.value) else Lookup(entries[..|entries| - 1], key)
  }

  /** The index name an object carries itself. */
  function OwnName(plan: Json): Option<string> {
    if !plan.Object? then None
    else
      match Lookup(plan.entries, "indexName")
      case Some(Text(s)) => Some(s)
      case _ => None
  }

  /** A found name counts only if it is not empty, as any string that is tested for truth. */
  predicate Truthy(found: Option<string>) {
    found.Some? && found.value != ""
  }

  function FindIndexName(plan: Json): Option<string>
    decreases plan, 1
  {
    match plan
    case Object(entries) => if OwnName(plan).Some? then OwnName(plan) else FindInEntries(entries)
    case Array(items) => FindInValues(items)
    case _ => None
  }

  /** The loop over the values of an object. */
  function FindInEntries(entries: seq<Entry>): Option<string>
    decreases entries, 0
  {
    if entries == [] then None
    else
      var found := FindInValue(entries[0].value);
      if Truthy(found) then found else FindInEntries(entries[1..])
  }

  /** The loop over the values of an array taken as an object. */
  function FindInValues(values: seq<Json>): Option<string>
    decreases values, 0
  {
    if values == [] then None
    else
      var found := FindInValue(values[0]);
      if Truthy(found) then found else FindInValues(values[1..])
  }

  /** One value: the items of an array, or an object. */
  function FindInValue(value: Json): Option<string>
    decreases value, 2
  {
    match value
    case Array(items) => FindInItems(items)
    case Object(_) => FindIndexName(value)
    case _ => None
  }

  /** The loop over the items of an array. */
  function FindInItems(items: seq<Json>): Option<string>
    decreases items, 0
  {
    if items == [] then None
    else
      var found := FindIndexName(items[0]);
      if Truthy(found) then found else FindInItems(items[1..])
  }

  // -------------------------------------------------------------- reference definition

  /**
   * The index names in depth-first preorder. An object with an index name of its own
   * contributes that name and nothing below it.
   */
  function Names(plan: Json): seq<string>
    decreases plan, 1
  {
    match plan
    case Object(entries) => if OwnName(plan).Some? then [OwnName(plan).value] else NamesOfEntries(entries)
    case Array(items) => NamesOfItems(items)
    case _ => []
  }

  function NamesOfEntries(entries: seq<Entry>): seq<string>
    decreases entries, 0
  {
    if entries == [] then [] else Names(entries[0].value) + NamesOfEntries(entries[1..])
  }

  function NamesOfItems(items: seq<Json>): seq<string>
    decreases items, 0
  {
    if items == [] then [] else Names(items[0]) + NamesOfItems(items[1..])
  }

  /** The first name that is not empty. */
  function FirstNonEmpty(names: seq<string>): Option<string> {
    if names == [] then None else if names[0] != "" then Some(names[0]) else FirstNonEmpty(names[1..])
  }

  lemma {:induction false} FirstOfSum(a: seq<string>, b: seq<string>)
    ensures FirstNonEmpty(a + b) == if FirstNonEmpty(a).Some? then FirstNonEmpty(a) else FirstNonEmpty(b)
  {
    if a == [] {
      assert a + b == b;
    } else {
      assert (a + b)[1..] == a[1..] + b;
      FirstOfSum(a[1..], b);
    }
  }

  lemma {:induction false} FirstNonEmptyIsTruthy(names: seq<string>)
    ensures FirstNonEmpty(names).Some? ==> Truthy(FirstNonEmpty(names))
  {
    if names != [] {
      FirstNonEmptyIsTruthy(names[1..]);
    }
  }

  /** What a caller that tests the answer for truth sees. */
  function Seen(found: Option<string>): Option<string> {
    if Truthy(found) then found else None
  }

  lemma {:induction false} FindSeesFirst(plan: Json)
    ensures Seen(FindIndexName(plan)) == FirstNonEmpty(Names(plan))
    ensures OwnName(plan).None? ==> FindIndexName(plan) == FirstNonEmpty(Names(plan))
    decreases plan, 1
  {
    FirstNonEmptyIsTruthy(Names(plan));
    match plan
    case Object(entries) => EntriesSeeFirst(entries);
    case Array(items) => ValuesSeeFirst(items);
    case _ =>
  }

  lemma {:induction false} EntriesSeeFirst(entries: seq<Entry>)
    ensures FindInEntries(entries) == FirstNonEmpty(NamesOfEntries(entries))
    decreases entries, 0
  {
    if entries != [] {
      ValueSeesFirst(entries[0].value);
      EntriesSeeFirst(entries[1..]);
      FirstOfSum(Names(entries[0].value), NamesOfEntries(entries[1..]));
    }
  }

  lemma {:induction false} ValuesSeeFirst(values: seq<Json>)
    ensures FindInValues(values) == FirstNonEmpty(NamesOfItems(values))
    decreases values, 0
  {
    if values != [] {
      ValueSeesFirst(values[0]);
      ValuesSeeFirst(values[1..]);
      FirstOfSum(Names(values[0]), NamesOfItems(values[1..]));
    }
  }

  lemma {:induction false} ValueSeesFirst(value: Json)
    ensures Seen(FindInValue(value)) == FirstNonEmpty(Names(value))
    decreases value, 2
  {
    FirstNonEmptyIsTruthy(Names(value));
    match value
    case Array(items) => ItemsSeeFirst(items);
    case Object(_) => FindSeesFirst(value);
    case _ =>
  }

  lemma {:induction false} ItemsSeeFirst(items: seq<Json>)
    ensures FindInItems(items) == FirstNonEmpty(NamesOfItems(items))
    decreases items, 0
  {
    if items != [] {
      FindSeesFirst(items[0]);
      ItemsSeeFirst(items[1..]);
      FirstOfSum(Names(items[0]), NamesOfItems(items[1..]));
    }
  }

  // -------------------------------------------------------------------- paths into a tree

  function Values(entries: seq<Entry>): (values: seq<Json>)
    ensures |values| == |entries|
    ensures forall i :: 0 <= i < |entries| ==> values[i] == entries[i].value
  {
    seq(|entries|, i requires 0 <= i < |entries| => entries[i].value)
  }

  function Children(plan: Json): seq<Json> {
    match plan
    case Object(entries) => Values(entries)
    case Array(items) => items
    case _ => []
  }

  /** The index name of the object this path leads to, if it leads to one that has a name. */
  function NameAt(plan: Json, path: seq<nat>): Option<string>
    decreases path
  {
    if path == [] then OwnName(plan)
    else if path[0] < |Children(plan)| then NameAt(Children(plan)[path[0]], path[1..])
    else None
  }

  /** Depth-first preorder: a prefix comes first, then the order of the children decides. */
  predicate Before(p: seq<nat>, q: seq<nat>)
    decreases p
  {
    q != [] && (p == [] || p[0] < q[0] || (p[0] == q[0] && Before(p[1..], q[1..])))
  }

  /** The path leads to a name, and no other path to a name comes before it. */
  ghost predicate FirstNamed(plan: Json, path: seq<nat>) {
    && NameAt(plan, path).Some?
    && forall q :: NameAt(plan, q).Some? ==> q == path || Before(path, q)
  }

  lemma {:induction false} NamesOfValues(entries: seq<Entry>)
    ensures NamesOfEntries(entries) == NamesOfItems(Values(entries))
  {
    if entries != [] {
      NamesOfValues(entries[1..]);
      assert Values(entries)[1..] == Values(entries[1..]);
    }
  }

  lemma NamesOfChildren(plan: Json)
    requires OwnName(plan).None?
    ensures Names(plan) == NamesOfItems(Children(plan))
  {
    if plan.Object? {
      NamesOfValues(plan.entries);
    }
  }

  /** The first item with names below it gives the first name. */
  lemma {:induction false} FirstNamedItem(items: seq<Json>) returns (i: nat)
    requires NamesOfItems(items) != []
    ensures i < |items| && Names(items[i]) != [] && Names(items[i])[0] == NamesOfItems(items)[0]
    ensures forall j :: 0 <= j < i ==> Names(items[j]) == []
  {
    if Names(items[0]) != [] {
      i := 0;
    } else {
      var rest := FirstNamedItem(items[1..]);
      i := rest + 1;
      assert forall j :: 0 < j < i ==> items[j] == items[1..][j - 1];
    }
  }

  lemma {:induction false} NamelessItem(items: seq<Json>, i: nat)
    requires NamesOfItems(items) == [] && i < |items|
    ensures Names(items[i]) == []
  {
    if i > 0 {
      NamelessItem(items[1..], i - 1);
    }
  }

  lemma {:induction false} NamelessHasNoPath(plan: Json, path: seq<nat>)
    requires Names(plan) == []
    ensures NameAt(plan, path).None?
    decreases path
  {
    NamesOfChildren(plan);
    if path != [] && path[0] < |Children(plan)| {
      NamelessItem(Children(plan), path[0]);
      NamelessHasNoPath(Children(plan)[path[0]], path[1..]);
    }
  }

  /** The list of names starts with the name at the first path to one. */
  lemma {:induction false} NamesStartAtFirstPath(plan: Json) returns (path: seq<nat>)
    requires Names(plan) != []
    ensures FirstNamed(plan, path) && NameAt(plan, path) == Some(Names(plan)[0])
    decreases plan
  {
    if OwnName(plan).Some? {
      path := [];
    } else {
      NamesOfChildren(plan);
      var children := Children(plan);
      var i := FirstNamedItem(children);
      var below := NamesStartAtFirstPath(children[i]);
      path := [i] + below;
      assert path[1..] == below;
      forall q | NameAt(plan, q).Some? ensures q == path || Before(path, q) {
        if q[0] < i {
          NamelessHasNoPath(children[q[0]], q[1..]);
        } else if q[0] == i && q[1..] == below {
          assert q == [q[0]] + q[1..];
        }
      }
    }
  }

  lemma {:induction false} BeforeIsOneWay(p: seq<nat>, q: seq<nat>)
    requires Before(p, q)
    ensures p != q && !Before(q, p)
    decreases p
  {
    if p != [] && p[0] == q[0] { BeforeIsOneWay(p[1..], q[1..]); }
  }

  /** The search finds something exactly if some path leads to a name, and then the first such name. */
  ghost predicate FindsFirst(plan: Json) {
    && (FindIndexName(plan).Some? <==> exists path :: NameAt(plan, path).Some?)
    && (FindIndexName(plan).Some? ==>
         exists path :: FirstNamed(plan, path) && NameAt(plan, path) == FindIndexName(plan))
  }

  lemma NamelessFindsFirst(plan: Json)
    requires Names(plan) == []
    ensures FindsFirst(plan)
  {
    FindSeesFirst(plan);
    forall path ensures NameAt(plan, path).None? { NamelessHasNoPath(plan, path); }
    assert NameAt(plan, []).None?;
  }

  /**
   * The search finds the name at the first path to one, in depth-first preorder, exactly if
   * the plan has no name at all, or its first name is not empty, or is that of the root.
   */
  lemma FindReturnsFirst(plan: Json)
    ensures FindsFirst(plan) <==> Names(plan) == [] || Names(plan)[0] != "" || OwnName(plan).Some?
  {
    FindSeesFirst(plan);
    if Names(plan) == [] {
      NamelessFindsFirst(plan);
    } else {
      var path := NamesStartAtFirstPath(plan);
      FirstNonEmptyIsTruthy(Names(plan));
      if FindsFirst(plan) && OwnName(plan).None? {
        var found :| FirstNamed(plan, found) && NameAt(plan, found) == FindIndexName(plan);
        if found != path { BeforeIsOneWay(path, found); }
      }
    }
  }

  /** An empty name hides behind a later one: the search goes on past it. */
  lemma EmptyNameIsSkipped(name: string)
    requires name != ""
    ensures var first := Object([Entry("indexName", Text(""))]);
            var second := Object([Entry("indexName", Text(name))]);
            && Names(Array([first, second])) == ["", name]
            && FindIndexName(Array([first, second])) == Some(name)
  {
    var first := Object([Entry("indexName", Text(""))]);
    var second := Object([Entry("indexName", Text(name))]);
    assert OwnName(first) == Some("") && OwnName(second) == Some(name);
    assert Names(first) == [""] && Names(second) == [name];
    var items := [first, second];
    assert items[1..] == [second] && items[1..][1..] == [];
    assert NamesOfItems(items) == Names(first) + NamesOfItems(items[1..]);
    assert NamesOfItems(items[1..]) == Names(second) + NamesOfItems([]);
    FindSeesFirst(Array(items));
    assert ["", name][1..] == [name];
  }
}

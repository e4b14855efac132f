/** A stable sort by a numeric key, as the language of the repository provides it. */
module StableSort {
  /** Insertion before every element whose key is not smaller. */
  function Insert<T>(x: T, sorted: seq<T>, key: T -> int): seq<T> {
    if sorted == [] || key(x) <= key(sorted[0]) then [x] + sorted
    else [sorted[0]] + Insert(x, sorted[1..], key)
  }

  function Sort<T>(s: seq<T>, key: T -> int): seq<T> {
    if s == [] then [] else Insert(s[0], Sort(s[1..], key), key)
  }

  ghost predicate IsSorted<T>(s: seq<T>, key: T -> int) {
    forall i, j :: 0 <= i < j < |s| ==> key(s[i]) <= key(s[j])
  }

  function Keep<T>(x: T, key: T -> int, k: int): seq<T> {
    if key(x) == k then [x] else []
  }

  /** The elements with key k, in order. */
  function WithKey<T>(s: seq<T>, key: T -> int, k: int): seq<T> {
    if s == [] then [] else Keep(s[0], key, k) + WithKey(s[1..], key, k)
  }

  lemma {:induction false} InsertPermutes<T>(x: T, sorted: seq<T>, key: T -> int)
    ensures multiset(Insert(x, sorted, key)) == multiset{x} + multiset(sorted)
  {
    if sorted != [] {
      assert sorted == [sorted[0]] + sorted[1..];
      InsertPermutes(x, sorted[1..], key);
    }
  }

  lemma {:induction false} InsertSorts<T>(x: T, sorted: seq<T>, key: T -> int)
    requires IsSorted(sorted, key)
    ensures IsSorted(Insert(x, sorted, key), key)
    ensures forall y :: y in Insert(x, sorted, key) ==> y == x || y in sorted
  {
    if sorted != [] && key(x) > key(sorted[0]) {
      var tail := Insert(x, sorted[1..], key);
      InsertSorts(x, sorted[1..], key);
      forall i | 0 <= i < |tail| ensures key(sorted[0]) <= key(tail[i]) {
        assert tail[i] in tail;
      }
    }
  }

  lemma WithKeyOfCons<T>(x: T, s: seq<T>, key: T -> int, k: int)
    ensures WithKey([x] + s, key, k) == Keep(x, key, k) + WithKey(s, key, k)
  {
    assert ([x] + s)[1..] == s;
  }

  lemma KeepsCommute<T>(x: T, y: T, rest: seq<T>, key: T -> int, k: int)
    requires key(x) != key(y)
    ensures Keep(x, key, k) + (Keep(y, key, k) + rest) == Keep(y, key, k) + (Keep(x, key, k) + rest)
  {
    assert Keep(x, key, k) == [] || Keep(y, key, k) == [];
  }

  lemma {:induction false} InsertIsStable<T>(x: T, sorted: seq<T>, key: T -> int, k: int)
    ensures WithKey(Insert(x, sorted, key), key, k) == Keep(x, key, k) + WithKey(sorted, key, k)
  {
    if sorted == [] || key(x) <= key(sorted[0]) {
      WithKeyOfCons(x, sorted, key, k);
    } else {
      InsertIsStable(x, sorted[1..], key, k);
      WithKeyOfCons(sorted[0], Insert(x, sorted[1..], key), key, k);
      KeepsCommute(x, sorted[0], WithKey(sorted[1..], key, k), key, k);
    }
  }

  /** The result holds the same elements. */
  lemma {:induction false} SortPermutes<T>(s: seq<T>, key: T -> int)
    ensures multiset(Sort(s, key)) == multiset(s)
  {
    if s != [] {
      assert s == [s[0]] + s[1..];
      SortPermutes(s[1..], key);
      InsertPermutes(s[0], Sort(s[1..], key), key);
    }
  }

  /** The result is in order. */
  lemma {:induction false} SortSorts<T>(s: seq<T>, key: T -> int)
    ensures IsSorted(Sort(s, key), key)
  {
    if s != [] {
      SortSorts(s[1..], key);
      InsertSorts(s[0], Sort(s[1..], key), key);
    }
  }

  /** Elements with equal keys keep their order. */
  lemma {:induction false} SortIsStable<T>(s: seq<T>, key: T -> int, k: int)
    ensures WithKey(Sort(s, key), key, k) == WithKey(s, key, k)
  {
    if s != [] {
      SortIsStable(s[1..], key, k);
      InsertIsStable(s[0], Sort(s[1..], key), key, k);
    }
  }
}

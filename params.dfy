/**
 * The request parameters `tme_api_call` receives and builds: a Python dict of
 * text keys and values, kept as its items in insertion order, with dict
 * assignment, key lookup and `sorted(params.items())`.
 */
module Params {
  import opened Wrappers

  /** One `(key, value)` item of a parameter dict. */
  type Item = (string, string)

  /** What every Python dict guarantees: no key occurs twice. */
  predicate DistinctKeys(items: seq<Item>) {
    forall i, j | 0 <= i < j < |items| :: items[i].0 != items[j].0
  }

  /** `params.get(k)`: the value stored under `k`, if any. */
  function Lookup(items: seq<Item>, k: string): (r: Option<string>)
    ensures r.None? <==> forall i | 0 <= i < |items| :: items[i].0 != k
    ensures r.Some? ==> (k, r.value) in items
  {
    if items == [] then None
    else if items[0].0 == k then Some(items[0].1)
    else Lookup(items[1..], k)
  }

  /** In a dict, an item is present exactly when its key looks up its value. */
  lemma {:induction false} LookupIn(items: seq<Item>, k: string, v: string)
    requires DistinctKeys(items)
    ensures (k, v) in items <==> Lookup(items, k) == Some(v)
  {
    if items != [] {
      assert DistinctKeys(items[1..]);
      LookupIn(items[1..], k, v);
      if items[0].0 == k {
        assert forall i | 1 <= i < |items| :: items[i].0 != k;
        assert (k, v) in items[1..] ==> false;
      }
    }
  }

  /**
   * `params[k] = v`: an existing key keeps its place and takes the new value,
   * a new key is appended after all the others.
   */
  function Put(items: seq<Item>, k: string, v: string): (r: seq<Item>)
    ensures Lookup(items, k).None? ==> r == items + [(k, v)]
    ensures Lookup(items, k).Some? ==> |r| == |items|
  {
    if items == [] then [(k, v)]
    else if items[0].0 == k then [(k, v)] + items[1..]
    else
      assert items == [items[0]] + items[1..];
      [items[0]] + Put(items[1..], k, v)
  }

  /** After `params[k] = v`, `k` holds `v` and every other key holds what it held. */
  lemma {:induction false} PutLookup(items: seq<Item>, k: string, v: string, k': string)
    ensures Lookup(Put(items, k, v), k) == Some(v)
    ensures k' != k ==> Lookup(Put(items, k, v), k') == Lookup(items, k')
  {
    if items != [] && items[0].0 != k {
      PutLookup(items[1..], k, v, k');
      var r := Put(items, k, v);
      assert r[1..] == Put(items[1..], k, v);
    }
  }

  /** Assignment keeps a dict a dict: the keys stay distinct. */
  lemma {:induction false} PutDistinct(items: seq<Item>, k: string, v: string)
    requires DistinctKeys(items)
    ensures DistinctKeys(Put(items, k, v))
  {
    if items != [] && items[0].0 != k {
      assert DistinctKeys(items[1..]);
      PutDistinct(items[1..], k, v);
      var rest := Put(items[1..], k, v);
      forall i | 0 <= i < |rest|
        ensures rest[i].0 != items[0].0
      {
        var key := rest[i].0;
        if key != k {
          PutLookup(items[1..], k, v, key);
          assert Lookup(rest, key).Some?;
          var j :| 0 <= j < |items[1..]| && items[1..][j].0 == key;
          assert items[j + 1].0 == key;
        }
      }
    } else if items != [] {
      var r := Put(items, k, v);
      assert forall i | 0 < i < |r| :: r[i] == items[i];
    }
  }

  /** Storing the value a key already holds changes nothing. */
  lemma {:induction false} PutSame(items: seq<Item>, k: string, v: string)
    requires Lookup(items, k) == Some(v)
    ensures Put(items, k, v) == items
  {
    if items != [] && items[0].0 != k {
      PutSame(items[1..], k, v);
    }
  }

  /** Assigning the same value twice is assigning it once. */
  lemma PutTwice(items: seq<Item>, k: string, v: string)
    ensures Put(Put(items, k, v), k, v) == Put(items, k, v)
  {
    PutLookup(items, k, v, k);
    PutSame(Put(items, k, v), k, v);
  }

  /** Python's `str` order: code point by code point, a proper prefix first. */
  predicate Less(a: string, b: string) {
    if a == [] then b != []
    else b != [] && (a[0] < b[0] || (a[0] == b[0] && Less(a[1..], b[1..])))
  }

  lemma {:induction false} LessIrreflexive(a: string)
    ensures !Less(a, a)
  {
    if a != [] {
      LessIrreflexive(a[1..]);
    }
  }

  lemma {:induction false} LessTransitive(a: string, b: string, c: string)
    requires Less(a, b) && Less(b, c)
    ensures Less(a, c)
  {
    if a != [] && a[0] == b[0] && b[0] == c[0] {
      LessTransitive(a[1..], b[1..], c[1..]);
    }
  }

  /** Any two different texts are ordered one way or the other, never both. */
  lemma {:induction false} LessTotal(a: string, b: string)
    ensures a != b <==> (Less(a, b) || Less(b, a))
    ensures !(Less(a, b) && Less(b, a))
  {
    if a != [] && b != [] && a[0] == b[0] {
      LessTotal(a[1..], b[1..]);
      assert a == [a[0]] + a[1..] && b == [b[0]] + b[1..];
    } else if a == [] {
      LessIrreflexive(b);
    }
  }

  /** Items in strictly increasing key order. */
  predicate SortedByKey(items: seq<Item>) {
    forall i, j | 0 <= i < j < |items| :: Less(items[i].0, items[j].0)
  }

  /** Places an item before the first item with a greater key. */
  function Insert(x: Item, s: seq<Item>): seq<Item> {
    if s == [] then [x]
    else if Less(x.0, s[0].0) then [x] + s
    else [s[0]] + Insert(x, s[1..])
  }

  /** Inserting adds the item and loses none. */
  lemma {:induction false} InsertPermutes(x: Item, s: seq<Item>)
    ensures multiset(Insert(x, s)) == multiset(s) + multiset{x}
  {
    if s != [] && !Less(x.0, s[0].0) {
      InsertPermutes(x, s[1..]);
      assert s == [s[0]] + s[1..];
    }
  }

  /** Every item of the result is the inserted one or an item of the list. */
  lemma {:induction false} InsertMembers(x: Item, s: seq<Item>)
    ensures forall y | y in Insert(x, s) :: y == x || y in s
  {
    if s != [] && !Less(x.0, s[0].0) {
      InsertMembers(x, s[1..]);
    }
  }

  /** Inserting an item whose key is new into a key-sorted list keeps it sorted. */
  lemma {:induction false} InsertSorted(x: Item, s: seq<Item>)
    requires SortedByKey(s)
    requires forall i | 0 <= i < |s| :: s[i].0 != x.0
    ensures SortedByKey(Insert(x, s))
  {
    if s != [] {
      LessTotal(x.0, s[0].0);
      if Less(x.0, s[0].0) {
        forall j | 0 <= j < |s|
          ensures Less(x.0, s[j].0)
        {
          if j > 0 {
            LessTransitive(x.0, s[0].0, s[j].0);
          }
        }
      } else {
        InsertSorted(x, s[1..]);
        InsertMembers(x, s[1..]);
        var r := Insert(x, s[1..]);
        forall j | 0 <= j < |r|
          ensures Less(s[0].0, r[j].0)
        {
          assert r[j] in r;
          if r[j] != x {
            var k :| 0 <= k < |s[1..]| && s[1..][k] == r[j];
            assert s[k + 1] == r[j];
          }
        }
        assert Insert(x, s) == [s[0]] + r;
      }
    }
  }

  /** `sorted(params.items())`: the items in increasing key order. */
  function SortByKey(items: seq<Item>): seq<Item> {
    if items == [] then []
    else Insert(items[0], SortByKey(items[1..]))
  }

  /** Sorting is a permutation: the same items, each as often. */
  lemma {:induction false} SortPermutes(items: seq<Item>)
    ensures multiset(SortByKey(items)) == multiset(items)
  {
    if items != [] {
      SortPermutes(items[1..]);
      InsertPermutes(items[0], SortByKey(items[1..]));
      assert items == [items[0]] + items[1..];
    }
  }

  /** The sorted items are the dict's items, in strictly increasing key order. */
  lemma {:induction false} SortSorts(items: seq<Item>)
    requires DistinctKeys(items)
    ensures SortedByKey(SortByKey(items))
    ensures multiset(SortByKey(items)) == multiset(items)
  {
    SortPermutes(items);
    if items != [] {
      assert DistinctKeys(items[1..]);
      SortSorts(items[1..]);
      var s := SortByKey(items[1..]);
      forall i | 0 <= i < |s|
        ensures s[i].0 != items[0].0
      {
        assert s[i] in multiset(items[1..]);
      }
      InsertSorted(items[0], s);
    }
  }

  /** Two key-sorted lists that hold each other's first item start alike. */
  lemma SortedHead(a: seq<Item>, b: seq<Item>)
    requires SortedByKey(a) && SortedByKey(b)
    requires a != [] && b != [] && a[0] in b && b[0] in a
    ensures a[0] == b[0]
  {
    var i :| 0 <= i < |a| && a[i] == b[0];
    var j :| 0 <= j < |b| && b[j] == a[0];
    if i > 0 && j > 0 {
      LessTotal(a[0].0, b[0].0);
    }
  }

  /** No item after the first of a key-sorted list is the first one. */
  lemma SortedRest(a: seq<Item>, x: Item)
    requires SortedByKey(a) && a != [] && x in a[1..]
    ensures x != a[0]
  {
    var k :| 1 <= k < |a| && a[k] == x;
    LessIrreflexive(x.0);
  }

  /** Two key-sorted lists with the same items are the same list. */
  lemma {:induction false} SortedUnique(a: seq<Item>, b: seq<Item>)
    requires SortedByKey(a) && SortedByKey(b)
    requires forall x :: x in a <==> x in b
    ensures a == b
  {
    assert a != [] ==> a[0] in b;
    assert b != [] ==> b[0] in a;
    if a != [] && b != [] {
      SortedHead(a, b);
      assert a == [a[0]] + a[1..] && b == [b[0]] + b[1..];
      forall x
        ensures x in a[1..] <==> x in b[1..]
      {
        if x in a[1..] {
          SortedRest(a, x);
          assert x in a && x in b && x != b[0];
        }
        if x in b[1..] {
          SortedRest(b, x);
          assert x in b && x in a && x != a[0];
        }
      }
      SortedUnique(a[1..], b[1..]);
    }
  }

  /**
   * Sorting forgets the order in which keys were inserted: two dicts that map
   * every key alike give the same sorted items.
   */
  lemma SortIgnoresInsertionOrder(a: seq<Item>, b: seq<Item>)
    requires DistinctKeys(a) && DistinctKeys(b)
    requires forall k :: Lookup(a, k) == Lookup(b, k)
    ensures SortByKey(a) == SortByKey(b)
  {
    SortSorts(a);
    SortSorts(b);
    forall x: Item
      ensures x in SortByKey(a) <==> x in SortByKey(b)
    {
      assert x in SortByKey(a) <==> x in multiset(a);
      assert x in SortByKey(b) <==> x in multiset(b);
      LookupIn(a, x.0, x.1);
      LookupIn(b, x.0, x.1);
    }
    SortedUnique(SortByKey(a), SortByKey(b));
  }

  /** Strictly sorted keys are distinct keys. */
  lemma SortedDistinct(items: seq<Item>)
    requires SortedByKey(items)
    ensures DistinctKeys(items)
  {
    forall i, j | 0 <= i < j < |items|
      ensures items[i].0 != items[j].0
    {
      LessIrreflexive(items[i].0);
    }
  }

  /** The sorted copy maps every key as the dict does. */
  lemma SortLookup(items: seq<Item>, k: string)
    requires DistinctKeys(items)
    ensures DistinctKeys(SortByKey(items))
    ensures Lookup(SortByKey(items), k) == Lookup(items, k)
  {
    SortSorts(items);
    var sorted := SortByKey(items);
    SortedDistinct(sorted);
    if Lookup(items, k).Some? {
      var v := Lookup(items, k).value;
      LookupIn(items, k, v);
      assert (k, v) in multiset(sorted);
      LookupIn(sorted, k, v);
    }
    if Lookup(sorted, k).Some? {
      var w := Lookup(sorted, k).value;
      LookupIn(sorted, k, w);
      assert (k, w) in multiset(items);
      LookupIn(items, k, w);
    }
  }

  /** A dict of text parameters, updated in place by assignment. */
  class ParamMap {
    var items: seq<Item>

    ghost predicate Valid()
      reads this
    {
      DistinctKeys(items)
    }

    /** A dict holding the given items in the given order. */
    constructor (init: seq<Item>)
      requires DistinctKeys(init)
      ensures Valid() && items == init
    {
      items := init;
    }

    /** `params[k]`, when present. */
    function Get(k: string): (r: Option<string>)
      reads this
      ensures r.Some? ==> (k, r.value) in items
      ensures r.None? <==> forall i | 0 <= i < |items| :: items[i].0 != k
    {
      Lookup(items, k)
    }

    /** `params[k] = v`. */
    method Set(k: string, v: string)
      requires Valid()
      modifies this
      ensures Valid()
      ensures items == Put(old(items), k, v)
    {
      PutDistinct(items, k, v);
      items := Put(items, k, v);
    }
  }
}

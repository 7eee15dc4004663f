/** The sorts the program runs over lists it collected from a map. Go's map iteration
    order is arbitrary, so what matters is that the sorted list does not depend on it. */
module Sorting {
  import opened Text

  /** Every comparison in the program looks at one string and then at a second one. */
  type Key = (string, string)

  predicate KeyLess(a: Key, b: Key) {
    if a.0 != b.0 then Less(a.0, b.0) else Less(a.1, b.1)
  }

  lemma KeyLessIsTotal(a: Key, b: Key)
    ensures !KeyLess(a, a)
    ensures !(KeyLess(a, b) && KeyLess(b, a))
    ensures a == b || KeyLess(a, b) || KeyLess(b, a)
  {
    LessIsTotal(a.0, b.0);
    LessIsTotal(a.1, b.1);
  }

  lemma KeyLessTransitive(a: Key, b: Key, c: Key)
    requires KeyLess(a, b) && KeyLess(b, c)
    ensures KeyLess(a, c)
  {
    LessIsTotal(a.0, b.0);
    LessIsTotal(b.0, c.0);
    LessIsTotal(a.0, c.0);
    if a.0 == b.0 == c.0 {
      LessTransitive(a.1, b.1, c.1);
    } else if a.0 != b.0 && b.0 != c.0 {
      LessTransitive(a.0, b.0, c.0);
    }
  }

  ghost predicate Ascending<T>(key: T -> Key, xs: seq<T>) {
    forall i, j | 0 <= i < j < |xs| :: KeyLess(key(xs[i]), key(xs[j]))
  }

  ghost predicate SameElements<T(!new)>(xs: seq<T>, ys: seq<T>) {
    forall x :: x in xs <==> x in ys
  }

  ghost predicate DistinctKeys<T>(key: T -> Key, xs: seq<T>) {
    forall i, j | 0 <= i < j < |xs| :: key(xs[i]) != key(xs[j])
  }

  /** sort.Slice and sort.SliceStable over `key`. */
  function SortBy<T>(key: T -> Key, xs: seq<T>): seq<T>
  {
    if xs == [] then [] else Insert(key, xs[0], SortBy(key, xs[1..]))
  }

  function Insert<T>(key: T -> Key, x: T, ys: seq<T>): seq<T>
  {
    if ys == [] || KeyLess(key(x), key(ys[0])) then [x] + ys
    else [ys[0]] + Insert(key, x, ys[1..])
  }

  lemma {:induction false} InsertSorted<T(!new)>(key: T -> Key, x: T, ys: seq<T>)
    requires Ascending(key, ys)
    requires forall i | 0 <= i < |ys| :: key(ys[i]) != key(x)
    ensures Ascending(key, Insert(key, x, ys))
    ensures SameElements(Insert(key, x, ys), [x] + ys)
    ensures |Insert(key, x, ys)| == |ys| + 1
  {
    if ys != [] {
      KeyLessIsTotal(key(x), key(ys[0]));
      if KeyLess(key(x), key(ys[0])) {
        forall j | 0 < j < |ys| ensures KeyLess(key(x), key(ys[j])) {
          KeyLessTransitive(key(x), key(ys[0]), key(ys[j]));
        }
      } else {
        var zs := Insert(key, x, ys[1..]);
        InsertSorted(key, x, ys[1..]);
        forall j | 0 <= j < |zs| ensures KeyLess(key(ys[0]), key(zs[j])) {
          assert zs[j] in [x] + ys[1..];
        }
        forall e ensures e in [ys[0]] + zs <==> e in [x] + ys {
          assert e in zs <==> e in [x] + ys[1..];
          assert ys == [ys[0]] + ys[1..];
        }
      }
    }
  }

  lemma {:induction false} SortBySorts<T(!new)>(key: T -> Key, xs: seq<T>)
    requires DistinctKeys(key, xs)
    ensures Ascending(key, SortBy(key, xs))
    ensures SameElements(SortBy(key, xs), xs)
    ensures |SortBy(key, xs)| == |xs|
  {
    if xs != [] {
      SortBySorts(key, xs[1..]);
      var ys := SortBy(key, xs[1..]);
      forall i | 0 <= i < |ys| ensures key(ys[i]) != key(xs[0]) {
        assert ys[i] in xs[1..];
      }
      InsertSorted(key, xs[0], ys);
      forall e ensures e in SortBy(key, xs) <==> e in xs {
        assert e in [xs[0]] + ys <==> e == xs[0] || e in xs[1..];
        assert xs == [xs[0]] + xs[1..];
      }
    }
  }

  lemma TailElements<T(!new)>(key: T -> Key, xs: seq<T>)
    requires xs != [] && Ascending(key, xs)
    ensures forall e :: e in xs[1..] <==> e in xs && e != xs[0]
  {
    KeyLessIsTotal(key(xs[0]), key(xs[0]));
    assert xs == [xs[0]] + xs[1..];
    assert xs[0] !in xs[1..];
  }

  /** A strictly ascending list is determined by the set of its elements. */
  lemma {:induction false} AscendingUnique<T(!new)>(key: T -> Key, xs: seq<T>, ys: seq<T>)
    requires Ascending(key, xs) && Ascending(key, ys)
    requires SameElements(xs, ys)
    ensures xs == ys
    decreases |xs|
  {
    assert ys != [] ==> ys[0] in xs;
    if xs != [] {
      assert xs[0] in ys;
      var j :| 0 <= j < |ys| && ys[j] == xs[0];
      assert ys[0] in xs;
      var i :| 0 <= i < |xs| && xs[i] == ys[0];
      KeyLessIsTotal(key(xs[0]), key(ys[0]));
      assert xs[0] == ys[0];
      TailElements(key, xs);
      TailElements(key, ys);
      AscendingUnique(key, xs[1..], ys[1..]);
      assert xs == [xs[0]] + xs[1..] && ys == [ys[0]] + ys[1..];
    }
  }

  /** Sorting any two listings of the same elements gives the same list. */
  lemma SortIgnoresOrder<T(!new)>(key: T -> Key, xs: seq<T>, ys: seq<T>)
    requires DistinctKeys(key, xs) && DistinctKeys(key, ys)
    requires SameElements(xs, ys)
    ensures SortBy(key, xs) == SortBy(key, ys)
  {
    SortBySorts(key, xs);
    SortBySorts(key, ys);
    AscendingUnique(key, SortBy(key, xs), SortBy(key, ys));
  }

  // ----- the keys of a map of strings -----

  function StringKey(k: string): Key { ("", k) }

  ghost predicate ListsKeys(kv: map<string, string>, ks: seq<string>) {
    && (forall i, j | 0 <= i < j < |ks| :: ks[i] != ks[j])
    && (forall k :: k in ks <==> k in kv)
  }

  ghost function SomeKeys(kv: map<string, string>): (ks: seq<string>)
    ensures ListsKeys(kv, ks)
    decreases |kv|
  {
    if kv == map[] then []
    else
      var k :| k in kv;
      [k] + SomeKeys(kv - {k})
  }

  ghost function SortedKeys(kv: map<string, string>): (ks: seq<string>)
    ensures ListsKeys(kv, ks) && Ascending(StringKey, ks)
  {
    SortBySorts(StringKey, SomeKeys(kv));
    var ks := SortBy(StringKey, SomeKeys(kv));
    assert forall i, j | 0 <= i < j < |ks| :: KeyLess(StringKey(ks[i]), StringKey(ks[j])) && ks[i] != ks[j] by {
      forall i, j | 0 <= i < j < |ks| ensures ks[i] != ks[j] {
        KeyLessIsTotal(StringKey(ks[i]), StringKey(ks[j]));
      }
    }
    ks
  }

  /** Ranging over the map: each key once, in any order. */
  method CollectKeys(kv: map<string, string>) returns (keys: seq<string>)
    ensures ListsKeys(kv, keys)
  {
    keys := [];
    var rest := kv.Keys;
    while rest != {}
      invariant rest <= kv.Keys
      invariant forall k :: k in keys <==> k in kv && k !in rest
      invariant forall i, j | 0 <= i < j < |keys| :: keys[i] != keys[j]
      decreases |rest|
    {
      var k :| k in rest;
      keys := keys + [k];
      rest := rest - {k};
    }
  }

  /** The keys of a map, collected in map order and then sorted. */
  method CollectSorted(kv: map<string, string>) returns (keys: seq<string>)
    ensures keys == SortedKeys(kv)
  {
    keys := CollectKeys(kv);
    SortIgnoresOrder(StringKey, keys, SomeKeys(kv));
    keys := SortBy(StringKey, keys);
  }
}

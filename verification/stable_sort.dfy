// Python's `list.sort(key=...)` and `sorted(..., key=...)` for integer keys:
// a stable sort. It is specified by two facts: the result is ordered by key,
// and for every key the items with that key appear in the same order as
// before (which also makes the result a permutation of the input).
module StableSort {
  import opened Seqs

  predicate SortedByKey<T>(s: seq<T>, key: T -> int)
  {
    forall i, j :: 0 <= i < j < |s| ==> key(s[i]) <= key(s[j])
  }

  /** The items of s whose key is k, in their order in s. */
  function WithKey<T>(s: seq<T>, key: T -> int, k: int): (r: seq<T>)
    ensures |r| <= |s|
  {
    if s == [] then []
    else (if key(s[0]) == k then [s[0]] else []) + WithKey(s[1..], key, k)
  }

  /** Inserts x in front of the first item whose key is not smaller. */
  function Insert<T>(x: T, s: seq<T>, key: T -> int): seq<T>
  {
    if s == [] || key(x) <= key(s[0]) then [x] + s else [s[0]] + Insert(x, s[1..], key)
  }

  /** `sorted(s, key=key)`. */
  function SortByKey<T>(s: seq<T>, key: T -> int): (r: seq<T>)
    ensures |r| == |s|
    ensures SortedByKey(r, key)
    ensures multiset(r) == multiset(s)
    ensures forall k :: WithKey(r, key, k) == WithKey(s, key, k)
  {
    if s == [] then []
    else
      var rest := SortByKey(s[1..], key);
      InsertProperties(s[0], rest, key);
      assert s == [s[0]] + s[1..];
      Insert(s[0], rest, key)
  }

  lemma InsertProperties<T>(x: T, s: seq<T>, key: T -> int)
    requires SortedByKey(s, key)
    ensures |Insert(x, s, key)| == |s| + 1
    ensures SortedByKey(Insert(x, s, key), key)
    ensures multiset(Insert(x, s, key)) == multiset([x] + s)
    ensures forall k :: WithKey(Insert(x, s, key), key, k) == WithKey([x] + s, key, k)
  {
    InsertSorted(x, s, key);
    InsertMultiset(x, s, key);
    forall k ensures WithKey(Insert(x, s, key), key, k) == WithKey([x] + s, key, k) {
      InsertWithKey(x, s, key, k);
    }
  }

  /** Every key of Insert(x, s) is at least b when x's key and all of s's are. */
  lemma {:induction false} InsertLowerBound<T>(x: T, s: seq<T>, key: T -> int, b: int)
    requires key(x) >= b && forall i :: 0 <= i < |s| ==> key(s[i]) >= b
    ensures |Insert(x, s, key)| == |s| + 1
    ensures forall i :: 0 <= i < |Insert(x, s, key)| ==> key(Insert(x, s, key)[i]) >= b
  {
    if !(s == [] || key(x) <= key(s[0])) {
      InsertLowerBound(x, s[1..], key, b);
    }
  }

  lemma {:induction false} InsertSorted<T>(x: T, s: seq<T>, key: T -> int)
    requires SortedByKey(s, key)
    ensures SortedByKey(Insert(x, s, key), key)
  {
    if !(s == [] || key(x) <= key(s[0])) {
      InsertSorted(x, s[1..], key);
      InsertLowerBound(x, s[1..], key, key(s[0]));
    }
  }

  lemma {:induction false} InsertMultiset<T>(x: T, s: seq<T>, key: T -> int)
    ensures multiset(Insert(x, s, key)) == multiset([x] + s)
  {
    if !(s == [] || key(x) <= key(s[0])) {
      InsertMultiset(x, s[1..], key);
      assert s == [s[0]] + s[1..];
    }
  }

  lemma {:induction false} InsertWithKey<T>(x: T, s: seq<T>, key: T -> int, k: int)
    requires SortedByKey(s, key)
    ensures WithKey(Insert(x, s, key), key, k) == WithKey([x] + s, key, k)
  {
    if s == [] || key(x) <= key(s[0]) {
    } else {
      var t := Insert(x, s[1..], key);
      var rest := WithKey(s[1..], key, k);
      var hx := if key(x) == k then [x] else [];
      var h0 := if key(s[0]) == k then [s[0]] else [];
      assert WithKey(Insert(x, s, key), key, k) == h0 + WithKey(t, key, k) by {
        assert Insert(x, s, key) == [s[0]] + t;
        WithKeyCons(s[0], t, key, k);
      }
      assert WithKey(t, key, k) == hx + rest by {
        assert SortedByKey(s[1..], key);
        InsertWithKey(x, s[1..], key, k);
        WithKeyCons(x, s[1..], key, k);
      }
      assert WithKey([x] + s, key, k) == hx + (h0 + rest) by {
        WithKeyCons(x, s, key, k);
        assert s == [s[0]] + s[1..];
        WithKeyCons(s[0], s[1..], key, k);
      }
      // x's key is above s[0]'s, so at most one of them has key k.
      assert h0 + (hx + rest) == hx + (h0 + rest) by {
        assert h0 == [] || hx == [];
      }
    }
  }

  lemma WithKeyCons<T>(x: T, s: seq<T>, key: T -> int, k: int)
    ensures WithKey([x] + s, key, k) == (if key(x) == k then [x] else []) + WithKey(s, key, k)
  {
    assert ([x] + s)[1..] == s;
  }

  /** Sorting a sequence that is already ordered by key leaves it unchanged. */
  lemma {:induction false} SortSortedIsIdentity<T>(s: seq<T>, key: T -> int)
    requires SortedByKey(s, key)
    ensures SortByKey(s, key) == s
  {
    if s != [] {
      SortSortedIsIdentity(s[1..], key);
      assert s == [s[0]] + s[1..];
    }
  }

  /** Sorting permutes the images of the items under any f, too. */
  lemma {:induction false} MapSortByKey<T, U>(s: seq<T>, key: T -> int, f: T -> U)
    ensures multiset(Map(SortByKey(s, key), f)) == multiset(Map(s, f))
  {
    if s != [] {
      var rest := SortByKey(s[1..], key);
      MapSortByKey(s[1..], key, f);
      MapInsert(s[0], rest, key, f);
      assert s == [s[0]] + s[1..];
      MapConcat([s[0]], rest, f);
      MapConcat([s[0]], s[1..], f);
    }
  }

  lemma {:induction false} MapInsert<T, U>(x: T, s: seq<T>, key: T -> int, f: T -> U)
    ensures multiset(Map(Insert(x, s, key), f)) == multiset(Map([x] + s, f))
  {
    if !(s == [] || key(x) <= key(s[0])) {
      var rest := Map(s[1..], f);
      MapInsert(x, s[1..], key, f);
      var inserted := Map(Insert(x, s[1..], key), f);
      assert multiset(inserted) == multiset{f(x)} + multiset(rest) by {
        MapConcat([x], s[1..], f);
        assert Map([x] + s[1..], f) == [f(x)] + rest;
      }
      assert multiset(Map(Insert(x, s, key), f)) == multiset{f(s[0])} + multiset(inserted) by {
        assert Insert(x, s, key) == [s[0]] + Insert(x, s[1..], key);
        MapConcat([s[0]], Insert(x, s[1..], key), f);
        assert Map(Insert(x, s, key), f) == [f(s[0])] + inserted;
      }
      assert multiset(Map([x] + s, f)) == multiset{f(x), f(s[0])} + multiset(rest) by {
        assert [x] + s == [x, s[0]] + s[1..];
        MapConcat([x, s[0]], s[1..], f);
        assert Map([x, s[0]], f) == [f(x), f(s[0])];
        assert Map([x] + s, f) == [f(x), f(s[0])] + rest;
      }
    }
  }
  /** No two items of s share a key unless they are the same item. */
  ghost predicate KeyInjective<T>(s: seq<T>, key: T -> int)
  {
    forall i, j :: 0 <= i < |s| && 0 <= j < |s| && key(s[i]) == key(s[j]) ==> s[i] == s[j]
  }

  /**
   * There is only one arrangement of a collection of items ordered by key
   * when no two items share a key: two such arrangements are equal.
   */
  lemma {:induction false} SortedArrangementUnique<T>(s: seq<T>, t: seq<T>, key: T -> int)
    requires SortedByKey(s, key) && SortedByKey(t, key)
    requires multiset(s) == multiset(t)
    requires KeyInjective(s, key)
    ensures s == t
  {
    assert |s| == |multiset(s)| == |multiset(t)| == |t|;
    if s != [] {
      SortedHeadsAgree(s, t, key);
      TailsAgree(s, t);
      TailKeyInjective(s, key);
      SortedArrangementUnique(s[1..], t[1..], key);
      assert s == [s[0]] + s[1..] && t == [t[0]] + t[1..];
    }
  }

  lemma SortedHeadsAgree<T>(s: seq<T>, t: seq<T>, key: T -> int)
    requires SortedByKey(s, key) && SortedByKey(t, key)
    requires multiset(s) == multiset(t) && s != [] && t != []
    requires KeyInjective(s, key)
    ensures s[0] == t[0]
  {
    assert s[0] in multiset(t) && t[0] in multiset(s);
    var j :| 0 <= j < |t| && t[j] == s[0];
    var i :| 0 <= i < |s| && s[i] == t[0];
    assert key(t[0]) <= key(t[j]);
    assert key(s[0]) <= key(s[i]);
  }

  lemma TailsAgree<T>(s: seq<T>, t: seq<T>)
    requires multiset(s) == multiset(t) && s != [] && t != [] && s[0] == t[0]
    ensures multiset(s[1..]) == multiset(t[1..])
  {
    assert s == [s[0]] + s[1..] && t == [t[0]] + t[1..];
    assert multiset(s[1..]) == multiset(s) - multiset{s[0]};
    assert multiset(t[1..]) == multiset(t) - multiset{t[0]};
  }

  lemma TailKeyInjective<T>(s: seq<T>, key: T -> int)
    requires KeyInjective(s, key) && s != []
    ensures KeyInjective(s[1..], key)
  {
    forall i, j | 0 <= i < |s| - 1 && 0 <= j < |s| - 1 && key(s[1..][i]) == key(s[1..][j])
      ensures s[1..][i] == s[1..][j]
    {
      assert s[1..][i] == s[i + 1] && s[1..][j] == s[j + 1];
    }
  }


}

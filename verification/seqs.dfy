// Small sequence utilities shared by the modules: mapping a function over a
// list and joining a list of byte strings.
module Seqs {

  /** f applied to every item of s, as `[f(x) for x in s]`. */
  function Map<T, U>(s: seq<T>, f: T -> U): (r: seq<U>)
    ensures |r| == |s| && forall i :: 0 <= i < |s| ==> r[i] == f(s[i])
  {
    seq(|s|, i requires 0 <= i < |s| => f(s[i]))
  }

  lemma MapConcat<T, U>(a: seq<T>, b: seq<T>, f: T -> U)
    ensures Map(a + b, f) == Map(a, f) + Map(b, f)
  {
  }

  /** The items of rs joined in order, as successive writes produce them. */
  function Concat<T>(rs: seq<seq<T>>): seq<T>
  {
    if rs == [] then [] else rs[0] + Concat(rs[1..])
  }

  /** Joining n-item pieces gives n items per piece. */
  lemma {:induction false} ConcatLength<T>(rs: seq<seq<T>>, n: nat)
    requires forall i :: 0 <= i < |rs| ==> |rs[i]| == n
    ensures |Concat(rs)| == |rs| * n
  {
    if rs != [] {
      ConcatLength(rs[1..], n);
      MulSucc(|rs| - 1, n);
    }
  }

  lemma MulSucc(m: nat, n: nat)
    ensures (m + 1) * n == m * n + n
  {
  }

  /** Appending one more piece to a join. */
  lemma {:induction false} ConcatSnoc<T>(rs: seq<seq<T>>, i: nat)
    requires i < |rs|
    ensures Concat(rs[..i + 1]) == Concat(rs[..i]) + rs[i]
  {
    if i > 0 {
      ConcatSnoc(rs[1..], i - 1);
      assert rs[..i + 1][1..] == rs[1..][..i];
      assert rs[..i][1..] == rs[1..][..i - 1];
    } else {
      assert rs[..1] == [rs[0]];
    }
  }

  lemma ConcatAppend<T>(rs: seq<seq<T>>, x: seq<T>)
    ensures Concat(rs + [x]) == Concat(rs) + x
  {
    ConcatSnoc(rs + [x], |rs|);
    assert (rs + [x])[..|rs| + 1] == rs + [x];
    assert (rs + [x])[..|rs|] == rs;
  }

  /** Mapping and flattening one more item of a list appends its image. */
  lemma MapConcatStep<T, U>(xs: seq<T>, i: nat, f: T -> seq<U>)
    requires i < |xs|
    ensures Concat(Map(xs[..i + 1], f)) == Concat(Map(xs[..i], f)) + f(xs[i])
  {
    assert xs[..i + 1] == xs[..i] + [xs[i]];
    MapConcat(xs[..i], [xs[i]], f);
    assert Map([xs[i]], f) == [f(xs[i])];
    ConcatAppend(Map(xs[..i], f), f(xs[i]));
  }

  /** Joining two lists of pieces one after the other. */
  lemma {:induction false} ConcatSplit<T>(a: seq<seq<T>>, b: seq<seq<T>>)
    ensures Concat(a + b) == Concat(a) + Concat(b)
  {
    if a != [] {
      assert (a + b)[0] == a[0] && (a + b)[1..] == a[1..] + b;
      ConcatSplit(a[1..], b);
      assert Concat(a + b) == a[0] + Concat(a[1..] + b);
    } else {
      assert a + b == b;
    }
  }

  /** In a join, the k-th piece follows the first k pieces. */
  lemma PieceAt<T>(rs: seq<seq<T>>, k: nat)
    requires k < |rs|
    ensures |Concat(rs[..k])| + |rs[k]| == |Concat(rs[..k + 1])| <= |Concat(rs)|
    ensures Concat(rs)[|Concat(rs[..k])|..|Concat(rs[..k + 1])|] == rs[k]
  {
    assert rs == rs[..k + 1] + rs[k + 1..];
    ConcatSplit(rs[..k + 1], rs[k + 1..]);
    ConcatSnoc(rs, k);
  }

  /** x alone when p(x) is want, nothing otherwise. */
  function Kept<T>(x: T, p: T -> bool, want: bool): seq<T>
  {
    if p(x) == want then [x] else []
  }

  /** The items x of s with p(x) == want, in order, as `[x for x in s if p(x)]`. */
  function Filter<T>(s: seq<T>, p: T -> bool, want: bool): (r: seq<T>)
    ensures |r| <= |s|
  {
    if s == [] then [] else Kept(s[0], p, want) + Filter(s[1..], p, want)
  }

  lemma {:induction false} FilterMembers<T>(s: seq<T>, p: T -> bool, want: bool)
    ensures forall x :: x in Filter(s, p, want) <==> x in s && p(x) == want
  {
    if s != [] {
      FilterMembers(s[1..], p, want);
      assert s == [s[0]] + s[1..];
    }
  }

  /** x is either kept or dropped. */
  lemma KeptSplit<T>(x: T, p: T -> bool)
    ensures multiset(Kept(x, p, true)) + multiset(Kept(x, p, false)) == multiset{x}
  {
  }

  /** Two partitions, of s's head and of its tail, joined side by side partition s. */
  lemma PartitionJoin<T>(s: seq<T>, keptHead: seq<T>, droppedHead: seq<T>, keptRest: seq<T>, droppedRest: seq<T>)
    requires s != []
    requires multiset(keptHead) + multiset(droppedHead) == multiset{s[0]}
    requires multiset(keptRest) + multiset(droppedRest) == multiset(s[1..])
    ensures multiset(keptHead + keptRest) + multiset(droppedHead + droppedRest) == multiset(s)
  {
    assert s == [s[0]] + s[1..];
  }

  /** The items kept and the items dropped make up s. */
  lemma {:induction false} FilterPartition<T>(s: seq<T>, p: T -> bool)
    ensures multiset(Filter(s, p, true)) + multiset(Filter(s, p, false)) == multiset(s)
  {
    if s != [] {
      var rest := s[1..];
      FilterPartition(rest, p);
      KeptSplit(s[0], p);
      PartitionJoin(s, Kept(s[0], p, true), Kept(s[0], p, false), Filter(rest, p, true), Filter(rest, p, false));
    }
  }

  lemma {:induction false} FilterConcat<T>(a: seq<T>, b: seq<T>, p: T -> bool, want: bool)
    ensures Filter(a + b, p, want) == Filter(a, p, want) + Filter(b, p, want)
  {
    if a == [] {
      assert a + b == b;
    } else {
      var head := Kept(a[0], p, want);
      FilterConcat(a[1..], b, p, want);
      assert (a + b)[0] == a[0] && (a + b)[1..] == a[1..] + b;
      calc {
        Filter(a + b, p, want);
        head + Filter(a[1..] + b, p, want);
        head + (Filter(a[1..], p, want) + Filter(b, p, want));
        (head + Filter(a[1..], p, want)) + Filter(b, p, want);
        Filter(a, p, want) + Filter(b, p, want);
      }
    }
  }

  lemma {:induction false} FilterAll<T>(s: seq<T>, p: T -> bool, want: bool)
    requires forall x :: x in s ==> p(x) == want
    ensures Filter(s, p, want) == s
  {
    if s != [] {
      FilterAll(s[1..], p, want);
      assert s == [s[0]] + s[1..];
    }
  }

  lemma {:induction false} FilterNone<T>(s: seq<T>, p: T -> bool, want: bool)
    requires forall x :: x in s ==> p(x) != want
    ensures Filter(s, p, want) == []
  {
    if s != [] {
      FilterNone(s[1..], p, want);
      assert s[0] in s;
      assert forall x :: x in s[1..] ==> x in s;
    }
  }

  /** No two items of s have the same key. */
  predicate DistinctBy<T, K(==)>(s: seq<T>, key: T -> K)
  {
    forall i, j :: 0 <= i < j < |s| ==> key(s[i]) != key(s[j])
  }

  /** Filtering keeps items with distinct keys distinct. */
  lemma {:induction false} FilterDistinctBy<T, K>(s: seq<T>, p: T -> bool, want: bool, key: T -> K)
    requires DistinctBy(s, key)
    ensures DistinctBy(Filter(s, p, want), key)
  {
    if s != [] {
      FilterDistinctBy(s[1..], p, want, key);
      FilterAvoidsKey(s[1..], p, want, key, key(s[0]));
    }
  }

  /** No item kept by a filter has a key that no item of s has. */
  lemma {:induction false} FilterAvoidsKey<T, K>(s: seq<T>, p: T -> bool, want: bool, key: T -> K, k: K)
    requires forall i :: 0 <= i < |s| ==> key(s[i]) != k
    ensures forall j :: 0 <= j < |Filter(s, p, want)| ==> key(Filter(s, p, want)[j]) != k
  {
    if s != [] {
      FilterAvoidsKey(s[1..], p, want, key, k);
      assert key(s[0]) != k;
    }
  }

  /** No item of s occurs twice. */
  predicate Distinct<T(==)>(s: seq<T>)
  {
    forall i, j :: 0 <= i < j < |s| ==> s[i] != s[j]
  }

  /** `s.index(x)`: the position of the first x in s. */
  function IndexOf<T(==)>(s: seq<T>, x: T): (r: nat)
    requires x in s
    ensures r < |s| && s[r] == x && x !in s[..r]
  {
    if s[0] == x then 0
    else
      assert x in s[1..];
      var r := IndexOf(s[1..], x);
      assert s[..r + 1] == [s[0]] + s[1..][..r];
      r + 1
  }

  /** Items whose keys all differ are themselves all different. */
  lemma DistinctByDistinct<T, K>(s: seq<T>, key: T -> K)
    requires DistinctBy(s, key)
    ensures Distinct(s)
  {
    forall i, j | 0 <= i < j < |s|
      ensures s[i] != s[j]
    {
      assert key(s[i]) != key(s[j]);
    }
  }

  /** Every item of r is in s, and r lists them in the order s does. */
  predicate InOrderOf<T(==)>(r: seq<T>, s: seq<T>)
  {
    forall i, j :: 0 <= i < j < |r| ==> r[i] in s && r[j] in s && IndexOf(s, r[i]) < IndexOf(s, r[j])
  }

  /** Past a different head, the first x is one further on than in the tail. */
  lemma IndexOfTail<T>(s: seq<T>, x: T)
    requires s != [] && x in s[1..] && x != s[0]
    ensures x in s && IndexOf(s, x) == 1 + IndexOf(s[1..], x)
  {
  }

  /** A filter of a list without repeats keeps the list's order. */
  lemma {:induction false} FilterKeepsOrder<T>(s: seq<T>, p: T -> bool, want: bool)
    requires Distinct(s)
    ensures InOrderOf(Filter(s, p, want), s)
  {
    if s != [] {
      var t := s[1..];
      var rt := Filter(t, p, want);
      assert Distinct(t) by {
        forall i, j | 0 <= i < j < |t|
          ensures t[i] != t[j]
        {
          assert t[i] == s[i + 1] && t[j] == s[j + 1];
        }
      }
      FilterKeepsOrder(t, p, want);
      FilterMembers(t, p, want);
      forall k | 0 <= k < |rt|
        ensures rt[k] in s && rt[k] != s[0] && IndexOf(s, rt[k]) == 1 + IndexOf(t, rt[k])
      {
        assert rt[k] in rt;
        var n := IndexOf(t, rt[k]);
        assert s[n + 1] == rt[k];
        IndexOfTail(s, rt[k]);
      }
    }
  }

  /** The first x of a longer list is where it was, when x is already in the front part. */
  lemma IndexOfPrefix<T>(s: seq<T>, t: seq<T>, x: T)
    requires x in s
    ensures IndexOf(s + t, x) == IndexOf(s, x)
  {
    var i := IndexOf(s, x);
    assert (s + t)[..i] == s[..i];
    assert (s + t)[i] == x;
    assert forall k :: 0 <= k < i ==> (s + t)[k] == s[..i][k];
  }

  /** The items of s without repeats, each where it first occurs: a set that keeps insertion order. */
  function Dedup<T(==)>(s: seq<T>): (r: seq<T>)
    ensures |r| <= |s|
  {
    if s == [] then []
    else
      var d := Dedup(s[..|s| - 1]);
      if s[|s| - 1] in d then d else d + [s[|s| - 1]]
  }

  lemma DedupSnoc<T>(s: seq<T>, x: T)
    ensures Dedup(s + [x]) == if x in Dedup(s) then Dedup(s) else Dedup(s) + [x]
  {
    assert (s + [x])[..|s|] == s;
  }

  /** Nothing is lost and nothing is added. */
  lemma {:induction false} DedupMembers<T>(s: seq<T>)
    ensures forall x :: x in Dedup(s) <==> x in s
  {
    if s != [] {
      var n := |s| - 1;
      DedupMembers(s[..n]);
      assert s == s[..n] + [s[n]];
    }
  }

  /** A kept item is an item of s. */
  lemma DedupKeptIn<T>(s: seq<T>, y: T)
    requires y in Dedup(s)
    ensures y in s
  {
    DedupMembers(s);
  }

  /** No item is kept twice. */
  lemma {:induction false} DedupDistinct<T>(s: seq<T>)
    ensures Distinct(Dedup(s))
  {
    if s != [] {
      DedupDistinct(s[..|s| - 1]);
    }
  }

  /** An item of the front part of s first occurs where it first occurs in that front part. */
  lemma IndexOfFront<T>(s: seq<T>, y: T)
    requires s != [] && y in s[..|s| - 1]
    ensures IndexOf(s, y) == IndexOf(s[..|s| - 1], y)
  {
    var p := s[..|s| - 1];
    assert p + [s[|s| - 1]] == s;
    IndexOfPrefix(p, [s[|s| - 1]], y);
  }

  /** The last item of s first occurs last when the front part lacks it. */
  lemma IndexOfLast<T>(s: seq<T>)
    requires s != [] && s[|s| - 1] !in s[..|s| - 1]
    ensures IndexOf(s, s[|s| - 1]) == |s| - 1
  {
    assert forall k :: 0 <= k < |s| - 1 ==> s[..|s| - 1][k] == s[k];
  }

  /** The kept items of the front part of s first occur in s where they first occur in the front part. */
  lemma DedupFrontIndex<T>(s: seq<T>)
    requires s != []
    ensures var p := s[..|s| - 1];
      forall i :: 0 <= i < |Dedup(p)| ==> Dedup(p)[i] in p && IndexOf(s, Dedup(p)[i]) == IndexOf(p, Dedup(p)[i])
  {
    var p := s[..|s| - 1];
    var d := Dedup(p);
    forall i | 0 <= i < |d| ensures d[i] in p && IndexOf(s, d[i]) == IndexOf(p, d[i]) {
      assert d[i] in d;
      DedupKeptIn(p, d[i]);
      IndexOfFront(s, d[i]);
    }
  }

  /** Appending one item keeps the kept items in first-occurrence order. */
  lemma DedupOrderSnoc<T>(s: seq<T>)
    requires s != []
    requires var p := s[..|s| - 1];
      && (forall y :: y in Dedup(p) ==> y in p)
      && (forall i, j :: 0 <= i < j < |Dedup(p)| ==> IndexOf(p, Dedup(p)[i]) < IndexOf(p, Dedup(p)[j]))
    ensures forall y :: y in Dedup(s) ==> y in s
    ensures forall i, j :: 0 <= i < j < |Dedup(s)| ==> IndexOf(s, Dedup(s)[i]) < IndexOf(s, Dedup(s)[j])
  {
    var p := s[..|s| - 1];
    var x := s[|s| - 1];
    var d := Dedup(p);
    DedupFrontIndex(s);
    forall y | y in Dedup(s) ensures y in s {
      DedupKeptIn(s, y);
    }
    if x !in d {
      DedupMembers(p);
      IndexOfLast(s);
      var e := Dedup(s);
      assert e == d + [x];
      forall i, j | 0 <= i < j < |e| ensures IndexOf(s, e[i]) < IndexOf(s, e[j]) {
        assert e[i] == d[i];
        if j < |d| {
          assert e[j] == d[j];
        } else {
          assert IndexOf(p, d[i]) < |p|;
        }
      }
    }
  }

  /** The kept items come in the order of their first occurrence in s. */
  lemma {:induction false} DedupFirstOccurrence<T>(s: seq<T>)
    ensures forall x :: x in Dedup(s) ==> x in s
    ensures forall i, j :: 0 <= i < j < |Dedup(s)| ==> IndexOf(s, Dedup(s)[i]) < IndexOf(s, Dedup(s)[j])
  {
    DedupMembers(s);
    if s != [] {
      var n := |s| - 1;
      DedupFirstOccurrence(s[..n]);
      DedupOrderSnoc(s);
    }
  }
}


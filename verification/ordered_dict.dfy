// Python's `OrderedDict` (and a plain `dict`, which keeps insertion order):
// a list of key/value entries with distinct keys. Assigning to a key that is
// already present replaces its value in place; a new key goes to the end.
module OrderedDict {
  import opened Wrappers

  datatype Dict<K(==), V> = Dict(entries: seq<(K, V)>)
  {
    /** No key appears twice. */
    ghost predicate Valid()
    {
      forall i, j :: 0 <= i < j < |entries| ==> entries[i].0 != entries[j].0
    }

    function Keys(): (r: seq<K>)
      ensures |r| == |entries|
      ensures forall i :: 0 <= i < |r| ==> r[i] == entries[i].0
    {
      seq(|entries|, i requires 0 <= i < |entries| => entries[i].0)
    }

    /** `d.values()`, in insertion order. */
    function Values(): (r: seq<V>)
      ensures |r| == |entries|
      ensures forall i :: 0 <= i < |r| ==> r[i] == entries[i].1
    {
      seq(|entries|, i requires 0 <= i < |entries| => entries[i].1)
    }

    /** The position of key k, if present. */
    function IndexOf(k: K): (r: Option<nat>)
      ensures r.Some? ==> r.value < |entries| && entries[r.value].0 == k
      ensures r.Some? ==> forall i :: 0 <= i < r.value ==> entries[i].0 != k
      ensures r.None? ==> forall i :: 0 <= i < |entries| ==> entries[i].0 != k
    {
      IndexFrom(k, 0)
    }

    function IndexFrom(k: K, i: nat): (r: Option<nat>)
      requires i <= |entries|
      ensures r.Some? ==> i <= r.value < |entries| && entries[r.value].0 == k
      ensures r.Some? ==> forall j :: i <= j < r.value ==> entries[j].0 != k
      ensures r.None? ==> forall j :: i <= j < |entries| ==> entries[j].0 != k
      decreases |entries| - i
    {
      if i == |entries| then None
      else if entries[i].0 == k then Some(i)
      else IndexFrom(k, i + 1)
    }

    /** `d[k]`: a missing key is a KeyError. */
    function Get(k: K): (r: Result<V>)
      ensures r.Ok? <==> exists i :: 0 <= i < |entries| && entries[i].0 == k
      ensures r.Err? ==> r.error == KeyError
      ensures r.Ok? ==> exists i :: 0 <= i < |entries| && entries[i] == (k, r.value)
    {
      match IndexOf(k)
      case Some(i) => Ok(entries[i].1)
      case None => Err(KeyError)
    }

    /** `d[k] = v`. */
    function Put(k: K, v: V): (r: Dict<K, V>)
    {
      match IndexOf(k)
      case Some(i) => Dict(entries[i := (k, v)])
      case None => Dict(entries + [(k, v)])
    }
  }

  function Empty<K(==), V>(): (d: Dict<K, V>)
    ensures d.Valid() && d.Keys() == [] && d.Values() == []
  {
    Dict([])
  }

  /**
   * `d[k] = v` keeps the keys distinct, makes d[k] return v, leaves every
   * other key's value alone, keeps the order of the keys already present and
   * appends k when it is new.
   */
  lemma PutSpec<K, V>(d: Dict<K, V>, k: K, v: V)
    requires d.Valid()
    ensures d.Put(k, v).Valid()
    ensures d.Put(k, v).Get(k) == Ok(v)
    ensures forall k' :: k' != k ==> d.Put(k, v).Get(k') == d.Get(k')
    ensures k in d.Keys() ==> d.Put(k, v).Keys() == d.Keys()
    ensures k !in d.Keys() ==> d.Put(k, v).Keys() == d.Keys() + [k]
  {
    if d.IndexOf(k).Some? {
      PutExisting(d, k, v, d.IndexOf(k).value);
    } else {
      PutNew(d, k, v);
    }
  }

  lemma PutExisting<K, V>(d: Dict<K, V>, k: K, v: V, i: nat)
    requires d.Valid() && d.IndexOf(k) == Some(i)
    ensures d.Put(k, v) == Dict(d.entries[i := (k, v)])
    ensures d.Put(k, v).Valid() && d.Put(k, v).Get(k) == Ok(v)
    ensures forall k' :: k' != k ==> d.Put(k, v).Get(k') == d.Get(k')
    ensures k in d.Keys() && d.Put(k, v).Keys() == d.Keys()
  {
    var r := d.Put(k, v);
    assert r.Keys() == d.Keys();
    GetOfValid(r, i);
    forall k' | k' != k
      ensures r.Get(k') == d.Get(k')
    {
      OtherKey(d, r, k');
    }
  }

  lemma PutNew<K, V>(d: Dict<K, V>, k: K, v: V)
    requires d.Valid() && d.IndexOf(k).None?
    ensures d.Put(k, v) == Dict(d.entries + [(k, v)])
    ensures d.Put(k, v).Valid() && d.Put(k, v).Get(k) == Ok(v)
    ensures forall k' :: k' != k ==> d.Put(k, v).Get(k') == d.Get(k')
    ensures k !in d.Keys() && d.Put(k, v).Keys() == d.Keys() + [k]
  {
    var r := d.Put(k, v);
    assert r.Keys() == d.Keys() + [k];
    GetOfValid(r, |d.entries|);
    forall k' | k' != k
      ensures r.Get(k') == d.Get(k')
    {
      OtherKey(d, r, k');
    }
  }

  /** Two valid dictionaries whose entries for key k' sit at the same positions agree on k'. */
  lemma OtherKey<K, V>(d: Dict<K, V>, r: Dict<K, V>, k': K)
    requires d.Valid() && r.Valid() && |d.entries| <= |r.entries|
    requires forall i :: 0 <= i < |d.entries| && d.entries[i].0 == k' ==> r.entries[i] == d.entries[i]
    requires forall i :: 0 <= i < |r.entries| && r.entries[i].0 == k' ==> i < |d.entries| && d.entries[i].0 == k'
    ensures r.Get(k') == d.Get(k')
  {
    match d.IndexOf(k')
    case Some(j) =>
      GetOfValid(d, j);
      GetOfValid(r, j);
    case None =>
  }

  /** In a dictionary without repeated keys, Get finds the entry at any position of its key. */
  lemma GetOfValid<K, V>(d: Dict<K, V>, i: nat)
    requires d.Valid() && i < |d.entries|
    ensures d.Get(d.entries[i].0) == Ok(d.entries[i].1)
  {
  }

  /**
   * Putting the entries of a list one by one: the result holds each key
   * once, in order of first appearance, with the value of its last entry.
   */
  function PutAll<K(==), V>(d: Dict<K, V>, kvs: seq<(K, V)>): Dict<K, V>
    decreases |kvs|
  {
    if kvs == [] then d else PutAll(d.Put(kvs[0].0, kvs[0].1), kvs[1..])
  }

  /** Putting entries with distinct new keys appends them in order. */
  lemma {:induction false} PutAllDistinct<K, V>(d: Dict<K, V>, kvs: seq<(K, V)>)
    requires d.Valid()
    requires forall i, j :: 0 <= i < j < |kvs| ==> kvs[i].0 != kvs[j].0
    requires forall i :: 0 <= i < |kvs| ==> kvs[i].0 !in d.Keys()
    ensures PutAll(d, kvs) == Dict(d.entries + kvs)
    ensures PutAll(d, kvs).Valid()
    decreases |kvs|
  {
    if kvs != [] {
      var (k, v) := kvs[0];
      PutSpec(d, k, v);
      var d' := d.Put(k, v);
      assert d' == Dict(d.entries + [(k, v)]) by {
        assert d.IndexOf(k).None?;
      }
      forall i | 0 <= i < |kvs[1..]|
        ensures kvs[1..][i].0 !in d'.Keys()
      {
        assert kvs[1..][i] == kvs[i + 1];
      }
      PutAllDistinct(d', kvs[1..]);
      assert d.entries + kvs == d'.entries + kvs[1..];
    }
  }
}

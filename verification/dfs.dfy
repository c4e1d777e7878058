// The depth-first walks over Blender collections and view layers of
// io_scene_psk_psa/shared/dfs.py: a collection's objects in hierarchy
// order, child collections before a collection's own objects, collection
// instances entered with the instancing object appended to the instance
// path, and one shared set of visited (object, innermost instancer) pairs
// so that no pair is yielded twice.
module Dfs {
  import opened Wrappers
  import opened Seqs

  // ---------------------------------------------------------------------
  // Scene
  // ---------------------------------------------------------------------

  /**
   * An object of the scene, named by its index: its type, its parent, the
   * collection it instances, if any, and whether it is visible and selected.
   */
  datatype SceneObject = SceneObject(objectType: string, parent: Option<nat>, instanceCollection: Option<nat>,
                                     visible: bool, selected: bool)

  /** A collection: the objects linked to it and its child collections, in order. */
  datatype Collection = Collection(objects: seq<nat>, children: seq<nat>)

  /** The objects and collections of a scene, each named by its index. */
  datatype Scene = Scene(objects: seq<SceneObject>, collections: seq<Collection>)

  predicate ObjectLinked(s: Scene, x: SceneObject)
  {
    && (x.parent.Some? ==> x.parent.value < |s.objects|)
    && (x.instanceCollection.Some? ==> x.instanceCollection.value < |s.collections|)
  }

  predicate CollectionLinked(s: Scene, col: Collection)
  {
    && (forall o :: o in col.objects ==> o < |s.objects|)
    && (forall d :: d in col.children ==> d < |s.collections|)
  }

  /** Every index in the scene names an object or a collection of it. */
  predicate Linked(s: Scene)
  {
    && (forall o :: 0 <= o < |s.objects| ==> ObjectLinked(s, s.objects[o]))
    && (forall c :: 0 <= c < |s.collections| ==> CollectionLinked(s, s.collections[c]))
  }

  /** `rank` puts every object after its parent, below the object count. */
  ghost predicate ParentRanked(s: Scene, rank: seq<nat>)
  {
    && Linked(s) && |rank| == |s.objects|
    && (forall o :: 0 <= o < |s.objects| ==> rank[o] < |s.objects|)
    && (forall o :: 0 <= o < |s.objects| && s.objects[o].parent.Some? ==> rank[s.objects[o].parent.value] < rank[o])
  }

  /**
   * `rank` puts every child collection, and every collection instanced by
   * an object linked to a collection, below that collection.
   */
  ghost predicate CollectionRanked(s: Scene, rank: seq<nat>)
  {
    && Linked(s) && |rank| == |s.collections|
    && (forall c, d :: 0 <= c < |s.collections| && d in s.collections[c].children ==> rank[d] < rank[c])
    && (forall c, o :: 0 <= c < |s.collections| && o in s.collections[c].objects && s.objects[o].instanceCollection.Some?
          ==> rank[s.objects[o].instanceCollection.value] < rank[c])
  }

  /**
   * A scene Blender can hold: links in range, no object its own ancestor,
   * no collection nested or instanced inside itself.
   */
  ghost predicate Valid(s: Scene)
  {
    Linked(s) && (exists rank :: ParentRanked(s, rank)) && (exists rank :: CollectionRanked(s, rank))
  }

  ghost function ParentRank(s: Scene): (rank: seq<nat>)
    requires Valid(s)
    ensures ParentRanked(s, rank)
  {
    var rank :| ParentRanked(s, rank); rank
  }

  ghost function CollectionRank(s: Scene): (rank: seq<nat>)
    requires Valid(s)
    ensures CollectionRanked(s, rank)
  {
    var rank :| CollectionRanked(s, rank); rank
  }

  /** The objects before index n whose parent is o, in the scene's order. */
  function ChildrenBelow(s: Scene, o: nat, n: nat): (r: seq<nat>)
    requires n <= |s.objects|
    ensures forall k :: 0 <= k < |r| ==> r[k] < n && s.objects[r[k]].parent == Some(o)
    ensures forall x :: 0 <= x < n && s.objects[x].parent == Some(o) ==> x in r
    ensures forall j, k :: 0 <= j < k < |r| ==> r[j] < r[k]
  {
    if n == 0 then []
    else ChildrenBelow(s, o, n - 1) + (if s.objects[n - 1].parent == Some(o) then [n - 1] else [])
  }

  /** `obj.children`: the objects whose parent is o, in the scene's order. */
  function Children(s: Scene, o: nat): (r: seq<nat>)
    ensures forall k :: 0 <= k < |r| ==> r[k] < |s.objects| && s.objects[r[k]].parent == Some(o)
    ensures forall x :: 0 <= x < |s.objects| && s.objects[x].parent == Some(o) ==> x in r
    ensures forall j, k :: 0 <= j < k < |r| ==> r[j] < r[k]
  {
    ChildrenBelow(s, o, |s.objects|)
  }

  // ---------------------------------------------------------------------
  // Objects of one collection in hierarchy order
  // ---------------------------------------------------------------------

  /**
   * `_dfs_object_children`: o, then, child by child, the tree of each
   * child of o that is linked to collection c.
   */
  function ObjectTree(s: Scene, c: nat, o: nat): (r: seq<nat>)
    requires Valid(s) && c < |s.collections| && o < |s.objects|
    ensures |r| > 0 && r[0] == o
    ensures forall k :: 0 <= k < |r| ==> r[k] < |s.objects|
    ensures forall k :: 0 < k < |r| ==> r[k] in s.collections[c].objects
    decreases |s.objects| - ParentRank(s)[o], 1
  {
    [o] + Forest(s, c, o, Children(s, o), 0)
  }

  /** The trees of the children chs[i..] of o that are linked to c, one after the other. */
  function Forest(s: Scene, c: nat, o: nat, chs: seq<nat>, i: nat): (r: seq<nat>)
    requires Valid(s) && c < |s.collections| && o < |s.objects| && i <= |chs|
    requires forall k :: 0 <= k < |chs| ==> chs[k] < |s.objects| && s.objects[chs[k]].parent == Some(o)
    ensures forall k :: 0 <= k < |r| ==> r[k] < |s.objects| && r[k] in s.collections[c].objects
    decreases |s.objects| - ParentRank(s)[o], 0, |chs| - i
  {
    if i == |chs| then []
    else (if chs[i] in s.collections[c].objects then ObjectTree(s, c, chs[i]) else []) + Forest(s, c, o, chs, i + 1)
  }

  /** Where a hierarchy starts in c: an object whose parent is None or is not linked to c. */
  predicate IsRoot(s: Scene, c: nat, o: nat)
    requires c < |s.collections|
  {
    o < |s.objects| && (s.objects[o].parent.None? || s.objects[o].parent.value !in s.collections[c].objects)
  }

  /** The roots among the first n objects linked to c, in collection order. */
  function RootsAmong(s: Scene, c: nat, n: nat): (r: seq<nat>)
    requires Linked(s) && c < |s.collections| && n <= |s.collections[c].objects|
    ensures forall x :: x in r <==> x in s.collections[c].objects[..n] && IsRoot(s, c, x)
  {
    var objs := s.collections[c].objects;
    if n == 0 then []
    else
      assert objs[..n] == objs[..n - 1] + [objs[n - 1]];
      RootsAmong(s, c, n - 1) + (if IsRoot(s, c, objs[n - 1]) then [objs[n - 1]] else [])
  }

  /** The trees of the objects rs, one after the other. */
  function Trees(s: Scene, c: nat, rs: seq<nat>): (r: seq<nat>)
    requires Valid(s) && c < |s.collections| && forall k :: 0 <= k < |rs| ==> rs[k] in s.collections[c].objects
    ensures forall k :: 0 <= k < |r| ==> r[k] in s.collections[c].objects
  {
    if rs == [] then []
    else
      var n := |rs| - 1;
      Trees(s, c, rs[..n]) + ObjectTree(s, c, rs[n])
  }

  /** `dfs_objects_in_collection`: the tree of each root of c, in collection order. */
  function CollectionHierarchy(s: Scene, c: nat): (r: seq<nat>)
    requires Valid(s) && c < |s.collections|
    ensures forall k :: 0 <= k < |r| ==> r[k] in s.collections[c].objects
  {
    var objs := s.collections[c].objects;
    var roots := RootsAmong(s, c, |objs|);
    assert objs[..|objs|] == objs;
    Trees(s, c, roots)
  }

  // ---------------------------------------------------------------------
  // Properties of the hierarchy order
  // ---------------------------------------------------------------------

  /** x is o, or x is linked to c and its parent is, within c, below o. */
  ghost predicate Below(s: Scene, c: nat, o: nat, x: nat)
    requires Valid(s) && c < |s.collections| && x < |s.objects|
    decreases ParentRank(s)[x]
  {
    x == o || (x in s.collections[c].objects && s.objects[x].parent.Some? && Below(s, c, o, s.objects[x].parent.value))
  }

  lemma {:induction false} BelowRank(s: Scene, c: nat, o: nat, x: nat)
    requires Valid(s) && c < |s.collections| && x < |s.objects| && Below(s, c, o, x)
    ensures o < |s.objects| && ParentRank(s)[o] <= ParentRank(s)[x]
    decreases ParentRank(s)[x]
  {
    if x != o {
      BelowRank(s, c, o, s.objects[x].parent.value);
    }
  }

  /** Two objects above the same object are one above the other. */
  lemma {:induction false} BelowChain(s: Scene, c: nat, a: nat, b: nat, x: nat)
    requires Valid(s) && c < |s.collections| && x < |s.objects| && Below(s, c, a, x) && Below(s, c, b, x)
    ensures a < |s.objects| && b < |s.objects| && (Below(s, c, a, b) || Below(s, c, b, a))
    decreases ParentRank(s)[x]
  {
    BelowRank(s, c, a, x);
    BelowRank(s, c, b, x);
    if x != a && x != b {
      BelowChain(s, c, a, b, s.objects[x].parent.value);
    }
  }

  /** Below a child of o, linked to c, is below o. */
  lemma {:induction false} BelowChild(s: Scene, c: nat, o: nat, ch: nat, x: nat)
    requires Valid(s) && c < |s.collections| && x < |s.objects| && ch < |s.objects|
    requires ch in s.collections[c].objects && s.objects[ch].parent == Some(o) && Below(s, c, ch, x)
    ensures Below(s, c, o, x)
    decreases ParentRank(s)[x]
  {
    if x != ch {
      BelowChild(s, c, o, ch, s.objects[x].parent.value);
    }
  }

  /** Strictly below o is below a child of o that is linked to c. */
  lemma {:induction false} ChildAbove(s: Scene, c: nat, o: nat, x: nat) returns (ch: nat)
    requires Valid(s) && c < |s.collections| && x < |s.objects| && Below(s, c, o, x) && x != o
    ensures ch < |s.objects| && ch in s.collections[c].objects && s.objects[ch].parent == Some(o) && Below(s, c, ch, x)
    decreases ParentRank(s)[x]
  {
    var p := s.objects[x].parent.value;
    if p == o {
      ch := x;
    } else {
      ch := ChildAbove(s, c, o, p);
    }
  }

  /** Two children of one parent have no object below both. */
  lemma SiblingsApart(s: Scene, c: nat, o: nat, a: nat, b: nat, x: nat)
    requires Valid(s) && c < |s.collections| && x < |s.objects| && a < |s.objects| && b < |s.objects|
    requires s.objects[a].parent == Some(o) && s.objects[b].parent == Some(o)
    requires Below(s, c, a, x) && Below(s, c, b, x)
    ensures a == b
  {
    BelowChain(s, c, a, b, x);
    if Below(s, c, a, b) && a != b {
      BelowRank(s, c, a, o);
    } else if Below(s, c, b, a) && a != b {
      BelowRank(s, c, b, o);
    }
  }

  /** Two roots of c have no object below both. */
  lemma RootsApart(s: Scene, c: nat, a: nat, b: nat, x: nat)
    requires Valid(s) && c < |s.collections| && x < |s.objects| && a < |s.objects| && b < |s.objects|
    requires a in s.collections[c].objects && b in s.collections[c].objects && IsRoot(s, c, a) && IsRoot(s, c, b)
    requires Below(s, c, a, x) && Below(s, c, b, x)
    ensures a == b
  {
    BelowChain(s, c, a, b, x);
  }

  /** An object linked to c lies below a root of c. */
  lemma {:induction false} RootAbove(s: Scene, c: nat, x: nat) returns (r: nat)
    requires Valid(s) && c < |s.collections| && x < |s.objects| && x in s.collections[c].objects
    ensures r < |s.objects| && r in s.collections[c].objects && IsRoot(s, c, r) && Below(s, c, r, x)
    decreases ParentRank(s)[x]
  {
    if IsRoot(s, c, x) {
      r := x;
    } else {
      r := RootAbove(s, c, s.objects[x].parent.value);
    }
  }

  /** An object of a forest lies in the tree of one of its children. */
  lemma {:induction false} ForestMemberTree(s: Scene, c: nat, o: nat, chs: seq<nat>, i: nat, x: nat) returns (j: nat)
    requires Valid(s) && c < |s.collections| && o < |s.objects| && i <= |chs|
    requires forall k :: 0 <= k < |chs| ==> chs[k] < |s.objects| && s.objects[chs[k]].parent == Some(o)
    requires x in Forest(s, c, o, chs, i)
    ensures i <= j < |chs| && chs[j] in s.collections[c].objects && x in ObjectTree(s, c, chs[j])
    decreases |chs| - i
  {
    if chs[i] in s.collections[c].objects && x in ObjectTree(s, c, chs[i]) {
      j := i;
    } else {
      j := ForestMemberTree(s, c, o, chs, i + 1, x);
    }
  }

  /** The tree of each child from i on, linked to c, lies in the forest. */
  lemma {:induction false} TreeInForest(s: Scene, c: nat, o: nat, chs: seq<nat>, i: nat, j: nat, x: nat)
    requires Valid(s) && c < |s.collections| && o < |s.objects| && i <= j < |chs|
    requires forall k :: 0 <= k < |chs| ==> chs[k] < |s.objects| && s.objects[chs[k]].parent == Some(o)
    requires chs[j] in s.collections[c].objects && x in ObjectTree(s, c, chs[j])
    ensures x in Forest(s, c, o, chs, i)
    decreases |chs| - i
  {
    if i < j {
      TreeInForest(s, c, o, chs, i + 1, j, x);
    }
  }

  /** What `_dfs_object_children` yields for o lies below o within c. */
  lemma {:induction false} ObjectTreeBelow(s: Scene, c: nat, o: nat, x: nat)
    requires Valid(s) && c < |s.collections| && o < |s.objects| && x < |s.objects| && x in ObjectTree(s, c, o)
    ensures Below(s, c, o, x)
    decreases |s.objects| - ParentRank(s)[o]
  {
    if x != o {
      var chs := Children(s, o);
      var j := ForestMemberTree(s, c, o, chs, 0, x);
      ObjectTreeBelow(s, c, chs[j], x);
      BelowChild(s, c, o, chs[j], x);
    }
  }

  /** Every object below o within c is yielded by `_dfs_object_children` for o. */
  lemma {:induction false} BelowInObjectTree(s: Scene, c: nat, o: nat, x: nat)
    requires Valid(s) && c < |s.collections| && o < |s.objects| && x < |s.objects| && Below(s, c, o, x)
    ensures x in ObjectTree(s, c, o)
    decreases |s.objects| - ParentRank(s)[o]
  {
    if x != o {
      var chs := Children(s, o);
      var ch := ChildAbove(s, c, o, x);
      var j := IndexOf(chs, ch);
      BelowInObjectTree(s, c, ch, x);
      TreeInForest(s, c, o, chs, 0, j, x);
    }
  }

  /** `_dfs_object_children` yields o and exactly the objects below o within c. */
  lemma ObjectTreeMembers(s: Scene, c: nat, o: nat)
    requires Valid(s) && c < |s.collections| && o < |s.objects|
    ensures forall x :: 0 <= x < |s.objects| ==> (x in ObjectTree(s, c, o) <==> Below(s, c, o, x))
  {
    forall x | 0 <= x < |s.objects|
      ensures x in ObjectTree(s, c, o) <==> Below(s, c, o, x)
    {
      if x in ObjectTree(s, c, o) {
        ObjectTreeBelow(s, c, o, x);
      }
      if Below(s, c, o, x) {
        BelowInObjectTree(s, c, o, x);
      }
    }
  }

  /** The parent of r[k] is in before or earlier in r. */
  ghost predicate ParentEarlier(s: Scene, before: seq<nat>, r: seq<nat>, k: nat)
    requires k < |r|
  {
    r[k] < |s.objects| && s.objects[r[k]].parent.Some? && s.objects[r[k]].parent.value in before + r[..k]
  }

  /** Every object of r has its parent in before or earlier in r. */
  ghost predicate ParentsEarlier(s: Scene, before: seq<nat>, r: seq<nat>)
  {
    forall k :: 0 <= k < |r| ==> ParentEarlier(s, before, r, k)
  }

  lemma ParentsEarlierConcat(s: Scene, before: seq<nat>, a: seq<nat>, b: seq<nat>)
    requires ParentsEarlier(s, before, a) && ParentsEarlier(s, before, b)
    ensures ParentsEarlier(s, before, a + b)
  {
    forall k | 0 <= k < |a + b|
      ensures ParentEarlier(s, before, a + b, k)
    {
      if k < |a| {
        assert ParentEarlier(s, before, a, k);
        assert (a + b)[..k] == a[..k];
      } else {
        assert ParentEarlier(s, before, b, k - |a|);
        assert (a + b)[..k] == a + b[..k - |a|];
      }
    }
  }

  lemma {:induction false} ForestOrder(s: Scene, c: nat, o: nat, chs: seq<nat>, i: nat)
    requires Valid(s) && c < |s.collections| && o < |s.objects| && i <= |chs|
    requires forall k :: 0 <= k < |chs| ==> chs[k] < |s.objects| && s.objects[chs[k]].parent == Some(o)
    ensures ParentsEarlier(s, [o], Forest(s, c, o, chs, i))
    decreases |s.objects| - ParentRank(s)[o], 0, |chs| - i
  {
    if i < |chs| {
      ForestOrder(s, c, o, chs, i + 1);
      if chs[i] in s.collections[c].objects {
        TreeOrder(s, c, o, chs[i]);
        ParentsEarlierConcat(s, [o], ObjectTree(s, c, chs[i]), Forest(s, c, o, chs, i + 1));
      } else {
        assert Forest(s, c, o, chs, i) == Forest(s, c, o, chs, i + 1);
      }
    }
  }

  /** The tree of a child of o has every object's parent earlier, counting o. */
  lemma {:induction false} TreeOrder(s: Scene, c: nat, o: nat, ch: nat)
    requires Valid(s) && c < |s.collections| && ch < |s.objects| && s.objects[ch].parent == Some(o)
    ensures ParentsEarlier(s, [o], ObjectTree(s, c, ch))
    decreases |s.objects| - ParentRank(s)[ch], 1
  {
    var forest := Forest(s, c, ch, Children(s, ch), 0);
    ForestOrder(s, c, ch, Children(s, ch), 0);
    var t := ObjectTree(s, c, ch);
    forall k | 0 <= k < |t|
      ensures ParentEarlier(s, [o], t, k)
    {
      if k > 0 {
        assert ParentEarlier(s, [ch], forest, k - 1);
        assert forest[k - 1] == t[k] && t[..k] == [ch] + forest[..k - 1];
      }
    }
  }

  /**
   * `_dfs_object_children` yields o first and every later object after its
   * parent: a pre-order of o's hierarchy.
   */
  lemma ObjectTreeOrder(s: Scene, c: nat, o: nat)
    requires Valid(s) && c < |s.collections| && o < |s.objects|
    ensures var r := ObjectTree(s, c, o);
      forall k :: 0 < k < |r| ==> s.objects[r[k]].parent.Some? && s.objects[r[k]].parent.value in r[..k]
  {
    var forest := Forest(s, c, o, Children(s, o), 0);
    ForestOrder(s, c, o, Children(s, o), 0);
    var r := ObjectTree(s, c, o);
    forall k | 0 < k < |r|
      ensures s.objects[r[k]].parent.Some? && s.objects[r[k]].parent.value in r[..k]
    {
      assert ParentEarlier(s, [o], forest, k - 1);
      assert forest[k - 1] == r[k] && r[..k] == [o] + forest[..k - 1];
    }
  }

  lemma DistinctConcat<T>(a: seq<T>, b: seq<T>)
    requires Distinct(a) && Distinct(b) && forall x :: x in a ==> x !in b
    ensures Distinct(a + b)
  {
    forall i, j | 0 <= i < j < |a + b|
      ensures (a + b)[i] != (a + b)[j]
    {
      if i < |a| && j >= |a| {
        assert (a + b)[i] in a && (a + b)[j] in b;
      }
    }
  }

  lemma {:induction false} ForestDistinct(s: Scene, c: nat, o: nat, chs: seq<nat>, i: nat)
    requires Valid(s) && c < |s.collections| && o < |s.objects| && i <= |chs| && Distinct(chs)
    requires forall k :: 0 <= k < |chs| ==> chs[k] < |s.objects| && s.objects[chs[k]].parent == Some(o)
    ensures Distinct(Forest(s, c, o, chs, i))
    decreases |s.objects| - ParentRank(s)[o], 0, |chs| - i
  {
    if i < |chs| {
      ForestDistinct(s, c, o, chs, i + 1);
      if chs[i] in s.collections[c].objects {
        var rest := Forest(s, c, o, chs, i + 1);
        ObjectTreeDistinct(s, c, chs[i]);
        forall x | x in ObjectTree(s, c, chs[i])
          ensures x !in rest
        {
          if x in rest {
            var j := ForestMemberTree(s, c, o, chs, i + 1, x);
            ObjectTreeBelow(s, c, chs[i], x);
            ObjectTreeBelow(s, c, chs[j], x);
            SiblingsApart(s, c, o, chs[i], chs[j], x);
          }
        }
        DistinctConcat(ObjectTree(s, c, chs[i]), rest);
      }
    }
  }

  /** `_dfs_object_children` yields no object twice. */
  lemma {:induction false} ObjectTreeDistinct(s: Scene, c: nat, o: nat)
    requires Valid(s) && c < |s.collections| && o < |s.objects|
    ensures Distinct(ObjectTree(s, c, o))
    decreases |s.objects| - ParentRank(s)[o], 1
  {
    var chs := Children(s, o);
    var forest := Forest(s, c, o, chs, 0);
    ForestDistinct(s, c, o, chs, 0);
    if o in forest {
      var j := ForestMemberTree(s, c, o, chs, 0, o);
      ObjectTreeBelow(s, c, chs[j], o);
      BelowRank(s, c, chs[j], o);
    }
    DistinctConcat([o], forest);
  }

  lemma {:induction false} TreesMembers(s: Scene, c: nat, rs: seq<nat>)
    requires Valid(s) && c < |s.collections| && forall k :: 0 <= k < |rs| ==> rs[k] in s.collections[c].objects
    ensures forall x :: x in Trees(s, c, rs) <==> exists j :: 0 <= j < |rs| && x in ObjectTree(s, c, rs[j])
  {
    if rs != [] {
      var n := |rs| - 1;
      TreesMembers(s, c, rs[..n]);
    }
  }

  lemma {:induction false} TreesDistinct(s: Scene, c: nat, rs: seq<nat>)
    requires Valid(s) && c < |s.collections| && Distinct(rs)
    requires forall k :: 0 <= k < |rs| ==> rs[k] in s.collections[c].objects && rs[k] < |s.objects| && IsRoot(s, c, rs[k])
    ensures Distinct(Trees(s, c, rs))
  {
    if rs != [] {
      var n := |rs| - 1;
      TreesDistinct(s, c, rs[..n]);
      TreesMembers(s, c, rs[..n]);
      ObjectTreeDistinct(s, c, rs[n]);
      forall x | x in Trees(s, c, rs[..n])
        ensures x !in ObjectTree(s, c, rs[n])
      {
        var j :| 0 <= j < n && x in ObjectTree(s, c, rs[j]);
        if x in ObjectTree(s, c, rs[n]) {
          ObjectTreeBelow(s, c, rs[j], x);
          ObjectTreeBelow(s, c, rs[n], x);
          RootsApart(s, c, rs[j], rs[n], x);
        }
      }
      DistinctConcat(Trees(s, c, rs[..n]), ObjectTree(s, c, rs[n]));
    }
  }

  lemma {:induction false} RootsDistinct(s: Scene, c: nat, n: nat)
    requires Linked(s) && c < |s.collections| && n <= |s.collections[c].objects| && Distinct(s.collections[c].objects)
    ensures Distinct(RootsAmong(s, c, n))
  {
    if n > 0 {
      var objs := s.collections[c].objects;
      RootsDistinct(s, c, n - 1);
      assert objs[..n] == objs[..n - 1] + [objs[n - 1]];
      assert objs[n - 1] !in objs[..n - 1];
      DistinctConcat(RootsAmong(s, c, n - 1), if IsRoot(s, c, objs[n - 1]) then [objs[n - 1]] else []);
    }
  }

  /**
   * `dfs_objects_in_collection` yields exactly the objects linked to c:
   * each lies in the tree of the root above it.
   */
  lemma CollectionHierarchyMembers(s: Scene, c: nat)
    requires Valid(s) && c < |s.collections|
    ensures forall x :: x in CollectionHierarchy(s, c) <==> x in s.collections[c].objects
  {
    var objs := s.collections[c].objects;
    assert objs[..|objs|] == objs;
    var roots := RootsAmong(s, c, |objs|);
    TreesMembers(s, c, roots);
    forall x | x in objs
      ensures x in Trees(s, c, roots)
    {
      var r := RootAbove(s, c, x);
      BelowInObjectTree(s, c, r, x);
      var j := IndexOf(roots, r);
      assert x in ObjectTree(s, c, roots[j]);
    }
  }

  /**
   * For a collection that links each object once, `dfs_objects_in_collection`
   * yields every object linked to it exactly once.
   */
  lemma CollectionHierarchyExact(s: Scene, c: nat)
    requires Valid(s) && c < |s.collections| && Distinct(s.collections[c].objects)
    ensures var r := CollectionHierarchy(s, c);
      && Distinct(r)
      && (forall x :: x in r <==> x in s.collections[c].objects)
  {
    var objs := s.collections[c].objects;
    assert objs[..|objs|] == objs;
    RootsDistinct(s, c, |objs|);
    var rs := RootsAmong(s, c, |objs|);
    forall k | 0 <= k < |rs|
      ensures rs[k] in objs && rs[k] < |s.objects| && IsRoot(s, c, rs[k])
    {
      assert rs[k] in rs;
    }
    TreesDistinct(s, c, rs);
    CollectionHierarchyMembers(s, c);
  }

  // ---------------------------------------------------------------------
  // Walks with a visited set
  // ---------------------------------------------------------------------

  /**
   * `DfsObject`: a yielded object and the instancing objects it was reached
   * through, outermost first. The world matrix is not part of this model.
   */
  datatype DfsObject = DfsObject(obj: nat, instanceObjects: seq<nat>)

  /** `instance_objects[-1] if instance_objects else None`. */
  function LastInstance(path: seq<nat>): Option<nat>
  {
    if path == [] then None else Some(path[|path| - 1])
  }

  /** The pair the walks remember for a yielded object. */
  function PairOf(d: DfsObject): (nat, Option<nat>)
  {
    (d.obj, LastInstance(d.instanceObjects))
  }

  /** `DfsObject.is_visible`: the innermost instancing object's visibility, or the object's own. */
  function IsVisible(s: Scene, d: DfsObject): bool
    requires d.obj < |s.objects| && forall j :: 0 <= j < |d.instanceObjects| ==> d.instanceObjects[j] < |s.objects|
  {
    if d.instanceObjects != [] then s.objects[d.instanceObjects[|d.instanceObjects| - 1]].visible
    else s.objects[d.obj].visible
  }

  /** `DfsObject.is_selected`: the innermost instancing object's selection, or the object's own. */
  function IsSelected(s: Scene, d: DfsObject): bool
    requires d.obj < |s.objects| && forall j :: 0 <= j < |d.instanceObjects| ==> d.instanceObjects[j] < |s.objects|
  {
    if d.instanceObjects != [] then s.objects[d.instanceObjects[|d.instanceObjects| - 1]].selected
    else s.objects[d.obj].selected
  }

  /** What a walk has yielded so far and the pairs it has visited. */
  datatype Walk = Walk(yielded: seq<DfsObject>, visited: set<(nat, Option<nat>)>)

  /**
   * `_dfs_collection_objects_recursive`: the child collections' walks, then
   * the collection's own objects in hierarchy order.
   */
  function CollectionWalk(s: Scene, c: nat, path: seq<nat>, w: Walk): Walk
    requires Valid(s) && c < |s.collections|
    decreases CollectionRank(s)[c], 2, 0
  {
    ObjectsWalk(s, c, path, CollectionHierarchy(s, c), 0, ChildCollectionsWalk(s, c, path, 0, w))
  }

  /** The walks of the child collections of c from index i on, each continuing the last. */
  function ChildCollectionsWalk(s: Scene, c: nat, path: seq<nat>, i: nat, w: Walk): Walk
    requires Valid(s) && c < |s.collections| && i <= |s.collections[c].children|
    decreases CollectionRank(s)[c], 1, |s.collections[c].children| - i
  {
    var children := s.collections[c].children;
    if i == |children| then w
    else
      assert children[i] in children;
      ChildCollectionsWalk(s, c, path, i + 1, CollectionWalk(s, children[i], path, w))
  }

  /** The objects objs[i..] of c in turn, each continuing the walk of the one before. */
  function ObjectsWalk(s: Scene, c: nat, path: seq<nat>, objs: seq<nat>, i: nat, w: Walk): Walk
    requires Valid(s) && c < |s.collections| && i <= |objs|
    requires forall k :: 0 <= k < |objs| ==> objs[k] in s.collections[c].objects
    decreases CollectionRank(s)[c], 1, |objs| - i
  {
    if i == |objs| then w
    else ObjectsWalk(s, c, path, objs, i + 1, ObjectStep(s, c, path, objs[i], w))
  }

  /**
   * One object o of c: a visited pair is skipped, an instancing object walks
   * its instance collection with itself appended to the path, and any other
   * object is yielded and its pair visited.
   */
  function ObjectStep(s: Scene, c: nat, path: seq<nat>, o: nat, w: Walk): Walk
    requires Valid(s) && c < |s.collections| && o in s.collections[c].objects
    decreases CollectionRank(s)[c], 0, 0
  {
    var pair := (o, LastInstance(path));
    if pair in w.visited then w
    else match s.objects[o].instanceCollection
      case Some(ic) => CollectionWalk(s, ic, path + [o], w)
      case None => Walk(w.yielded + [DfsObject(o, path)], w.visited + {pair})
  }

  /**
   * `layer_collection_objects_recursive`: the walks of the child layer
   * collections, then the collection's own walk with no instance path.
   */
  function LayerWalk(s: Scene, c: nat, w: Walk): Walk
    requires Valid(s) && c < |s.collections|
    decreases CollectionRank(s)[c], 4, 0
  {
    CollectionWalk(s, c, [], LayerChildrenWalk(s, c, 0, w))
  }

  function LayerChildrenWalk(s: Scene, c: nat, i: nat, w: Walk): Walk
    requires Valid(s) && c < |s.collections| && i <= |s.collections[c].children|
    decreases CollectionRank(s)[c], 3, |s.collections[c].children| - i
  {
    var children := s.collections[c].children;
    if i == |children| then w
    else
      assert children[i] in children;
      LayerChildrenWalk(s, c, i + 1, LayerWalk(s, children[i], w))
  }

  /** The objects `dfs_collection_objects` yields for collection c. */
  function CollectionDfs(s: Scene, c: nat): seq<DfsObject>
    requires Valid(s) && c < |s.collections|
  {
    CollectionWalk(s, c, [], Walk([], {})).yielded
  }

  /** The objects `dfs_view_layer_objects` yields for the view layer whose layer collections mirror collection root. */
  function ViewLayerDfs(s: Scene, root: nat): seq<DfsObject>
    requires Valid(s) && root < |s.collections|
  {
    LayerWalk(s, root, Walk([], {})).yielded
  }

  /** The running state of one walk: the objects yielded and the visited pairs. */
  class Traversal {
    var yielded: seq<DfsObject>
    var visited: set<(nat, Option<nat>)>

    function State(): Walk
      reads this
    {
      Walk(yielded, visited)
    }

    constructor ()
      ensures yielded == [] && visited == {}
    {
      yielded := [];
      visited := {};
    }

    /** `_dfs_collection_objects_recursive` with this walk's visited set. */
    method CollectionObjects(s: Scene, c: nat, path: seq<nat>)
      requires Valid(s) && c < |s.collections|
      modifies this
      ensures State() == CollectionWalk(s, c, path, old(State()))
      decreases CollectionRank(s)[c], 2
    {
      ghost var start := State();
      var children := s.collections[c].children;
      for i := 0 to |children|
        invariant ChildCollectionsWalk(s, c, path, 0, start) == ChildCollectionsWalk(s, c, path, i, State())
      {
        assert children[i] in children;
        CollectionObjects(s, children[i], path);
      }
      ghost var mid := State();
      var objs := CollectionHierarchy(s, c);
      for i := 0 to |objs|
        invariant ObjectsWalk(s, c, path, objs, 0, mid) == ObjectsWalk(s, c, path, objs, i, State())
      {
        var o := objs[i];
        var pair := (o, LastInstance(path));
        if pair !in visited {
          match s.objects[o].instanceCollection {
            case Some(ic) =>
              CollectionObjects(s, ic, path + [o]);
            case None =>
              yielded := yielded + [DfsObject(o, path)];
              visited := visited + {pair};
          }
        }
      }
    }

    /** `layer_collection_objects_recursive` with this walk's visited set. */
    method LayerObjects(s: Scene, c: nat)
      requires Valid(s) && c < |s.collections|
      modifies this
      ensures State() == LayerWalk(s, c, old(State()))
      decreases CollectionRank(s)[c], 4
    {
      ghost var start := State();
      var children := s.collections[c].children;
      for i := 0 to |children|
        invariant LayerChildrenWalk(s, c, 0, start) == LayerChildrenWalk(s, c, i, State())
      {
        assert children[i] in children;
        LayerObjects(s, children[i]);
      }
      CollectionObjects(s, c, []);
    }
  }

  /** `dfs_collection_objects`: one walk of c with a fresh visited set. */
  method DfsCollectionObjects(s: Scene, c: nat) returns (r: seq<DfsObject>)
    requires Valid(s) && c < |s.collections|
    ensures r == CollectionDfs(s, c)
  {
    var t := new Traversal();
    t.CollectionObjects(s, c, []);
    r := t.yielded;
  }

  /** `dfs_view_layer_objects`: the layer collections' walks, all with one visited set. */
  method DfsViewLayerObjects(s: Scene, root: nat) returns (r: seq<DfsObject>)
    requires Valid(s) && root < |s.collections|
    ensures r == ViewLayerDfs(s, root)
  {
    var t := new Traversal();
    t.LayerObjects(s, root);
    r := t.yielded;
  }

  // ---------------------------------------------------------------------
  // Properties of the walks
  // ---------------------------------------------------------------------

  /** The pairs of the objects in ys. */
  function PairSet(ys: seq<DfsObject>): set<(nat, Option<nat>)>
  {
    set k | 0 <= k < |ys| :: PairOf(ys[k])
  }

  /** The visited pairs are those of the yielded objects, and no two yielded objects share a pair. */
  ghost predicate WalkOk(w: Walk)
  {
    && w.visited == PairSet(w.yielded)
    && forall j, k :: 0 <= j < k < |w.yielded| ==> PairOf(w.yielded[j]) != PairOf(w.yielded[k])
  }

  /**
   * d was reached from path: its instance path extends path by instancing
   * objects only, and d itself instances no collection.
   */
  ghost predicate Reached(s: Scene, path: seq<nat>, d: DfsObject)
  {
    && |path| <= |d.instanceObjects| && d.instanceObjects[..|path|] == path
    && d.obj < |s.objects| && s.objects[d.obj].instanceCollection.None?
    && forall j :: |path| <= j < |d.instanceObjects| ==>
         d.instanceObjects[j] < |s.objects| && s.objects[d.instanceObjects[j]].instanceCollection.Some?
  }

  /** r keeps what w yielded and visited, and everything r adds was reached from path. */
  ghost predicate Extends(s: Scene, path: seq<nat>, w: Walk, r: Walk)
  {
    && |w.yielded| <= |r.yielded| && r.yielded[..|w.yielded|] == w.yielded && w.visited <= r.visited
    && forall k :: |w.yielded| <= k < |r.yielded| ==> Reached(s, path, r.yielded[k])
  }

  lemma ExtendsTrans(s: Scene, path: seq<nat>, a: Walk, b: Walk, c: Walk)
    requires Extends(s, path, a, b) && Extends(s, path, b, c)
    ensures Extends(s, path, a, c)
  {
    assert c.yielded[..|a.yielded|] == c.yielded[..|b.yielded|][..|a.yielded|];
    forall k | |a.yielded| <= k < |c.yielded|
      ensures Reached(s, path, c.yielded[k])
    {
      if k < |b.yielded| {
        assert c.yielded[k] == c.yielded[..|b.yielded|][k];
      }
    }
  }

  /** What was reached through one more instancing object was reached from the shorter path. */
  lemma ExtendsThrough(s: Scene, path: seq<nat>, o: nat, a: Walk, b: Walk)
    requires o < |s.objects| && s.objects[o].instanceCollection.Some? && Extends(s, path + [o], a, b)
    ensures Extends(s, path, a, b)
  {
    forall k | |a.yielded| <= k < |b.yielded|
      ensures Reached(s, path, b.yielded[k])
    {
      var io := b.yielded[k].instanceObjects;
      assert io[..|path| + 1] == path + [o];
      assert io[..|path|] == io[..|path| + 1][..|path|];
      assert io[|path|] == io[..|path| + 1][|path|];
    }
  }

  lemma PairSetSnoc(ys: seq<DfsObject>, d: DfsObject)
    ensures PairSet(ys + [d]) == PairSet(ys) + {PairOf(d)}
  {
    forall p | p in PairSet(ys)
      ensures p in PairSet(ys + [d])
    {
      var k :| 0 <= k < |ys| && PairOf(ys[k]) == p;
      assert (ys + [d])[k] == ys[k];
    }
    assert (ys + [d])[|ys|] == d;
  }

  /** Yielding an object whose pair is not visited keeps the walk's bookkeeping. */
  lemma YieldStep(s: Scene, path: seq<nat>, o: nat, w: Walk)
    requires WalkOk(w) && (o, LastInstance(path)) !in w.visited
    requires o < |s.objects| && s.objects[o].instanceCollection.None?
    ensures var r := Walk(w.yielded + [DfsObject(o, path)], w.visited + {(o, LastInstance(path))});
      WalkOk(r) && Extends(s, path, w, r)
  {
    var d := DfsObject(o, path);
    var ys := w.yielded + [d];
    PairSetSnoc(w.yielded, d);
    forall j, k | 0 <= j < k < |ys|
      ensures PairOf(ys[j]) != PairOf(ys[k])
    {
      if k == |w.yielded| {
        assert PairOf(ys[j]) in PairSet(w.yielded);
      }
    }
    assert ys[..|w.yielded|] == w.yielded;
    assert d.instanceObjects[..|path|] == path;
  }

  /**
   * A collection's walk keeps the bookkeeping: every pair it yields is new
   * and visited once, and every object it adds is a non-instancing object
   * reached through instancing objects only.
   */
  lemma {:induction false} CollectionWalkGrows(s: Scene, c: nat, path: seq<nat>, w: Walk)
    requires Valid(s) && c < |s.collections| && WalkOk(w)
    ensures var r := CollectionWalk(s, c, path, w); WalkOk(r) && Extends(s, path, w, r)
    decreases CollectionRank(s)[c], 2, 0
  {
    var mid := ChildCollectionsWalk(s, c, path, 0, w);
    ChildCollectionsWalkGrows(s, c, path, 0, w);
    ObjectsWalkGrows(s, c, path, CollectionHierarchy(s, c), 0, mid);
    ExtendsTrans(s, path, w, mid, CollectionWalk(s, c, path, w));
  }

  lemma {:induction false} ChildCollectionsWalkGrows(s: Scene, c: nat, path: seq<nat>, i: nat, w: Walk)
    requires Valid(s) && c < |s.collections| && i <= |s.collections[c].children| && WalkOk(w)
    ensures var r := ChildCollectionsWalk(s, c, path, i, w); WalkOk(r) && Extends(s, path, w, r)
    decreases CollectionRank(s)[c], 1, |s.collections[c].children| - i
  {
    var children := s.collections[c].children;
    if i == |children| {
      assert w.yielded[..|w.yielded|] == w.yielded;
    } else {
      assert children[i] in children;
      var next := CollectionWalk(s, children[i], path, w);
      CollectionWalkGrows(s, children[i], path, w);
      ChildCollectionsWalkGrows(s, c, path, i + 1, next);
      ExtendsTrans(s, path, w, next, ChildCollectionsWalk(s, c, path, i, w));
    }
  }

  lemma {:induction false} ObjectsWalkGrows(s: Scene, c: nat, path: seq<nat>, objs: seq<nat>, i: nat, w: Walk)
    requires Valid(s) && c < |s.collections| && i <= |objs| && WalkOk(w)
    requires forall k :: 0 <= k < |objs| ==> objs[k] in s.collections[c].objects
    ensures var r := ObjectsWalk(s, c, path, objs, i, w); WalkOk(r) && Extends(s, path, w, r)
    decreases CollectionRank(s)[c], 1, |objs| - i
  {
    if i == |objs| {
      assert w.yielded[..|w.yielded|] == w.yielded;
    } else {
      var next := ObjectStep(s, c, path, objs[i], w);
      ObjectStepGrows(s, c, path, objs[i], w);
      ObjectsWalkGrows(s, c, path, objs, i + 1, next);
      ExtendsTrans(s, path, w, next, ObjectsWalk(s, c, path, objs, i, w));
    }
  }

  lemma {:induction false} ObjectStepGrows(s: Scene, c: nat, path: seq<nat>, o: nat, w: Walk)
    requires Valid(s) && c < |s.collections| && o in s.collections[c].objects && WalkOk(w)
    ensures var r := ObjectStep(s, c, path, o, w); WalkOk(r) && Extends(s, path, w, r)
    decreases CollectionRank(s)[c], 0, 0
  {
    var pair := (o, LastInstance(path));
    if pair in w.visited {
      assert w.yielded[..|w.yielded|] == w.yielded;
    } else if s.objects[o].instanceCollection.Some? {
      CollectionWalkGrows(s, s.objects[o].instanceCollection.value, path + [o], w);
      ExtendsThrough(s, path, o, w, ObjectStep(s, c, path, o, w));
    } else {
      YieldStep(s, path, o, w);
    }
  }

  lemma {:induction false} LayerWalkGrows(s: Scene, c: nat, w: Walk)
    requires Valid(s) && c < |s.collections| && WalkOk(w)
    ensures var r := LayerWalk(s, c, w); WalkOk(r) && Extends(s, [], w, r)
    decreases CollectionRank(s)[c], 4, 0
  {
    var mid := LayerChildrenWalk(s, c, 0, w);
    LayerChildrenWalkGrows(s, c, 0, w);
    CollectionWalkGrows(s, c, [], mid);
    ExtendsTrans(s, [], w, mid, LayerWalk(s, c, w));
  }

  lemma {:induction false} LayerChildrenWalkGrows(s: Scene, c: nat, i: nat, w: Walk)
    requires Valid(s) && c < |s.collections| && i <= |s.collections[c].children| && WalkOk(w)
    ensures var r := LayerChildrenWalk(s, c, i, w); WalkOk(r) && Extends(s, [], w, r)
    decreases CollectionRank(s)[c], 3, |s.collections[c].children| - i
  {
    var children := s.collections[c].children;
    if i == |children| {
      assert w.yielded[..|w.yielded|] == w.yielded;
    } else {
      assert children[i] in children;
      var next := LayerWalk(s, children[i], w);
      LayerWalkGrows(s, children[i], w);
      LayerChildrenWalkGrows(s, c, i + 1, next);
      ExtendsTrans(s, [], w, next, LayerChildrenWalk(s, c, i, w));
    }
  }

  /** An object that instances no collection, with last as its innermost instancer, has its pair in pairs. */
  ghost predicate PairIn(s: Scene, x: nat, last: Option<nat>, pairs: set<(nat, Option<nat>)>)
  {
    x < |s.objects| && s.objects[x].instanceCollection.None? ==> (x, last) in pairs
  }

  /**
   * Every object that instances no collection and is linked to c, or to a
   * collection nested in c, has its pair with innermost instancer last in pairs.
   */
  ghost predicate Covers(s: Scene, c: nat, last: Option<nat>, pairs: set<(nat, Option<nat>)>)
    requires Valid(s) && c < |s.collections|
    decreases CollectionRank(s)[c]
  {
    && (forall x :: x in s.collections[c].objects ==> PairIn(s, x, last, pairs))
    && (forall d :: d in s.collections[c].children ==> Covers(s, d, last, pairs))
  }

  lemma {:induction false} CoversMore(s: Scene, c: nat, last: Option<nat>, pairs: set<(nat, Option<nat>)>, more: set<(nat, Option<nat>)>)
    requires Valid(s) && c < |s.collections| && Covers(s, c, last, pairs) && pairs <= more
    ensures Covers(s, c, last, more)
    decreases CollectionRank(s)[c]
  {
    forall d | d in s.collections[c].children
      ensures Covers(s, d, last, more)
    {
      CoversMore(s, d, last, pairs, more);
    }
  }

  /** The object loop visits the pair of each object from i on that instances no collection. */
  lemma {:induction false} ObjectsWalkVisits(s: Scene, c: nat, path: seq<nat>, objs: seq<nat>, i: nat, w: Walk)
    requires Valid(s) && c < |s.collections| && i <= |objs| && WalkOk(w)
    requires forall k :: 0 <= k < |objs| ==> objs[k] in s.collections[c].objects
    ensures var r := ObjectsWalk(s, c, path, objs, i, w);
      forall j :: i <= j < |objs| ==> PairIn(s, objs[j], LastInstance(path), r.visited)
    decreases |objs| - i
  {
    if i < |objs| {
      var next := ObjectStep(s, c, path, objs[i], w);
      ObjectStepGrows(s, c, path, objs[i], w);
      ObjectsWalkVisits(s, c, path, objs, i + 1, next);
      ObjectsWalkGrows(s, c, path, objs, i + 1, next);
    }
  }

  /**
   * A collection's walk visits, with the path's innermost instancer, every
   * object that instances no collection and is linked to the collection or
   * to a collection nested in it.
   */
  lemma {:induction false} CollectionWalkCovers(s: Scene, c: nat, path: seq<nat>, w: Walk)
    requires Valid(s) && c < |s.collections| && WalkOk(w)
    ensures Covers(s, c, LastInstance(path), CollectionWalk(s, c, path, w).visited)
    decreases CollectionRank(s)[c], 2, 0
  {
    var mid := ChildCollectionsWalk(s, c, path, 0, w);
    var objs := CollectionHierarchy(s, c);
    var r := CollectionWalk(s, c, path, w);
    ChildCollectionsWalkCovers(s, c, path, 0, w);
    ChildCollectionsWalkGrows(s, c, path, 0, w);
    ObjectsWalkGrows(s, c, path, objs, 0, mid);
    ObjectsWalkVisits(s, c, path, objs, 0, mid);
    CollectionHierarchyMembers(s, c);
    forall x | x in s.collections[c].objects
      ensures PairIn(s, x, LastInstance(path), r.visited)
    {
      var j := IndexOf(objs, x);
    }
    assert s.collections[c].children[0..] == s.collections[c].children;
    forall d | d in s.collections[c].children
      ensures Covers(s, d, LastInstance(path), r.visited)
    {
      CoversMore(s, d, LastInstance(path), mid.visited, r.visited);
    }
  }

  lemma {:induction false} ChildCollectionsWalkCovers(s: Scene, c: nat, path: seq<nat>, i: nat, w: Walk)
    requires Valid(s) && c < |s.collections| && i <= |s.collections[c].children| && WalkOk(w)
    ensures var r := ChildCollectionsWalk(s, c, path, i, w);
      forall d :: d in s.collections[c].children[i..] && d < |s.collections| ==> Covers(s, d, LastInstance(path), r.visited)
    decreases CollectionRank(s)[c], 1, |s.collections[c].children| - i
  {
    var children := s.collections[c].children;
    if i < |children| {
      assert children[i] in children;
      var next := CollectionWalk(s, children[i], path, w);
      var r := ChildCollectionsWalk(s, c, path, i, w);
      CollectionWalkGrows(s, children[i], path, w);
      CollectionWalkCovers(s, children[i], path, w);
      ChildCollectionsWalkCovers(s, c, path, i + 1, next);
      ChildCollectionsWalkGrows(s, c, path, i + 1, next);
      CoversMore(s, children[i], LastInstance(path), next.visited, r.visited);
      assert children[i..] == [children[i]] + children[i + 1..];
    }
  }

  /** d was yielded by c's own object loop: directly, or inside an instance entered from one of c's objects. */
  ghost predicate OwnedBy(s: Scene, c: nat, path: seq<nat>, d: DfsObject)
    requires c < |s.collections|
  {
    && (d.instanceObjects == path ==> d.obj in s.collections[c].objects)
    && (|d.instanceObjects| > |path| ==> d.instanceObjects[|path|] in s.collections[c].objects)
  }

  lemma {:induction false} ObjectsWalkOwned(s: Scene, c: nat, path: seq<nat>, objs: seq<nat>, i: nat, w: Walk)
    requires Valid(s) && c < |s.collections| && i <= |objs| && WalkOk(w)
    requires forall k :: 0 <= k < |objs| ==> objs[k] in s.collections[c].objects
    ensures var r := ObjectsWalk(s, c, path, objs, i, w);
      forall k :: |w.yielded| <= k < |r.yielded| ==> OwnedBy(s, c, path, r.yielded[k])
    decreases |objs| - i
  {
    if i < |objs| {
      var o := objs[i];
      var next := ObjectStep(s, c, path, o, w);
      var r := ObjectsWalk(s, c, path, objs, i, w);
      ObjectStepGrows(s, c, path, o, w);
      ObjectsWalkOwned(s, c, path, objs, i + 1, next);
      ObjectsWalkGrows(s, c, path, objs, i + 1, next);
      forall k | |w.yielded| <= k < |next.yielded|
        ensures OwnedBy(s, c, path, r.yielded[k])
      {
        assert r.yielded[k] == r.yielded[..|next.yielded|][k];
        if (o, LastInstance(path)) !in w.visited && s.objects[o].instanceCollection.Some? {
          CollectionWalkGrows(s, s.objects[o].instanceCollection.value, path + [o], w);
          var io := next.yielded[k].instanceObjects;
          assert io[..|path| + 1] == path + [o];
          assert io[|path|] == io[..|path| + 1][|path|];
        }
      }
    }
  }

  /**
   * `_dfs_collection_objects_recursive` yields the child collections'
   * objects first; everything after them comes from the collection's own
   * objects.
   */
  lemma ChildCollectionsFirst(s: Scene, c: nat, path: seq<nat>, w: Walk)
    requires Valid(s) && c < |s.collections| && WalkOk(w)
    ensures var mid := ChildCollectionsWalk(s, c, path, 0, w);
      var r := CollectionWalk(s, c, path, w);
      && |mid.yielded| <= |r.yielded| && r.yielded[..|mid.yielded|] == mid.yielded
      && forall k :: |mid.yielded| <= k < |r.yielded| ==> OwnedBy(s, c, path, r.yielded[k])
  {
    var mid := ChildCollectionsWalk(s, c, path, 0, w);
    ChildCollectionsWalkGrows(s, c, path, 0, w);
    ObjectsWalkGrows(s, c, path, CollectionHierarchy(s, c), 0, mid);
    ObjectsWalkOwned(s, c, path, CollectionHierarchy(s, c), 0, mid);
  }

  /** A pair with no instancer is the pair of an object yielded with an empty instance path. */
  lemma PairWithoutInstancer(ys: seq<DfsObject>, x: nat)
    ensures (x, None) in PairSet(ys) <==> DfsObject(x, []) in ys
  {
    if (x, None) in PairSet(ys) {
      var k :| 0 <= k < |ys| && PairOf(ys[k]) == (x, None);
      assert ys[k] == DfsObject(x, []);
    }
    if DfsObject(x, []) in ys {
      var k :| 0 <= k < |ys| && ys[k] == DfsObject(x, []);
      assert PairOf(ys[k]) == (x, None);
    }
  }

  /**
   * `dfs_collection_objects`: no two yielded objects share an (object,
   * innermost instancer) pair; each yielded object instances no collection
   * and was reached through instancing objects only; and every object
   * linked to c or to a collection nested in c that instances no
   * collection is among the pairs yielded with no instancer.
   */
  lemma CollectionDfsOnce(s: Scene, c: nat)
    requires Valid(s) && c < |s.collections|
    ensures var r := CollectionDfs(s, c);
      && (forall j, k :: 0 <= j < k < |r| ==> PairOf(r[j]) != PairOf(r[k]))
      && (forall k :: 0 <= k < |r| ==> Reached(s, [], r[k]))
      && Covers(s, c, None, PairSet(r))
  {
    var w := Walk([], {});
    assert WalkOk(w);
    CollectionWalkGrows(s, c, [], w);
    CollectionWalkCovers(s, c, [], w);
  }

  /**
   * `dfs_view_layer_objects`: one visited set for every layer collection,
   * so no two yielded objects share a pair; each was reached through
   * instancing objects only; and every object that instances no collection
   * and is linked to the root or a nested collection is yielded.
   */
  lemma ViewLayerDfsOnce(s: Scene, root: nat)
    requires Valid(s) && root < |s.collections|
    ensures var r := ViewLayerDfs(s, root);
      && (forall j, k :: 0 <= j < k < |r| ==> PairOf(r[j]) != PairOf(r[k]))
      && (forall k :: 0 <= k < |r| ==> Reached(s, [], r[k]))
      && Covers(s, root, None, PairSet(r))
  {
    var w := Walk([], {});
    assert WalkOk(w);
    LayerWalkGrows(s, root, w);
    var mid := LayerChildrenWalk(s, root, 0, w);
    LayerChildrenWalkGrows(s, root, 0, w);
    CollectionWalkCovers(s, root, [], mid);
  }

  /**
   * The selection and visibility of a yielded object are those of its
   * innermost instancing object, which instances a collection, or, with
   * none, of the object itself.
   */
  lemma YieldedSelection(s: Scene, root: nat, d: DfsObject)
    requires Valid(s) && root < |s.collections| && d in ViewLayerDfs(s, root)
    ensures d.obj < |s.objects| && forall j :: 0 <= j < |d.instanceObjects| ==> d.instanceObjects[j] < |s.objects|
    ensures d.instanceObjects == [] ==> IsSelected(s, d) == s.objects[d.obj].selected && IsVisible(s, d) == s.objects[d.obj].visible
    ensures d.instanceObjects != [] ==>
      var last := d.instanceObjects[|d.instanceObjects| - 1];
      && s.objects[last].instanceCollection.Some?
      && IsSelected(s, d) == s.objects[last].selected && IsVisible(s, d) == s.objects[last].visible
  {
    ViewLayerDfsOnce(s, root);
    var k :| 0 <= k < |ViewLayerDfs(s, root)| && ViewLayerDfs(s, root)[k] == d;
    assert Reached(s, [], d);
  }
}

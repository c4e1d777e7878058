// Which bones of an armature are exported (io_scene_psk_psa/shared/helpers.py,
// `get_export_bone_names`): the bones chosen by the filter, closed under
// ancestors by an explicit stack walk, in original bone order, with at most
// one root.
module BoneSelection {
  import opened Wrappers
  import opened Seqs

  /**
   * An armature bone: its name, the position of its parent in the
   * armature's bone list (the parent is found by name, and bone names are
   * unique within an armature) and the positions of its bone collections in
   * `collections_all`.
   */
  datatype Bone = Bone(name: string, parent: Option<nat>, collections: seq<nat>)

  /** A scene object: its name, its type and, for an armature, its bones. */
  datatype SceneObject = SceneObject(name: string, objectType: string, bones: seq<Bone>)

  /** Every parent position names a bone of the list. */
  predicate ValidParents(parents: seq<Option<nat>>)
  {
    forall k :: 0 <= k < |parents| && parents[k].Some? ==> parents[k].value < |parents|
  }

  function Parents(bones: seq<Bone>): (r: seq<Option<nat>>)
    ensures |r| == |bones| && forall k :: 0 <= k < |bones| ==> r[k] == bones[k].parent
  {
    Map(bones, (b: Bone) => b.parent)
  }

  /* ------------------------------------------------ the ancestor closure */

  /** Following the parent link n times from a leads to b. */
  ghost predicate Reaches(parents: seq<Option<nat>>, a: nat, b: nat, n: nat)
    decreases n
  {
    if n == 0 then a == b
    else a < |parents| && parents[a].Some? && Reaches(parents, parents[a].value, b, n - 1)
  }

  /** Some seed reaches j. */
  ghost predicate Reached(parents: seq<Option<nat>>, seeds: seq<nat>, j: nat)
  {
    exists i, n :: 0 <= i < |seeds| && Reaches(parents, seeds[i], j, n)
  }

  /** The seeds and all their ancestors: every bone some seed reaches. */
  ghost function Closure(parents: seq<Option<nat>>, seeds: seq<nat>): set<nat>
  {
    set j: nat | j < |parents| && Reached(parents, seeds, j)
  }

  /** One more parent step extends a path. */
  lemma {:induction false} ReachesStep(parents: seq<Option<nat>>, a: nat, b: nat, n: nat)
    requires Reaches(parents, a, b, n) && b < |parents| && parents[b].Some?
    ensures Reaches(parents, a, parents[b].value, n + 1)
    decreases n
  {
    if n > 0 {
      ReachesStep(parents, parents[a].value, b, n - 1);
    }
  }

  /** A parent-closed set that holds a holds every bone a reaches. */
  lemma {:induction false} ReachesInside(parents: seq<Option<nat>>, s: set<nat>, a: nat, b: nat, n: nat)
    requires a in s && Reaches(parents, a, b, n)
    requires forall k :: k in s && k < |parents| && parents[k].Some? ==> parents[k].value in s
    ensures b in s
    decreases n
  {
    if n > 0 {
      ReachesInside(parents, s, parents[a].value, b, n - 1);
    }
  }

  /** Every seed lies in a set that holds the seeds and the parent of each of its bones. */
  predicate SeedsAndParentsIn(parents: seq<Option<nat>>, seeds: seq<nat>, s: set<nat>)
  {
    (forall i :: 0 <= i < |seeds| ==> seeds[i] in s)
    && (forall k :: k in s && k < |parents| && parents[k].Some? ==> parents[k].value in s)
  }

  /**
   * The closure holds every seed and the parent of each of its bones, and
   * lies inside every set that does both: it is the least such set.
   */
  lemma ClosureIsLeast(parents: seq<Option<nat>>, seeds: seq<nat>, s: set<nat>)
    requires ValidParents(parents) && forall i :: 0 <= i < |seeds| ==> seeds[i] < |parents|
    ensures SeedsAndParentsIn(parents, seeds, Closure(parents, seeds))
    ensures forall k :: k in Closure(parents, seeds) ==> k < |parents|
    ensures SeedsAndParentsIn(parents, seeds, s) ==> Closure(parents, seeds) <= s
  {
    var c := Closure(parents, seeds);
    forall i | 0 <= i < |seeds| ensures seeds[i] in c {
      assert Reaches(parents, seeds[i], seeds[i], 0);
    }
    forall k | k in c && k < |parents| && parents[k].Some? ensures parents[k].value in c {
      var i, n :| 0 <= i < |seeds| && Reaches(parents, seeds[i], k, n);
      ReachesStep(parents, seeds[i], k, n);
    }
    if SeedsAndParentsIn(parents, seeds, s) {
      forall j | j in c ensures j in s {
        var i, n :| 0 <= i < |seeds| && Reaches(parents, seeds[i], j, n);
        ReachesInside(parents, s, seeds[i], j, n);
      }
    }
  }

  /**
   * The stack walk's invariant: every recorded bone's parent is recorded
   * or waits on top of the stack.
   */
  predicate ParentsRecordedOrOnTop(parents: seq<Option<nat>>, recorded: set<nat>, stack: seq<nat>)
  {
    forall k :: k in recorded && k < |parents| && parents[k].Some? ==>
      parents[k].value in recorded || (|stack| > 0 && stack[|stack| - 1] == parents[k].value)
  }

  /**
   * What the stack walk keeps: everything on the stack and everything
   * recorded lies in the closure c, each seed is recorded or still on the
   * stack, and each recorded bone's parent is recorded or on top of the stack.
   */
  predicate WalkInvariant(parents: seq<Option<nat>>, seeds: seq<nat>, c: set<nat>, stack: seq<nat>, recorded: set<nat>)
  {
    && (forall j :: 0 <= j < |stack| ==> stack[j] in c)
    && recorded <= c
    && (forall i :: 0 <= i < |seeds| ==> seeds[i] in recorded || seeds[i] in stack)
    && ParentsRecordedOrOnTop(parents, recorded, stack)
  }

  /** What the walk pushes after popping b: its parent, unless already recorded. */
  function Pushed(parents: seq<Option<nat>>, recorded: set<nat>, b: nat): seq<nat>
    requires b < |parents|
  {
    if parents[b].Some? && parents[b].value !in recorded then [parents[b].value] else []
  }

  /** With the stack empty, the recorded set holds the seeds and the parents of its bones. */
  lemma WalkDone(parents: seq<Option<nat>>, seeds: seq<nat>, c: set<nat>, recorded: set<nat>)
    requires WalkInvariant(parents, seeds, c, [], recorded)
    ensures SeedsAndParentsIn(parents, seeds, recorded)
  {
  }

  /** One pop-push-record step keeps the walk's invariant. */
  lemma WalkStep(parents: seq<Option<nat>>, seeds: seq<nat>, c: set<nat>, stack: seq<nat>, recorded: set<nat>, next: seq<nat>)
    requires SeedsAndParentsIn(parents, seeds, c) && forall k :: k in c ==> k < |parents|
    requires WalkInvariant(parents, seeds, c, stack, recorded) && |stack| > 0
    requires next == stack[..|stack| - 1] + Pushed(parents, recorded, stack[|stack| - 1])
    ensures WalkInvariant(parents, seeds, c, next, recorded + {stack[|stack| - 1]})
    ensures stack[|stack| - 1] in c
    ensures stack[|stack| - 1] in recorded ==> |next| < |stack|
  {
    var top := |stack| - 1;
    var b := stack[top];
    assert b in c;
    var r2 := recorded + {b};
    forall j | 0 <= j < |next| ensures next[j] in c {
      if j < top { assert next[j] == stack[j]; }
    }
    forall i | 0 <= i < |seeds| ensures seeds[i] in r2 || seeds[i] in next {
      if seeds[i] !in r2 {
        var j :| 0 <= j < |stack| && stack[j] == seeds[i];
        assert j < top && next[j] == stack[j];
      }
    }
  }

  /** Recording a new bone of c leaves fewer bones of c unrecorded. */
  lemma ShrinksUnrecorded(c: set<nat>, recorded: set<nat>, b: nat)
    requires b in c
    ensures b !in recorded ==> c - (recorded + {b}) < c - recorded
    ensures b in recorded ==> c - (recorded + {b}) == c - recorded
  {
  }

  /**
   * The `bone_index_stack` walk: pop a bone, push its parent when the
   * parent has not been recorded yet, and record the bone. The walk ends
   * even on a cyclic parent relation, and records exactly the closure.
   */
  method CloseUnderAncestors(parents: seq<Option<nat>>, seeds: seq<nat>) returns (recorded: set<nat>)
    requires ValidParents(parents) && forall i :: 0 <= i < |seeds| ==> seeds[i] < |parents|
    ensures recorded == Closure(parents, seeds)
  {
    ghost var c := Closure(parents, seeds);
    ClosureIsLeast(parents, seeds, {});
    var stack := seeds;
    recorded := {};
    while |stack| > 0
      invariant WalkInvariant(parents, seeds, c, stack, recorded)
      decreases c - recorded, |stack|
    {
      ghost var before := stack;
      var boneIndex := stack[|stack| - 1];
      var pushed: seq<nat> := [];
      if parents[boneIndex].Some? {
        var parentIndex := parents[boneIndex].value;
        if parentIndex !in recorded {
          pushed := [parentIndex];
        }
      }
      assert pushed == Pushed(parents, recorded, boneIndex);
      stack := stack[..|stack| - 1] + pushed;
      WalkStep(parents, seeds, c, before, recorded, stack);
      ShrinksUnrecorded(c, recorded, boneIndex);
      recorded := recorded + {boneIndex};
    }
    WalkDone(parents, seeds, c, recorded);
    ClosureIsLeast(parents, seeds, recorded);
  }

  /**
   * `sorted(indices)` for a set of bone positions below n: the positions in
   * ascending order.
   */
  function SortedIndices(s: set<nat>, n: nat): (r: seq<nat>)
    ensures forall i :: 0 <= i < |r| ==> r[i] < n
    ensures forall i, j :: 0 <= i < j < |r| ==> r[i] < r[j]
    ensures forall k: nat :: k in r <==> k in s && k < n
  {
    if n == 0 then []
    else
      var r := SortedIndices(s, n - 1);
      r + (if n - 1 in s then [n - 1] else [])
  }

  /* ------------------------------------------------ get_export_bone_names */

  /**
   * Whether the filter picks a bone itself: every bone in 'ALL' mode, a bone
   * with no collection when -1 is among the chosen indices, or a bone in a
   * chosen collection.
   */
  predicate ExplicitlySelected(bone: Bone, boneFilterMode: string, collectionIndices: seq<int>)
  {
    boneFilterMode == "ALL"
    || (|bone.collections| == 0 && -1 in collectionIndices)
    || exists j :: 0 <= j < |bone.collections| && bone.collections[j] as int in collectionIndices
  }

  /** The positions of the explicitly selected bones, in bone order. */
  function SelectedPositions(bones: seq<Bone>, boneFilterMode: string, collectionIndices: seq<int>): (r: seq<nat>)
    ensures forall i :: 0 <= i < |r| ==> r[i] < |bones|
    ensures forall k: nat :: k in r <==> k < |bones| && ExplicitlySelected(bones[k], boneFilterMode, collectionIndices)
  {
    if bones == [] then []
    else
      var init := bones[..|bones| - 1];
      var r := SelectedPositions(init, boneFilterMode, collectionIndices);
      assert forall k :: 0 <= k < |init| ==> init[k] == bones[k];
      r + if ExplicitlySelected(bones[|bones| - 1], boneFilterMode, collectionIndices) then [|bones| - 1] else []
  }

  /** The positions `get_export_bone_names` exports, in ascending order. */
  ghost function ExportPositions(bones: seq<Bone>, boneFilterMode: string, collectionIndices: seq<int>): (r: seq<nat>)
    ensures forall i :: 0 <= i < |r| ==> r[i] < |bones|
  {
    SortedIndices(Closure(Parents(bones), SelectedPositions(bones, boneFilterMode, collectionIndices)), |bones|)
  }

  /** The number of parentless bones among the given positions. */
  function RootCount(bones: seq<Bone>, positions: seq<nat>): nat
    requires forall i :: 0 <= i < |positions| ==> positions[i] < |bones|
  {
    if positions == [] then 0
    else RootCount(bones, positions[..|positions| - 1]) + if bones[positions[|positions| - 1]].parent.None? then 1 else 0
  }

  /** The names of the bones at the given positions. */
  function NamesAt(bones: seq<Bone>, positions: seq<nat>): (r: seq<string>)
    requires forall i :: 0 <= i < |positions| ==> positions[i] < |bones|
    ensures |r| == |positions| && forall i :: 0 <= i < |r| ==> r[i] == bones[positions[i]].name
  {
    seq(|positions|, i requires 0 <= i < |positions| => bones[positions[i]].name)
  }

  /**
   * `get_export_bone_names`: ValueError without an armature; otherwise the
   * names of the selected bones and their ancestors in bone order, or
   * RuntimeError when they hold more than one root.
   */
  method GetExportBoneNames(armatureObject: Option<SceneObject>, boneFilterMode: string, collectionIndices: seq<int>)
    returns (r: Result<seq<string>>)
    requires armatureObject.Some? ==> ValidParents(Parents(armatureObject.value.bones))
    ensures armatureObject.None? || armatureObject.value.objectType != "ARMATURE" ==> r.Err? && r.error.ValueError?
    ensures armatureObject.Some? && armatureObject.value.objectType == "ARMATURE" ==>
      var bones := armatureObject.value.bones;
      var positions := ExportPositions(bones, boneFilterMode, collectionIndices);
      && (r.Ok? <==> RootCount(bones, positions) <= 1)
      && (r.Err? ==> r.error.RuntimeError?)
      && (r.Ok? ==> r.value == NamesAt(bones, positions))
  {
    if armatureObject.None? || armatureObject.value.objectType != "ARMATURE" {
      return Err(ValueError("An armature object must be supplied"));
    }
    var bones := armatureObject.value.bones;
    var stack: seq<nat> := [];
    for boneIndex := 0 to |bones|
      invariant stack == SelectedPositions(bones[..boneIndex], boneFilterMode, collectionIndices)
    {
      assert bones[..boneIndex + 1][..boneIndex] == bones[..boneIndex];
      if ExplicitlySelected(bones[boneIndex], boneFilterMode, collectionIndices) {
        stack := stack + [boneIndex];
      }
    }
    assert bones[..|bones|] == bones;
    var recorded := CloseUnderAncestors(Parents(bones), stack);
    var positions := SortedIndices(recorded, |bones|);
    if RootCount(bones, positions) > 1 {
      return Err(RuntimeError("Exported bone hierarchy must have a single root bone."));
    }
    return Ok(NamesAt(bones, positions));
  }

  /**
   * The exported positions are ascending (so free of duplicates), hold
   * every explicitly selected bone and the parent of every exported bone,
   * and nothing that is not a selected bone or one of its ancestors.
   */
  lemma ExportPositionsProperties(bones: seq<Bone>, boneFilterMode: string, collectionIndices: seq<int>)
    requires ValidParents(Parents(bones))
    ensures var positions := ExportPositions(bones, boneFilterMode, collectionIndices);
      && (forall i, j :: 0 <= i < j < |positions| ==> positions[i] < positions[j])
      && (forall k: nat :: k < |bones| && ExplicitlySelected(bones[k], boneFilterMode, collectionIndices) ==> k in positions)
      && (forall k: nat :: k in positions && k < |bones| && bones[k].parent.Some? ==> bones[k].parent.value in positions)
      && (forall k: nat :: k in positions ==> SelectedAncestor(bones, boneFilterMode, collectionIndices, k))
  {
    var parents := Parents(bones);
    var seeds := SelectedPositions(bones, boneFilterMode, collectionIndices);
    var c := Closure(parents, seeds);
    ClosureIsLeast(parents, seeds, {});
    assert SeedsAndParentsIn(parents, seeds, c);
    forall k: nat | k < |bones| && ExplicitlySelected(bones[k], boneFilterMode, collectionIndices)
      ensures k in c
    {
      var i :| 0 <= i < |seeds| && seeds[i] == k;
    }
    forall k: nat | k in c ensures SelectedAncestor(bones, boneFilterMode, collectionIndices, k) {
      var i, n :| 0 <= i < |seeds| && Reaches(parents, seeds[i], k, n);
      assert seeds[i] in seeds;
    }
  }

  /** Some explicitly selected bone has k among its ancestors (or is k). */
  ghost predicate SelectedAncestor(bones: seq<Bone>, boneFilterMode: string, collectionIndices: seq<int>, k: nat)
  {
    exists s: nat, n: nat :: s < |bones| && ExplicitlySelected(bones[s], boneFilterMode, collectionIndices)
      && Reaches(Parents(bones), s, k, n)
  }

  lemma MemberlessIsEmpty(s: seq<nat>)
    ensures (forall k: nat :: k !in s) ==> s == []
  {
    if s != [] {
      assert s[0] in s;
    }
  }

  /** A filter that picks nothing exports nothing, without error. */
  lemma NothingSelected(bones: seq<Bone>, boneFilterMode: string, collectionIndices: seq<int>)
    requires forall k :: 0 <= k < |bones| ==> !ExplicitlySelected(bones[k], boneFilterMode, collectionIndices)
    ensures ExportPositions(bones, boneFilterMode, collectionIndices) == []
  {
    var parents := Parents(bones);
    var seeds := SelectedPositions(bones, boneFilterMode, collectionIndices);
    MemberlessIsEmpty(seeds);
    assert forall j: nat :: !Reached(parents, seeds, j);
    var r := SortedIndices(Closure(parents, seeds), |bones|);
    MemberlessIsEmpty(r);
  }
}

// The bone-group helpers of the older add-on versions,
// io_scene_psk_psa/helpers.py and io_export_psk_psa/helpers.py (their
// `get_export_bone_indices_for_bone_groups` are the same code), and the
// sequence-name choice of io_scene_psk_psa/helpers.py.
module LegacyHelpers {
  import opened Wrappers
  import opened BoneSelection

  /**
   * A bone with its pose bone: its name, the position of its parent (found
   * by name in the bone list, and bone names are unique) and the index of
   * its bone group, None for a bone in no group.
   */
  datatype GroupedBone = GroupedBone(name: string, parent: Option<nat>, boneGroupIndex: Option<nat>)

  /** A scene object with its type and, for an armature, its bones. */
  datatype GroupedObject = GroupedObject(objectType: string, bones: seq<GroupedBone>)

  function GroupParents(bones: seq<GroupedBone>): (r: seq<Option<nat>>)
    ensures |r| == |bones| && forall k :: 0 <= k < |bones| ==> r[k] == bones[k].parent
  {
    seq(|bones|, k requires 0 <= k < |bones| => bones[k].parent)
  }

  /** A bone in no group when -1 is requested, or a bone whose group index is requested. */
  predicate InRequestedGroup(bone: GroupedBone, boneGroupIndices: seq<int>)
  {
    (bone.boneGroupIndex.None? && -1 in boneGroupIndices)
    || (bone.boneGroupIndex.Some? && bone.boneGroupIndex.value as int in boneGroupIndices)
  }

  /** The positions of the bones in a requested group, in bone order. */
  function GroupSeeds(bones: seq<GroupedBone>, boneGroupIndices: seq<int>): (r: seq<nat>)
    ensures forall i :: 0 <= i < |r| ==> r[i] < |bones|
    ensures forall k: nat :: k in r <==> k < |bones| && InRequestedGroup(bones[k], boneGroupIndices)
  {
    if bones == [] then []
    else
      var front := bones[..|bones| - 1];
      assert forall k :: 0 <= k < |front| ==> front[k] == bones[k];
      GroupSeeds(front, boneGroupIndices) + if InRequestedGroup(bones[|bones| - 1], boneGroupIndices) then [|bones| - 1] else []
  }

  /** The positions `get_export_bone_indices_for_bone_groups` returns. */
  ghost function GroupExportIndices(bones: seq<GroupedBone>, boneGroupIndices: seq<int>): seq<nat>
  {
    SortedIndices(Closure(GroupParents(bones), GroupSeeds(bones, boneGroupIndices)), |bones|)
  }

  /**
   * `get_export_bone_indices_for_bone_groups`: ValueError without an
   * armature; otherwise the bones of the requested groups and all their
   * ancestors, found by the stack walk, in ascending order.
   */
  method GetExportBoneIndicesForBoneGroups(armatureObject: Option<GroupedObject>, boneGroupIndices: seq<int>)
    returns (r: Result<seq<nat>>)
    requires armatureObject.Some? ==> ValidParents(GroupParents(armatureObject.value.bones))
    ensures armatureObject.None? || armatureObject.value.objectType != "ARMATURE" ==> r.Err? && r.error.ValueError?
    ensures armatureObject.Some? && armatureObject.value.objectType == "ARMATURE" ==>
      r == Ok(GroupExportIndices(armatureObject.value.bones, boneGroupIndices))
  {
    if armatureObject.None? || armatureObject.value.objectType != "ARMATURE" {
      return Err(ValueError("An armature object must be supplied"));
    }
    var bones := armatureObject.value.bones;
    var stack: seq<nat> := [];
    for boneIndex := 0 to |bones|
      invariant stack == GroupSeeds(bones[..boneIndex], boneGroupIndices)
    {
      assert bones[..boneIndex + 1][..boneIndex] == bones[..boneIndex];
      if InRequestedGroup(bones[boneIndex], boneGroupIndices) {
        stack := stack + [boneIndex];
      }
    }
    assert bones[..|bones|] == bones;
    var recorded := CloseUnderAncestors(GroupParents(bones), stack);
    return Ok(SortedIndices(recorded, |bones|));
  }

  /**
   * The exported indices are ascending (so free of duplicates), hold every
   * bone of a requested group and the parent of every exported bone, and
   * nothing else: each is a requested bone or one of its ancestors.
   */
  lemma GroupExportIndicesProperties(bones: seq<GroupedBone>, boneGroupIndices: seq<int>)
    requires ValidParents(GroupParents(bones))
    ensures var indices := GroupExportIndices(bones, boneGroupIndices);
      && (forall i, j :: 0 <= i < j < |indices| ==> indices[i] < indices[j])
      && (forall k: nat :: k < |bones| && InRequestedGroup(bones[k], boneGroupIndices) ==> k in indices)
      && (forall k: nat :: k in indices && bones[k].parent.Some? ==> bones[k].parent.value in indices)
      && (forall k: nat :: k in indices ==> Reached(GroupParents(bones), GroupSeeds(bones, boneGroupIndices), k))
  {
    var parents := GroupParents(bones);
    var seeds := GroupSeeds(bones, boneGroupIndices);
    ClosureIsLeast(parents, seeds, {});
    var c := Closure(parents, seeds);
    forall k: nat | k < |bones| && InRequestedGroup(bones[k], boneGroupIndices)
      ensures k in c
    {
      var i :| 0 <= i < |seeds| && seeds[i] == k;
    }
  }

  /** An action: its name and its custom properties. */
  datatype Action = Action(name: string, properties: map<string, string>)

  /**
   * `get_psa_sequence_name`: the stored 'original_sequence_name' when asked
   * for and present, the action's name otherwise.
   */
  function GetPsaSequenceName(action: Action, shouldUseOriginalSequenceName: bool): (r: string)
    ensures r == action.name || ("original_sequence_name" in action.properties && r == action.properties["original_sequence_name"])
    ensures !shouldUseOriginalSequenceName ==> r == action.name
  {
    if shouldUseOriginalSequenceName && "original_sequence_name" in action.properties then action.properties["original_sequence_name"]
    else action.name
  }

  /** An entry of the bone-group list: name, group index (-1 for no group), selection. */
  datatype BoneGroupItem = BoneGroupItem(name: string, index: int, isSelected: bool)

  /** The bone-group list an export dialog shows. */
  class BoneGroupList {
    var items: seq<BoneGroupItem>

    constructor()
      ensures items == []
    {
      items := [];
    }

    /**
     * `populate_bone_groups_list`: the list cleared, then '(unassigned)'
     * with index -1, then one entry per bone group with its index, every
     * entry selected.
     */
    method PopulateBoneGroupsList(boneGroupNames: seq<string>)
      modifies this
      ensures |items| == |boneGroupNames| + 1
      ensures items[0] == BoneGroupItem("(unassigned)", -1, true)
      ensures forall p :: 1 <= p < |items| ==> items[p] == BoneGroupItem(boneGroupNames[p - 1], p - 1, true)
    {
      items := [BoneGroupItem("(unassigned)", -1, true)];
      for boneGroupIndex := 0 to |boneGroupNames|
        invariant |items| == boneGroupIndex + 1
        invariant items[0] == BoneGroupItem("(unassigned)", -1, true)
        invariant forall p :: 1 <= p < |items| ==> items[p] == BoneGroupItem(boneGroupNames[p - 1], p - 1, true)
      {
        items := items + [BoneGroupItem(boneGroupNames[boneGroupIndex], boneGroupIndex, true)];
      }
    }
  }
}

// `create_psx_bones` of io_scene_psk_psa/shared/helpers.py: the bone list of
// a PSK/PSA file built from several armature objects. A dummy root stands in
// when there are no bones at all, a synthetic root joins several armatures,
// and each armature's bones follow with their parent indices shifted past
// the bones before them. Armature objects are identified by their position
// in the list.
module PsxBoneList {
  import opened Wrappers
  import opened Bytes
  import Axes
  import opened BoneSelection
  import opened PsxBones

  /** `PsxBoneCreateResult`: the bones tagged with their armature, the root index of each armature, the exported names. */
  datatype PsxBoneCreateResult = PsxBoneCreateResult(
    bones: seq<(PsxBoneIndices, Option<nat>)>,
    armatureObjectRootBoneIndices: map<Option<nat>, nat>,
    armatureObjectBoneNames: map<nat, seq<string>>)

  /** `has_false_root_bone`: the first bone belongs to no armature. */
  predicate HasFalseRootBone(result: PsxBoneCreateResult)
  {
    |result.bones| > 0 && result.bones[0].1.None?
  }

  /** `[x[1] for x in bone_collection_indices if x[0] == name]`. */
  function CollectionIndicesOf(boneCollectionIndices: seq<(string, int)>, name: string): (r: seq<int>)
    ensures |r| <= |boneCollectionIndices|
    ensures forall v :: v in r <==> exists i :: 0 <= i < |boneCollectionIndices| && boneCollectionIndices[i] == (name, v)
  {
    if boneCollectionIndices == [] then []
    else
      var last := boneCollectionIndices[|boneCollectionIndices| - 1];
      var front := CollectionIndicesOf(boneCollectionIndices[..|boneCollectionIndices| - 1], name);
      assert forall i :: 0 <= i < |boneCollectionIndices| - 1 ==> boneCollectionIndices[..|boneCollectionIndices| - 1][i] == boneCollectionIndices[i];
      if last.0 == name then front + [last.1] else front
  }

  /** The number of bones of all the armatures, exported or not. */
  function TotalBoneCount(armatureObjects: seq<SceneObject>): nat
  {
    if armatureObjects == [] then 0
    else TotalBoneCount(armatureObjects[..|armatureObjects| - 1]) + |armatureObjects[|armatureObjects| - 1].bones|
  }

  /** Bone names are unique within an armature, as Blender keeps them. */
  predicate UniqueNames(bones: seq<Bone>)
  {
    forall i, j :: 0 <= i < j < |bones| ==> bones[i].name != bones[j].name
  }

  /** `armature.bones[name]`: the position of the bone with that name. */
  function FindBone(bones: seq<Bone>, name: string): (r: Option<nat>)
    ensures r.Some? ==> r.value < |bones| && bones[r.value].name == name
    ensures r.None? ==> forall k :: 0 <= k < |bones| ==> bones[k].name != name
  {
    if bones == [] then None
    else if bones[|bones| - 1].name == name then Some(|bones| - 1)
    else FindBone(bones[..|bones| - 1], name)
  }

  /** `[armature.bones[name] for name in names]`, with the KeyError of a missing name. */
  function LookUpBones(bones: seq<Bone>, names: seq<string>): (r: Result<seq<nat>>)
    ensures r.Ok? ==> |r.value| == |names| && forall i :: 0 <= i < |names| ==> r.value[i] < |bones| && bones[r.value[i]].name == names[i]
    ensures r.Err? ==> r.error == KeyError
  {
    if names == [] then Ok([])
    else match (LookUpBones(bones, names[..|names| - 1]), FindBone(bones, names[|names| - 1]))
      case (Ok(front), Some(k)) => Ok(front + [k])
      case (Err(e), _) => Err(e)
      case (_, None) => Err(KeyError)
  }

  /** Looking up the names of some bones of an armature with unique names finds those bones. */
  lemma {:induction false} LookUpNamesAt(bones: seq<Bone>, positions: seq<nat>)
    requires UniqueNames(bones) && forall i :: 0 <= i < |positions| ==> positions[i] < |bones|
    ensures LookUpBones(bones, NamesAt(bones, positions)) == Ok(positions)
  {
    if positions != [] {
      var front := positions[..|positions| - 1];
      assert NamesAt(bones, positions)[..|positions| - 1] == NamesAt(bones, front);
      LookUpNamesAt(bones, front);
      var k := FindBone(bones, bones[positions[|positions| - 1]].name);
      assert k == Some(positions[|positions| - 1]);
      assert front + [positions[|positions| - 1]] == positions;
    }
  }

  /** The armature data `create_psx_bones` relies on: parents in range and unique bone names. */
  predicate WellFormedArmatures(armatureObjects: seq<SceneObject>)
  {
    forall t :: 0 <= t < |armatureObjects| ==>
      ValidParents(Parents(armatureObjects[t].bones)) && UniqueNames(armatureObjects[t].bones)
  }

  /** The positions `get_export_bone_names` exports from armature t. */
  ghost function Positions(armatureObjects: seq<SceneObject>, boneFilterMode: string, boneCollectionIndices: seq<(string, int)>, t: nat): (r: seq<nat>)
    requires t < |armatureObjects|
    ensures InArmature(armatureObjects[t].bones, r)
  {
    ExportPositions(armatureObjects[t].bones, boneFilterMode, CollectionIndicesOf(boneCollectionIndices, armatureObjects[t].name))
  }

  /** Armature t is an armature whose selection has at most one root. */
  ghost predicate NamesOk(armatureObjects: seq<SceneObject>, boneFilterMode: string, boneCollectionIndices: seq<(string, int)>, t: nat)
    requires t < |armatureObjects|
  {
    armatureObjects[t].objectType == "ARMATURE"
    && RootCount(armatureObjects[t].bones, Positions(armatureObjects, boneFilterMode, boneCollectionIndices, t)) <= 1
  }

  /** The exported bone names of the first n armatures, by armature. */
  ghost function ExpectedBoneNames(armatureObjects: seq<SceneObject>, boneFilterMode: string, boneCollectionIndices: seq<(string, int)>, n: nat): map<nat, seq<string>>
    requires n <= |armatureObjects|
  {
    map t: nat | t < n :: NamesAt(armatureObjects[t].bones, Positions(armatureObjects, boneFilterMode, boneCollectionIndices, t))
  }

  lemma ExpectedBoneNamesStep(armatureObjects: seq<SceneObject>, boneFilterMode: string, boneCollectionIndices: seq<(string, int)>, n: nat)
    requires n < |armatureObjects|
    ensures ExpectedBoneNames(armatureObjects, boneFilterMode, boneCollectionIndices, n + 1)
      == ExpectedBoneNames(armatureObjects, boneFilterMode, boneCollectionIndices, n)[n :=
           NamesAt(armatureObjects[n].bones, Positions(armatureObjects, boneFilterMode, boneCollectionIndices, n))]
  {
  }

  /**
   * The first loop of `create_psx_bones`: the names `get_export_bone_names`
   * gives for each armature, with its bone collection indices picked out of
   * the (armature name, index) pairs; its ValueError or RuntimeError stops
   * the loop.
   */
  method CollectBoneNames(armatureObjects: seq<SceneObject>, boneFilterMode: string, boneCollectionIndices: seq<(string, int)>)
    returns (r: Result<map<nat, seq<string>>>)
    requires WellFormedArmatures(armatureObjects)
    ensures r.Ok? <==> forall t :: 0 <= t < |armatureObjects| ==> NamesOk(armatureObjects, boneFilterMode, boneCollectionIndices, t)
    ensures r.Ok? ==> r.value == ExpectedBoneNames(armatureObjects, boneFilterMode, boneCollectionIndices, |armatureObjects|)
    ensures r.Err? ==> r.error.ValueError? || r.error.RuntimeError?
  {
    var boneNames: map<nat, seq<string>> := map[];
    for t := 0 to |armatureObjects|
      invariant forall u :: 0 <= u < t ==> NamesOk(armatureObjects, boneFilterMode, boneCollectionIndices, u)
      invariant boneNames == ExpectedBoneNames(armatureObjects, boneFilterMode, boneCollectionIndices, t)
    {
      var armatureObject := armatureObjects[t];
      var collectionIndices := CollectionIndicesOf(boneCollectionIndices, armatureObject.name);
      var names := GetExportBoneNames(Some(armatureObject), boneFilterMode, collectionIndices);
      if names.Err? {
        assert !NamesOk(armatureObjects, boneFilterMode, boneCollectionIndices, t);
        return Err(names.error);
      }
      ExpectedBoneNamesStep(armatureObjects, boneFilterMode, boneCollectionIndices, t);
      boneNames := boneNames[t := names.value];
    }
    return Ok(boneNames);
  }

  /** The bones of armature t, as `create_psx_bones_from_blender_bones` makes them. */
  ghost function Block(armatureObjects: seq<SceneObject>, boneFilterMode: string, boneCollectionIndices: seq<(string, int)>, t: nat): seq<PsxBoneIndices>
    requires t < |armatureObjects|
  {
    var positions := Positions(armatureObjects, boneFilterMode, boneCollectionIndices, t);
    ExpectedPsxBones(Entries(armatureObjects[t].bones, positions))
  }

  /** No bone of armature t raises; a root bone is given when there are several armatures. */
  ghost predicate BlockOk(armatureObjects: seq<SceneObject>, boneFilterMode: string, boneCollectionIndices: seq<(string, int)>, exportSpace: string, t: nat)
    requires t < |armatureObjects|
  {
    var positions := Positions(armatureObjects, boneFilterMode, boneCollectionIndices, t);
    BonesOk(Entries(armatureObjects[t].bones, positions), |positions|, exportSpace, |armatureObjects| > 1)
  }

  /** No bone of the first n armatures raises. */
  ghost predicate BlocksOk(armatureObjects: seq<SceneObject>, boneFilterMode: string, boneCollectionIndices: seq<(string, int)>, exportSpace: string, n: nat)
    requires n <= |armatureObjects|
  {
    forall t :: 0 <= t < n ==> BlockOk(armatureObjects, boneFilterMode, boneCollectionIndices, exportSpace, t)
  }

  /** `bone.parent_index += offset` on a bone. */
  function WithParentOffset(bone: PsxBoneIndices, offset: nat): PsxBoneIndices
  {
    var PsxBoneIndices(name, flags, childrenCount, parentIndex) := bone;
    PsxBoneIndices(name, flags, childrenCount, parentIndex + offset)
  }

  /** A block with the parent index of every bone but the first moved on by offset. */
  function Shifted(block: seq<PsxBoneIndices>, offset: nat): (r: seq<PsxBoneIndices>)
    ensures |r| == |block|
  {
    seq(|block|, i requires 0 <= i < |block| => if i == 0 then block[0] else WithParentOffset(block[i], offset))
  }

  /**
   * `for bone in armature_psx_bones[1:]: bone.parent_index += offset`:
   * only the parent indices move, and the first bone keeps its own.
   */
  method ShiftParentIndices(block: seq<PsxBoneIndices>, offset: nat) returns (shifted: seq<PsxBoneIndices>)
    ensures shifted == Shifted(block, offset)
    ensures |shifted| == |block| && forall i :: 0 <= i < |block| ==>
      shifted[i].name == block[i].name && shifted[i].flags == block[i].flags && shifted[i].childrenCount == block[i].childrenCount
      && shifted[i].parentIndex == block[i].parentIndex + if i == 0 then 0 else offset
  {
    shifted := block;
    var i := 1;
    while i < |shifted|
      invariant |shifted| == |block| && 1 <= i
      invariant forall k :: 0 <= k < |block| ==> shifted[k] == if 0 < k < i then WithParentOffset(block[k], offset) else block[k]
    {
      shifted := shifted[i := WithParentOffset(shifted[i], offset)];
      i := i + 1;
    }
  }

  /** `(psx_bone, armature_object) for psx_bone in block`. */
  function Tagged(block: seq<PsxBoneIndices>, t: nat): (r: seq<(PsxBoneIndices, Option<nat>)>)
    ensures |r| == |block| && forall i :: 0 <= i < |block| ==> r[i] == (block[i], Some(t))
  {
    seq(|block|, i requires 0 <= i < |block| => (block[i], Some(t)))
  }

  /** A root bone at the origin with the given children count and parent index 0. */
  function RootBone(rootBoneName: string, childrenCount: nat): PsxBoneIndices
  {
    PsxBoneIndices(NameBytes(rootBoneName), 0, childrenCount, 0)
  }

  /** The bones before the first armature: the synthetic root when there are several armatures. */
  function StartBones(armatureObjects: seq<SceneObject>, rootBoneName: string): seq<(PsxBoneIndices, Option<nat>)>
  {
    if |armatureObjects| > 1 then [(RootBone(rootBoneName, TotalBoneCount(armatureObjects)), None)] else []
  }

  /** Every armature's block, in order. */
  ghost function Blocks(armatureObjects: seq<SceneObject>, boneFilterMode: string, boneCollectionIndices: seq<(string, int)>): (r: seq<seq<PsxBoneIndices>>)
    ensures |r| == |armatureObjects|
    ensures forall t :: 0 <= t < |armatureObjects| ==> r[t] == Block(armatureObjects, boneFilterMode, boneCollectionIndices, t)
  {
    seq(|armatureObjects|, t requires 0 <= t < |armatureObjects| => Block(armatureObjects, boneFilterMode, boneCollectionIndices, t))
  }

  /**
   * The bone list after appending the blocks to `start` in turn: block t is
   * tagged with t and, when bones come before it, its parent indices move
   * past them.
   */
  function Appended(start: seq<(PsxBoneIndices, Option<nat>)>, blocks: seq<seq<PsxBoneIndices>>): seq<(PsxBoneIndices, Option<nat>)>
    decreases |blocks|
  {
    if |blocks| == 0 then start
    else
      var n := |blocks| - 1;
      var before := Appended(start, blocks[..n]);
      before + Tagged(if |before| > 0 then Shifted(blocks[n], |before|) else blocks[n], n)
  }

  /** The root indices after appending the blocks: block t's root index is the length of the list before it. */
  function AppendedRootIndices(startIndices: map<Option<nat>, nat>, start: seq<(PsxBoneIndices, Option<nat>)>,
                               blocks: seq<seq<PsxBoneIndices>>): map<Option<nat>, nat>
    decreases |blocks|
  {
    if |blocks| == 0 then startIndices
    else
      var n := |blocks| - 1;
      AppendedRootIndices(startIndices, start, blocks[..n])[Some(n) := |Appended(start, blocks[..n])|]
  }

  /** The root indices before the first armature: the synthetic root's when there are several armatures. */
  function StartRootIndices(armatureObjects: seq<SceneObject>): map<Option<nat>, nat>
  {
    if |armatureObjects| > 1 then map[None := 0] else map[]
  }

  /** The bone list after the first n armatures. */
  ghost function ArmatureBones(armatureObjects: seq<SceneObject>, rootBoneName: string, boneFilterMode: string,
                               boneCollectionIndices: seq<(string, int)>, n: nat): seq<(PsxBoneIndices, Option<nat>)>
    requires n <= |armatureObjects|
  {
    Appended(StartBones(armatureObjects, rootBoneName), Blocks(armatureObjects, boneFilterMode, boneCollectionIndices)[..n])
  }

  /** The root indices after the first n armatures: each armature's first position. */
  ghost function ArmatureRootIndices(armatureObjects: seq<SceneObject>, rootBoneName: string, boneFilterMode: string,
                                     boneCollectionIndices: seq<(string, int)>, n: nat): map<Option<nat>, nat>
    requires n <= |armatureObjects|
  {
    AppendedRootIndices(StartRootIndices(armatureObjects), StartBones(armatureObjects, rootBoneName),
                        Blocks(armatureObjects, boneFilterMode, boneCollectionIndices)[..n])
  }

  /** No armature and no bone at all: only the dummy root is written. */
  predicate NeedsDummyRoot(armatureObjects: seq<SceneObject>)
  {
    |armatureObjects| == 0 || TotalBoneCount(armatureObjects) == 0
  }

  /** The bone list `create_psx_bones` returns when nothing raises. */
  ghost function ExpectedBones(armatureObjects: seq<SceneObject>, rootBoneName: string, boneFilterMode: string,
                               boneCollectionIndices: seq<(string, int)>): seq<(PsxBoneIndices, Option<nat>)>
  {
    if NeedsDummyRoot(armatureObjects) then [(RootBone(rootBoneName, 0), None)]
    else ArmatureBones(armatureObjects, rootBoneName, boneFilterMode, boneCollectionIndices, |armatureObjects|)
  }

  /** The root index map `create_psx_bones` returns when nothing raises. */
  ghost function ExpectedRootIndices(armatureObjects: seq<SceneObject>, rootBoneName: string, boneFilterMode: string,
                                     boneCollectionIndices: seq<(string, int)>): map<Option<nat>, nat>
  {
    if NeedsDummyRoot(armatureObjects) then map[None := 0]
    else ArmatureRootIndices(armatureObjects, rootBoneName, boneFilterMode, boneCollectionIndices, |armatureObjects|)
  }

  /** A name compared case-insensitively: ASCII lower-case letters made upper-case. */
  function NameKey(name: seq<Byte>): (r: seq<Byte>)
    ensures |r| == |name|
  {
    seq(|name|, i requires 0 <= i < |name| => if 0x61 <= name[i] <= 0x7A then name[i] - 0x20 else name[i])
  }

  /** No two bones have names that match case-insensitively. */
  predicate KeysDistinct(bones: seq<(PsxBoneIndices, Option<nat>)>)
  {
    forall i, j :: 0 <= i < j < |bones| ==> NameKey(bones[i].0.name) != NameKey(bones[j].0.name)
  }

  /** Among the first n bones some name occurs twice, compared case-insensitively, and its key is rootKey. */
  predicate RootKeyRepeated(bones: seq<(PsxBoneIndices, Option<nat>)>, n: nat, rootKey: seq<Byte>)
    requires n <= |bones|
  {
    exists i, j :: 0 <= i < j < n && NameKey(bones[i].0.name) == NameKey(bones[j].0.name) && NameKey(bones[j].0.name) == rootKey
  }

  const NAMES_NOT_UNIQUE := "Bone names must be unique when compared case-insensitively."
  const MULTIPLE_ARMATURES_NOT_WORLD := "When exporting multiple armatures, the Export Space must be World."

  /**
   * The outcome of the name conflict check of `create_psx_bones`: a repeated
   * name raises only when there are several armatures and it is the name
   * of the generated root bone; for any other repeated name the error
   * message is built and dropped.
   */
  function NameConflict(bones: seq<(PsxBoneIndices, Option<nat>)>, armatureCount: nat, rootBoneName: string): (r: Option<Error>)
    ensures armatureCount <= 1 ==> r.None?
    ensures r.Some? ==> r.value.RuntimeError? && !KeysDistinct(bones)
  {
    if armatureCount > 1 && RootKeyRepeated(bones, |bones|, NameKey(NameBytes(rootBoneName)))
    then Some(RuntimeError(NAMES_NOT_UNIQUE))
    else None
  }

  /** Two bones named "Bone" and "BONE" in one armature pass the check. */
  lemma CaseInsensitiveDuplicateAccepted()
    ensures var bone := PsxBoneIndices([0x42, 0x6F, 0x6E, 0x65], 0, 0, 0);
      var shouted := PsxBoneIndices([0x42, 0x4F, 0x4E, 0x45], 0, 0, 0);
      var bones := [(bone, Some(0)), (shouted, Some(0))];
      NameConflict(bones, 1, "ROOT").None? && !KeysDistinct(bones)
  {
    var bones := [(PsxBoneIndices([0x42, 0x6F, 0x6E, 0x65], 0, 0, 0), Some(0)), (PsxBoneIndices([0x42, 0x4F, 0x4E, 0x45], 0, 0, 0), Some(0))];
    assert NameKey(bones[0].0.name) == [0x42, 0x4F, 0x4E, 0x45] == NameKey(bones[1].0.name);
  }

  /** The case-insensitive keys of the first n bones. */
  function KeysBefore(bones: seq<(PsxBoneIndices, Option<nat>)>, n: nat): set<seq<Byte>>
    requires n <= |bones|
  {
    if n == 0 then {} else KeysBefore(bones, n - 1) + {NameKey(bones[n - 1].0.name)}
  }

  /** A key among the first n keys belongs to one of the first n bones. */
  lemma {:induction false} KeyOwner(bones: seq<(PsxBoneIndices, Option<nat>)>, n: nat, key: seq<Byte>) returns (k: nat)
    requires n <= |bones| && key in KeysBefore(bones, n)
    ensures k < n && NameKey(bones[k].0.name) == key
  {
    if key == NameKey(bones[n - 1].0.name) {
      k := n - 1;
    } else {
      k := KeyOwner(bones, n - 1, key);
    }
  }

  /** The key of each of the first n bones is among the first n keys. */
  lemma {:induction false} KeyOfEarlierBone(bones: seq<(PsxBoneIndices, Option<nat>)>, n: nat, k: nat)
    requires k < n <= |bones|
    ensures NameKey(bones[k].0.name) in KeysBefore(bones, n)
  {
    if k < n - 1 {
      KeyOfEarlierBone(bones, n - 1, k);
    }
  }

  /**
   * The loop over the case-insensitive name counts: a key met a second
   * time raises when there are several armatures and it is the key of the
   * root bone's name. The keys seen so far are kept in a set, as the
   * Counter keeps them.
   */
  method CheckBoneNameConflicts(bones: seq<(PsxBoneIndices, Option<nat>)>, armatureCount: nat, rootBoneName: string) returns (r: Option<Error>)
    ensures r == NameConflict(bones, armatureCount, rootBoneName)
  {
    var rootKey := NameKey(NameBytes(rootBoneName));
    var seen: set<seq<Byte>> := {};
    for i := 0 to |bones|
      invariant seen == KeysBefore(bones, i)
      invariant !(armatureCount > 1 && RootKeyRepeated(bones, i, rootKey))
    {
      var key := NameKey(bones[i].0.name);
      if key in seen && armatureCount > 1 && key == rootKey {
        var k := KeyOwner(bones, i, key);
        assert RootKeyRepeated(bones, |bones|, rootKey) by {
          assert 0 <= k < i < |bones| && NameKey(bones[k].0.name) == NameKey(bones[i].0.name) == rootKey;
        }
        return Some(RuntimeError(NAMES_NOT_UNIQUE));
      }
      RootKeyRepeatedStep(bones, rootKey, i);
      assert KeysBefore(bones, i + 1) == seen + {key};
      seen := seen + {key};
    }
    return None;
  }

  /** One more bone repeats the root's key exactly when it has that key and an earlier bone had it too. */
  lemma RootKeyRepeatedStep(bones: seq<(PsxBoneIndices, Option<nat>)>, rootKey: seq<Byte>, i: nat)
    requires i < |bones|
    ensures RootKeyRepeated(bones, i + 1, rootKey) ==>
      RootKeyRepeated(bones, i, rootKey) || (NameKey(bones[i].0.name) == rootKey && rootKey in KeysBefore(bones, i))
  {
    if RootKeyRepeated(bones, i + 1, rootKey) && !RootKeyRepeated(bones, i, rootKey) {
      var a, b :| 0 <= a < b < i + 1 && NameKey(bones[a].0.name) == NameKey(bones[b].0.name) && NameKey(bones[b].0.name) == rootKey;
      assert b == i;
      KeyOfEarlierBone(bones, i, a);
    }
  }

  /** The bones of armature t, looked up by their exported names, are the exported positions. */
  lemma LookUpExported(armatureObjects: seq<SceneObject>, boneFilterMode: string, boneCollectionIndices: seq<(string, int)>,
                       boneNames: map<nat, seq<string>>, t: nat)
    requires WellFormedArmatures(armatureObjects) && t < |armatureObjects|
    requires boneNames == ExpectedBoneNames(armatureObjects, boneFilterMode, boneCollectionIndices, |armatureObjects|)
    ensures t in boneNames
    ensures LookUpBones(armatureObjects[t].bones, boneNames[t]) == Ok(Positions(armatureObjects, boneFilterMode, boneCollectionIndices, t))
  {
    var positions := Positions(armatureObjects, boneFilterMode, boneCollectionIndices, t);
    assert boneNames[t] == NamesAt(armatureObjects[t].bones, positions);
    LookUpNamesAt(armatureObjects[t].bones, positions);
  }

  /** One more block: appended after the others, its root index recorded. */
  lemma AppendedStep(startIndices: map<Option<nat>, nat>, start: seq<(PsxBoneIndices, Option<nat>)>,
                     blocks: seq<seq<PsxBoneIndices>>, block: seq<PsxBoneIndices>)
    ensures var before := Appended(start, blocks);
      && Appended(start, blocks + [block]) == before + Tagged(if |before| > 0 then Shifted(block, |before|) else block, |blocks|)
      && AppendedRootIndices(startIndices, start, blocks + [block]) == AppendedRootIndices(startIndices, start, blocks)[Some(|blocks|) := |before|]
  {
    assert (blocks + [block])[..|blocks|] == blocks;
  }

  /** One more armature: its block appended, its root index recorded. */
  lemma ArmatureStep(armatureObjects: seq<SceneObject>, rootBoneName: string, boneFilterMode: string,
                     boneCollectionIndices: seq<(string, int)>, n: nat)
    requires n < |armatureObjects|
    ensures var before := ArmatureBones(armatureObjects, rootBoneName, boneFilterMode, boneCollectionIndices, n);
      var block := Block(armatureObjects, boneFilterMode, boneCollectionIndices, n);
      && ArmatureBones(armatureObjects, rootBoneName, boneFilterMode, boneCollectionIndices, n + 1)
         == before + Tagged(if |before| > 0 then Shifted(block, |before|) else block, n)
      && ArmatureRootIndices(armatureObjects, rootBoneName, boneFilterMode, boneCollectionIndices, n + 1)
         == ArmatureRootIndices(armatureObjects, rootBoneName, boneFilterMode, boneCollectionIndices, n)[Some(n) := |before|]
  {
    var blocks := Blocks(armatureObjects, boneFilterMode, boneCollectionIndices);
    assert blocks[..n + 1] == blocks[..n] + [blocks[n]];
    AppendedStep(StartRootIndices(armatureObjects), StartBones(armatureObjects, rootBoneName), blocks[..n], blocks[n]);
  }

  /** One turn of the second loop of `create_psx_bones`: armature t's bones appended. */
  method AppendArmature(armatureObjects: seq<SceneObject>, exportSpace: string, rootBoneName: string, forwardAxis: string, upAxis: string,
                        boneFilterMode: string, boneCollectionIndices: seq<(string, int)>, boneNames: map<nat, seq<string>>, t: nat,
                        bones: seq<(PsxBoneIndices, Option<nat>)>, rootIndices: map<Option<nat>, nat>)
    returns (r: Result<(seq<(PsxBoneIndices, Option<nat>)>, map<Option<nat>, nat>)>)
    requires WellFormedArmatures(armatureObjects) && Axes.CoordinateSystemTransform(forwardAxis, upAxis).Ok? && t < |armatureObjects|
    requires boneNames == ExpectedBoneNames(armatureObjects, boneFilterMode, boneCollectionIndices, |armatureObjects|)
    requires bones == ArmatureBones(armatureObjects, rootBoneName, boneFilterMode, boneCollectionIndices, t)
    requires rootIndices == ArmatureRootIndices(armatureObjects, rootBoneName, boneFilterMode, boneCollectionIndices, t)
    requires BlocksOk(armatureObjects, boneFilterMode, boneCollectionIndices, exportSpace, t)
    ensures r.Ok? <==> BlockOk(armatureObjects, boneFilterMode, boneCollectionIndices, exportSpace, t)
    ensures r.Ok? ==> BlocksOk(armatureObjects, boneFilterMode, boneCollectionIndices, exportSpace, t + 1)
    ensures r.Err? ==> !BlocksOk(armatureObjects, boneFilterMode, boneCollectionIndices, exportSpace, |armatureObjects|)
    ensures r.Ok? ==> r.value == (ArmatureBones(armatureObjects, rootBoneName, boneFilterMode, boneCollectionIndices, t + 1),
                                  ArmatureRootIndices(armatureObjects, rootBoneName, boneFilterMode, boneCollectionIndices, t + 1))
    ensures r.Err? ==> r.error.RuntimeError? || r.error.ValueError? || r.error == AssertionError || r.error == IndexError
  {
    var armatureBones := armatureObjects[t].bones;
    LookUpExported(armatureObjects, boneFilterMode, boneCollectionIndices, boneNames, t);
    var lookedUp := LookUpBones(armatureBones, boneNames[t]);
    var psx := CreatePsxBonesFromBlenderBones(armatureBones, lookedUp.value, exportSpace, forwardAxis, upAxis, |armatureObjects| > 1);
    if psx.Err? {
      return Err(psx.error);
    }
    var block := psx.value;
    if |bones| > 0 {
      block := ShiftParentIndices(block, |bones|);
    }
    ArmatureStep(armatureObjects, rootBoneName, boneFilterMode, boneCollectionIndices, t);
    return Ok((bones + Tagged(block, t), rootIndices[Some(t) := |bones|]));
  }

  /**
   * The second loop of `create_psx_bones`: for each armature in turn, its
   * exported bones go through `create_psx_bones_from_blender_bones`, their
   * parent indices move past the bones already in the list, the armature's
   * root index is the length of that list, and they are appended to it.
   */
  method AppendArmatures(armatureObjects: seq<SceneObject>, exportSpace: string, rootBoneName: string, forwardAxis: string, upAxis: string,
                         boneFilterMode: string, boneCollectionIndices: seq<(string, int)>, boneNames: map<nat, seq<string>>,
                         startBones: seq<(PsxBoneIndices, Option<nat>)>, startRootIndices: map<Option<nat>, nat>)
    returns (r: Result<(seq<(PsxBoneIndices, Option<nat>)>, map<Option<nat>, nat>)>)
    requires WellFormedArmatures(armatureObjects) && Axes.CoordinateSystemTransform(forwardAxis, upAxis).Ok?
    requires boneNames == ExpectedBoneNames(armatureObjects, boneFilterMode, boneCollectionIndices, |armatureObjects|)
    requires startBones == ArmatureBones(armatureObjects, rootBoneName, boneFilterMode, boneCollectionIndices, 0)
    requires startRootIndices == ArmatureRootIndices(armatureObjects, rootBoneName, boneFilterMode, boneCollectionIndices, 0)
    ensures r.Ok? <==> BlocksOk(armatureObjects, boneFilterMode, boneCollectionIndices, exportSpace, |armatureObjects|)
    ensures r.Ok? ==> r.value == (ArmatureBones(armatureObjects, rootBoneName, boneFilterMode, boneCollectionIndices, |armatureObjects|),
                                  ArmatureRootIndices(armatureObjects, rootBoneName, boneFilterMode, boneCollectionIndices, |armatureObjects|))
    ensures r.Err? ==> r.error.RuntimeError? || r.error.ValueError? || r.error == AssertionError || r.error == IndexError
  {
    var bones := startBones;
    var rootIndices := startRootIndices;
    for t := 0 to |armatureObjects|
      invariant bones == ArmatureBones(armatureObjects, rootBoneName, boneFilterMode, boneCollectionIndices, t)
      invariant rootIndices == ArmatureRootIndices(armatureObjects, rootBoneName, boneFilterMode, boneCollectionIndices, t)
      invariant BlocksOk(armatureObjects, boneFilterMode, boneCollectionIndices, exportSpace, t)
    {
      var appended := AppendArmature(armatureObjects, exportSpace, rootBoneName, forwardAxis, upAxis,
                                     boneFilterMode, boneCollectionIndices, boneNames, t, bones, rootIndices);
      if appended.Err? {
        return Err(appended.error);
      }
      bones, rootIndices := appended.value.0, appended.value.1;
    }
    return Ok((bones, rootIndices));
  }

  /** Every condition under which `create_psx_bones` returns instead of raising. */
  ghost predicate Succeeds(armatureObjects: seq<SceneObject>, exportSpace: string, rootBoneName: string, forwardAxis: string, upAxis: string,
                           boneFilterMode: string, boneCollectionIndices: seq<(string, int)>)
  {
    !(exportSpace != "WORLD" && |armatureObjects| > 1)
    && Axes.CoordinateSystemTransform(forwardAxis, upAxis).Ok?
    && (forall t :: 0 <= t < |armatureObjects| ==> NamesOk(armatureObjects, boneFilterMode, boneCollectionIndices, t))
    && (NeedsDummyRoot(armatureObjects) || |armatureObjects| > 1 ==> NameFits(rootBoneName))
    && (!NeedsDummyRoot(armatureObjects) ==> BlocksOk(armatureObjects, boneFilterMode, boneCollectionIndices, exportSpace, |armatureObjects|))
    && NameConflict(ExpectedBones(armatureObjects, rootBoneName, boneFilterMode, boneCollectionIndices), |armatureObjects|, rootBoneName).None?
  }

  /**
   * `create_psx_bones`: RuntimeError for several armatures outside world
   * space, AssertionError for unknown axes, the errors of
   * `get_export_bone_names` for each armature, then the dummy root, or the
   * synthetic root and each armature's bones with their parent indices
   * moved past the bones before them, and the name conflict check.
   */
  method CreatePsxBones(armatureObjects: seq<SceneObject>, exportSpace: string, rootBoneName: string, forwardAxis: string, upAxis: string,
                        boneFilterMode: string, boneCollectionIndices: seq<(string, int)>)
    returns (r: Result<PsxBoneCreateResult>)
    requires WellFormedArmatures(armatureObjects)
    ensures r.Ok? <==> Succeeds(armatureObjects, exportSpace, rootBoneName, forwardAxis, upAxis, boneFilterMode, boneCollectionIndices)
    ensures r.Ok? ==> r.value == PsxBoneCreateResult(
      ExpectedBones(armatureObjects, rootBoneName, boneFilterMode, boneCollectionIndices),
      ExpectedRootIndices(armatureObjects, rootBoneName, boneFilterMode, boneCollectionIndices),
      ExpectedBoneNames(armatureObjects, boneFilterMode, boneCollectionIndices, |armatureObjects|))
    ensures exportSpace != "WORLD" && |armatureObjects| > 1 ==> r.Err? && r.error.RuntimeError?
    ensures r.Err? ==> r.error.RuntimeError? || r.error.ValueError? || r.error == AssertionError || r.error == IndexError
  {
    if exportSpace != "WORLD" && |armatureObjects| > 1 {
      return Err(RuntimeError(MULTIPLE_ARMATURES_NOT_WORLD));
    }
    var transform := Axes.CoordinateSystemTransform(forwardAxis, upAxis);
    if transform.Err? {
      return Err(transform.error);
    }
    var totalBoneCount := TotalBoneCount(armatureObjects);
    var boneNames := CollectBoneNames(armatureObjects, boneFilterMode, boneCollectionIndices);
    if boneNames.Err? {
      return Err(boneNames.error);
    }
    var bones: seq<(PsxBoneIndices, Option<nat>)> := [];
    var rootIndices: map<Option<nat>, nat> := map[];
    if |armatureObjects| == 0 || totalBoneCount == 0 {
      var name := EncodeName(rootBoneName);
      if name.Err? {
        return Err(name.error);
      }
      bones := [(PsxBoneIndices(name.value, 0, 0, 0), None)];
      rootIndices := map[None := 0];
    } else {
      if |armatureObjects| > 1 {
        var name := EncodeName(rootBoneName);
        if name.Err? {
          return Err(name.error);
        }
        bones := [(PsxBoneIndices(name.value, 0, totalBoneCount, 0), None)];
        rootIndices := map[None := 0];
      }
      var appended := AppendArmatures(armatureObjects, exportSpace, rootBoneName, forwardAxis, upAxis,
                                      boneFilterMode, boneCollectionIndices, boneNames.value, bones, rootIndices);
      if appended.Err? {
        return Err(appended.error);
      }
      bones, rootIndices := appended.value.0, appended.value.1;
    }
    var conflict := CheckBoneNameConflicts(bones, |armatureObjects|, rootBoneName);
    if conflict.Some? {
      return Err(conflict.value);
    }
    return Ok(PsxBoneCreateResult(bones, rootIndices, boneNames.value));
  }

  /** Every bone's parent index names an earlier bone; only the first bone is its own parent. */
  predicate ParentsBefore(bones: seq<(PsxBoneIndices, Option<nat>)>)
  {
    forall g :: 0 <= g < |bones| ==> 0 <= bones[g].0.parentIndex && (bones[g].0.parentIndex < g || bones[g].0.parentIndex == g == 0)
  }

  /** The bones of an armature that raises nothing point back, and the first of them has parent index 0. */
  lemma BlockPointsBack(armatureObjects: seq<SceneObject>, boneFilterMode: string, boneCollectionIndices: seq<(string, int)>,
                        exportSpace: string, t: nat)
    requires t < |armatureObjects| && BlockOk(armatureObjects, boneFilterMode, boneCollectionIndices, exportSpace, t)
    ensures var block := Block(armatureObjects, boneFilterMode, boneCollectionIndices, t);
      TreeShaped(block) && (|block| > 0 ==> block[0].parentIndex == 0)
  {
    var positions := Positions(armatureObjects, boneFilterMode, boneCollectionIndices, t);
    ParentIndicesPointBack(armatureObjects[t].bones, positions, exportSpace, |armatureObjects| > 1);
  }

  /**
   * Appending a block keeps every parent index pointing back: its first bone
   * points at bone 0 and the others move with their parents.
   */
  lemma AppendPointsBack(before: seq<(PsxBoneIndices, Option<nat>)>, block: seq<PsxBoneIndices>, t: nat)
    requires ParentsBefore(before) && TreeShaped(block) && (|block| > 0 ==> block[0].parentIndex == 0)
    ensures ParentsBefore(before + Tagged(if |before| > 0 then Shifted(block, |before|) else block, t))
  {
    var moved := if |before| > 0 then Shifted(block, |before|) else block;
    var all := before + Tagged(moved, t);
    forall g | 0 <= g < |all|
      ensures 0 <= all[g].0.parentIndex && (all[g].0.parentIndex < g || all[g].0.parentIndex == g == 0)
    {
      if g >= |before| {
        var h := g - |before|;
        assert all[g].0 == moved[h];
        if |before| > 0 && h > 0 {
          assert moved[h].parentIndex == block[h].parentIndex + |before|;
        }
      }
    }
  }

  /** Blocks whose bones point back, appended to bones that point back, give bones that point back. */
  lemma {:induction false} AppendedPointsBack(start: seq<(PsxBoneIndices, Option<nat>)>, blocks: seq<seq<PsxBoneIndices>>)
    requires ParentsBefore(start)
    requires forall t :: 0 <= t < |blocks| ==> TreeShaped(blocks[t]) && (|blocks[t]| > 0 ==> blocks[t][0].parentIndex == 0)
    ensures ParentsBefore(Appended(start, blocks))
  {
    if |blocks| > 0 {
      var n := |blocks| - 1;
      AppendedPointsBack(start, blocks[..n]);
      AppendPointsBack(Appended(start, blocks[..n]), blocks[n], n);
    }
  }

  /** The first n armatures' bones, appended, point back. */
  lemma ArmaturesPointBack(armatureObjects: seq<SceneObject>, rootBoneName: string, boneFilterMode: string,
                           boneCollectionIndices: seq<(string, int)>, exportSpace: string, n: nat)
    requires n <= |armatureObjects| && BlocksOk(armatureObjects, boneFilterMode, boneCollectionIndices, exportSpace, n)
    ensures ParentsBefore(ArmatureBones(armatureObjects, rootBoneName, boneFilterMode, boneCollectionIndices, n))
  {
    var blocks := Blocks(armatureObjects, boneFilterMode, boneCollectionIndices)[..n];
    forall t | 0 <= t < n
      ensures TreeShaped(blocks[t]) && (|blocks[t]| > 0 ==> blocks[t][0].parentIndex == 0)
    {
      BlockPointsBack(armatureObjects, boneFilterMode, boneCollectionIndices, exportSpace, t);
    }
    AppendedPointsBack(StartBones(armatureObjects, rootBoneName), blocks);
  }

  /**
   * The bone list `create_psx_bones` returns is in parent-first order: each
   * bone's parent index names an earlier bone, and the first bone is the
   * only root.
   */
  lemma CreatedBonesPointBack(armatureObjects: seq<SceneObject>, exportSpace: string, rootBoneName: string, forwardAxis: string, upAxis: string,
                              boneFilterMode: string, boneCollectionIndices: seq<(string, int)>)
    requires Succeeds(armatureObjects, exportSpace, rootBoneName, forwardAxis, upAxis, boneFilterMode, boneCollectionIndices)
    ensures ParentsBefore(ExpectedBones(armatureObjects, rootBoneName, boneFilterMode, boneCollectionIndices))
  {
    if !NeedsDummyRoot(armatureObjects) {
      ArmaturesPointBack(armatureObjects, rootBoneName, boneFilterMode, boneCollectionIndices, exportSpace, |armatureObjects|);
    }
  }

  /** Appending blocks keeps the bones they are appended to in front. */
  lemma {:induction false} AppendedKeepsStart(start: seq<(PsxBoneIndices, Option<nat>)>, blocks: seq<seq<PsxBoneIndices>>)
    ensures |start| <= |Appended(start, blocks)| && Appended(start, blocks)[..|start|] == start
  {
    if |blocks| > 0 {
      var n := |blocks| - 1;
      var before := Appended(start, blocks[..n]);
      AppendedKeepsStart(start, blocks[..n]);
      var moved := Tagged(if |before| > 0 then Shifted(blocks[n], |before|) else blocks[n], n);
      assert (before + moved)[..|start|] == before[..|start|];
    }
  }

  /** With several armatures the synthetic root stays in front. */
  lemma SyntheticRootFirst(armatureObjects: seq<SceneObject>, rootBoneName: string, boneFilterMode: string,
                           boneCollectionIndices: seq<(string, int)>, n: nat)
    requires n <= |armatureObjects| && |armatureObjects| > 1
    ensures var bones := ArmatureBones(armatureObjects, rootBoneName, boneFilterMode, boneCollectionIndices, n);
      |bones| > 0 && bones[0] == (RootBone(rootBoneName, TotalBoneCount(armatureObjects)), None)
  {
    var start := StartBones(armatureObjects, rootBoneName);
    AppendedKeepsStart(start, Blocks(armatureObjects, boneFilterMode, boneCollectionIndices)[..n]);
    var bones := ArmatureBones(armatureObjects, rootBoneName, boneFilterMode, boneCollectionIndices, n);
    assert bones[0] == bones[..|start|][0];
  }

  /**
   * `has_false_root_bone` of the result holds exactly when a dummy root or
   * a synthetic root was made: when there are no bones at all or more than
   * one armature.
   */
  lemma FalseRootIffDummyOrSeveral(armatureObjects: seq<SceneObject>, rootBoneName: string, boneFilterMode: string,
                                   boneCollectionIndices: seq<(string, int)>, rootIndices: map<Option<nat>, nat>, boneNames: map<nat, seq<string>>)
    ensures HasFalseRootBone(PsxBoneCreateResult(ExpectedBones(armatureObjects, rootBoneName, boneFilterMode, boneCollectionIndices), rootIndices, boneNames))
      <==> NeedsDummyRoot(armatureObjects) || |armatureObjects| > 1
  {
    if !NeedsDummyRoot(armatureObjects) {
      if |armatureObjects| > 1 {
        SyntheticRootFirst(armatureObjects, rootBoneName, boneFilterMode, boneCollectionIndices, |armatureObjects|);
      } else {
        ArmatureStep(armatureObjects, rootBoneName, boneFilterMode, boneCollectionIndices, 0);
      }
    }
  }

  /**
   * With several armatures, an exported bone named like the root bone,
   * compared case-insensitively, clashes with the synthetic root and raises.
   */
  lemma RootNameClashRaises(armatureObjects: seq<SceneObject>, rootBoneName: string, boneFilterMode: string,
                            boneCollectionIndices: seq<(string, int)>, g: nat)
    requires |armatureObjects| > 1 && !NeedsDummyRoot(armatureObjects)
    requires var bones := ExpectedBones(armatureObjects, rootBoneName, boneFilterMode, boneCollectionIndices);
      0 < g < |bones| && NameKey(bones[g].0.name) == NameKey(NameBytes(rootBoneName))
    ensures NameConflict(ExpectedBones(armatureObjects, rootBoneName, boneFilterMode, boneCollectionIndices), |armatureObjects|, rootBoneName).Some?
  {
    var bones := ExpectedBones(armatureObjects, rootBoneName, boneFilterMode, boneCollectionIndices);
    SyntheticRootFirst(armatureObjects, rootBoneName, boneFilterMode, boneCollectionIndices, |armatureObjects|);
    assert NameKey(bones[0].0.name) == NameKey(bones[g].0.name);
  }
}

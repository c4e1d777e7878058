// The index bookkeeping of the PSK/PSA bone list (io_scene_psk_psa/shared/
// helpers.py): parent indices and children counts of one armature's exported
// bones, and the combined list of several armatures with a dummy or
// synthetic root and shifted parent indices.
module PsxBones {
  import opened Wrappers
  import opened Bytes
  import Cp1252
  import Axes
  import opened BoneSelection

  /**
   * The index part of a `PsxBone`: its encoded name, flags, children count
   * and parent index. Rotation, location, length and size come from float
   * matrix arithmetic and are not part of this model.
   */
  datatype PsxBoneIndices = PsxBoneIndices(name: seq<Byte>, flags: int, childrenCount: int, parentIndex: int)

  /** `list.index`: the first position holding p, or None (ValueError). */
  function IndexOf(positions: seq<nat>, p: nat): (r: Option<nat>)
    ensures r.Some? ==> r.value < |positions| && positions[r.value] == p
    ensures r.Some? ==> forall k :: 0 <= k < r.value ==> positions[k] != p
    ensures r.None? ==> p !in positions
  {
    if positions == [] then None
    else if positions[0] == p then Some(0)
    else match IndexOf(positions[1..], p)
      case None => None
      case Some(k) => Some(k + 1)
  }

  /** The exported bones are bones of the armature. */
  predicate InArmature(armature: seq<Bone>, positions: seq<nat>)
  {
    forall i :: 0 <= i < |positions| ==> positions[i] < |armature|
  }

  /**
   * `bones.index(bone.parent)` for the i-th exported bone: the position of
   * its parent among the exported bones, None when it has no parent or its
   * parent is not exported.
   */
  function ParentPosition(armature: seq<Bone>, positions: seq<nat>, i: nat): (r: Option<nat>)
    requires InArmature(armature, positions) && i < |positions|
    ensures r.Some? ==> r.value < |positions|
  {
    match armature[positions[i]].parent
    case None => None
    case Some(p) => IndexOf(positions, p)
  }

  /** What the bookkeeping reads of one exported bone: its name, whether it is a root, its parent's position. */
  datatype Entry = Entry(name: string, isRoot: bool, parent: Option<nat>)

  /** The entries of the exported bones, in export order. */
  function Entries(armature: seq<Bone>, positions: seq<nat>): (es: seq<Entry>)
    requires InArmature(armature, positions)
    ensures |es| == |positions|
    ensures forall i :: 0 <= i < |positions| ==>
      es[i] == Entry(armature[positions[i]].name, armature[positions[i]].parent.None?, ParentPosition(armature, positions, i))
  {
    seq(|positions|, i requires 0 <= i < |positions| =>
      Entry(armature[positions[i]].name, armature[positions[i]].parent.None?, ParentPosition(armature, positions, i)))
  }

  /** How many of the first n entries have the j-th one as parent. */
  function ChildCount(es: seq<Entry>, j: nat, n: nat): nat
    requires n <= |es|
  {
    if n == 0 then 0
    else ChildCount(es, j, n - 1) + if es[n - 1].parent == Some(j) then 1 else 0
  }

  /** The first n entries come after their parents. */
  predicate ParentsPrecede(es: seq<Entry>, n: nat)
    requires n <= |es|
  {
    forall i :: 0 <= i < n && es[i].parent.Some? ==> es[i].parent.value < i
  }

  /** A name that encodes in Windows-1252 to at most 64 bytes, as `c_char * 64` takes it. */
  predicate NameFits(name: string)
  {
    Cp1252.ConvertStringToCp1252Bytes(name).Ok? && |Cp1252.ConvertStringToCp1252Bytes(name).value| <= 64
  }

  /** Encoding a name for a `c_char * 64` field: RuntimeError or ValueError when it does not fit. */
  function EncodeName(name: string): (r: Result<seq<Byte>>)
    ensures r.Ok? <==> NameFits(name)
    ensures r.Ok? ==> r.value == Cp1252.ConvertStringToCp1252Bytes(name).value && |r.value| <= 64
    ensures r.Err? ==> r.error.RuntimeError? || r.error.ValueError?
  {
    match Cp1252.ConvertStringToCp1252Bytes(name)
    case Err(e) => Err(e)
    case Ok(bytes) => if |bytes| > 64 then Err(ValueError("bytes too long")) else Ok(bytes)
  }

  /** The export spaces a root bone's location can be taken in. */
  predicate KnownExportSpace(exportSpace: string)
  {
    exportSpace == "WORLD" || exportSpace == "ARMATURE" || exportSpace == "ROOT"
  }

  /**
   * The exception the i-th bone raises once the earlier ones went through:
   * its name does not encode, its parent comes after it (the children
   * count of a bone not yet in the list), or it is a root bone, no root
   * bone was given and the export space is unknown.
   */
  function BoneError(e: Entry, i: nat, exportSpace: string, rootBoneGiven: bool): (r: Option<Error>)
    ensures r.None? ==> NameFits(e.name) && (e.parent.Some? ==> e.parent.value < i)
    ensures r.Some? ==> r.value.RuntimeError? || r.value.ValueError? || r.value == IndexError || r.value == AssertionError
  {
    if !NameFits(e.name) then Some(EncodeName(e.name).error)
    else if e.parent.Some? && e.parent.value >= i then Some(IndexError)
    else if e.isRoot && !rootBoneGiven && !KnownExportSpace(exportSpace) then Some(AssertionError)
    else None
  }

  /** None of the first n bones raises. */
  predicate BonesOk(es: seq<Entry>, n: nat, exportSpace: string, rootBoneGiven: bool)
    requires n <= |es|
  {
    forall k :: 0 <= k < n ==> BoneError(es[k], k, exportSpace, rootBoneGiven).None?
  }

  /** The encoded name, or no bytes for a name that raises. */
  function NameBytes(name: string): seq<Byte>
  {
    match EncodeName(name)
    case Ok(bytes) => bytes
    case Err(_) => []
  }

  /** The parent index written for an entry: its parent's position, else 0. */
  function ParentIndexOf(e: Entry): nat
  {
    match e.parent
    case Some(j) => j
    case None => 0
  }

  /** The k-th bone once the first n are in the list. */
  function BoneAt(es: seq<Entry>, k: nat, n: nat): PsxBoneIndices
    requires k < |es| && n <= |es|
  {
    PsxBoneIndices(NameBytes(es[k].name), 0, ChildCount(es, k, n), ParentIndexOf(es[k]))
  }

  /** The bones the index bookkeeping produces when no exception is raised. */
  function ExpectedPsxBones(es: seq<Entry>): (r: seq<PsxBoneIndices>)
    ensures |r| == |es|
  {
    seq(|es|, k requires 0 <= k < |es| => BoneAt(es, k, |es|))
  }

  /** psx holds the first n bones, none of which raised. */
  predicate Built(es: seq<Entry>, psx: seq<PsxBoneIndices>, n: nat, exportSpace: string, rootBoneGiven: bool)
    requires n <= |es|
  {
    BonesOk(es, n, exportSpace, rootBoneGiven) && |psx| == n
    && forall k :: 0 <= k < n ==> psx[k] == BoneAt(es, k, n)
  }

  /** `children_count += 1` on a bone. */
  function OneMoreChild(bone: PsxBoneIndices): (r: PsxBoneIndices)
  {
    var PsxBoneIndices(name, flags, childrenCount, parentIndex) := bone;
    PsxBoneIndices(name, flags, childrenCount + 1, parentIndex)
  }

  /** Before bone n is placed, no earlier bone can name it (or a later one) as parent. */
  lemma {:induction false} NoChildrenYet(es: seq<Entry>, j: nat, n: nat)
    requires n <= |es| && n <= j
    requires ParentsPrecede(es, n)
    ensures ChildCount(es, j, n) == 0
  {
    if n > 0 {
      NoChildrenYet(es, j, n - 1);
    }
  }

  /** Bones that raise nothing come after their parents. */
  lemma OkBonesPrecede(es: seq<Entry>, n: nat, exportSpace: string, rootBoneGiven: bool)
    requires n <= |es|
    requires BonesOk(es, n, exportSpace, rootBoneGiven)
    ensures ParentsPrecede(es, n)
  {
    forall i | 0 <= i < n && es[i].parent.Some?
      ensures es[i].parent.value < i
    {
      assert BoneError(es[i], i, exportSpace, rootBoneGiven).None?;
    }
  }

  /** After the parent's count goes up, the first n bones are those of n + 1 placed bones. */
  lemma CountParent(es: seq<Entry>, psx: seq<PsxBoneIndices>, n: nat, counted: seq<PsxBoneIndices>)
    requires n < |es|
    requires |psx| == n && forall k :: 0 <= k < n ==> psx[k] == BoneAt(es, k, n)
    requires es[n].parent.Some? ==> es[n].parent.value < n
    requires counted == if es[n].parent.Some? then psx[es[n].parent.value := OneMoreChild(psx[es[n].parent.value])] else psx
    ensures |counted| == n && forall k :: 0 <= k < n ==> counted[k] == BoneAt(es, k, n + 1)
  {
    forall k | 0 <= k < n
      ensures counted[k] == BoneAt(es, k, n + 1)
    {
      assert ChildCount(es, k, n + 1) == ChildCount(es, k, n) + if es[n].parent == Some(k) then 1 else 0;
      if es[n].parent == Some(k) {
        assert counted[k] == OneMoreChild(psx[k]);
      } else {
        assert counted[k] == psx[k];
      }
    }
  }

  /** Placing bone n: its parent's count goes up and it joins with no children. */
  lemma BuildStep(es: seq<Entry>, psx: seq<PsxBoneIndices>, n: nat, exportSpace: string, rootBoneGiven: bool,
                  counted: seq<PsxBoneIndices>, next: seq<PsxBoneIndices>)
    requires n < |es|
    requires Built(es, psx, n, exportSpace, rootBoneGiven)
    requires BoneError(es[n], n, exportSpace, rootBoneGiven).None?
    requires counted == if es[n].parent.Some? then psx[es[n].parent.value := OneMoreChild(psx[es[n].parent.value])] else psx
    requires next == counted + [PsxBoneIndices(NameBytes(es[n].name), 0, 0, ParentIndexOf(es[n]))]
    ensures Built(es, next, n + 1, exportSpace, rootBoneGiven)
  {
    OkBonesPrecede(es, n, exportSpace, rootBoneGiven);
    NoChildrenYet(es, n, n);
    CountParent(es, psx, n, counted);
    assert ChildCount(es, n, n + 1) == 0;
    forall k | 0 <= k < n + 1
      ensures next[k] == BoneAt(es, k, n + 1)
    {
      if k < n {
        assert next[k] == counted[k];
      }
    }
    BonesOkStep(es, n, exportSpace, rootBoneGiven);
  }

  /** One more bone that raises nothing. */
  lemma BonesOkStep(es: seq<Entry>, n: nat, exportSpace: string, rootBoneGiven: bool)
    requires n < |es| && BonesOk(es, n, exportSpace, rootBoneGiven)
    requires BoneError(es[n], n, exportSpace, rootBoneGiven).None?
    ensures BonesOk(es, n + 1, exportSpace, rootBoneGiven)
  {
    forall k | 0 <= k < n + 1
      ensures BoneError(es[k], k, exportSpace, rootBoneGiven).None?
    {
      if k < n {
        assert BonesOk(es, n, exportSpace, rootBoneGiven);
      }
    }
  }

  /**
   * The index part of `create_psx_bones_from_blender_bones`: the axes are
   * checked first; then each bone's name is encoded, its parent index is
   * its parent's position in the list (0 when it has none or the parent is
   * not in the list, the ValueError of `list.index` being caught), and that
   * parent's children count goes up by one. A parent that comes after its
   * child is not in the output list yet, and the increment raises
   * IndexError.
   */
  method CreatePsxBonesFromBlenderBones(armature: seq<Bone>, positions: seq<nat>, exportSpace: string,
                                        forwardAxis: string, upAxis: string, rootBoneGiven: bool)
    returns (r: Result<seq<PsxBoneIndices>>)
    requires InArmature(armature, positions)
    ensures var es := Entries(armature, positions);
      r.Ok? <==> (Axes.CoordinateSystemTransform(forwardAxis, upAxis).Ok? && BonesOk(es, |es|, exportSpace, rootBoneGiven))
    ensures r.Ok? ==> r.value == ExpectedPsxBones(Entries(armature, positions))
    ensures var es := Entries(armature, positions);
      r.Err? ==> ((Axes.CoordinateSystemTransform(forwardAxis, upAxis).Err? && r.error == AssertionError)
        || exists i :: 0 <= i < |es| && BonesOk(es, i, exportSpace, rootBoneGiven)
             && BoneError(es[i], i, exportSpace, rootBoneGiven) == Some(r.error))
  {
    var transform := Axes.CoordinateSystemTransform(forwardAxis, upAxis);
    if transform.Err? {
      return Err(transform.error);
    }
    r := PlaceBones(armature, positions, exportSpace, rootBoneGiven);
  }

  /**
   * The loop of `create_psx_bones_from_blender_bones` over the bones to
   * export: the bones ExpectedPsxBones gives, or the error of the first bone
   * that raises.
   */
  method PlaceBones(armature: seq<Bone>, positions: seq<nat>, exportSpace: string, rootBoneGiven: bool)
    returns (r: Result<seq<PsxBoneIndices>>)
    requires InArmature(armature, positions)
    ensures var es := Entries(armature, positions);
      r.Ok? <==> BonesOk(es, |es|, exportSpace, rootBoneGiven)
    ensures r.Ok? ==> r.value == ExpectedPsxBones(Entries(armature, positions))
    ensures var es := Entries(armature, positions);
      r.Err? ==> exists i :: 0 <= i < |es| && BonesOk(es, i, exportSpace, rootBoneGiven)
                               && BoneError(es[i], i, exportSpace, rootBoneGiven) == Some(r.error)
  {
    ghost var es := Entries(armature, positions);
    var psxBones: seq<PsxBoneIndices> := [];
    for i := 0 to |positions|
      invariant Built(es, psxBones, i, exportSpace, rootBoneGiven)
    {
      var bone := armature[positions[i]];
      var e := Entry(bone.name, bone.parent.None?, ParentPosition(armature, positions, i));
      assert e == es[i];
      var placed := PlaceBone(e, i, psxBones, exportSpace, rootBoneGiven);
      if placed.Err? {
        return Err(placed.error);
      }
      BuildStep(es, psxBones, i, exportSpace, rootBoneGiven, Counted(e, psxBones), placed.value);
      psxBones := placed.value;
    }
    return Ok(psxBones);
  }

  /** The bones placed so far, with the children count of e's parent raised by one. */
  function Counted(e: Entry, psx: seq<PsxBoneIndices>): seq<PsxBoneIndices>
    requires e.parent.Some? ==> e.parent.value < |psx|
  {
    if e.parent.Some? then psx[e.parent.value := OneMoreChild(psx[e.parent.value])] else psx
  }

  /**
   * One pass of the loop, on the i-th bone's entry: encode the name, raise
   * the parent's children count (IndexError when the parent is not placed
   * yet), check the export space of a root, and append the bone.
   */
  method PlaceBone(e: Entry, i: nat, psx: seq<PsxBoneIndices>, exportSpace: string, rootBoneGiven: bool)
    returns (r: Result<seq<PsxBoneIndices>>)
    requires |psx| == i
    ensures BoneError(e, i, exportSpace, rootBoneGiven).Some? ==> r == Err(BoneError(e, i, exportSpace, rootBoneGiven).value)
    ensures BoneError(e, i, exportSpace, rootBoneGiven).None? ==>
      r == Ok(Counted(e, psx) + [PsxBoneIndices(NameBytes(e.name), 0, 0, ParentIndexOf(e))])
  {
    var name := EncodeName(e.name);
    if name.Err? {
      return Err(name.error);
    }
    var counted := psx;
    var parentIndex := 0;
    if e.parent.Some? {
      parentIndex := e.parent.value;
      if parentIndex >= |counted| {
        return Err(IndexError);
      }
      counted := counted[parentIndex := OneMoreChild(counted[parentIndex])];
    }
    if e.isRoot && !rootBoneGiven && !KnownExportSpace(exportSpace) {
      return Err(AssertionError);
    }
    return Ok(counted + [PsxBoneIndices(name.value, 0, 0, parentIndex)]);
  }

  /** The children counts of a list of bones, added up. */
  function TotalChildren(psx: seq<PsxBoneIndices>): int
  {
    if psx == [] then 0 else TotalChildren(psx[..|psx| - 1]) + psx[|psx| - 1].childrenCount
  }

  /** How many of the first n entries have their parent in the list. */
  function ParentedCount(es: seq<Entry>, n: nat): nat
    requires n <= |es|
  {
    if n == 0 then 0 else ParentedCount(es, n - 1) + if es[n - 1].parent.Some? then 1 else 0
  }

  /** The children counts of the first m entries, each over the first n entries. */
  function SumChildCounts(es: seq<Entry>, n: nat, m: nat): nat
    requires n <= |es| && m <= |es|
  {
    if m == 0 then 0 else SumChildCounts(es, n, m - 1) + ChildCount(es, m - 1, n)
  }

  lemma {:induction false} SumChildCountsNone(es: seq<Entry>, m: nat)
    requires m <= |es|
    ensures SumChildCounts(es, 0, m) == 0
  {
    if m > 0 {
      SumChildCountsNone(es, m - 1);
    }
  }

  /** Counting entry n as well adds one when its parent is among the first m entries. */
  lemma {:induction false} SumChildCountsStep(es: seq<Entry>, n: nat, m: nat)
    requires n < |es| && m <= |es|
    ensures SumChildCounts(es, n + 1, m) == SumChildCounts(es, n, m)
      + if es[n].parent.Some? && es[n].parent.value < m then 1 else 0
  {
    if m > 0 {
      SumChildCountsStep(es, n, m - 1);
    }
  }

  lemma {:induction false} SumChildCountsAll(es: seq<Entry>, n: nat)
    requires n <= |es|
    requires forall i :: 0 <= i < |es| && es[i].parent.Some? ==> es[i].parent.value < |es|
    ensures SumChildCounts(es, n, |es|) == ParentedCount(es, n)
  {
    if n == 0 {
      SumChildCountsNone(es, |es|);
    } else {
      SumChildCountsAll(es, n - 1);
      SumChildCountsStep(es, n - 1, |es|);
    }
  }

  lemma {:induction false} TotalOfExpected(es: seq<Entry>, m: nat)
    requires m <= |es|
    ensures TotalChildren(ExpectedPsxBones(es)[..m]) == SumChildCounts(es, |es|, m)
  {
    if m > 0 {
      var r := ExpectedPsxBones(es);
      var t := r[..m];
      assert t[..|t| - 1] == r[..m - 1];
      assert t[|t| - 1].childrenCount == ChildCount(es, m - 1, |es|);
      TotalOfExpected(es, m - 1);
    }
  }

  /**
   * Every bone whose parent is in the list adds exactly one to exactly one
   * children count: the counts add up to the number of such bones.
   */
  lemma ChildrenCountsAddUp(armature: seq<Bone>, positions: seq<nat>)
    requires InArmature(armature, positions)
    ensures var es := Entries(armature, positions);
      TotalChildren(ExpectedPsxBones(es)) == ParentedCount(es, |es|)
  {
    var es := Entries(armature, positions);
    var r := ExpectedPsxBones(es);
    TotalOfExpected(es, |es|);
    assert r[..|es|] == r;
    SumChildCountsAll(es, |es|);
  }

  /**
   * When nothing raises, the list is a tree in export order: a bone with a
   * parent in the list points at an earlier bone, one without points at the
   * first bone, and the first bone has no parent in the list.
   */
  lemma ParentIndicesPointBack(armature: seq<Bone>, positions: seq<nat>, exportSpace: string, rootBoneGiven: bool)
    requires InArmature(armature, positions)
    requires BonesOk(Entries(armature, positions), |positions|, exportSpace, rootBoneGiven)
    ensures var es := Entries(armature, positions);
      var r := ExpectedPsxBones(es);
      (forall k :: 0 <= k < |r| && es[k].parent.Some? ==> r[k].parentIndex < k)
      && (forall k :: 0 <= k < |r| && es[k].parent.None? ==> r[k].parentIndex == 0)
      && (|r| > 0 ==> es[0].parent.None?)
  {
    var es := Entries(armature, positions);
    if |es| > 0 {
      assert BoneError(es[0], 0, exportSpace, rootBoneGiven).None?;
    }
  }

  /** Each bone points back at an earlier one, except the first, which points at itself. */
  predicate TreeShaped(psx: seq<PsxBoneIndices>)
  {
    forall g :: 0 <= g < |psx| ==> 0 <= psx[g].parentIndex && (psx[g].parentIndex < g || psx[g].parentIndex == g == 0)
  }

  lemma {:induction false} RootCountAtLeastOne(bones: seq<Bone>, positions: seq<nat>, i: nat)
    requires forall k :: 0 <= k < |positions| ==> positions[k] < |bones|
    requires i < |positions| && bones[positions[i]].parent.None?
    ensures RootCount(bones, positions) >= 1
    decreases |positions|
  {
    var front := positions[..|positions| - 1];
    if i < |front| {
      assert front[i] == positions[i];
      RootCountAtLeastOne(bones, front, i);
    }
  }

  /** Two parentless bones make two roots. */
  lemma {:induction false} RootCountAtLeastTwo(bones: seq<Bone>, positions: seq<nat>, i: nat, j: nat)
    requires forall k :: 0 <= k < |positions| ==> positions[k] < |bones|
    requires i < j < |positions| && bones[positions[i]].parent.None? && bones[positions[j]].parent.None?
    ensures RootCount(bones, positions) >= 2
    decreases |positions|
  {
    var front := positions[..|positions| - 1];
    assert front[i] == positions[i];
    if j == |front| {
      RootCountAtLeastOne(bones, front, i);
    } else {
      assert front[j] == positions[j];
      RootCountAtLeastTwo(bones, front, i, j);
    }
  }

  /**
   * Among the bones `get_export_bone_names` selects, only the first can
   * lack a parent in the list: the selection holds every exported bone's
   * parent, and a second root would have been refused.
   */
  lemma OnlyFirstParentless(bones: seq<Bone>, boneFilterMode: string, collectionIndices: seq<int>, g: nat)
    requires ValidParents(Parents(bones))
    requires var positions := ExportPositions(bones, boneFilterMode, collectionIndices);
      RootCount(bones, positions) <= 1 && g < |positions| && Entries(bones, positions)[0].parent.None?
    ensures var positions := ExportPositions(bones, boneFilterMode, collectionIndices);
      g > 0 ==> Entries(bones, positions)[g].parent.Some?
  {
    var positions := ExportPositions(bones, boneFilterMode, collectionIndices);
    var es := Entries(bones, positions);
    ExportPositionsProperties(bones, boneFilterMode, collectionIndices);
    if g > 0 && es[g].parent.None? {
      assert positions[0] in positions && positions[g] in positions;
      RootCountAtLeastTwo(bones, positions, 0, g);
    }
  }

  /**
   * The bones of one armature that `get_export_bone_names` selects, once
   * they go through without an exception, form a tree in export order, and
   * every bone after the first points at its own parent in the armature.
   */
  lemma ExportedBonesFormTree(bones: seq<Bone>, boneFilterMode: string, collectionIndices: seq<int>, exportSpace: string, rootBoneGiven: bool)
    requires ValidParents(Parents(bones))
    requires var positions := ExportPositions(bones, boneFilterMode, collectionIndices);
      RootCount(bones, positions) <= 1 && BonesOk(Entries(bones, positions), |positions|, exportSpace, rootBoneGiven)
    ensures TreeShaped(ExpectedPsxBones(Entries(bones, ExportPositions(bones, boneFilterMode, collectionIndices))))
    ensures var positions := ExportPositions(bones, boneFilterMode, collectionIndices);
      var r := ExpectedPsxBones(Entries(bones, positions));
      forall g :: 0 < g < |r| ==> bones[positions[g]].parent == Some(positions[r[g].parentIndex])
  {
    var positions := ExportPositions(bones, boneFilterMode, collectionIndices);
    var es := Entries(bones, positions);
    var r := ExpectedPsxBones(es);
    if |r| > 0 {
      assert BoneError(es[0], 0, exportSpace, rootBoneGiven).None?;
    }
    forall g | 0 <= g < |r|
      ensures 0 <= r[g].parentIndex && (r[g].parentIndex < g || r[g].parentIndex == g == 0)
      ensures g > 0 ==> bones[positions[g]].parent == Some(positions[r[g].parentIndex])
    {
      assert BoneError(es[g], g, exportSpace, rootBoneGiven).None?;
      OnlyFirstParentless(bones, boneFilterMode, collectionIndices, g);
      if g > 0 {
        assert r[g].parentIndex == es[g].parent.value;
        assert es[g].parent == IndexOf(positions, bones[positions[g]].parent.value);
      }
    }
  }

  /**
   * When the armature lists every parent before its children, so do the
   * exported bones: the IndexError of a parent that follows its child
   * cannot arise.
   */
  lemma ParentsFirstExportsParentsFirst(bones: seq<Bone>, boneFilterMode: string, collectionIndices: seq<int>)
    requires ValidParents(Parents(bones))
    requires forall k :: 0 <= k < |bones| && bones[k].parent.Some? ==> bones[k].parent.value < k
    ensures var positions := ExportPositions(bones, boneFilterMode, collectionIndices);
      ParentsPrecede(Entries(bones, positions), |positions|)
  {
    var positions := ExportPositions(bones, boneFilterMode, collectionIndices);
    var es := Entries(bones, positions);
    ExportPositionsProperties(bones, boneFilterMode, collectionIndices);
    forall i | 0 <= i < |positions| && es[i].parent.Some?
      ensures es[i].parent.value < i
    {
      assert positions[i] in positions;
      ParentPositionBefore(bones, positions, i);
    }
  }

  /** In increasing positions, a parent at a lower armature index is at a lower position. */
  lemma ParentPositionBefore(bones: seq<Bone>, positions: seq<nat>, i: nat)
    requires InArmature(bones, positions) && i < |positions|
    requires forall a, b :: 0 <= a < b < |positions| ==> positions[a] < positions[b]
    requires bones[positions[i]].parent.Some? ==>
      bones[positions[i]].parent.value in positions && bones[positions[i]].parent.value < positions[i]
    ensures ParentPosition(bones, positions, i).Some? ==> ParentPosition(bones, positions, i).value < i
  {
    var r := ParentPosition(bones, positions, i);
    if r.Some? {
      var j := r.value;
      assert positions[j] < positions[i];
    }
  }
}
